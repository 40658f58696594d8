// The trading signal shared by the backtester, the risk manager and the brokers.

module Signals {
  import opened Wrappers

  datatype SignalSide = Buy | Sell

  datatype RawSignal = RawSignal(
    symbol: string, side: SignalSide, entry: real, stopLoss: real, target: real,
    qty: Option<int>, strategyId: string, ts: int)
  {
    /** The signal model's own validators: positive, direction-consistent prices. */
    predicate Valid() {
      && entry > 0.0 && stopLoss > 0.0 && target > 0.0
      && (if side == Buy then stopLoss < entry < target else target < entry < stopLoss)
    }
  }

  type Signal = s: RawSignal | s.Valid()
    witness RawSignal("SYNTH", Buy, 2.0, 1.0, 3.0, None, "", 0)
}
