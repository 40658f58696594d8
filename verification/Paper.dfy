// The simulated broker: immediate fills with slippage, brackets kept on the
// position, profit booked on the account when a position closes.

module Paper {
  import opened RealMath
  import opened Wrappers
  import opened Signals

  datatype PositionSide = LONG | SHORT

  datatype Position = Position(symbol: string, side: PositionSide, qty: int, entryPrice: real, stopLoss: real, target: real)

  datatype OrderStatus = FILLED | REJECTED

  datatype OrderResult = OrderResult(symbol: string, status: OrderStatus, qty: int, fillPrice: real)

  /** The whole state of the broker; positions in the order they were opened. */
  datatype Book = Book(positions: seq<Position>, equity: real, realizedPnl: real, orders: seq<OrderResult>)

  function SlippedPrice(slippageBps: real, price: real, side: SignalSide): real {
    var bps := slippageBps / 10000.0;
    if side == Buy then price * (1.0 + bps) else price * (1.0 - bps)
  }

  function PositionPnl(p: Position, price: real): real {
    if p.side == LONG then (price - p.entryPrice) * (p.qty as real) else (p.entryPrice - price) * (p.qty as real)
  }

  predicate Holds(positions: seq<Position>, symbol: string) {
    exists i :: 0 <= i < |positions| && positions[i].symbol == symbol
  }

  /** At most one position per symbol. */
  predicate OnePerSymbol(positions: seq<Position>) {
    forall i, j :: 0 <= i < j < |positions| ==> positions[i].symbol != positions[j].symbol
  }

  function Opened(s: Signal, qty: int, slippageBps: real): Position {
    Position(s.symbol, if s.side == Buy then LONG else SHORT, qty, SlippedPrice(slippageBps, s.entry, s.side), s.stopLoss, s.target)
  }

  function Fill(s: Signal, qty: int, slippageBps: real): OrderResult {
    OrderResult(s.symbol, FILLED, qty, SlippedPrice(slippageBps, s.entry, s.side))
  }

  predicate Fills(b: Book, s: Signal, qty: int) { qty >= 1 && !Holds(b.positions, s.symbol) }

  function Placed(b: Book, s: Signal, qty: int, slippageBps: real): Book {
    if Fills(b, s, qty) then
      b.(positions := b.positions + [Opened(s, qty, slippageBps)], orders := b.orders + [Fill(s, qty, slippageBps)])
    else b
  }

  function Without(positions: seq<Position>, i: nat): seq<Position>
    requires i < |positions|
  {
    positions[..i] + positions[i + 1..]
  }

  /** Closing the position at place `i`: it goes, its profit is booked. */
  function ClosedAt(b: Book, i: nat, exitPrice: real): Book
    requires i < |b.positions|
  {
    var pnl := PositionPnl(b.positions[i], exitPrice);
    b.(positions := Without(b.positions, i), equity := b.equity + pnl, realizedPnl := b.realizedPnl + pnl)
  }

  /** The profit of a position is its quantity times what the price moved its way. */
  lemma PnlIsPriceMove(p: Position, a: real, b: real)
    ensures PositionPnl(p, a) - PositionPnl(p, b) == (if p.side == LONG then a - b else b - a) * (p.qty as real)
    ensures PositionPnl(p, p.entryPrice) == 0.0
  {
    var q := p.qty as real;
    assert (a - p.entryPrice) * q - (b - p.entryPrice) * q == (a - b) * q;
    assert (p.entryPrice - a) * q - (p.entryPrice - b) * q == (b - a) * q;
  }

  /** The level a bar takes the position out at; the stop goes before the target. */
  function BarExit(p: Position, high: real, low: real): Option<real> {
    if p.side == LONG then
      if low <= p.stopLoss then Some(p.stopLoss) else if high >= p.target then Some(p.target) else None
    else
      if high >= p.stopLoss then Some(p.stopLoss) else if low <= p.target then Some(p.target) else None
  }

  // ----- what a fill and an exit mean for the account

  predicate StopReached(p: Position, high: real, low: real) {
    if p.side == LONG then low <= p.stopLoss else p.stopLoss <= high
  }

  predicate TargetReached(p: Position, high: real, low: real) {
    if p.side == LONG then p.target <= high else low <= p.target
  }

  /** A bar takes a position out exactly when it reaches one of its levels, and
      then at the level that earns least of those it reaches. */
  lemma ExitsAtTheWorstLevel(s: Signal, qty: int, slippageBps: real, high: real, low: real)
    requires qty >= 1
    ensures var p := Opened(s, qty, slippageBps);
            var exit := BarExit(p, high, low);
            && (exit == None <==> !StopReached(p, high, low) && !TargetReached(p, high, low))
            && (exit.Some? ==>
                  && ((exit.value == p.stopLoss && StopReached(p, high, low))
                      || (exit.value == p.target && TargetReached(p, high, low)))
                  && (StopReached(p, high, low) ==> PositionPnl(p, exit.value) <= PositionPnl(p, p.stopLoss))
                  && (TargetReached(p, high, low) ==> PositionPnl(p, exit.value) <= PositionPnl(p, p.target)))
  {
    var p := Opened(s, qty, slippageBps);
    LevelsInOrder(p, s.entry);
    hide SlippedPrice, PositionPnl;
  }

  lemma LevelsInOrder(p: Position, entry: real)
    requires p.qty >= 0
    requires if p.side == LONG then p.stopLoss < entry < p.target else p.target < entry < p.stopLoss
    ensures PositionPnl(p, p.stopLoss) <= PositionPnl(p, p.target)
  {
    var q := p.qty as real;
    if p.side == LONG {
      MulOrder(p.stopLoss - p.entryPrice, p.target - p.entryPrice, q);
    } else {
      MulOrder(p.entryPrice - p.stopLoss, p.entryPrice - p.target, q);
    }
  }

  /** The slippage of a fill is a cost: marked at the quoted entry, the position
      has lost exactly that share of its notional, whichever side it is on. */
  lemma FillCostsSlippage(s: Signal, qty: int, slippageBps: real)
    ensures PositionPnl(Opened(s, qty, slippageBps), s.entry) == -(s.entry * (slippageBps / 10000.0)) * (qty as real)
  {
    var bps := slippageBps / 10000.0;
    assert s.entry * (1.0 + bps) == s.entry + s.entry * bps;
    assert s.entry * (1.0 - bps) == s.entry - s.entry * bps;
  }

  /** So an exit at the stop always loses money, and an exit at the target makes
      some exactly when the target lies further away than the slippage. */
  lemma {:induction false} StopLosesTargetEarnsExactlyWhen(s: Signal, qty: int, slippageBps: real)
    requires qty >= 1 && slippageBps >= 0.0
    ensures PositionPnl(Opened(s, qty, slippageBps), s.stopLoss) < 0.0
    ensures PositionPnl(Opened(s, qty, slippageBps), s.target) > 0.0 <==> Abs(s.target - s.entry) > s.entry * (slippageBps / 10000.0)
  {
    var p, bps, q := Opened(s, qty, slippageBps), slippageBps / 10000.0, qty as real;
    assert s.entry * (1.0 + bps) == s.entry + s.entry * bps;
    assert s.entry * (1.0 - bps) == s.entry - s.entry * bps;
    assert bps >= 0.0;
    MulOrder(0.0, bps, s.entry);
    var sign := if s.side == Buy then 1.0 else -1.0;
    SignOfProduct(sign * (s.stopLoss - p.entryPrice), q);
    SignOfProduct(sign * (s.target - p.entryPrice), q);
  }

  lemma SignOfProduct(a: real, q: real)
    requires q > 0.0
    ensures (a * q > 0.0 <==> a > 0.0) && (a * q < 0.0 <==> a < 0.0)
  {
  }

  type Prices = map<string, real>

  function Unrealized(positions: seq<Position>, last: Prices): real {
    if positions == [] then 0.0
    else
      var p := positions[|positions| - 1];
      Unrealized(positions[..|positions| - 1], last) + if p.symbol in last then PositionPnl(p, last[p.symbol]) else 0.0
  }

  class PaperBroker {
    const slippageBps: real
    var positions: seq<Position>
    var equity: real
    var realizedPnl: real
    var orders: seq<OrderResult>

    function Snapshot(): Book
      reads this
    {
      Book(positions, equity, realizedPnl, orders)
    }

    constructor (slippageBps: real, accountEquity: real)
      ensures this.slippageBps == slippageBps && Snapshot() == Book([], accountEquity, 0.0, [])
    {
      this.slippageBps := slippageBps;
      positions, equity, realizedPnl, orders := [], accountEquity, 0.0, [];
    }

    method Find(symbol: string) returns (found: Option<nat>)
      ensures found.None? <==> !Holds(positions, symbol)
      ensures found.Some? ==> found.value < |positions| && positions[found.value].symbol == symbol
    {
      for i := 0 to |positions|
        invariant forall k :: 0 <= k < i ==> positions[k].symbol != symbol
      {
        if positions[i].symbol == symbol {
          return Some(i);
        }
      }
      return None;
    }

    method PlaceBracketOrder(s: Signal, qty: int) returns (result: OrderResult)
      modifies this
      ensures Snapshot() == Placed(old(Snapshot()), s, qty, slippageBps)
      ensures result.status == FILLED <==> old(Fills(Snapshot(), s, qty))
    {
      if qty < 1 {
        return OrderResult(s.symbol, REJECTED, 0, 0.0);
      }
      var existing := Find(s.symbol);
      if existing.Some? {
        return OrderResult(s.symbol, REJECTED, qty, 0.0);
      }
      var fill := SlippedPrice(slippageBps, s.entry, s.side);
      var side := if s.side == Buy then LONG else SHORT;
      positions := positions + [Position(s.symbol, side, qty, fill, s.stopLoss, s.target)];
      result := OrderResult(s.symbol, FILLED, qty, fill);
      orders := orders + [result];
    }

    method ClosePosition(symbol: string, exitPrice: real) returns (pnl: real)
      modifies this
      ensures !old(Holds(positions, symbol)) ==> pnl == 0.0 && Snapshot() == old(Snapshot())
      ensures old(Holds(positions, symbol)) ==>
                exists i :: 0 <= i < |old(positions)| && old(positions)[i].symbol == symbol
                            && pnl == PositionPnl(old(positions)[i], exitPrice)
                            && Snapshot() == ClosedAt(old(Snapshot()), i, exitPrice)
    {
      var existing := Find(symbol);
      if existing.None? {
        return 0.0;
      }
      var i := existing.value;
      pnl := PositionPnl(positions[i], exitPrice);
      positions := positions[..i] + positions[i + 1..];
      realizedPnl := realizedPnl + pnl;
      equity := equity + pnl;
    }

    method CheckBarExits(symbol: string, high: real, low: real) returns (exitPrice: Option<real>)
      ensures !Holds(positions, symbol) ==> exitPrice == None
      ensures OnePerSymbol(positions) ==>
                forall i :: 0 <= i < |positions| && positions[i].symbol == symbol ==> exitPrice == BarExit(positions[i], high, low)
    {
      var existing := Find(symbol);
      if existing.None? {
        return None;
      }
      return BarExit(positions[existing.value], high, low);
    }

    method MarkToMarket(last: Prices) returns (total: real)
      ensures total == Unrealized(positions, last)
    {
      total := 0.0;
      for n := 0 to |positions|
        invariant total == Unrealized(positions[..n], last)
      {
        var p := positions[n];
        assert positions[..n + 1][..n] == positions[..n];
        if p.symbol in last {
          total := total + PositionPnl(p, last[p.symbol]);
        }
      }
      assert positions[..|positions|] == positions;
    }
  }
}
