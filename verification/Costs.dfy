// Transaction costs: commission and slippage as percentages of notional.

module Costs {
  import opened RealMath

  datatype Side = Long | Short

  datatype CostModel = CostModel(commissionPct: real, slippagePct: real) {
    predicate Valid() {
      && 0.0 <= commissionPct <= 10.0
      && 0.0 <= slippagePct <= 10.0
    }
  }

  function EntryFillPrice(c: CostModel, side: Side, price: real): real {
    if c.slippagePct == 0.0 then price
    else
      var factor := c.slippagePct / 100.0;
      if side == Long then price * (1.0 + factor) else price * (1.0 - factor)
  }

  function ExitFillPrice(c: CostModel, side: Side, price: real): real {
    if c.slippagePct == 0.0 then price
    else
      var factor := c.slippagePct / 100.0;
      if side == Long then price * (1.0 - factor) else price * (1.0 + factor)
  }

  function Commission(c: CostModel, entryPrice: real, exitPrice: real, qty: int): real {
    if c.commissionPct == 0.0 then 0.0
    else
      var rate := c.commissionPct / 100.0;
      rate * (Abs(entryPrice) + Abs(exitPrice)) * (qty as real)
  }

  /** Profit between two fills, before commission. */
  function Gross(side: Side, entryFill: real, exitFill: real, qty: int): real {
    if side == Long then (exitFill - entryFill) * (qty as real)
    else (entryFill - exitFill) * (qty as real)
  }

  /** Net profit of a round trip quoted at `entry` and `exit`, both legs charged. */
  function RoundTripPnl(c: CostModel, side: Side, entry: real, exit: real, qty: int): real {
    var entryFill := EntryFillPrice(c, side, entry);
    var exitFill := ExitFillPrice(c, side, exit);
    Gross(side, entryFill, exitFill, qty) - Commission(c, entryFill, exitFill, qty)
  }

  predicate AtMost(c1: CostModel, c2: CostModel) {
    && c1.commissionPct <= c2.commissionPct
    && c1.slippagePct <= c2.slippagePct
  }

  /** The fill of a sold leg, and of a bought leg: slippage always hurts. */
  function SoldFill(c: CostModel, price: real): real { price * (1.0 - c.slippagePct / 100.0) }

  function BoughtFill(c: CostModel, price: real): real { price * (1.0 + c.slippagePct / 100.0) }

  /** What one unit brings in, or costs, once commission is charged on the fill. */
  function Receives(c: CostModel, fill: real): real { fill * (1.0 - c.commissionPct / 100.0) }

  function Pays(c: CostModel, fill: real): real { fill * (1.0 + c.commissionPct / 100.0) }

  lemma FillsByLeg(c: CostModel, price: real)
    ensures EntryFillPrice(c, Long, price) == ExitFillPrice(c, Short, price) == BoughtFill(c, price)
    ensures EntryFillPrice(c, Short, price) == ExitFillPrice(c, Long, price) == SoldFill(c, price)
  {
  }

  lemma FillsPositive(c: CostModel, price: real)
    requires c.Valid() && price > 0.0
    ensures BoughtFill(c, price) > 0.0 && SoldFill(c, price) > 0.0
  {
    var sold, bought := 1.0 - c.slippagePct / 100.0, 1.0 + c.slippagePct / 100.0;
    assert SoldFill(c, price) == price * sold && BoughtFill(c, price) == price * bought;
    assert sold > 0.0 && bought > 0.0;
    hide *;
    Positive(price, sold);
    Positive(price, bought);
  }

  lemma FoldCommission(s: real, b: real, r: real, q: real)
    ensures (s - b) * q - r * (s + b) * q == (s * (1.0 - r) - b * (1.0 + r)) * q
  {
    assert r * (s + b) == r * s + r * b;
    assert s * (1.0 - r) == s - r * s;
    assert b * (1.0 + r) == b + r * b;
    assert (s - b) * q - (r * s + r * b) * q == ((s - b) - (r * s + r * b)) * q;
  }

  /** Commission on both legs is the same as charging each leg on its own. */
  lemma NetOfBothLegs(c: CostModel, side: Side, entryFill: real, exitFill: real, qty: int)
    requires c.Valid() && entryFill > 0.0 && exitFill > 0.0
    ensures Gross(side, entryFill, exitFill, qty) - Commission(c, entryFill, exitFill, qty) ==
            (if side == Long then Receives(c, exitFill) - Pays(c, entryFill)
             else Receives(c, entryFill) - Pays(c, exitFill)) * (qty as real)
  {
    var r := c.commissionPct / 100.0;
    if side == Long {
      FoldCommission(exitFill, entryFill, r, qty as real);
    } else {
      FoldCommission(entryFill, exitFill, r, qty as real);
    }
  }

  lemma Positive(a: real, b: real)
    requires a > 0.0 && b > 0.0
    ensures a * b > 0.0
  {
  }

  lemma Grows(price: real, a1: real, a2: real, b1: real, b2: real)
    requires 0.0 <= price && 0.0 <= a1 <= a2 && 0.0 <= b1 <= b2
    ensures price * a1 * b1 <= price * a2 * b2
  {
    MulOrder(a1, a2, price);
    MulOrder(price * a1, price * a2, b1);
    MulOrder(b1, b2, price * a2);
  }

  lemma SaleWorsens(c1: CostModel, c2: CostModel, price: real)
    requires c1.Valid() && c2.Valid() && AtMost(c1, c2) && price > 0.0
    ensures Receives(c2, SoldFill(c2, price)) <= Receives(c1, SoldFill(c1, price))
  {
    Grows(price, 1.0 - c2.slippagePct / 100.0, 1.0 - c1.slippagePct / 100.0,
          1.0 - c2.commissionPct / 100.0, 1.0 - c1.commissionPct / 100.0);
  }

  lemma PurchaseWorsens(c1: CostModel, c2: CostModel, price: real)
    requires c1.Valid() && c2.Valid() && AtMost(c1, c2) && price > 0.0
    ensures Pays(c1, BoughtFill(c1, price)) <= Pays(c2, BoughtFill(c2, price))
  {
    Grows(price, 1.0 + c1.slippagePct / 100.0, 1.0 + c2.slippagePct / 100.0,
          1.0 + c1.commissionPct / 100.0, 1.0 + c2.commissionPct / 100.0);
  }

  /** The net profit as sale proceeds less purchase cost, at quoted prices. */
  lemma NetAtQuotes(c: CostModel, side: Side, entry: real, exit: real, qty: int)
    requires c.Valid() && entry > 0.0 && exit > 0.0
    ensures RoundTripPnl(c, side, entry, exit, qty) ==
            (Receives(c, SoldFill(c, if side == Long then exit else entry))
             - Pays(c, BoughtFill(c, if side == Long then entry else exit))) * (qty as real)
  {
    FillsByLeg(c, entry);
    FillsByLeg(c, exit);
    FillsPositive(c, entry);
    FillsPositive(c, exit);
    NetOfBothLegs(c, side, EntryFillPrice(c, side, entry), ExitFillPrice(c, side, exit), qty);
  }

  /** Both runs' net profit as a common per-unit profit times the quantity. */
  lemma NetPerUnit(c1: CostModel, c2: CostModel, side: Side, entry: real, exit: real, qty: int)
    returns (net1: real, net2: real)
    requires c1.Valid() && c2.Valid() && AtMost(c1, c2)
    requires entry > 0.0 && exit > 0.0
    ensures net2 <= net1
    ensures RoundTripPnl(c1, side, entry, exit, qty) == net1 * (qty as real)
    ensures RoundTripPnl(c2, side, entry, exit, qty) == net2 * (qty as real)
  {
    hide *;
    var sell, buy := if side == Long then exit else entry, if side == Long then entry else exit;
    net1 := Receives(c1, SoldFill(c1, sell)) - Pays(c1, BoughtFill(c1, buy));
    net2 := Receives(c2, SoldFill(c2, sell)) - Pays(c2, BoughtFill(c2, buy));
    assert net2 <= net1 by {
      SaleWorsens(c1, c2, sell);
      PurchaseWorsens(c1, c2, buy);
    }
    NetAtQuotes(c1, side, entry, exit, qty);
    NetAtQuotes(c2, side, entry, exit, qty);
  }

  /** A dearer cost model never earns more on the same round trip. */
  lemma PnlFallsWithCost(c1: CostModel, c2: CostModel, side: Side, entry: real, exit: real, qty: int)
    requires c1.Valid() && c2.Valid() && AtMost(c1, c2)
    requires entry > 0.0 && exit > 0.0 && qty >= 0
    ensures RoundTripPnl(c2, side, entry, exit, qty) <= RoundTripPnl(c1, side, entry, exit, qty)
  {
    hide *;
    var net1, net2 := NetPerUnit(c1, c2, side, entry, exit, qty);
    MulOrder(net2, net1, qty as real);
  }
}
