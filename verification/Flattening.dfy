// What flattening the book achieves, and what its normal return does not prove.

module Flattening {
  import opened Wrappers
  import opened Signals
  import opened OrderStates
  import opened Kite
  import Lifecycle = OrderLifecycle

  /** Which rows of the net positions a flatten acts on and waits for. */
  predicate Tracked(row: PositionRow) { row.quantity != 0 && row.averagePrice > 0.0 }

  lemma {:induction false} NoOpenPositions(rows: seq<PositionRow>)
    ensures OpenPositions(rows) == [] <==> forall i :: 0 <= i < |rows| ==> !Tracked(rows[i])
  {
    if rows != [] {
      NoOpenPositions(rows[..|rows| - 1]);
      assert forall i :: 0 <= i < |rows| - 1 ==> rows[..|rows| - 1][i] == rows[i];
    }
  }

  /** A read leaves nothing open exactly when it failed, or when every row is
      without quantity or without a positive average price. */
  lemma NothingOpenExactlyWhen(reply: Reply<seq<PositionRow>>)
    ensures Residual(reply) == [] <==>
            !reply.Answer? || forall i :: 0 <= i < |reply.value| ==> !Tracked(reply.value[i])
  {
    if reply.Answer? {
      NoOpenPositions(reply.value);
    }
  }

  predicate AllZero(rows: seq<PositionRow>) { forall i :: 0 <= i < |rows| ==> rows[i].quantity == 0 }

  predicate EveryHoldingPriced(rows: seq<PositionRow>) {
    forall i :: 0 <= i < |rows| ==> rows[i].quantity != 0 ==> rows[i].averagePrice > 0.0
  }

  lemma FlattenedLeavesNothingTracked(positions: PositionReads)
    requires FlattenVerdict(positions).Flattened?
    ensures Residual(positions(DecidingRead(positions))) == []
  {
    var d := DecidingRead(positions);
    hide OpenPositions;
    if n :| 1 <= n <= FLATTEN_POLL_BUDGET && Residual(positions(n)) == [] {
      assert d <= n;
    }
  }

  /** A flatten returns normally exactly when one of ten confirmation reads, or failing
      these a final answered one, leaves nothing open; it never reads again after
      such a read, and makes no more than twelve in all. */
  lemma FlattenedExactlyWhen(positions: PositionReads)
    ensures FlattenVerdict(positions) == Flattened <==>
            && positions(0).Answer?
            && ((exists n :: 1 <= n <= 10 && Residual(positions(n)) == [])
                || (positions(11).Answer? && Residual(positions(11)) == []))
    ensures FlattenVerdict(positions) == ReadFailed <==>
            || !positions(0).Answer?
            || ((forall n :: 1 <= n <= 10 ==> Residual(positions(n)) != []) && !positions(11).Answer?)
    ensures var d := DecidingRead(positions);
            && 1 <= d <= 11 && (forall n :: 1 <= n < d ==> Residual(positions(n)) != [])
            && (d < 11 ==> Residual(positions(d)) == [])
  {
    hide OpenPositions;
    var d := DecidingRead(positions);
    if n :| 1 <= n <= 10 && Residual(positions(n)) == [] {
      assert d <= n;
    }
  }

  /** A normal return is meant to say that every quantity is zero.  The read it
      ends on does say so if and only if that read was answered and prices every
      row that has a quantity. */
  lemma FlattenedIsFlatExactlyWhen(positions: PositionReads)
    requires FlattenVerdict(positions).Flattened?
    ensures var last := positions(DecidingRead(positions));
            last.Answer? && AllZero(last.value) <==> last.Answer? && EveryHoldingPriced(last.value)
  {
    FlattenedLeavesNothingTracked(positions);
    NothingOpenExactlyWhen(positions(DecidingRead(positions)));
    hide FlattenVerdict, Residual, DecidingRead;
  }

  /** An incomplete flatten never comes empty-handed: every read was answered, each
      found something, and closing what it lists would neutralise the final read. */
  lemma IncompleteListsTheRest(positions: PositionReads, symbol: string)
    requires FlattenVerdict(positions).FlattenIncomplete?
    ensures var rest, final := FlattenVerdict(positions).openPositions, positions(FLATTEN_POLL_BUDGET + 1);
            && rest != [] && DecidingRead(positions) == FLATTEN_POLL_BUDGET + 1
            && (forall n :: 0 <= n <= FLATTEN_POLL_BUDGET + 1 ==> positions(n).Answer?)
            && TrackedQuantity(final.value, symbol) + SquaredOff(SquareOffCalls(rest), symbol) == 0
  {
    IncompleteReads(positions);
    hide *;
    DecidingReadIs(positions, FLATTEN_POLL_BUDGET + 1);
    SquareOffNeutralises(positions(FLATTEN_POLL_BUDGET + 1).value, symbol);
  }

  lemma IncompleteReads(positions: PositionReads)
    requires FlattenVerdict(positions).FlattenIncomplete?
    ensures forall n :: 0 <= n <= FLATTEN_POLL_BUDGET + 1 ==> positions(n).Answer?
    ensures forall n :: 1 <= n <= FLATTEN_POLL_BUDGET ==> Residual(positions(n)) != []
    ensures FlattenVerdict(positions).openPositions == OpenPositions(positions(FLATTEN_POLL_BUDGET + 1).value) != []
  {
    hide OpenPositions;
    assert forall n :: 1 <= n <= FLATTEN_POLL_BUDGET ==> Residual(positions(n)) != [];
  }

  /** So a flatten can return normally with a position still held: a net row
      whose average price is not positive is neither closed nor waited for. */
  lemma FlattenedWithPositionHeld(row: PositionRow)
    requires row.quantity != 0 && row.averagePrice <= 0.0
    ensures FlattenVerdict(_ => Answer([row])) == Flattened
    ensures SquareOffCalls(Residual(Answer([row]))) == []
  {
    var positions: PositionReads := _ => Answer([row]);
    assert [row][..0] == [];
    assert OpenPositions([row]) == [];
    assert Residual(positions(1)) == [];
  }

  /** And when every read after the first fails, it returns normally as well. */
  lemma FlattenedWithoutLooking(rows: seq<PositionRow>)
    ensures FlattenVerdict(n => if n == 0 then Answer(rows) else OtherError) == Flattened
  {
    var positions: PositionReads := n => if n == 0 then Answer(rows) else OtherError;
    assert Residual(positions(1)) == [];
  }

  // ----- square-off

  function TrackedQuantity(rows: seq<PositionRow>, symbol: string): int {
    if rows == [] then 0
    else
      var row := rows[|rows| - 1];
      TrackedQuantity(rows[..|rows| - 1], symbol) + if Tracked(row) && row.symbol == symbol then row.quantity else 0
  }

  function SquaredOff(calls: seq<Call>, symbol: string): int {
    if calls == [] then 0
    else
      var c := calls[|calls| - 1];
      SquaredOff(calls[..|calls| - 1], symbol) +
      if c.SquareOff? && c.symbol == symbol then (if c.side == Buy then c.quantity else -c.quantity) else 0
  }

  lemma OneMoreSquareOff(positions: seq<Position>, p: Position, symbol: string)
    ensures SquaredOff(SquareOffCalls(positions + [p]), symbol) ==
            SquaredOff(SquareOffCalls(positions), symbol) +
            if p.symbol == symbol then (if p.side == SHORT then p.qty else -p.qty) else 0
  {
    var calls := SquareOffCalls(positions + [p]);
    assert calls[..|calls| - 1] == SquareOffCalls(positions);
  }

  /** The square-off orders sell or buy back exactly the tracked net quantity of
      every symbol. */
  lemma {:induction false} SquareOffNeutralises(rows: seq<PositionRow>, symbol: string)
    ensures TrackedQuantity(rows, symbol) + SquaredOff(SquareOffCalls(OpenPositions(rows)), symbol) == 0
  {
    hide SquareOffCalls, SquaredOff;
    if rows == [] {
      NothingSquaredOff(symbol);
    } else {
      var init, row := rows[..|rows| - 1], rows[|rows| - 1];
      SquareOffNeutralises(init, symbol);
      if Tracked(row) {
        var p := Position(row.symbol, if row.quantity > 0 then LONG else SHORT, AbsInt(row.quantity), row.averagePrice);
        assert OpenPositions(rows) == OpenPositions(init) + [p];
        OneMoreSquareOff(OpenPositions(init), p, symbol);
      } else {
        assert OpenPositions(rows) == OpenPositions(init);
      }
    }
  }

  lemma NothingSquaredOff(symbol: string)
    ensures SquaredOff(SquareOffCalls([]), symbol) == 0
  {
  }

  lemma {:induction false} OpenConcat(a: seq<PositionRow>, b: seq<PositionRow>)
    ensures OpenPositions(a + b) == OpenPositions(a) + OpenPositions(b)
  {
    if b == [] {
      assert a + b == a;
    } else {
      assert (a + b)[..|a + b| - 1] == a + b[..|b| - 1];
      OpenConcat(a, b[..|b| - 1]);
    }
  }

  /** The positions are the tracked rows, in their order: each with its symbol, its
      side, its quantity without the sign, and its average price. */
  lemma OpenPositionsExactly(a: seq<PositionRow>, row: PositionRow, b: seq<PositionRow>)
    ensures OpenPositions([]) == []
    ensures OpenPositions(a + [row] + b) ==
            OpenPositions(a) + (if Tracked(row) then [PositionOf(row)] else []) + OpenPositions(b)
  {
    OpenConcat(a + [row], b);
    OpenConcat(a, [row]);
    assert [row][..0] == [];
  }

  function PositionOf(row: PositionRow): (p: Position)
    ensures p.symbol == row.symbol && p.entryPrice == row.averagePrice
    ensures row.quantity > 0 ==> p.side == LONG && p.qty == row.quantity
    ensures row.quantity < 0 ==> p.side == SHORT && p.qty == -row.quantity
  {
    Position(row.symbol, if row.quantity > 0 then LONG else SHORT, AbsInt(row.quantity), row.averagePrice)
  }

  /** Each of them trades a positive quantity. */
  lemma {:induction false} SquareOffQuantities(rows: seq<PositionRow>)
    ensures forall i :: 0 <= i < |OpenPositions(rows)| ==> SquareOffCall(OpenPositions(rows)[i]).quantity > 0
  {
    if rows != [] {
      SquareOffQuantities(rows[..|rows| - 1]);
    }
  }

  // ----- the rows after a flatten

  /** Every one of those triggers is asked to be deleted. */
  lemma {:induction false} DeletesTheirTriggers(records: seq<OrderRecord>, i: nat)
    requires i < |records| && Cancellable(records[i])
    ensures DeleteGtt(records[i].slGttId.value) in CancelCalls(records)
  {
    if i < |records| - 1 {
      DeletesTheirTriggers(records[..|records| - 1], i);
    }
  }

  /** A flatten of any sound world leaves no record entered: each one that was is
      cancelled, with the deletion of its own trigger among the calls sent; every
      other record stays as it was. */
  lemma FlattenLeavesNoneEntered(w: Lifecycle.World, records: seq<OrderRecord>, positions: seq<Position>, now: int, id: OrderId)
    requires Lifecycle.Sound(w) && ListsOpen(w.rows, records) && id in w.rows
    ensures var next, r := Lifecycle.Step(w, Lifecycle.Flatten(records, positions, now)), w.rows[id];
            && id in next.rows && next.rows[id].state != ENTERED
            && w.calls <= next.calls
            && (r.state != ENTERED ==> next.rows[id] == r)
            && (r.state == ENTERED ==>
                  && next.rows[id].state == CANCELLED && r.slGttId.Some?
                  && DeleteGtt(r.slGttId.value) in next.calls[|w.calls|..])
  {
    var r := w.rows[id];
    var sent := CancelCalls(records) + SquareOffCalls(positions);
    assert w.calls + CancelCalls(records) + SquareOffCalls(positions) == w.calls + sent;
    if r.state == ENTERED {
      var i :| 0 <= i < |records| && records[i].id == id;
      DeletesTheirTriggers(records, i);
    }
    hide ListsOpen, CancelCalls, SquareOffCalls;
  }
}
