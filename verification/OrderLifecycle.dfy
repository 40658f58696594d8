// The order lifecycle as a protocol: any interleaving of placements, polls,
// flattens, operator marks and restarts, against an exchange that may answer
// anything.  Each step is what the corresponding method leaves behind.

module OrderLifecycle {
  import opened Wrappers
  import opened Signals
  import opened OrderStates
  import opened OrdersService
  import opened Kite

  datatype World = World(rows: Rows, calls: seq<Call>)

  /** `records` is the order in which the store lists its open rows. */
  datatype Event =
    | Place(s: Signal, qty: int, killSwitch: bool, reply: Reply<string>, now: int)
    | Poll(records: seq<OrderRecord>, market: Market, now: int)
    | Flatten(records: seq<OrderRecord>, positions: seq<Position>, now: int)
    | Mark(id: OrderId, state: OrderState, reason: string, now: int)
    | Restart

  const EMPTY := World(map[], [])

  ghost function Step(w: World, e: Event): World {
    match e
    case Place(s, qty, killSwitch, reply, now) =>
      if killSwitch || qty < 1 || Blocks(Lookup(w.rows, IdOf(s))) then w
      else
        World(if reply.Answer? then w.rows[IdOf(s) := NewRecord(s, qty, reply.value, now)] else w.rows,
              w.calls + [PlaceEntry(IdOf(s), s.side, qty, s.entry, reply.Answer?)])
    case Poll(records, market, now) =>
      if ListsOpen(w.rows, records) then World(PolledRows(w.rows, market, now), w.calls + PollCalls(records, market, now))
      else w
    case Flatten(records, positions, now) =>
      if ListsOpen(w.rows, records) then
        World(CancelledRows(w.rows, now), w.calls + CancelCalls(records) + SquareOffCalls(positions))
      else w
    case Mark(id, state, reason, now) => w.(rows := MarkedRows(w.rows, id, state, reason, now))
    case Restart => w
  }

  /** The world after a whole history, starting from an empty store. */
  ghost function After(es: seq<Event>): World {
    if es == [] then EMPTY else Step(After(es[..|es| - 1]), es[|es| - 1])
  }

  // ----- what every record satisfies

  predicate Bracketed(r: OrderRecord) {
    if r.side == Buy then r.stopLoss < r.entryPrice < r.target else r.target < r.entryPrice < r.stopLoss
  }

  predicate RecordOk(r: OrderRecord) {
    && r.qty >= 1 && Bracketed(r) && r.id.symbol == r.symbol
    && r.entryPrice > 0.0 && r.stopLoss > 0.0 && r.target > 0.0
    && (r.fillPrice.Some? ==> r.fillPrice.value > 0.0) && (r.exitPrice.Some? ==> r.exitPrice.value > 0.0)
    && (r.state == PENDING_ENTRY ==>
          r.entryOrderId.Some? && r.slGttId.None? && r.fillPrice.None? && r.exitPrice.None? && r.pnl.None?)
    && (r.state == ENTERED ==> r.slGttId.Some? && r.fillPrice.Some? && r.exitPrice.None? && r.pnl.None?)
    && (r.state == EXITED ==>
          && r.slGttId.Some? && r.fillPrice.Some? && r.exitPrice.Some?
          && r.pnl == Some(ExitPnl(r.side, r.qty, r.fillPrice.value, r.exitPrice.value)))
  }

  /** The exit trigger a record relies on was really placed, with its levels. */
  predicate GttOnExchange(r: OrderRecord, calls: seq<Call>) {
    (r.state == ENTERED || r.state == EXITED) && r.fillPrice.Some? ==>
      PlaceGtt(r.id, BuildOcoPayload(r, r.fillPrice.value), r.slGttId) in calls
  }

  ghost predicate Sound(w: World) {
    Keyed(w.rows) && forall id :: id in w.rows ==> RecordOk(w.rows[id]) && GttOnExchange(w.rows[id], w.calls)
  }

  // ----- the edges of the state machine

  /** Everything that identifies the order: a transition may not touch it. */
  predicate SameOrder(a: OrderRecord, b: OrderRecord) {
    && a.id == b.id && a.symbol == b.symbol && a.side == b.side && a.qty == b.qty
    && a.entryPrice == b.entryPrice && a.stopLoss == b.stopLoss && a.target == b.target
    && a.entryOrderId == b.entryOrderId && a.createdAt == b.createdAt
  }

  predicate Dead(r: OrderRecord) { r.state == FAILED || r.state == CANCELLED }

  /** What one step may do to the record of `id`. */
  predicate Edge(id: OrderId, before: Option<OrderRecord>, after: Option<OrderRecord>, e: Event) {
    || after == before
    || (e.Place? && IdOf(e.s) == id && (before.None? || Dead(before.value))
        && after.Some? && after.value.state == PENDING_ENTRY)
    || (before.Some? && after.Some? && SameOrder(before.value, after.value)
        && match (before.value.state, after.value.state) {
             case (PENDING_ENTRY, ENTERED) => e.Poll?
             case (PENDING_ENTRY, FAILED) => e.Poll? || e.Mark?
             case (PENDING_ENTRY, CANCELLED) => e.Mark?
             case (ENTERED, EXITED) => e.Poll?
             case (ENTERED, CANCELLED) => e.Flatten? || e.Mark?
             case (ENTERED, FAILED) => e.Mark?
             case (_, _) => false
           })
  }

  lemma PollFollowsEdges(r: OrderRecord, m: Market, now: int)
    ensures var a := AdvanceOne(r, m, now).record;
            a == r || (SameOrder(r, a) && match (r.state, a.state) {
                         case (PENDING_ENTRY, ENTERED) => true
                         case (PENDING_ENTRY, FAILED) => true
                         case (ENTERED, EXITED) => true
                         case (_, _) => false
                       })
  {
    hide BuildOcoPayload, ExtractExitPrice, ExitPnl;
  }

  lemma PolledRecord(w: World, e: Event, id: OrderId)
    requires e.Poll? && id in w.rows
    ensures id in Step(w, e).rows
    ensures Step(w, e).rows[id] ==
            if ListsOpen(w.rows, e.records) then AdvanceOne(w.rows[id], e.market, e.now).record else w.rows[id]
  {
    hide AdvanceOne, ListsOpen;
  }

  /** Every step moves every record along at most one edge. */
  lemma StepFollowsEdges(w: World, e: Event, id: OrderId)
    requires Sound(w)
    ensures Edge(id, Lookup(w.rows, id), Lookup(Step(w, e).rows, id), e)
  {
    hide AdvanceOne, PollCalls, CancelCalls, SquareOffCalls, ListsOpen, RecordOk, GttOnExchange;
    if e.Poll? && id in w.rows {
      PollFollowsEdges(w.rows[id], e.market, e.now);
    }
  }

  /** An exited record is never changed again, by anything. */
  lemma ExitedForGood(w: World, e: Event, id: OrderId)
    requires Sound(w) && id in w.rows && w.rows[id].state == EXITED
    ensures id in Step(w, e).rows && Step(w, e).rows[id] == w.rows[id]
  {
    StepFollowsEdges(w, e, id);
    hide Step, Sound;
  }

  lemma PollKeepsRecordOk(r: OrderRecord, m: Market, now: int)
    requires RecordOk(r)
    ensures RecordOk(AdvanceOne(r, m, now).record)
  {
    if r.state == ENTERED && r.slGttId.Some? && r.slGttId.value in m.gtts {
      ExitPricePositive(r, m.gtts[r.slGttId.value], m.orders);
    }
    hide BuildOcoPayload, ExtractExitPrice, ExitPnl;
  }

  /** Whatever the exchange reports about a triggered exit, zeros and gaps
      included, the price taken from it is positive. */
  lemma ExitPricePositive(r: OrderRecord, gtt: GttRow, orders: map<string, OrderRow>)
    requires r.stopLoss > 0.0
    ensures ExtractExitPrice(r, gtt, orders) > 0.0
  {
  }

  lemma PollPlacesGtt(r: OrderRecord, m: Market, now: int, before: seq<Call>)
    requires RecordOk(r) && GttOnExchange(r, before)
    ensures GttOnExchange(AdvanceOne(r, m, now).record, before + ToSeq(AdvanceOne(r, m, now).call))
  {
    hide ExtractExitPrice;
  }

  lemma {:induction false} PollCallsInclude(records: seq<OrderRecord>, m: Market, now: int, i: nat, c: Call)
    requires i < |records| && AdvanceOne(records[i], m, now).call == Some(c)
    ensures c in PollCalls(records, m, now)
  {
    if i < |records| - 1 {
      PollCallsInclude(records[..|records| - 1], m, now, i, c);
    }
    hide AdvanceOne;
  }

  lemma PollKeepsGtt(rows: Rows, records: seq<OrderRecord>, m: Market, now: int, id: OrderId, calls: seq<Call>)
    requires ListsOpen(rows, records) && id in rows && RecordOk(rows[id]) && GttOnExchange(rows[id], calls)
    ensures GttOnExchange(AdvanceOne(rows[id], m, now).record, calls + PollCalls(records, m, now))
  {
    var r := rows[id];
    var a := AdvanceOne(r, m, now);
    PollPlacesGtt(r, m, now, calls);
    if a.call.Some? {
      assert IsOpen(r);
      var i :| 0 <= i < |records| && records[i].id == id;
      assert records[i] == r;
      PollCallsInclude(records, m, now, i, a.call.value);
    }
    hide AdvanceOne, PollCalls, ListsOpen, RecordOk, BuildOcoPayload;
  }

  predicate RowSound(r: OrderRecord, id: OrderId, calls: seq<Call>) {
    r.id == id && RecordOk(r) && GttOnExchange(r, calls)
  }

  lemma GttStays(r: OrderRecord, calls: seq<Call>, more: seq<Call>)
    requires GttOnExchange(r, calls)
    ensures GttOnExchange(r, calls + more)
  {
    hide BuildOcoPayload;
  }

  lemma ClosingKeepsRow(r: OrderRecord, c: OrderRecord, calls: seq<Call>)
    requires RowSound(r, r.id, calls) && c.state in {CANCELLED, FAILED} && SameOrder(r, c)
    requires c.fillPrice == r.fillPrice && c.exitPrice == r.exitPrice
    ensures RowSound(c, r.id, calls)
  {
    hide BuildOcoPayload, ExitPnl;
  }

  lemma NewRowSound(s: Signal, qty: int, entryOrderId: string, now: int, calls: seq<Call>)
    requires qty >= 1
    ensures RowSound(NewRecord(s, qty, entryOrderId, now), IdOf(s), calls)
  {
    hide BuildOcoPayload, ExitPnl;
  }

  lemma PollKeepsRow(w: World, records: seq<OrderRecord>, m: Market, now: int, id: OrderId)
    requires ListsOpen(w.rows, records) && id in w.rows && RowSound(w.rows[id], id, w.calls)
    ensures RowSound(AdvanceOne(w.rows[id], m, now).record, id, w.calls + PollCalls(records, m, now))
  {
    PollKeepsRecordOk(w.rows[id], m, now);
    PollKeepsGtt(w.rows, records, m, now, id, w.calls);
    hide AdvanceOne, PollCalls, RecordOk, GttOnExchange, ListsOpen;
  }

  lemma StepKeepsRow(w: World, e: Event, id: OrderId)
    requires id in w.rows ==> RowSound(w.rows[id], id, w.calls)
    requires id in Step(w, e).rows
    ensures RowSound(Step(w, e).rows[id], id, Step(w, e).calls)
  {
    hide AdvanceOne, PollCalls, CancelCalls, SquareOffCalls, RecordOk, GttOnExchange, ListsOpen;
    var next := Step(w, e);
    match e
    case Place(s, qty, killSwitch, reply, now) =>
      if id in w.rows && next.rows[id] == w.rows[id] {
        GttStays(w.rows[id], w.calls, [PlaceEntry(IdOf(s), s.side, qty, s.entry, reply.Answer?)]);
      } else {
        NewRowSound(s, qty, reply.value, now, next.calls);
      }
    case Poll(records, market, now) =>
      if ListsOpen(w.rows, records) {
        PollKeepsRow(w, records, market, now, id);
      }
    case Flatten(records, positions, now) =>
      if ListsOpen(w.rows, records) {
        GttStays(w.rows[id], w.calls, CancelCalls(records) + SquareOffCalls(positions));
        assert w.calls + CancelCalls(records) + SquareOffCalls(positions) == w.calls + (CancelCalls(records) + SquareOffCalls(positions));
        if next.rows[id] != w.rows[id] {
          ClosingKeepsRow(w.rows[id], next.rows[id], next.calls);
        }
      }
    case Mark(_, _, _, _) =>
      if next.rows[id] != w.rows[id] {
        ClosingKeepsRow(w.rows[id], next.rows[id], w.calls);
      }
    case Restart =>
  }

  /** The invariant holds after every step. */
  lemma StepKeepsSound(w: World, e: Event)
    requires Sound(w)
    ensures Sound(Step(w, e))
  {
    forall id | id in Step(w, e).rows
      ensures RowSound(Step(w, e).rows[id], id, Step(w, e).calls)
    {
      hide Step;
      StepKeepsRow(w, e, id);
    }
    hide Step, RecordOk, GttOnExchange;
  }

  lemma {:induction false} AlwaysSound(es: seq<Event>)
    ensures Sound(After(es))
  {
    hide Step, Sound;
    if es == [] {
      EmptyIsSound();
    } else {
      AlwaysSound(es[..|es| - 1]);
      StepKeepsSound(After(es[..|es| - 1]), es[|es| - 1]);
    }
  }

  lemma EmptyIsSound()
    ensures Sound(EMPTY)
  {
  }

  // ----- how often an order is really sent

  function Accepted(calls: seq<Call>, id: OrderId): nat {
    if calls == [] then 0
    else
      var c := calls[|calls| - 1];
      Accepted(calls[..|calls| - 1], id) + if c.PlaceEntry? && c.tag == id && c.accepted then 1 else 0
  }

  predicate Live(rows: Rows, id: OrderId) { id in rows && !Dead(rows[id]) }

  /** How often, over the history, the record of `id` entered FAILED or CANCELLED. */
  ghost function Deaths(es: seq<Event>, id: OrderId): nat {
    if es == [] then 0
    else
      var before, after := After(es[..|es| - 1]).rows, After(es).rows;
      Deaths(es[..|es| - 1], id) + if Live(before, id) && !Live(after, id) then 1 else 0
  }

  lemma {:induction false} AcceptedConcat(a: seq<Call>, b: seq<Call>, id: OrderId)
    ensures Accepted(a + b, id) == Accepted(a, id) + Accepted(b, id)
  {
    if b == [] {
      assert a + b == a;
    } else {
      assert (a + b)[..|a + b| - 1] == a + b[..|b| - 1];
      AcceptedConcat(a, b[..|b| - 1], id);
    }
  }

  lemma {:induction false} NoEntries(calls: seq<Call>, id: OrderId)
    requires forall c :: c in calls ==> !c.PlaceEntry?
    ensures Accepted(calls, id) == 0
  {
    if calls != [] {
      assert calls[|calls| - 1] in calls;
      NoEntries(calls[..|calls| - 1], id);
    }
  }

  lemma {:induction false} PollSendsNoEntries(records: seq<OrderRecord>, m: Market, now: int)
    ensures forall c :: c in PollCalls(records, m, now) ==> !c.PlaceEntry?
  {
    if records != [] {
      PollSendsNoEntries(records[..|records| - 1], m, now);
      hide BuildOcoPayload, AdvanceEntered;
    }
  }

  lemma {:induction false} CancelSendsNoEntries(records: seq<OrderRecord>)
    ensures forall c :: c in CancelCalls(records) ==> !c.PlaceEntry?
  {
    if records != [] {
      CancelSendsNoEntries(records[..|records| - 1]);
    }
  }

  /** Only a placement sends entries. */
  lemma OthersSendNoEntries(w: World, e: Event, id: OrderId)
    requires !e.Place?
    ensures Accepted(Step(w, e).calls, id) == Accepted(w.calls, id)
  {
    hide PollCalls, CancelCalls, SquareOffCalls, ListsOpen, Accepted, PolledRows, CancelledRows, MarkedRows;
    match e
    case Poll(records, market, now) =>
      PollSendsNoEntries(records, market, now);
      NoEntries(PollCalls(records, market, now), id);
      AcceptedConcat(w.calls, PollCalls(records, market, now), id);
    case Flatten(records, positions, now) =>
      CancelSendsNoEntries(records);
      NoEntries(CancelCalls(records), id);
      SquareOffSendsNoEntries(positions);
      NoEntries(SquareOffCalls(positions), id);
      AcceptedConcat(w.calls, CancelCalls(records), id);
      AcceptedConcat(w.calls + CancelCalls(records), SquareOffCalls(positions), id);
    case _ =>
  }

  /** One step sends an accepted entry exactly when the record comes alive. */
  lemma StepAccepts(w: World, e: Event, id: OrderId)
    requires Sound(w)
    ensures Accepted(Step(w, e).calls, id) ==
            Accepted(w.calls, id) + if !Live(w.rows, id) && Live(Step(w, e).rows, id) then 1 else 0
  {
    hide Step, Sound, Accepted;
    if e.Place? {
      PlaceAccepts(w, e, id);
    } else {
      StepFollowsEdges(w, e, id);
      OthersSendNoEntries(w, e, id);
    }
  }

  lemma PlaceAccepts(w: World, e: Event, id: OrderId)
    requires e.Place?
    ensures Accepted(Step(w, e).calls, id) ==
            Accepted(w.calls, id) + if !Live(w.rows, id) && Live(Step(w, e).rows, id) then 1 else 0
  {
    var sent := PlaceEntry(IdOf(e.s), e.s.side, e.qty, e.s.entry, e.reply.Answer?);
    OneEntryAccepted(w.calls, sent, id);
    hide Accepted;
    if e.killSwitch || e.qty < 1 || Blocks(Lookup(w.rows, IdOf(e.s))) {
      assert Step(w, e) == w;
    } else {
      assert Step(w, e).calls == w.calls + [sent];
    }
  }

  lemma OneEntryAccepted(calls: seq<Call>, c: Call, id: OrderId)
    ensures Accepted(calls + [c], id) == Accepted(calls, id) + if c.PlaceEntry? && c.tag == id && c.accepted then 1 else 0
  {
    assert (calls + [c])[..|calls|] == calls;
  }

  lemma SquareOffSendsNoEntries(positions: seq<Position>)
    ensures forall c :: c in SquareOffCalls(positions) ==> !c.PlaceEntry?
  {
  }

  /** Over any history: the exchange accepted an entry for `id` once per death of
      its record, plus once if the record is alive now. */
  lemma {:induction false} EntriesMatchDeaths(es: seq<Event>, id: OrderId)
    ensures Accepted(After(es).calls, id) == Deaths(es, id) + if Live(After(es).rows, id) then 1 else 0
  {
    hide Step, Sound, Accepted, Live;
    if es == [] {
      NothingAccepted(id);
    } else {
      var before := es[..|es| - 1];
      EntriesMatchDeaths(before, id);
      AlwaysSound(before);
      StepAccepts(After(before), es[|es| - 1], id);
    }
  }

  lemma NothingAccepted(id: OrderId)
    ensures Accepted(EMPTY.calls, id) == 0 && !Live(EMPTY.rows, id)
  {
  }

  /** Placing an id that is pending, entered or exited changes nothing at all. */
  lemma PlacingLiveIsNoOp(w: World, e: Event)
    requires e.Place? && Live(w.rows, IdOf(e.s))
    ensures Step(w, e) == w
  {
  }

  // ----- the exit pair

  /** For any sound record the exit pair closes the whole position: triggers in
      ascending order, each leg at its trigger and on the closing side, the stop
      as a market leg and the target as a limit leg. */
  lemma OcoPayloadSound(r: OrderRecord, fillPrice: real)
    requires RecordOk(r)
    ensures var p := BuildOcoPayload(r, fillPrice);
            && p.triggers.0 < p.triggers.1
            && p.legs.0.price == p.triggers.0 && p.legs.1.price == p.triggers.1
            && p.legs.0.side == p.legs.1.side == Opposite(r.side)
            && p.legs.0.quantity == p.legs.1.quantity == r.qty
            && p.legs.0.orderType != p.legs.1.orderType
            && (if p.legs.0.orderType == MARKET then p.triggers.0 else p.triggers.1) == r.stopLoss
            && (if p.legs.0.orderType == LIMIT then p.triggers.0 else p.triggers.1) == r.target
  {
  }
}
