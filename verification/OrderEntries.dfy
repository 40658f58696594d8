// What an order is worth on the exchange: every record stands for the entry the
// exchange accepted last for its id, and every exit trigger closes that entry.

module OrderEntries {
  import opened Wrappers
  import opened Signals
  import opened OrderStates
  import opened OrdersService
  import opened Kite
  import opened OrderLifecycle

  // ----- the row of an accepted placement

  /** An accepted placement adds its one row, with the signal's own data and the
      quantity sent, and sends exactly that entry. */
  lemma AcceptedPlacement(w: World, s: Signal, qty: int, orderId: string, now: int) returns (id: OrderId)
    requires qty >= 1
    requires var place := OrderId(s.strategyId, s.ts, s.symbol);
             place in w.rows ==> w.rows[place].state in {FAILED, CANCELLED}
    ensures id == OrderId(s.strategyId, s.ts, s.symbol)
    ensures var next := Step(w, Place(s, qty, false, Answer(orderId), now));
            && next.calls == w.calls + [PlaceEntry(id, s.side, qty, s.entry, true)]
            && next.rows.Keys == w.rows.Keys + {id} && IsNewRow(next.rows[id], s, qty, orderId, now)
            && forall other :: other in w.rows && other != id ==> next.rows[other] == w.rows[other]
  {
    id := IdOf(s);
  }

  /** In every other case nothing is added: not while the switch is on, not for an
      empty order, not for an id that is open or exited, not when the exchange refuses. */
  lemma RefusedPlacement(w: World, e: Event)
    requires e.Place?
    requires var place := OrderId(e.s.strategyId, e.s.ts, e.s.symbol);
             e.killSwitch || e.qty < 1 || !e.reply.Answer? ||
             (place in w.rows && w.rows[place].state in {PENDING_ENTRY, ENTERED, EXITED})
    ensures Step(w, e).rows == w.rows
    ensures Step(w, e).calls == w.calls ||
            (!e.reply.Answer? && Step(w, e).calls == w.calls + [PlaceEntry(IdOf(e.s), e.s.side, e.qty, e.s.entry, false)])
  {
  }

  // ----- the entry behind a record

  predicate AcceptedEntry(c: Call, id: OrderId) { c.PlaceEntry? && c.tag == id && c.accepted }

  /** The `at`-th call is the last accepted entry of `id`. */
  predicate LatestEntry(calls: seq<Call>, id: OrderId, at: int) {
    && 0 <= at < |calls| && AcceptedEntry(calls[at], id)
    && forall i :: at < i < |calls| ==> !AcceptedEntry(calls[i], id)
  }

  predicate Tells(c: Call, r: OrderRecord) {
    c.PlaceEntry? && c.side == r.side && c.quantity == r.qty && c.price == r.entryPrice
  }

  /** The record is that of the last accepted entry of its id. */
  ghost predicate Sent(r: OrderRecord, calls: seq<Call>) {
    exists at :: 0 <= at < |calls| && LatestEntry(calls, r.id, at) && Tells(calls[at], r)
  }

  /** Whichever leg goes off, it trades the entry's quantity the other way; the two
      triggers lie on either side of the entry price. */
  predicate Closes(p: GttPayload, c: Call) {
    && c.PlaceEntry? && p.symbol == c.tag.symbol
    && p.legs.0.quantity == p.legs.1.quantity == c.quantity
    && p.legs.0.side == p.legs.1.side == (if c.side == Buy then Sell else Buy)
    && p.triggers.0 < c.price < p.triggers.1
  }

  /** The trigger asked for by the `i`-th call closes the last accepted entry before it. */
  ghost predicate ClosesItsEntry(calls: seq<Call>, i: nat)
    requires i < |calls|
  {
    calls[i].PlaceGtt? ==>
      exists at :: 0 <= at < i && LatestEntry(calls[..i], calls[i].tag, at) && Closes(calls[i].payload, calls[at])
  }

  ghost predicate Matched(w: World) {
    && (forall id :: id in w.rows ==> Sent(w.rows[id], w.calls))
    && (forall i :: 0 <= i < |w.calls| ==> ClosesItsEntry(w.calls, i))
  }

  predicate NoEntry(calls: seq<Call>, id: OrderId) {
    forall i :: 0 <= i < |calls| ==> !AcceptedEntry(calls[i], id)
  }

  lemma EntryStaysLatest(calls: seq<Call>, more: seq<Call>, id: OrderId, at: int)
    requires LatestEntry(calls, id, at) && NoEntry(more, id)
    ensures LatestEntry(calls + more, id, at)
  {
    hide AcceptedEntry;
  }

  lemma SentStays(r: OrderRecord, calls: seq<Call>, more: seq<Call>)
    requires Sent(r, calls) && NoEntry(more, r.id)
    ensures Sent(r, calls + more)
  {
    var at :| 0 <= at < |calls| && LatestEntry(calls, r.id, at) && Tells(calls[at], r);
    EntryStaysLatest(calls, more, r.id, at);
    assert (calls + more)[at] == calls[at];
  }

  lemma SentAsNow(r: OrderRecord, c: OrderRecord, calls: seq<Call>)
    requires Sent(r, calls) && SameOrder(r, c)
    ensures Sent(c, calls)
  {
    hide LatestEntry;
    var at :| 0 <= at < |calls| && LatestEntry(calls, r.id, at) && Tells(calls[at], r);
  }

  lemma OldTriggerStillCloses(calls: seq<Call>, more: seq<Call>, i: nat)
    requires i < |calls| && ClosesItsEntry(calls, i)
    ensures ClosesItsEntry(calls + more, i)
  {
    hide LatestEntry, Closes;
    assert (calls + more)[..i] == calls[..i];
    if calls[i].PlaceGtt? {
      var at :| 0 <= at < i && LatestEntry(calls[..i], calls[i].tag, at) && Closes(calls[i].payload, calls[at]);
      assert (calls + more)[at] == calls[at];
    }
  }

  /** A trigger asked for a record, after calls that hold no entry of its id. */
  lemma NewTriggerCloses(calls: seq<Call>, more: seq<Call>, r: OrderRecord, fillPrice: real, i: nat)
    requires i < |more| && Sent(r, calls) && NoEntry(more[..i], r.id) && RecordOk(r)
    requires more[i].PlaceGtt? && more[i].tag == r.id && more[i].payload == BuildOcoPayload(r, fillPrice)
    ensures ClosesItsEntry(calls + more, |calls| + i)
  {
    var at :| 0 <= at < |calls| && LatestEntry(calls, r.id, at) && Tells(calls[at], r);
    EntryStaysLatest(calls, more[..i], r.id, at);
    assert (calls + more)[..|calls| + i] == calls + more[..i];
    assert (calls + more)[at] == calls[at];
    PayloadCloses(calls[at], r, fillPrice);
    hide LatestEntry, Closes, BuildOcoPayload, RecordOk;
  }

  lemma PayloadCloses(c: Call, r: OrderRecord, fillPrice: real)
    requires Tells(c, r) && c.tag == r.id && RecordOk(r)
    ensures Closes(BuildOcoPayload(r, fillPrice), c)
  {
    hide ExitPnl;
  }

  // ----- one step

  predicate AsksFor(c: Call, r: OrderRecord) {
    c.PlaceGtt? && c.tag == r.id && c.payload == BuildOcoPayload(r, c.payload.lastPrice)
  }

  lemma AdvanceAsks(r: OrderRecord, m: Market, now: int)
    ensures var a := AdvanceOne(r, m, now); a.call.Some? ==> AsksFor(a.call.value, r)
  {
    hide ExtractExitPrice, ExitPnl;
  }

  lemma {:induction false} PollAsks(records: seq<OrderRecord>, m: Market, now: int, i: nat) returns (n: nat)
    requires i < |PollCalls(records, m, now)|
    ensures n < |records| && AsksFor(PollCalls(records, m, now)[i], records[n])
  {
    var init, last := records[..|records| - 1], records[|records| - 1];
    AdvanceAsks(last, m, now);
    hide AdvanceOne, AsksFor;
    if i < |PollCalls(init, m, now)| {
      n := PollAsks(init, m, now, i);
    } else {
      n := |records| - 1;
    }
  }

  lemma PollHasNoEntry(records: seq<OrderRecord>, m: Market, now: int, id: OrderId)
    ensures NoEntry(PollCalls(records, m, now), id)
  {
    forall i | 0 <= i < |PollCalls(records, m, now)|
      ensures !AcceptedEntry(PollCalls(records, m, now)[i], id)
    {
      var n := PollAsks(records, m, now, i);
    }
    hide PollCalls, BuildOcoPayload;
  }

  lemma AskedCloses(calls: seq<Call>, more: seq<Call>, r: OrderRecord, i: nat)
    requires i < |more| && Sent(r, calls) && NoEntry(more, r.id) && RecordOk(r) && AsksFor(more[i], r)
    ensures ClosesItsEntry(calls + more, |calls| + i)
  {
    hide RecordOk, Sent, ClosesItsEntry, BuildOcoPayload, AcceptedEntry;
    NewTriggerCloses(calls, more, r, more[i].payload.lastPrice, i);
  }

  lemma ListedIsOk(w: World, records: seq<OrderRecord>, n: nat)
    requires Sound(w) && Matched(w) && ListsOpen(w.rows, records) && n < |records|
    ensures RecordOk(records[n]) && Sent(records[n], w.calls)
  {
    hide RecordOk, GttOnExchange, Sent, ClosesItsEntry;
    assert records[n].id in w.rows;
  }

  lemma PollCloses(w: World, records: seq<OrderRecord>, m: Market, now: int, i: nat)
    requires Sound(w) && Matched(w) && ListsOpen(w.rows, records) && i < |PollCalls(records, m, now)|
    ensures ClosesItsEntry(w.calls + PollCalls(records, m, now), |w.calls| + i)
  {
    hide *;
    var n := PollAsks(records, m, now, i);
    ListedIsOk(w, records, n);
    PollHasNoEntry(records, m, now, records[n].id);
    AskedCloses(w.calls, PollCalls(records, m, now), records[n], i);
  }

  /** Calls that neither place an accepted entry nor ask for a trigger. */
  predicate Idle(calls: seq<Call>) {
    forall i :: 0 <= i < |calls| ==> !calls[i].PlaceEntry? && !calls[i].PlaceGtt?
  }

  lemma {:induction false} CancelIsIdle(records: seq<OrderRecord>)
    ensures Idle(CancelCalls(records))
  {
    if records != [] {
      CancelIsIdle(records[..|records| - 1]);
      hide Cancellable;
    }
  }

  lemma FlattenIsIdle(records: seq<OrderRecord>, positions: seq<Position>)
    ensures Idle(CancelCalls(records) + SquareOffCalls(positions))
  {
    CancelIsIdle(records);
    hide CancelCalls;
  }

  /** The calls of a step all close their entries. */
  lemma StepKeepsTriggers(w: World, e: Event, i: nat)
    requires Sound(w) && Matched(w) && i < |Step(w, e).calls|
    ensures ClosesItsEntry(Step(w, e).calls, i)
  {
    hide PollCalls, CancelCalls, SquareOffCalls, Sent, Sound, ClosesItsEntry, ListsOpen, PolledRows, CancelledRows, MarkedRows, NewRecord;
    match e
    case Poll(records, market, now) =>
      if ListsOpen(w.rows, records) {
        if i < |w.calls| {
          OldTriggerStillCloses(w.calls, PollCalls(records, market, now), i);
        } else {
          PollCloses(w, records, market, now, i - |w.calls|);
        }
      }
    case Flatten(records, positions, now) =>
      if ListsOpen(w.rows, records) {
        var more := CancelCalls(records) + SquareOffCalls(positions);
        FlattenIsIdle(records, positions);
        assert w.calls + CancelCalls(records) + SquareOffCalls(positions) == w.calls + more;
        KeepsTriggers(w.calls, more, i);
      }
    case Place(s, qty, killSwitch, reply, now) =>
      if Step(w, e).calls != w.calls {
        KeepsTriggers(w.calls, [PlaceEntry(IdOf(s), s.side, qty, s.entry, reply.Answer?)], i);
      }
    case _ =>
  }

  lemma KeepsTriggers(calls: seq<Call>, more: seq<Call>, i: nat)
    requires forall n :: 0 <= n < |calls| ==> ClosesItsEntry(calls, n)
    requires i < |calls| + |more| && forall n :: 0 <= n < |more| ==> !more[n].PlaceGtt?
    ensures ClosesItsEntry(calls + more, i)
  {
    if i < |calls| {
      hide ClosesItsEntry;
      OldTriggerStillCloses(calls, more, i);
    } else {
      assert (calls + more)[i] == more[i - |calls|];
    }
  }

  lemma NewRowSent(calls: seq<Call>, s: Signal, qty: int, entryOrderId: string, now: int)
    ensures Sent(NewRecord(s, qty, entryOrderId, now), calls + [PlaceEntry(IdOf(s), s.side, qty, s.entry, true)])
  {
    var all := calls + [PlaceEntry(IdOf(s), s.side, qty, s.entry, true)];
    assert LatestEntry(all, IdOf(s), |calls|);
  }

  lemma PlaceKeepsSent(w: World, e: Event, id: OrderId)
    requires e.Place? && Keyed(w.rows) && (id in w.rows ==> Sent(w.rows[id], w.calls)) && id in Step(w, e).rows
    ensures Sent(Step(w, e).rows[id], Step(w, e).calls)
  {
    hide Sent, NewRecord, Blocks;
    var next := Step(w, e);
    if next.calls != w.calls {
      var sent := PlaceEntry(IdOf(e.s), e.s.side, e.qty, e.s.entry, e.reply.Answer?);
      assert next.calls == w.calls + [sent];
      if e.reply.Answer? && id == IdOf(e.s) {
        NewRowSent(w.calls, e.s, e.qty, e.reply.value, e.now);
      } else {
        SentStays(w.rows[id], w.calls, [sent]);
      }
    }
  }

  /** Apart from placements, a step neither changes what was ordered nor sends an entry. */
  lemma OthersKeepSent(w: World, e: Event, id: OrderId)
    requires !e.Place? && Sound(w) && id in w.rows && Sent(w.rows[id], w.calls)
    ensures id in Step(w, e).rows && Sent(Step(w, e).rows[id], Step(w, e).calls)
  {
    OthersKeepOrder(w, e, id);
    var more := OthersSend(w, e, id);
    hide Step, Sound, Sent, NoEntry;
    SentStays(w.rows[id], w.calls, more);
    SentAsNow(w.rows[id], Step(w, e).rows[id], Step(w, e).calls);
  }

  lemma OthersKeepOrder(w: World, e: Event, id: OrderId)
    requires !e.Place? && Sound(w) && id in w.rows
    ensures id in Step(w, e).rows && SameOrder(w.rows[id], Step(w, e).rows[id])
  {
    OthersKeepRow(w, e, id);
    StepFollowsEdges(w, e, id);
    hide Step, Sound;
  }

  lemma OthersKeepRow(w: World, e: Event, id: OrderId)
    requires !e.Place? && id in w.rows
    ensures id in Step(w, e).rows
  {
    hide AdvanceOne, ListsOpen, PollCalls, CancelCalls, SquareOffCalls;
  }

  lemma OthersSend(w: World, e: Event, id: OrderId) returns (more: seq<Call>)
    requires !e.Place?
    ensures Step(w, e).calls == w.calls + more && NoEntry(more, id)
  {
    hide PollCalls, CancelCalls, SquareOffCalls, ListsOpen, PolledRows, CancelledRows, MarkedRows;
    more := [];
    match e
    case Poll(records, market, now) =>
      if ListsOpen(w.rows, records) {
        more := PollCalls(records, market, now);
        PollHasNoEntry(records, market, now, id);
      }
    case Flatten(records, positions, now) =>
      if ListsOpen(w.rows, records) {
        more := CancelCalls(records) + SquareOffCalls(positions);
        FlattenIsIdle(records, positions);
      }
    case _ =>
  }

  lemma StepKeepsMatched(w: World, e: Event)
    requires Sound(w) && Matched(w)
    ensures Matched(Step(w, e))
  {
    hide Step, Sent, ClosesItsEntry, RecordOk, GttOnExchange;
    forall id | id in Step(w, e).rows ensures Sent(Step(w, e).rows[id], Step(w, e).calls) {
      if e.Place? {
        PlaceKeepsSent(w, e, id);
      } else {
        OthersAddNoRow(w, e, id);
        OthersKeepSent(w, e, id);
      }
    }
    forall i | 0 <= i < |Step(w, e).calls| ensures ClosesItsEntry(Step(w, e).calls, i) {
      StepKeepsTriggers(w, e, i);
    }
  }

  lemma OthersAddNoRow(w: World, e: Event, id: OrderId)
    requires !e.Place? && id in Step(w, e).rows
    ensures id in w.rows
  {
    hide AdvanceOne, ListsOpen, PollCalls, CancelCalls, SquareOffCalls;
  }

  /** Over every history, restarts included: each record carries the side, quantity
      and price of the last entry the exchange accepted for its id, and each exit
      trigger ever asked for closes exactly the entry accepted last before it. */
  lemma {:induction false} AlwaysMatched(es: seq<Event>)
    ensures Matched(After(es))
  {
    hide Step, Sound, Matched;
    if es == [] {
      NothingToMatch();
    } else {
      AlwaysMatched(es[..|es| - 1]);
      AlwaysSound(es[..|es| - 1]);
      StepKeepsMatched(After(es[..|es| - 1]), es[|es| - 1]);
    }
  }

  lemma NothingToMatch()
    ensures Matched(EMPTY)
  {
  }
}
