// How a record comes to FAILED.  The state's description says the entry was
// rejected or never filled; three kinds of step bring a filled entry there.

module OrderFailures {
  import opened Wrappers
  import opened Signals
  import opened OrderStates
  import opened OrdersService
  import opened Kite
  import opened OrderLifecycle

  predicate GttGranted(reply: Reply<GttResponse>) {
    reply.Answer? && ExtractTriggerId(reply.value).Some?
  }

  /** The order book has the entry of `r`, with one of these statuses. */
  predicate EntryIs(r: OrderRecord, m: Market, statuses: set<string>) {
    r.entryOrderId.Some? && r.entryOrderId.value in m.orders && m.orders[r.entryOrderId.value].status in statuses
  }

  /** A poll fails a pending record on a rejected entry, and also on a filled one
      whose exit trigger the exchange does not grant. */
  lemma PendingFailsExactlyWhen(r: OrderRecord, m: Market, now: int)
    requires RecordOk(r)
    ensures r.state != FAILED && AdvanceOne(r, m, now).record.state == FAILED <==>
            && r.state == PENDING_ENTRY
            && (EntryIs(r, m, {"REJECTED", "CANCELLED"}) || (EntryIs(r, m, {"COMPLETE"}) && !GttGranted(m.gttReply(r.id))))
  {
    hide BuildOcoPayload, ExtractExitPrice, ExitPnl;
  }

  // ----- over every kind of step

  /** This poll is the one that sees the entry of `id` with such a status. */
  ghost predicate Sees(w: World, e: Event, id: OrderId, statuses: set<string>)
    requires id in w.rows
  {
    e.Poll? && ListsOpen(w.rows, e.records) && w.rows[id].state == PENDING_ENTRY && EntryIs(w.rows[id], e.market, statuses)
  }

  predicate MarksFailed(e: Event, id: OrderId) { e.Mark? && e.id == id && e.state == FAILED }

  /** The steps that take a record to FAILED, all of them. */
  lemma StepFailsExactlyWhen(w: World, e: Event, id: OrderId)
    requires Sound(w) && id in w.rows
    ensures id in Step(w, e).rows
    ensures w.rows[id].state != FAILED && Step(w, e).rows[id].state == FAILED <==>
            || Sees(w, e, id, {"REJECTED", "CANCELLED"})
            || (Sees(w, e, id, {"COMPLETE"}) && !GttGranted(e.market.gttReply(id)))
            || (MarksFailed(e, id) && IsOpen(w.rows[id]))
  {
    hide Step, AdvanceOne, ListsOpen, GttGranted, RecordOk, GttOnExchange, Sees;
    if e.Poll? {
      PollFails(w, e, id);
    } else if e.Mark? {
      MarkedRecord(w, e, id);
      OnlyPollsSee(w, e, id);
    } else {
      StepFollowsEdges(w, e, id);
      OnlyPollsSee(w, e, id);
    }
  }

  lemma OnlyPollsSee(w: World, e: Event, id: OrderId)
    requires id in w.rows && !e.Poll?
    ensures !Sees(w, e, id, {"COMPLETE"}) && !Sees(w, e, id, {"REJECTED", "CANCELLED"})
  {
  }

  lemma PollFails(w: World, e: Event, id: OrderId)
    requires e.Poll? && id in w.rows && RecordOk(w.rows[id]) && w.rows[id].id == id
    ensures id in Step(w, e).rows
    ensures w.rows[id].state != FAILED && Step(w, e).rows[id].state == FAILED <==>
            || Sees(w, e, id, {"REJECTED", "CANCELLED"})
            || (Sees(w, e, id, {"COMPLETE"}) && !GttGranted(e.market.gttReply(id)))
  {
    hide Step, AdvanceOne, ListsOpen, GttGranted, RecordOk, EntryIs;
    PolledRecord(w, e, id);
    PendingFailsExactlyWhen(w.rows[id], e.market, e.now);
  }

  lemma MarkedRecord(w: World, e: Event, id: OrderId)
    requires e.Mark? && id in w.rows
    ensures id in Step(w, e).rows
    ensures Step(w, e).rows[id].state == if e.id == id && MarkPermitted(e.state) && IsOpen(w.rows[id]) then e.state else w.rows[id].state
  {
  }

  /** Some of the entry of `r` has been executed, by the exchange's order book. */
  predicate Executed(r: OrderRecord, book: Market) {
    r.entryOrderId.Some? && r.entryOrderId.value in book.orders && book.orders[r.entryOrderId.value].filledQuantity > 0
  }

  /** The entry of `r` has been filled, at least in part: the broker knows, or the
      exchange's order book at this moment says so. */
  predicate EntryFilled(r: OrderRecord, book: Market) {
    r.state == ENTERED || (r.state == PENDING_ENTRY && Executed(r, book))
  }

  /** Over every kind of step, a record whose entry has been filled goes to FAILED
      if and only if a poll sees it rejected or cancelled, for what was left of it;
      or sees it complete and is not granted the exit trigger; or an operator marks
      it failed, noticed or not. */
  lemma FilledEntryFailsExactlyWhen(w: World, e: Event, id: OrderId, book: Market)
    requires Sound(w) && id in w.rows && (e.Poll? ==> e.market == book)
    ensures id in Step(w, e).rows
    ensures EntryFilled(w.rows[id], book) && Step(w, e).rows[id].state == FAILED <==>
            || (Sees(w, e, id, {"REJECTED", "CANCELLED"}) && Executed(w.rows[id], book))
            || (Sees(w, e, id, {"COMPLETE"}) && Executed(w.rows[id], book) && !GttGranted(e.market.gttReply(id)))
            || (MarksFailed(e, id) && EntryFilled(w.rows[id], book))
  {
    hide Step, Sound, ListsOpen, GttGranted, Sees, Executed;
    StepFailsExactlyWhen(w, e, id);
    SeesPending(w, e, id);
  }

  lemma SeesPending(w: World, e: Event, id: OrderId)
    requires id in w.rows
    ensures Sees(w, e, id, {"COMPLETE"}) ==> e.Poll? && w.rows[id].state == PENDING_ENTRY
    ensures Sees(w, e, id, {"REJECTED", "CANCELLED"}) ==> e.Poll? && w.rows[id].state == PENDING_ENTRY
  {
    hide ListsOpen, EntryIs;
  }

  /** Marked before a poll notices, the fill is never noticed: no later poll against
      that book protects the position or changes the record. */
  lemma UnnoticedFillStaysFailed(w: World, id: OrderId, reason: string, now: int, records: seq<OrderRecord>, book: Market)
    requires Sound(w) && id in w.rows && w.rows[id].state == PENDING_ENTRY && Executed(w.rows[id], book)
    ensures var marked := Step(w, Mark(id, FAILED, reason, now));
            var polled := Step(marked, Poll(records, book, now));
            && id in polled.rows && polled.rows[id].state == FAILED
            && id in marked.rows && polled.rows[id] == marked.rows[id]
  {
    var marked := Step(w, Mark(id, FAILED, reason, now));
    MarkedRecord(w, Mark(id, FAILED, reason, now), id);
    PolledRecord(marked, Poll(records, book, now), id);
    hide Step, AdvanceOne, ListsOpen, Executed;
  }

  /** The operator's way: the record fails with its fill price on it, the exchange
      is told nothing, so its exit trigger stays, and the id can be placed anew. */
  lemma MarkFailsFilledEntry(w: World, id: OrderId, reason: string, now: int)
    requires Sound(w) && id in w.rows && w.rows[id].state == ENTERED
    ensures var next := Step(w, Mark(id, FAILED, reason, now));
            && id in next.rows && next.rows[id].state == FAILED && next.rows[id].fillPrice.Some?
            && next.calls == w.calls && !Live(next.rows, id)
            && PlaceGtt(id, BuildOcoPayload(w.rows[id], w.rows[id].fillPrice.value), w.rows[id].slGttId) in next.calls
  {
    hide BuildOcoPayload, ExitPnl;
  }

  lemma OneOpenRecord(r: OrderRecord)
    requires IsOpen(r)
    ensures ListsOpen(map[r.id := r], [r])
  {
    var rows, records := map[r.id := r], [r];
    forall id | id in rows && IsOpen(rows[id])
      ensures exists i :: 0 <= i < |records| && records[i].id == id
    {
      assert records[0].id == id;
    }
  }

  /** The state's description says the entry was rejected or never filled.  A
      history in which it was filled: the trigger is refused, the record fails,
      and the same id is then sent, and accepted, a second time. */
  lemma FilledEntryCanFailAndBeResent(s: Signal, m: Market, now: int) returns (w1: World, w2: World, w3: World)
    requires m.orders == map["oid" := OrderRow("oid", "COMPLETE", 100.0, 1)] && !GttGranted(m.gttReply(IdOf(s)))
    ensures w1 == Step(EMPTY, Place(s, 1, false, Answer("oid"), now))
    ensures w2 == Step(w1, Poll([NewRecord(s, 1, "oid", now)], m, now))
    ensures w3 == Step(w2, Place(s, 1, false, Answer("oid"), now))
    ensures IdOf(s) in w2.rows && w2.rows[IdOf(s)].state == FAILED
    ensures Accepted(w3.calls, IdOf(s)) == 2
  {
    var r, id := NewRecord(s, 1, "oid", now), IdOf(s);
    var place, poll := Place(s, 1, false, Answer("oid"), now), Poll([r], m, now);
    hide Step, Accepted, Sound;
    w1 := Step(EMPTY, place);
    w2 := Step(w1, poll);
    w3 := Step(w2, place);
    EmptyIsSound();
    NothingAccepted(id);
    StepKeepsSound(EMPTY, place);
    StepKeepsSound(w1, poll);
    DeadIdIsPlacedAnew(EMPTY, s, now);
    assert w1.rows == map[id := r];
    RefusedTriggerFails(w1, r, m, now);
    DeadIdIsPlacedAnew(w2, s, now);
    StepAccepts(EMPTY, place, id);
    StepAccepts(w1, poll, id);
    StepAccepts(w2, place, id);
  }

  lemma DeadIdIsPlacedAnew(w: World, s: Signal, now: int)
    requires !Live(w.rows, IdOf(s))
    ensures Step(w, Place(s, 1, false, Answer("oid"), now)).rows == w.rows[IdOf(s) := NewRecord(s, 1, "oid", now)]
  {
  }

  /** A filled entry fails when its exit trigger is refused. */
  lemma RefusedTriggerFails(w: World, r: OrderRecord, m: Market, now: int)
    requires w.rows == map[r.id := r] && r.state == PENDING_ENTRY && r.entryOrderId.Some?
    requires r.entryOrderId.value in m.orders && m.orders[r.entryOrderId.value].status == "COMPLETE"
    requires !GttGranted(m.gttReply(r.id))
    ensures var next := Step(w, Poll([r], m, now));
            r.id in next.rows && next.rows[r.id].state == FAILED
  {
    OneOpenRecord(r);
    RefusalFails(r, m, now);
    hide ListsOpen, PollCalls, AdvanceOne;
  }

  lemma RefusalFails(r: OrderRecord, m: Market, now: int)
    requires r.state == PENDING_ENTRY && r.entryOrderId.Some?
    requires r.entryOrderId.value in m.orders && m.orders[r.entryOrderId.value].status == "COMPLETE"
    requires !GttGranted(m.gttReply(r.id))
    ensures AdvanceOne(r, m, now).record.state == FAILED
  {
    hide BuildOcoPayload;
  }

  lemma AfterOneMore(es: seq<Event>, e: Event)
    ensures After(es + [e]) == Step(After(es), e)
  {
    assert (es + [e])[..|es|] == es;
    hide Step;
  }

  lemma GrantedTriggerEnters(w: World, r: OrderRecord, m: Market, triggerId: int, now: int)
    requires w.rows == map[r.id := r] && r.state == PENDING_ENTRY && r.entryOrderId == Some("oid")
    requires m.orders == map["oid" := OrderRow("oid", "COMPLETE", 100.0, 1)]
    requires m.gttReply(r.id) == Answer(GttResponse(Some(triggerId), None))
    ensures var next := Step(w, Poll([r], m, now));
            && r.id in next.rows && next.rows[r.id].state == ENTERED
            && next.rows[r.id].fillPrice == Some(100.0) && next.rows[r.id].id == r.id
            && (exists payload :: next.calls == w.calls + [PlaceGtt(r.id, payload, Some(triggerId))])
  {
    OneOpenRecord(r);
    var a := AdvanceOne(r, m, now);
    assert a.record.state == ENTERED && a.record.fillPrice == Some(100.0);
    assert [r][..0] == [];
    assert PollCalls([r], m, now) == [a.call.value] by {
      assert PollCalls([], m, now) == [];
      hide AdvanceOne;
    }
    assert a.call.value == PlaceGtt(r.id, BuildOcoPayload(r, 100.0), Some(triggerId));
    hide ListsOpen, AdvanceOne, BuildOcoPayload, PollCalls;
  }

  lemma MarkDropsEntered(w: World, id: OrderId, reason: string, now: int)
    requires id in w.rows && w.rows[id].state == ENTERED
    ensures var next := Step(w, Mark(id, FAILED, reason, now));
            && id in next.rows && next.rows[id].state == FAILED && next.rows[id].fillPrice == w.rows[id].fillPrice
            && next.calls == w.calls && !Live(next.rows, id)
  {
  }

  lemma PlacedAnew(w: World, s: Signal, qty: int, now: int)
    requires !Live(w.rows, IdOf(s)) && qty >= 1
    ensures var next := Step(w, Place(s, qty, false, Answer("oid"), now));
            && next.rows == w.rows[IdOf(s) := NewRecord(s, qty, "oid", now)]
            && next.calls == w.calls + [PlaceEntry(IdOf(s), s.side, qty, s.entry, true)]
  {
  }

  lemma AcceptedOneMore(calls: seq<Call>, c: Call, id: OrderId, n: nat)
    requires Accepted(calls, id) == n
    ensures Accepted(calls + [c], id) == n + if c.PlaceEntry? && c.tag == id && c.accepted then 1 else 0
  {
    OneEntryAccepted(calls, c, id);
  }

  /** And a whole history of it: filled, its trigger granted, marked failed, sent
      and accepted again, with the deletion of the first trigger never sent. */
  lemma MarkedEntryCanBeResent(s: Signal, m: Market, triggerId: int, now: int) returns (before: seq<Event>, es: seq<Event>)
    requires m.orders == map["oid" := OrderRow("oid", "COMPLETE", 100.0, 1)]
    requires m.gttReply(IdOf(s)) == Answer(GttResponse(Some(triggerId), None))
    ensures es == before + [Mark(IdOf(s), FAILED, "stuck", now), Place(s, 1, false, Answer("oid"), now)]
    ensures IdOf(s) in After(before).rows && After(before).rows[IdOf(s)].state == ENTERED
    ensures After(before).rows[IdOf(s)].fillPrice == Some(100.0)
    ensures Accepted(After(es).calls, IdOf(s)) == 2 && DeleteGtt(triggerId) !in After(es).calls
  {
    hide Step, Accepted, After;
    var id, r := IdOf(s), NewRecord(s, 1, "oid", now);
    var place, poll, mark := Place(s, 1, false, Answer("oid"), now), Poll([r], m, now), Mark(id, FAILED, "stuck", now);
    assert [] + [place] == [place];
    before := [place] + [poll];
    es := before + [mark] + [place];
    NoHistory();
    NothingAccepted(id);
    AfterOneMore([], place);
    PlacedAnew(EMPTY, s, 1, now);
    AcceptedOneMore([], PlaceEntry(id, s.side, 1, s.entry, true), id, 0);
    AfterOneMore([place], poll);
    assert EMPTY.rows[id := r] == map[id := r];
    GrantedTriggerEnters(After([place]), r, m, triggerId, now);
    var payload :| After(before).calls == After([place]).calls + [PlaceGtt(id, payload, Some(triggerId))];
    AcceptedOneMore(After([place]).calls, PlaceGtt(id, payload, Some(triggerId)), id, 1);
    AfterOneMore(before, mark);
    MarkDropsEntered(After(before), id, "stuck", now);
    AfterOneMore(before + [mark], place);
    PlacedAnew(After(before + [mark]), s, 1, now);
    AcceptedOneMore(After(before).calls, PlaceEntry(id, s.side, 1, s.entry, true), id, 1);
  }

  lemma NoHistory()
    ensures After([]) == EMPTY
  {
  }

  lemma CancelledEntryFails(w: World, r: OrderRecord, m: Market, now: int)
    requires w.rows == map[r.id := r] && r.state == PENDING_ENTRY && r.entryOrderId == Some("oid")
    requires "oid" in m.orders && m.orders["oid"].status == "CANCELLED"
    ensures var next := Step(w, Poll([r], m, now));
            r.id in next.rows && next.rows[r.id].state == FAILED && next.calls == w.calls && !Live(next.rows, r.id)
  {
    OneOpenRecord(r);
    var a := AdvanceOne(r, m, now);
    assert a.record.state == FAILED && a.call == None;
    assert [r][..0] == [];
    assert PollCalls([r], m, now) == [] by {
      assert PollCalls([], m, now) == [];
      hide AdvanceOne;
    }
    assert w.calls + [] == w.calls;
    hide ListsOpen, AdvanceOne, PollCalls;
  }

  /** A history of the third kind: one unit of several is bought, the rest is
      cancelled, the record fails without any exit trigger, and the id is sent and accepted again. */
  lemma PartFillCanBeResent(s: Signal, qty: int, m: Market, now: int) returns (before: seq<Event>, es: seq<Event>)
    requires qty > 1 && m.orders == map["oid" := OrderRow("oid", "CANCELLED", 100.0, 1)]
    ensures |before| == 2 && es == before + [Place(s, qty, false, Answer("oid"), now)]
    ensures IdOf(s) in After(before[..1]).rows && EntryFilled(After(before[..1]).rows[IdOf(s)], m)
    ensures IdOf(s) in After(before).rows && After(before).rows[IdOf(s)].state == FAILED
    ensures forall c :: c in After(es).calls ==> !c.PlaceGtt?
    ensures Accepted(After(es).calls, IdOf(s)) == 2
  {
    hide Step, Accepted, After;
    var id, r := IdOf(s), NewRecord(s, qty, "oid", now);
    var place, poll := Place(s, qty, false, Answer("oid"), now), Poll([r], m, now);
    assert [] + [place] == [place];
    before := [place] + [poll];
    es := before + [place];
    assert before[..1] == [place];
    NoHistory();
    NothingAccepted(id);
    AfterOneMore([], place);
    PlacedAnew(EMPTY, s, qty, now);
    AcceptedOneMore([], PlaceEntry(id, s.side, qty, s.entry, true), id, 0);
    AfterOneMore([place], poll);
    assert EMPTY.rows[id := r] == map[id := r];
    CancelledEntryFails(After([place]), r, m, now);
    AfterOneMore(before, place);
    PlacedAnew(After(before), s, qty, now);
    AcceptedOneMore(After(before).calls, PlaceEntry(id, s.side, qty, s.entry, true), id, 1);
  }
}
