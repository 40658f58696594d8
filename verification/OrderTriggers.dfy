// What becomes of the exit triggers the exchange grants: over any history each
// one is held by a record, was cancelled by a flatten, or was dropped by a mark.

module OrderTriggers {
  import opened Wrappers
  import opened Signals
  import opened OrderStates
  import opened OrdersService
  import opened Kite
  import opened OrderLifecycle

  predicate Grants(c: Call, id: OrderId) { c.PlaceGtt? && c.tag == id && c.triggerId.Some? }

  /** How many triggers the exchange granted for `id`. */
  function Granted(calls: seq<Call>, id: OrderId): nat {
    if calls == [] then 0
    else Granted(calls[..|calls| - 1], id) + if Grants(calls[|calls| - 1], id) then 1 else 0
  }

  /** The record has a trigger, waiting or triggered. */
  predicate Holds(rows: Rows, id: OrderId) { id in rows && rows[id].state in {ENTERED, EXITED} }

  function One(b: bool): nat { if b then 1 else 0 }

  /** The steps of a history that took an entered record off its trigger: by
      flattening, which sends the deletion, and by marking, which sends nothing. */
  ghost function FlattenedAway(es: seq<Event>, id: OrderId): nat {
    if es == [] then 0
    else
      FlattenedAway(es[..|es| - 1], id) +
      One(es[|es| - 1].Flatten? && Holds(After(es[..|es| - 1]).rows, id) && !Holds(After(es).rows, id))
  }

  ghost function Dropped(es: seq<Event>, id: OrderId): nat {
    if es == [] then 0
    else
      Dropped(es[..|es| - 1], id) +
      One(es[|es| - 1].Mark? && Holds(After(es[..|es| - 1]).rows, id) && !Holds(After(es).rows, id))
  }

  lemma {:induction false} GrantedConcat(a: seq<Call>, b: seq<Call>, id: OrderId)
    ensures Granted(a + b, id) == Granted(a, id) + Granted(b, id)
  {
    if b == [] {
      assert a + b == a;
    } else {
      assert (a + b)[..|a + b| - 1] == a + b[..|b| - 1];
      GrantedConcat(a, b[..|b| - 1], id);
    }
  }

  lemma {:induction false} NoGrants(calls: seq<Call>, id: OrderId)
    requires forall i :: 0 <= i < |calls| ==> !Grants(calls[i], id)
    ensures Granted(calls, id) == 0
  {
    if calls != [] {
      NoGrants(calls[..|calls| - 1], id);
    }
  }

  /** A poll enters this record, which is the one of `id`. */
  predicate Enters(r: OrderRecord, m: Market, now: int, id: OrderId) {
    r.id == id && r.state == PENDING_ENTRY && AdvanceOne(r, m, now).record.state == ENTERED
  }

  lemma AdvanceGrants(r: OrderRecord, m: Market, now: int, id: OrderId)
    ensures var a := AdvanceOne(r, m, now);
            a.call.Some? && Grants(a.call.value, id) <==> Enters(r, m, now, id)
  {
    hide BuildOcoPayload, ExtractExitPrice, ExitPnl;
  }

  lemma GrantedByOne(r: OrderRecord, m: Market, now: int, id: OrderId)
    ensures Granted(ToSeq(AdvanceOne(r, m, now).call), id) == One(Enters(r, m, now, id))
  {
    AdvanceGrants(r, m, now, id);
    hide AdvanceOne, Enters;
    var call := AdvanceOne(r, m, now).call;
    if call.Some? {
      assert [call.value][..0] == [];
    }
  }

  ghost predicate SomeEnters(records: seq<OrderRecord>, m: Market, now: int, id: OrderId) {
    exists i :: 0 <= i < |records| && Enters(records[i], m, now, id)
  }

  predicate DistinctIds(records: seq<OrderRecord>) {
    forall i, j :: 0 <= i < j < |records| ==> records[i].id != records[j].id
  }

  lemma SomeEntersNext(init: seq<OrderRecord>, last: OrderRecord, m: Market, now: int, id: OrderId)
    requires DistinctIds(init + [last])
    ensures One(SomeEnters(init + [last], m, now, id)) == One(SomeEnters(init, m, now, id)) + One(Enters(last, m, now, id))
    ensures DistinctIds(init)
  {
    var records := init + [last];
    assert records[|init|] == last && forall i :: 0 <= i < |init| ==> records[i] == init[i];
    hide AdvanceOne;
    if i :| 0 <= i < |init| && Enters(init[i], m, now, id) {
      assert Enters(records[i], m, now, id) && records[i].id != last.id;
    }
  }

  lemma PollCallsNext(init: seq<OrderRecord>, last: OrderRecord, m: Market, now: int)
    ensures PollCalls(init + [last], m, now) == PollCalls(init, m, now) + ToSeq(AdvanceOne(last, m, now).call)
  {
    assert (init + [last])[..|init|] == init;
    hide AdvanceOne;
  }

  /** One poll is granted a trigger for `id` exactly when it enters that record. */
  lemma {:induction false} GrantedByPoll(records: seq<OrderRecord>, m: Market, now: int, id: OrderId)
    requires DistinctIds(records)
    ensures Granted(PollCalls(records, m, now), id) == One(SomeEnters(records, m, now, id))
  {
    hide AdvanceOne, Granted, PollCalls, Enters, SomeEnters, DistinctIds;
    if records == [] {
      NoneEnters(m, now, id);
    } else {
      var init, last := records[..|records| - 1], records[|records| - 1];
      assert records == init + [last];
      SomeEntersNext(init, last, m, now, id);
      GrantedByPoll(init, m, now, id);
      GrantedByOne(last, m, now, id);
      PollCallsNext(init, last, m, now);
      GrantedConcat(PollCalls(init, m, now), ToSeq(AdvanceOne(last, m, now).call), id);
    }
  }

  lemma NoneEnters(m: Market, now: int, id: OrderId)
    ensures Granted(PollCalls([], m, now), id) == 0 && !SomeEnters([], m, now, id)
  {
  }

  lemma PollGrants(w: World, records: seq<OrderRecord>, m: Market, now: int, id: OrderId)
    requires Keyed(w.rows) && ListsOpen(w.rows, records)
    ensures Granted(PollCalls(records, m, now), id) == One(id in w.rows && Enters(w.rows[id], m, now, id))
  {
    GrantedByPoll(records, m, now, id);
    hide AdvanceOne, Granted, PollCalls;
    if id in w.rows && w.rows[id].state == PENDING_ENTRY {
      assert IsOpen(w.rows[id]);
      var i :| 0 <= i < |records| && records[i].id == id;
      assert records[i] == w.rows[id];
    }
  }

  lemma PolledIds(w: World, records: seq<OrderRecord>, m: Market, now: int, id: OrderId)
    ensures id in Step(w, Poll(records, m, now)).rows <==> id in w.rows
  {
    hide AdvanceOne, ListsOpen, PollCalls;
  }

  lemma PolledHolds(w: World, records: seq<OrderRecord>, m: Market, now: int, id: OrderId)
    requires Keyed(w.rows) && ListsOpen(w.rows, records)
    ensures var next := Step(w, Poll(records, m, now));
            && (Holds(w.rows, id) ==> Holds(next.rows, id))
            && (!Holds(w.rows, id) && Holds(next.rows, id) <==> id in w.rows && Enters(w.rows[id], m, now, id))
  {
    PolledIds(w, records, m, now, id);
    hide Step, AdvanceOne, ListsOpen, SameOrder;
    if id in w.rows {
      PolledRecord(w, Poll(records, m, now), id);
      PollFollowsEdges(w.rows[id], m, now);
    }
  }

  /** A step is granted a trigger for `id` exactly when its record takes one up. */
  lemma StepGrants(w: World, e: Event, id: OrderId)
    requires Sound(w)
    ensures Granted(Step(w, e).calls, id) == Granted(w.calls, id) + One(!Holds(w.rows, id) && Holds(Step(w, e).rows, id))
  {
    hide Granted, ListsOpen, PollCalls, CancelCalls, SquareOffCalls, AdvanceOne, Enters, RecordOk, GttOnExchange;
    match e
    case Poll(records, market, now) =>
      if ListsOpen(w.rows, records) {
        PollGrants(w, records, market, now, id);
        PolledHolds(w, records, market, now, id);
        GrantedConcat(w.calls, PollCalls(records, market, now), id);
      }
    case Place(s, qty, killSwitch, reply, now) =>
      var sent := [PlaceEntry(IdOf(s), s.side, qty, s.entry, reply.Answer?)];
      NoGrants(sent, id);
      GrantedConcat(w.calls, sent, id);
    case Flatten(records, positions, now) =>
      CancelGrantsNothing(records, id);
      NoGrants(SquareOffCalls(positions), id) by { SquareOffGrantsNothing(positions, id); }
      GrantedConcat(w.calls, CancelCalls(records), id);
      GrantedConcat(w.calls + CancelCalls(records), SquareOffCalls(positions), id);
    case _ =>
  }

  lemma SquareOffGrantsNothing(positions: seq<Position>, id: OrderId)
    ensures forall i :: 0 <= i < |SquareOffCalls(positions)| ==> !Grants(SquareOffCalls(positions)[i], id)
  {
  }

  lemma {:induction false} CancelGrantsNothing(records: seq<OrderRecord>, id: OrderId)
    ensures Granted(CancelCalls(records), id) == 0
  {
    if records != [] {
      var init, last := records[..|records| - 1], records[|records| - 1];
      CancelGrantsNothing(init, id);
      var sent := if Cancellable(last) then [DeleteGtt(last.slGttId.value)] else [];
      NoGrants(sent, id);
      GrantedConcat(CancelCalls(init), sent, id);
    }
  }

  /** A record lets go of its trigger only by a flatten or an operator's mark. */
  lemma LetsGoOnlyBy(w: World, e: Event, id: OrderId)
    requires Sound(w) && Holds(w.rows, id) && !Holds(Step(w, e).rows, id)
    ensures e.Flatten? || e.Mark?
  {
    StepFollowsEdges(w, e, id);
    hide Step, Sound;
  }

  /** Over every history, the triggers granted for an id are those its record holds
      now, plus those a flatten cancelled, plus those a mark dropped. */
  lemma {:induction false} EveryTriggerAccountedFor(es: seq<Event>, id: OrderId)
    ensures Granted(After(es).calls, id) == One(Holds(After(es).rows, id)) + FlattenedAway(es, id) + Dropped(es, id)
  {
    hide Step, Sound, Granted, Holds;
    if es == [] {
      NoTriggerYet(id);
    } else {
      var before, e := es[..|es| - 1], es[|es| - 1];
      EveryTriggerAccountedFor(before, id);
      AlwaysSound(before);
      StepGrants(After(before), e, id);
      if Holds(After(before).rows, id) && !Holds(After(es).rows, id) {
        LetsGoOnlyBy(After(before), e, id);
      }
    }
  }

  lemma NoTriggerYet(id: OrderId)
    ensures Granted(EMPTY.calls, id) == 0 && !Holds(EMPTY.rows, id)
  {
  }

  /** So the triggers an operator's marks leave behind on the exchange are exactly
      those granted, not held, and not cancelled by a flatten; a dropped trigger's
      id can be placed again at once. */
  lemma MarkSendsNothing(w: World, e: Event, id: OrderId)
    requires e.Mark? && Holds(w.rows, id) && !Holds(Step(w, e).rows, id)
    ensures Step(w, e).calls == w.calls && !Live(Step(w, e).rows, id) && id in Step(w, e).rows
  {
  }
}
