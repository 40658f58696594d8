// The lifecycle as the objects live it: one store and one exchange connection,
// a broker that is thrown away and rebuilt on every restart, and the operator's
// service beside it, driven by any sequence of operations.

module OrderSession {
  import opened Wrappers
  import opened Signals
  import opened OrderStates
  import opened OrdersService
  import opened Kite
  import opened OrderLifecycle
  import opened OrderTriggers
  import opened OrderEntries

  /** One operation, with everything the outside world answers to it. */
  datatype Operation =
    | DoPlace(s: Signal, qty: int, killSwitch: bool, reply: Reply<string>, now: int)
    | DoPoll(orders: Reply<seq<OrderRow>>, gtts: Reply<seq<GttRow>>, gttReply: OrderId -> Reply<GttResponse>, now: int)
    | DoFlatten(positions: PositionReads, now: int)
    | DoMark(id: OrderId, state: OrderState, reason: string, now: int)
    | DoRestart

  /** A poll gets as far as the records: the order book was answered, the trigger
      list raised nothing but a broker error, and there is an open row. */
  ghost predicate PollsRecords(w: World, orders: Reply<seq<OrderRow>>, gtts: Reply<seq<GttRow>>) {
    orders.Answer? && !gtts.OtherError? && exists id :: id in w.rows && IsOpen(w.rows[id])
  }

  /** The event that stands for an operation on a world in the protocol: for a poll
      that does not get as far as the records, no change at all. */
  ghost predicate Records(op: Operation, w: World, e: Event) {
    match op
    case DoPlace(s, qty, killSwitch, reply, now) => e == Event.Place(s, qty, killSwitch, reply, now)
    case DoPoll(orders, gtts, gttReply, now) =>
      if PollsRecords(w, orders, gtts) then
        && e.Poll? && e.now == now && ListsOpen(w.rows, e.records)
        && e.market == Market(OrdersById(orders.value), GttsById(if gtts.Answer? then gtts.value else []), gttReply)
      else e == Event.Restart
    case DoFlatten(positions, now) =>
      e.Flatten? && ListsOpen(w.rows, e.records) && e.positions == Residual(positions(0)) && e.now == now
    case DoMark(id, state, reason, now) => e == Event.Mark(id, state, reason, now)
    case DoRestart => e == Event.Restart
  }

  ghost function WorldOf(store: OrderStateStore, client: KiteClient): World
    reads store, client
  {
    World(store.rows, client.calls)
  }

  method Poll(broker: KiteBroker, store: OrderStateStore, op: Operation) returns (ghost e: Event)
    requires op.DoPoll? && broker.store == store && Keyed(store.rows)
    modifies broker, store, broker.client
    ensures Records(op, old(WorldOf(store, broker.client)), e)
    ensures WorldOf(store, broker.client) == Step(old(WorldOf(store, broker.client)), e)
  {
    hide ListsOpen, PolledRows, PollCalls, OrdersById, GttsById, IsOpen;
    ghost var w := WorldOf(store, broker.client);
    var raised, records := broker.PollAndAdvance(op.orders, op.gtts, op.gttReply, op.now);
    SomethingOpenExactlyWhen(w.rows, records);
    if records == [] || !op.orders.Answer? || op.gtts.OtherError? {
      e := Event.Restart;
    } else {
      var m := Market(OrdersById(op.orders.value), GttsById(if op.gtts.Answer? then op.gtts.value else []), op.gttReply);
      e := Event.Poll(records, m, op.now);
    }
  }

  lemma SomethingOpenExactlyWhen(rows: Rows, records: seq<OrderRecord>)
    requires ListsOpen(rows, records)
    ensures records != [] <==> exists id :: id in rows && IsOpen(rows[id])
  {
    if records != [] {
      assert records[0].id in rows && IsOpen(rows[records[0].id]);
    }
    hide IsOpen;
  }

  /** Whatever is done to the objects is that operation's step of the protocol. */
  method Perform(broker: KiteBroker, service: OrdersService, op: Operation) returns (next: KiteBroker, ghost e: Event)
    requires broker.store == service.store && Keyed(service.store.rows)
    modifies broker, service.store, broker.client
    ensures next == broker || fresh(next)
    ensures next.store == service.store && next.client == broker.client
    ensures Records(op, old(WorldOf(service.store, broker.client)), e)
    ensures WorldOf(service.store, broker.client) == Step(old(WorldOf(service.store, broker.client)), e)
  {
    hide ListsOpen, PolledRows, PollCalls, CancelledRows, CancelCalls, SquareOffCalls, MarkedRows, OpenPositions, FlattenVerdict,
         DecidingRead, OrdersById, GttsById;
    next := broker;
    match op
    case DoPlace(s, qty, killSwitch, reply, now) =>
      var result := broker.PlaceBracketOrder(s, qty, killSwitch, reply, now);
      e := Event.Place(s, qty, killSwitch, reply, now);
    case DoPoll(_, _, _, _) =>
      e := Poll(broker, service.store, op);
    case DoFlatten(positions, now) =>
      ghost var records: seq<OrderRecord>;
      var outcome, readCount;
      outcome, readCount, records := broker.FlattenAll(positions, now);
      e := Event.Flatten(records, Residual(positions(0)), now);
    case DoMark(id, state, reason, now) =>
      var result := service.Mark(id, state, reason, now);
      e := Event.Mark(id, state, reason, now);
    case DoRestart =>
      next := new KiteBroker(broker.client, service.store);
      e := Event.Restart;
  }

  /** Any sequence of operations on a fresh store and connection leaves behind
      the world of its own protocol history: every record is sound, the exchange
      accepted each id once per death of its record, plus once if it is alive, and
      every trigger it granted is held, cancelled or dropped; and every record and
      every trigger answers to the entry accepted for it. */
  method Operate(store: OrderStateStore, client: KiteClient, ops: seq<Operation>) returns (ghost history: seq<Event>)
    requires store.rows == map[] && client.calls == []
    modifies store, client
    ensures |history| == |ops| && forall i :: 0 <= i < |ops| ==> Records(ops[i], After(history[..i]), history[i])
    ensures WorldOf(store, client) == After(history) && Sound(WorldOf(store, client)) && Matched(WorldOf(store, client))
    ensures forall id :: Accepted(client.calls, id) == Deaths(history, id) + if Live(store.rows, id) then 1 else 0
    ensures forall id :: Granted(client.calls, id) == One(Holds(store.rows, id)) + FlattenedAway(history, id) + Dropped(history, id)
  {
    hide Step, Accepted, Deaths, Live, RecordOk, GttOnExchange, Records, Granted, Holds, FlattenedAway, Dropped, Sent,
         ClosesItsEntry;
    var broker := new KiteBroker(client, store);
    var service := new OrdersService(store);
    history := [];
    for n := 0 to |ops|
      invariant fresh(broker) && broker.store == service.store == store && broker.client == client
      invariant |history| == n && WorldOf(store, client) == After(history)
      invariant forall i :: 0 <= i < n ==> Records(ops[i], After(history[..i]), history[i])
    {
      AlwaysSound(history);
      ghost var e;
      broker, e := Perform(broker, service, ops[n]);
      assert (history + [e])[..n] == history && forall i :: 0 <= i < n ==> (history + [e])[..i] == history[..i];
      history := history + [e];
    }
    AlwaysSound(history);
    AlwaysMatched(history);
    forall id
      ensures Accepted(client.calls, id) == Deaths(history, id) + if Live(store.rows, id) then 1 else 0
      ensures Granted(client.calls, id) == One(Holds(store.rows, id)) + FlattenedAway(history, id) + Dropped(history, id)
    {
      EntriesMatchDeaths(history, id);
      EveryTriggerAccountedFor(history, id);
    }
  }
}
