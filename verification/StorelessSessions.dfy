// A broker without a store: it remembers what it placed only until it restarts.

module StorelessSessions {
  import opened Signals
  import opened OrderStates
  import opened Kite
  import Lifecycle = OrderLifecycle

  datatype Session = Session(memory: set<OrderId>, calls: seq<Call>)

  datatype Event = Place(s: Signal, qty: int, killSwitch: bool, reply: Reply<string>) | Restart

  function Step(w: Session, e: Event): Session {
    match e
    case Restart => w.(memory := {})
    case Place(s, qty, killSwitch, reply) =>
      if killSwitch || qty < 1 || IdOf(s) in w.memory then w
      else Session(if reply.Answer? then w.memory + {IdOf(s)} else w.memory,
                   w.calls + [PlaceEntry(IdOf(s), s.side, qty, s.entry, reply.Answer?)])
  }

  function After(es: seq<Event>): Session {
    if es == [] then Session({}, []) else Step(After(es[..|es| - 1]), es[|es| - 1])
  }

  function Restarts(es: seq<Event>): nat {
    if es == [] then 0 else Restarts(es[..|es| - 1]) + if es[|es| - 1].Restart? then 1 else 0
  }

  /** Each id is accepted at most once per session: one more time than the
      broker has been restarted. */
  lemma {:induction false} OncePerSession(es: seq<Event>, id: OrderId)
    ensures Lifecycle.Accepted(After(es).calls, id) <= Restarts(es) + if id in After(es).memory then 1 else 0
  {
    if es != [] {
      var before, e := After(es[..|es| - 1]), es[|es| - 1];
      OncePerSession(es[..|es| - 1], id);
      if e.Place? {
        var sent := [PlaceEntry(IdOf(e.s), e.s.side, e.qty, e.s.entry, e.reply.Answer?)];
        Lifecycle.AcceptedConcat(before.calls, sent, id);
        assert sent[..0] == [];
      }
    }
  }

  ghost function SessionOf(broker: KiteBroker, client: KiteClient): Session
    reads broker, client
  {
    Session(broker.memoryIds, client.calls)
  }

  /** A broker without a store takes exactly these steps: placements and restarts
      on one connection leave behind the session of the same history, so each id
      was accepted at most once more than the broker was restarted. */
  method Operate(client: KiteClient, events: seq<Event>, now: int) returns (broker: KiteBroker)
    requires client.calls == []
    modifies client
    ensures fresh(broker) && broker.store == null && broker.client == client
    ensures SessionOf(broker, client) == After(events)
    ensures forall id :: Lifecycle.Accepted(client.calls, id) <= Restarts(events) + 1
  {
    hide Restarts, Lifecycle.Accepted;
    broker := new KiteBroker(client, null);
    for n := 0 to |events|
      invariant fresh(broker) && broker.store == null && broker.client == client
      invariant SessionOf(broker, client) == After(events[..n])
    {
      assert events[..n + 1][..n] == events[..n];
      match events[n]
      case Restart => broker := new KiteBroker(client, null);
      case Place(s, qty, killSwitch, reply) =>
        var result := broker.PlaceBracketOrder(s, qty, killSwitch, reply, now);
    }
    assert events[..|events|] == events;
    forall id ensures Lifecycle.Accepted(client.calls, id) <= Restarts(events) + 1 {
      OncePerSession(events, id);
    }
  }
}
