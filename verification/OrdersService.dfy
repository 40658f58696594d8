// The dashboard's only write into the order store: an operator flips a stuck
// open record into a terminal state, without telling the exchange.

module OrdersService {
  import opened Wrappers
  import opened OrderStates

  datatype MarkError = StateNotPermitted | RecordNotOpen

  predicate MarkPermitted(state: OrderState) { state == FAILED || state == CANCELLED }

  function Marked(r: OrderRecord, state: OrderState, reason: string, now: int): OrderRecord {
    r.(state := state, error := Some(reason), updatedAt := now)
  }

  function MarkedRows(rows: Rows, id: OrderId, state: OrderState, reason: string, now: int): Rows {
    if MarkPermitted(state) && id in rows && IsOpen(rows[id]) then rows[id := Marked(rows[id], state, reason, now)]
    else rows
  }

  class OrdersService {
    const store: OrderStateStore

    constructor (store: OrderStateStore)
      ensures this.store == store
    {
      this.store := store;
    }

    method Mark(id: OrderId, state: OrderState, reason: string, now: int)
      returns (result: Result<Option<OrderRecord>, MarkError>)
      requires Keyed(store.rows)
      modifies store
      ensures store.rows == MarkedRows(old(store.rows), id, state, reason, now)
      ensures !MarkPermitted(state) <==> result == Err(StateNotPermitted)
      ensures result == Err(RecordNotOpen) <==>
                MarkPermitted(state) && id in old(store.rows) && !IsOpen(old(store.rows)[id])
      ensures result == Ok(None) <==> MarkPermitted(state) && id !in old(store.rows)
      ensures result.Ok? && result.value.Some? ==> id in store.rows && result.value.value == store.rows[id]
    {
      if state != FAILED && state != CANCELLED {
        return Err(StateNotPermitted);
      }
      var existing := store.Get(id);
      if existing.None? {
        return Ok(None);
      }
      if !IsOpen(existing.value) {
        return Err(RecordNotOpen);
      }
      var updated := existing.value.(state := state, error := Some(reason), updatedAt := now);
      store.Upsert(updated);
      return Ok(Some(updated));
    }
  }
}
