// Persistent order records and the store that keeps one row per client order id.

module OrderStates {
  import opened Wrappers
  import opened Signals

  datatype OrderState = PENDING_ENTRY | ENTERED | EXITED | FAILED | CANCELLED

  /** The deterministic id of an order, taken as the data it is hashed from. */
  datatype OrderId = OrderId(strategyId: string, signalTs: int, symbol: string)

  datatype OrderRecord = OrderRecord(
    id: OrderId, symbol: string, side: SignalSide, qty: int,
    entryPrice: real, stopLoss: real, target: real, state: OrderState,
    entryOrderId: Option<string>, slGttId: Option<int>, targetGttId: Option<int>,
    fillPrice: Option<real>, exitPrice: Option<real>, pnl: Option<real>,
    createdAt: int, updatedAt: int, error: Option<string>)

  type Rows = map<OrderId, OrderRecord>

  predicate IsOpen(r: OrderRecord) { r.state == PENDING_ENTRY || r.state == ENTERED }

  /** Every row is stored under its own id. */
  predicate Keyed(rows: Rows) { forall id <- rows :: rows[id].id == id }

  function Lookup(rows: Rows, id: OrderId): Option<OrderRecord> {
    if id in rows then Some(rows[id]) else None
  }

  /** `records` are exactly the open rows, each once, oldest first. */
  ghost predicate ListsOpen(rows: Rows, records: seq<OrderRecord>) {
    && (forall i :: 0 <= i < |records| ==>
          IsOpen(records[i]) && records[i].id in rows && rows[records[i].id] == records[i])
    && (forall i, j :: 0 <= i < j < |records| ==>
          records[i].id != records[j].id && records[i].createdAt <= records[j].createdAt)
    && (forall id :: id in rows && IsOpen(rows[id]) ==> exists i :: 0 <= i < |records| && records[i].id == id)
  }

  lemma {:induction false} OldestExists(rows: Rows, ids: set<OrderId>) returns (oldest: OrderId)
    requires ids <= rows.Keys && ids != {}
    ensures oldest in ids && forall other <- ids :: rows[oldest].createdAt <= rows[other].createdAt
  {
    var any := AnyElement(ids);
    if ids == {any} {
      oldest := any;
    } else {
      var rest := OldestExists(rows, ids - {any});
      oldest := if rows[any].createdAt <= rows[rest].createdAt then any else rest;
    }
  }

  /** Halfway: `records` are listed, the open rows of `left` are still to come. */
  ghost predicate Listing(rows: Rows, left: set<OrderId>, records: seq<OrderRecord>) {
    && left <= rows.Keys && (forall id <- left :: IsOpen(rows[id]))
    && (forall i :: 0 <= i < |records| ==>
          IsOpen(records[i]) && records[i].id in rows && rows[records[i].id] == records[i] && records[i].id !in left)
    && (forall i, j :: 0 <= i < j < |records| ==>
          records[i].id != records[j].id && records[i].createdAt <= records[j].createdAt)
    && (forall i, id :: 0 <= i < |records| && id in left ==> records[i].createdAt <= rows[id].createdAt)
    && (forall id :: id in rows && IsOpen(rows[id]) ==> id in left || exists i :: 0 <= i < |records| && records[i].id == id)
  }

  lemma ListNext(rows: Rows, left: set<OrderId>, records: seq<OrderRecord>, oldest: OrderId)
    requires Keyed(rows) && Listing(rows, left, records)
    requires oldest in left && forall other <- left :: rows[oldest].createdAt <= rows[other].createdAt
    ensures Listing(rows, left - {oldest}, records + [rows[oldest]])
  {
    hide IsOpen;
    var next := records + [rows[oldest]];
    assert next[|records|].id == oldest;
    forall id | id in rows && IsOpen(rows[id])
      ensures id in left - {oldest} || exists i :: 0 <= i < |next| && next[i].id == id
    {
      if id !in left {
        var i :| 0 <= i < |records| && records[i].id == id;
        assert next[i].id == id;
      }
    }
  }

  class OrderStateStore {
    var rows: Rows

    constructor ()
      ensures rows == map[]
    {
      rows := map[];
    }

    /** Insert or replace one row; every other row is left alone. */
    method Upsert(record: OrderRecord)
      modifies this
      ensures rows == old(rows)[record.id := record]
    {
      rows := rows[record.id := record];
    }

    method Get(id: OrderId) returns (found: Option<OrderRecord>)
      ensures found == Lookup(rows, id)
    {
      found := if id in rows then Some(rows[id]) else None;
    }

    method ListOpen() returns (records: seq<OrderRecord>)
      requires Keyed(rows)
      ensures ListsOpen(rows, records)
    {
      records := [];
      var left := set id | id in rows && IsOpen(rows[id]);
      while left != {}
        invariant Listing(rows, left, records)
        decreases left
      {
        ghost var witnessId := OldestExists(rows, left);
        var oldest :| oldest in left && forall other <- left :: rows[oldest].createdAt <= rows[other].createdAt;
        ListNext(rows, left, records, oldest);
        records := records + [rows[oldest]];
        left := left - {oldest};
      }
    }
  }
}
