// The live broker: LIMIT entry, one two-leg (OCO) exit trigger once the entry
// fills, and a polling state machine persisted in the order store.  Every
// answer of the exchange is an argument, so it can be anything.

module Kite {
  import opened Wrappers
  import opened Signals
  import opened RealMath
  import opened OrderStates

  /** A remote call after its retries: an answer, a broker error, or another exception. */
  datatype Reply<+T> = Answer(value: T) | KiteError | OtherError

  // ----- what the exchange reports

  /** One row of the order book; the status is already upper-cased.  The broker
      never looks at the quantity executed so far. */
  datatype OrderRow = OrderRow(orderId: string, status: string, averagePrice: real, filledQuantity: int)

  datatype GttOrderResult = GttOrderResult(orderId: Option<string>, averagePrice: real)

  /** One exit trigger; the status is already lower-cased, absent prices are zero. */
  datatype GttRow = GttRow(id: Option<int>, status: string, triggeredAtPrice: real, orderResult: Option<GttOrderResult>)

  datatype GttResponse = GttResponse(triggerId: Option<int>, id: Option<int>)

  datatype PositionRow = PositionRow(symbol: string, quantity: int, averagePrice: real)

  // ----- what the broker sends

  datatype LegType = MARKET | LIMIT

  datatype GttLeg = GttLeg(side: SignalSide, quantity: int, orderType: LegType, price: real)

  datatype GttPayload = GttPayload(symbol: string, triggers: (real, real), lastPrice: real, legs: (GttLeg, GttLeg))

  datatype Call =
    | PlaceEntry(tag: OrderId, side: SignalSide, quantity: int, price: real, accepted: bool)
    | PlaceGtt(tag: OrderId, payload: GttPayload, triggerId: Option<int>)
    | DeleteGtt(gttId: int)
    | SquareOff(symbol: string, side: SignalSide, quantity: int)

  datatype OrderStatus = FILLED | REJECTED | PENDING

  datatype OrderResult = OrderResult(id: OrderId, status: OrderStatus, quantity: int, fillPrice: real, message: string)

  // ----- pure helpers

  function IdOf(s: Signal): OrderId { OrderId(s.strategyId, s.ts, s.symbol) }

  function Opposite(side: SignalSide): SignalSide { if side == Buy then Sell else Buy }

  /** Lower trigger first, each leg aligned with its trigger. */
  function BuildOcoPayload(r: OrderRecord, fillPrice: real): GttPayload {
    var exit := Opposite(r.side);
    var stopLeg := GttLeg(exit, r.qty, MARKET, r.stopLoss);
    var targetLeg := GttLeg(exit, r.qty, LIMIT, r.target);
    if r.side == Buy then
      GttPayload(r.symbol, (r.stopLoss, r.target), fillPrice, (stopLeg, targetLeg))
    else
      GttPayload(r.symbol, (r.target, r.stopLoss), fillPrice, (targetLeg, stopLeg))
  }

  function ExtractTriggerId(response: GttResponse): Option<int> {
    if response.triggerId.Some? then response.triggerId else response.id
  }

  /** The lookup table of the order book: the last row of an id wins. */
  function OrdersById(rows: seq<OrderRow>): map<string, OrderRow> {
    if rows == [] then map[] else OrdersById(rows[..|rows| - 1])[rows[|rows| - 1].orderId := rows[|rows| - 1]]
  }

  function GttsById(rows: seq<GttRow>): map<int, GttRow> {
    if rows == [] then map[]
    else
      var rest, last := GttsById(rows[..|rows| - 1]), rows[|rows| - 1];
      if last.id.Some? then rest[last.id.value := last] else rest
  }

  function TriggeredAvgPrice(gtt: GttRow, orders: map<string, OrderRow>): Option<real> {
    match gtt.orderResult
    case None => None
    case Some(result) =>
      if result.orderId.Some? && result.orderId.value in orders && orders[result.orderId.value].averagePrice > 0.0 then
        Some(orders[result.orderId.value].averagePrice)
      else if result.averagePrice > 0.0 then Some(result.averagePrice)
      else None
  }

  function ExtractExitPrice(r: OrderRecord, gtt: GttRow, orders: map<string, OrderRow>): real {
    var triggered := TriggeredAvgPrice(gtt, orders);
    if triggered.Some? then triggered.value
    else if gtt.triggeredAtPrice > 0.0 then gtt.triggeredAtPrice
    else r.stopLoss
  }

  function Sign(side: SignalSide): real { if side == Buy then 1.0 else -1.0 }

  function ExitPnl(side: SignalSide, qty: int, fillPrice: real, exitPrice: real): real {
    (exitPrice - fillPrice) * (qty as real) * Sign(side)
  }

  // ----- one record, one poll

  datatype Advance = Advance(record: OrderRecord, call: Option<Call>)

  function PlaceOcoGtt(r: OrderRecord, fillPrice: real, reply: Reply<GttResponse>, now: int): Advance {
    var payload := BuildOcoPayload(r, fillPrice);
    match reply
    case KiteError => Advance(r.(state := FAILED, error := Some("gtt_rejected"), updatedAt := now), Some(PlaceGtt(r.id, payload, None)))
    case OtherError => Advance(r.(state := FAILED, error := Some("gtt_error"), updatedAt := now), Some(PlaceGtt(r.id, payload, None)))
    case Answer(response) =>
      var triggerId := ExtractTriggerId(response);
      if triggerId.None? then
        Advance(r.(state := FAILED, error := Some("gtt_no_trigger_id"), updatedAt := now), Some(PlaceGtt(r.id, payload, None)))
      else
        Advance(r.(state := ENTERED, slGttId := triggerId, targetGttId := None, fillPrice := Some(fillPrice), updatedAt := now),
                Some(PlaceGtt(r.id, payload, triggerId)))
  }

  function AdvancePending(r: OrderRecord, orders: map<string, OrderRow>, reply: Reply<GttResponse>, now: int): Advance {
    if r.entryOrderId.None? || r.entryOrderId.value !in orders then Advance(r, None)
    else
      var row := orders[r.entryOrderId.value];
      if row.status == "COMPLETE" then
        PlaceOcoGtt(r, if row.averagePrice > 0.0 then row.averagePrice else r.entryPrice, reply, now)
      else if row.status == "REJECTED" || row.status == "CANCELLED" then
        Advance(r.(state := FAILED, error := Some(row.status), updatedAt := now), None)
      else Advance(r, None)
  }

  function AdvanceEntered(r: OrderRecord, orders: map<string, OrderRow>, gtts: map<int, GttRow>, now: int): OrderRecord {
    if r.slGttId.None? || r.slGttId.value !in gtts || gtts[r.slGttId.value].status != "triggered" then r
    else
      var exitPrice := ExtractExitPrice(r, gtts[r.slGttId.value], orders);
      var fillPrice := if r.fillPrice.Some? then r.fillPrice.value else r.entryPrice;
      r.(state := EXITED, exitPrice := Some(exitPrice),
         pnl := Some(ExitPnl(r.side, r.qty, fillPrice, exitPrice)), updatedAt := now)
  }

  /** The exchange's side of one poll: the order book, the triggers, and what
      placing a trigger would answer for each record. */
  datatype Market = Market(orders: map<string, OrderRow>, gtts: map<int, GttRow>, gttReply: OrderId -> Reply<GttResponse>)

  function AdvanceOne(r: OrderRecord, m: Market, now: int): (a: Advance)
    ensures a.record.id == r.id
    ensures !IsOpen(r) ==> a == Advance(r, None)
  {
    if r.state == PENDING_ENTRY then AdvancePending(r, m.orders, m.gttReply(r.id), now)
    else if r.state == ENTERED then Advance(AdvanceEntered(r, m.orders, m.gtts, now), None)
    else Advance(r, None)
  }

  // ----- whole operations, on the rows and on the log of calls

  function NewRecord(s: Signal, qty: int, entryOrderId: string, now: int): OrderRecord {
    OrderRecord(IdOf(s), s.symbol, s.side, qty, s.entry, s.stopLoss, s.target, PENDING_ENTRY,
                Some(entryOrderId), None, None, None, None, None, now, now, None)
  }

  /** Every field of the row of a fresh order. */
  predicate IsNewRow(r: OrderRecord, s: Signal, qty: int, entryOrderId: string, now: int) {
    && r.id.strategyId == s.strategyId && r.id.signalTs == s.ts && r.id.symbol == r.symbol == s.symbol
    && r.side == s.side && r.qty == qty && r.entryPrice == s.entry && r.stopLoss == s.stopLoss && r.target == s.target
    && r.state == PENDING_ENTRY && r.entryOrderId == Some(entryOrderId)
    && r.slGttId.None? && r.targetGttId.None? && r.fillPrice.None? && r.exitPrice.None? && r.pnl.None? && r.error.None?
    && r.createdAt == r.updatedAt == now
  }

  predicate Blocks(found: Option<OrderRecord>) {
    found.Some? && (IsOpen(found.value) || found.value.state == EXITED)
  }

  function MapRows(rows: Rows, step: OrderRecord -> OrderRecord): Rows {
    map id | id in rows :: step(rows[id])
  }

  function PollStep(m: Market, now: int): OrderRecord -> OrderRecord {
    (r: OrderRecord) => AdvanceOne(r, m, now).record
  }

  function PolledRows(rows: Rows, m: Market, now: int): Rows {
    MapRows(rows, PollStep(m, now))
  }

  function PollCalls(records: seq<OrderRecord>, m: Market, now: int): seq<Call> {
    if records == [] then []
    else PollCalls(records[..|records| - 1], m, now) + ToSeq(AdvanceOne(records[|records| - 1], m, now).call)
  }

  predicate Cancellable(r: OrderRecord) { r.state == ENTERED && r.slGttId.Some? }

  function Cancelled(r: OrderRecord, now: int): (c: OrderRecord)
    ensures c.id == r.id
    ensures !IsOpen(r) ==> c == r
  {
    if Cancellable(r) then r.(state := CANCELLED, updatedAt := now) else r
  }

  function CancelStep(now: int): OrderRecord -> OrderRecord {
    (r: OrderRecord) => Cancelled(r, now)
  }

  function CancelledRows(rows: Rows, now: int): Rows {
    MapRows(rows, CancelStep(now))
  }

  function CancelCalls(records: seq<OrderRecord>): seq<Call> {
    if records == [] then []
    else
      var r := records[|records| - 1];
      CancelCalls(records[..|records| - 1]) + if Cancellable(r) then [DeleteGtt(r.slGttId.value)] else []
  }

  // ----- positions and square-off

  datatype PositionSide = LONG | SHORT

  datatype Position = Position(symbol: string, side: PositionSide, qty: int, entryPrice: real)

  function AbsInt(n: int): int { if n < 0 then -n else n }

  /** The net positions the broker works with: rows without quantity, or
      without a positive average price, are passed over. */
  function OpenPositions(rows: seq<PositionRow>): seq<Position> {
    if rows == [] then []
    else
      var row := rows[|rows| - 1];
      OpenPositions(rows[..|rows| - 1]) +
      if row.quantity == 0 || row.averagePrice <= 0.0 then []
      else [Position(row.symbol, if row.quantity > 0 then LONG else SHORT, AbsInt(row.quantity), row.averagePrice)]
  }

  function SquareOffCall(p: Position): Call {
    SquareOff(p.symbol, if p.side == LONG then Sell else Buy, p.qty)
  }

  function SquareOffCalls(positions: seq<Position>): seq<Call> {
    seq(|positions|, i requires 0 <= i < |positions| => SquareOffCall(positions[i]))
  }

  const FLATTEN_POLL_BUDGET := 10

  datatype FlattenOutcome = Flattened | FlattenIncomplete(openPositions: seq<Position>) | ReadFailed

  /** The n-th read of the net positions. */
  type PositionReads = nat -> Reply<seq<PositionRow>>

  /** What a confirmation read leaves open; a failed read counts as nothing. */
  function Residual(reply: Reply<seq<PositionRow>>): seq<Position> {
    if reply.Answer? then OpenPositions(reply.value) else []
  }

  // ----- the broker

  /** The exchange connection: everything ever sent to it, in order. */
  class KiteClient {
    var calls: seq<Call>

    constructor ()
      ensures calls == []
    {
      calls := [];
    }

    method Send(call: Call)
      modifies this
      ensures calls == old(calls) + [call]
    {
      calls := calls + [call];
    }
  }

  class KiteBroker {
    const client: KiteClient
    const store: OrderStateStore?
    var memoryIds: set<OrderId>

    constructor (client: KiteClient, store: OrderStateStore?)
      ensures this.client == client && this.store == store && memoryIds == {}
    {
      this.client := client;
      this.store := store;
      memoryIds := {};
    }

    ghost function StoreSet(): set<object> {
      if store == null then {} else {store}
    }

    ghost function StoredRows(): Rows
      reads this, StoreSet()
    {
      if store == null then map[] else store.rows
    }

    /** What a new placement of `id` would collide with. */
    ghost predicate AlreadyPlaced(id: OrderId)
      reads this, StoreSet()
    {
      if store == null then id in memoryIds else Blocks(Lookup(store.rows, id))
    }

    method Persist(record: OrderRecord)
      modifies this, StoreSet()
      ensures store == null ==> StoredRows() == map[]
      ensures store != null ==> StoredRows() == old(StoredRows())[record.id := record]
      ensures memoryIds == old(memoryIds) + {record.id}
    {
      if store != null {
        store.Upsert(record);
      }
      memoryIds := memoryIds + {record.id};
    }

    method LookupExisting(id: OrderId) returns (exists_: bool)
      ensures exists_ == AlreadyPlaced(id)
    {
      if store != null {
        var existing := store.Get(id);
        return existing.Some? && (IsOpen(existing.value) || existing.value.state == EXITED);
      }
      return id in memoryIds;
    }

    /** Places the entry order, once: an id that is open or exited (or, without a
        store, one seen in this session) touches neither store nor exchange. */
    method PlaceBracketOrder(s: Signal, qty: int, killSwitch: bool, reply: Reply<string>, now: int) returns (result: OrderResult)
      modifies this, StoreSet(), client
      ensures killSwitch || qty < 1 || old(AlreadyPlaced(IdOf(s))) ==>
                StoredRows() == old(StoredRows()) && client.calls == old(client.calls) && memoryIds == old(memoryIds)
      ensures killSwitch || qty < 1 ==> result.status == REJECTED
      ensures !(killSwitch || qty < 1) && old(AlreadyPlaced(IdOf(s))) ==>
                result == OrderResult(IdOf(s), PENDING, qty, 0.0, "duplicate_client_order_id")
      ensures !(killSwitch || qty < 1 || old(AlreadyPlaced(IdOf(s)))) ==>
                && client.calls == old(client.calls) + [PlaceEntry(IdOf(s), s.side, qty, s.entry, reply.Answer?)]
                && (reply.Answer? <==> result.status == PENDING)
                && (!reply.Answer? ==> result.status == REJECTED && StoredRows() == old(StoredRows()) && memoryIds == old(memoryIds))
                && (reply.Answer? ==> memoryIds == old(memoryIds) + {IdOf(s)})
                && (reply.Answer? && store != null ==>
                      && StoredRows() == old(StoredRows())[IdOf(s) := NewRecord(s, qty, reply.value, now)]
                      && IsNewRow(StoredRows()[IdOf(s)], s, qty, reply.value, now))
    {
      var id := IdOf(s);
      if killSwitch {
        return OrderResult(id, REJECTED, qty, 0.0, "kill_switch_active");
      }
      if qty < 1 {
        return OrderResult(id, REJECTED, qty, 0.0, "qty must be >= 1");
      }
      var existing := LookupExisting(id);
      if existing {
        return OrderResult(id, PENDING, qty, 0.0, "duplicate_client_order_id");
      }
      client.Send(PlaceEntry(id, s.side, qty, s.entry, reply.Answer?));
      if !reply.Answer? {
        return OrderResult(id, REJECTED, qty, 0.0, "kite_order_failed");
      }
      Persist(NewRecord(s, qty, reply.value, now));
      return OrderResult(id, PENDING, qty, s.entry, reply.value);
    }

    /** One record, one poll: place its exit trigger, close it, or leave it. */
    method AdvanceRecord(r: OrderRecord, m: Market, now: int)
      requires store != null && r.id in store.rows && store.rows[r.id] == r
      modifies this, store, client
      ensures store.rows == old(store.rows)[r.id := PollStep(m, now)(r)]
      ensures client.calls == old(client.calls) + ToSeq(AdvanceOne(r, m, now).call)
      ensures old(memoryIds) <= memoryIds
    {
      hide AdvancePending, AdvanceEntered;
      var advance := AdvanceOne(r, m, now);
      if advance.call.Some? {
        client.Send(advance.call.value);
      }
      if advance.record != r {
        Persist(advance.record);
      }
    }

    /** Walks every open record forward against one snapshot of the exchange. */
    method PollAndAdvance(orders: Reply<seq<OrderRow>>, gtts: Reply<seq<GttRow>>,
                          gttReply: OrderId -> Reply<GttResponse>, now: int)
      returns (raised: bool, ghost records: seq<OrderRecord>)
      requires Keyed(StoredRows())
      modifies this, StoreSet(), client
      ensures old(memoryIds) <= memoryIds && (store == null ==> memoryIds == old(memoryIds) && !raised)
      ensures store != null ==> ListsOpen(old(StoredRows()), records)
      ensures store == null || records == [] || !orders.Answer? || gtts.OtherError? ==>
                StoredRows() == old(StoredRows()) && client.calls == old(client.calls)
      ensures store != null && records != [] ==>
                (raised <==> orders.OtherError? || (orders.Answer? && gtts.OtherError?))
      ensures store != null && records != [] && orders.Answer? && !gtts.OtherError? ==>
                var m := Market(OrdersById(orders.value), GttsById(if gtts.Answer? then gtts.value else []), gttReply);
                && StoredRows() == PolledRows(old(StoredRows()), m, now)
                && client.calls == old(client.calls) + PollCalls(records, m, now)
    {
      hide AdvanceOne, OrdersById, GttsById, ListsOpen, PolledRows, PollCalls;
      records := [];
      if store == null {
        return false, [];
      }
      var openRecords := store.ListOpen();
      records := openRecords;
      if openRecords == [] {
        return false, records;
      }
      if !orders.Answer? {
        return orders.OtherError?, records;
      }
      if gtts.OtherError? {
        return true, records;
      }
      var m := Market(OrdersById(orders.value), GttsById(if gtts.Answer? then gtts.value else []), gttReply);
      AdvanceAll(openRecords, m, now);
      return false, records;
    }

    method AdvanceAll(openRecords: seq<OrderRecord>, m: Market, now: int)
      requires store != null && ListsOpen(store.rows, openRecords)
      modifies this, store, client
      ensures store.rows == PolledRows(old(store.rows), m, now)
      ensures client.calls == old(client.calls) + PollCalls(openRecords, m, now)
      ensures old(memoryIds) <= memoryIds
    {
      PollStepRests(m, now);
      hide AdvanceOne, ListsOpen, WorkedThrough, MapRows, PollStep;
      ghost var before, step := store.rows, PollStep(m, now);
      NothingWorked(before, openRecords, step);
      for n := 0 to |openRecords|
        invariant WorkedThrough(before, store.rows, openRecords, n, step)
        invariant client.calls == old(client.calls) + PollCalls(openRecords[..n], m, now)
        invariant old(memoryIds) <= memoryIds
      {
        assert openRecords[..n + 1][..n] == openRecords[..n];
        NextWorkedThrough(before, store.rows, openRecords, n, step);
        AdvanceRecord(openRecords[n], m, now);
      }
      assert openRecords[..|openRecords|] == openRecords;
      AllWorkedThrough(before, store.rows, openRecords, step);
    }

    /** First phase of a flatten: cancel every tracked trigger; a refused
        cancellation is ignored, the record is cancelled all the same. */
    method CancelTracked(now: int) returns (ghost records: seq<OrderRecord>)
      requires Keyed(StoredRows())
      modifies this, StoreSet(), client
      ensures store != null ==> ListsOpen(old(StoredRows()), records)
      ensures store == null ==> records == [] && memoryIds == old(memoryIds)
      ensures StoredRows() == CancelledRows(old(StoredRows()), now)
      ensures client.calls == old(client.calls) + CancelCalls(records)
      ensures old(memoryIds) <= memoryIds
    {
      hide ListsOpen, WorkedThrough, Cancelled;
      records := [];
      if store == null {
        assert CancelledRows(map[], now) == map[];
        return [];
      }
      var openRecords := store.ListOpen();
      records := openRecords;
      ghost var before := store.rows;
      NothingWorked(before, openRecords, CancelStep(now));
      for n := 0 to |openRecords|
        invariant WorkedThrough(before, store.rows, openRecords, n, CancelStep(now))
        invariant client.calls == old(client.calls) + CancelCalls(openRecords[..n])
        invariant old(memoryIds) <= memoryIds
      {
        assert openRecords[..n + 1][..n] == openRecords[..n];
        NextWorkedThrough(before, store.rows, openRecords, n, CancelStep(now));
        CancelRecord(openRecords[n], now);
      }
      assert openRecords[..|openRecords|] == openRecords;
      AllWorkedThrough(before, store.rows, openRecords, CancelStep(now));
    }

    method CancelRecord(r: OrderRecord, now: int)
      requires store != null && r.id in store.rows && store.rows[r.id] == r
      modifies this, store, client
      ensures store.rows == old(store.rows)[r.id := CancelStep(now)(r)]
      ensures client.calls == old(client.calls) + if Cancellable(r) then [DeleteGtt(r.slGttId.value)] else []
      ensures old(memoryIds) <= memoryIds
    {
      if r.state == ENTERED && r.slGttId.Some? {
        client.Send(DeleteGtt(r.slGttId.value));
        Persist(r.(state := CANCELLED, updatedAt := now));
      }
    }

    /** Third phase: watch the positions until a read leaves nothing open. */
    method Confirm(positions: PositionReads) returns (outcome: FlattenOutcome, readCount: nat)
      requires positions(0).Answer?
      ensures outcome == FlattenVerdict(positions)
      ensures readCount == DecidingRead(positions) + 1
    {
      hide OpenPositions;
      readCount := 1;
      for attempt := 1 to FLATTEN_POLL_BUDGET + 1
        invariant readCount == attempt
        invariant forall n :: 1 <= n < attempt ==> Residual(positions(n)) != []
      {
        readCount := readCount + 1;
        var residual := if positions(attempt).Answer? then OpenPositions(positions(attempt).value) else [];
        if residual == [] {
          assert Residual(positions(attempt)) == [];
          DecidingReadIs(positions, attempt);
          return Flattened, readCount;
        }
      }
      readCount := readCount + 1;
      DecidingReadIs(positions, FLATTEN_POLL_BUDGET + 1);
      var last := positions(FLATTEN_POLL_BUDGET + 1);
      if !last.Answer? {
        return ReadFailed, readCount;
      }
      var final := OpenPositions(last.value);
      if final != [] {
        return FlattenIncomplete(final), readCount;
      }
      return Flattened, readCount;
    }

    /** Square everything off at market: cancel the tracked triggers, place one
        closing order per position, then watch until nothing is left. */
    method FlattenAll(positions: PositionReads, now: int)
      returns (outcome: FlattenOutcome, readCount: nat, ghost records: seq<OrderRecord>)
      requires Keyed(StoredRows())
      modifies this, StoreSet(), client
      ensures store != null ==> ListsOpen(old(StoredRows()), records)
      ensures store == null ==> records == [] && memoryIds == old(memoryIds)
      ensures old(memoryIds) <= memoryIds
      ensures StoredRows() == CancelledRows(old(StoredRows()), now)
      ensures client.calls == old(client.calls) + CancelCalls(records) + SquareOffCalls(Residual(positions(0)))
      ensures outcome == FlattenVerdict(positions)
      ensures readCount == if positions(0).Answer? then DecidingRead(positions) + 1 else 1
    {
      hide ListsOpen, OpenPositions, CancelledRows, CancelCalls;
      records := CancelTracked(now);
      if !positions(0).Answer? {
        return ReadFailed, 1, records;
      }
      var toClose := OpenPositions(positions(0).value);
      ghost var cancelled, rows, known := client.calls, StoredRows(), memoryIds;
      for n := 0 to |toClose|
        invariant client.calls == cancelled + SquareOffCalls(toClose)[..n]
        invariant StoredRows() == rows && memoryIds == known
      {
        client.Send(SquareOffCall(toClose[n]));
        assert SquareOffCalls(toClose)[..n + 1] == SquareOffCalls(toClose)[..n] + [SquareOffCall(toClose[n])];
      }
      outcome, readCount := Confirm(positions);
    }
  }

  // ----- what the reads of a flatten amount to

  /** The first confirmation read that leaves nothing open decides; otherwise the
      final read does, and there a failure is not taken for an empty answer. */
  function FlattenVerdict(positions: PositionReads): FlattenOutcome {
    if !positions(0).Answer? then ReadFailed
    else if exists n :: 1 <= n <= FLATTEN_POLL_BUDGET && Residual(positions(n)) == [] then Flattened
    else
      match positions(FLATTEN_POLL_BUDGET + 1)
      case Answer(rows) => if OpenPositions(rows) == [] then Flattened else FlattenIncomplete(OpenPositions(rows))
      case _ => ReadFailed
  }

  /** The first read from the n-th on that leaves nothing open, or else the final one. */
  function FirstEmptyRead(positions: PositionReads, n: nat): (d: nat)
    requires n <= FLATTEN_POLL_BUDGET + 1
    ensures n <= d <= FLATTEN_POLL_BUDGET + 1
    ensures forall i :: n <= i < d ==> Residual(positions(i)) != []
    ensures d <= FLATTEN_POLL_BUDGET ==> Residual(positions(d)) == []
    decreases FLATTEN_POLL_BUDGET + 1 - n
  {
    if n > FLATTEN_POLL_BUDGET || Residual(positions(n)) == [] then n else FirstEmptyRead(positions, n + 1)
  }

  /** The read a flatten ends on; the read that found what to close comes before it. */
  function DecidingRead(positions: PositionReads): (d: nat)
    ensures 1 <= d <= FLATTEN_POLL_BUDGET + 1
  {
    FirstEmptyRead(positions, 1)
  }

  lemma DecidingReadIs(positions: PositionReads, d: nat)
    requires 1 <= d <= FLATTEN_POLL_BUDGET + 1
    requires forall i :: 1 <= i < d ==> Residual(positions(i)) != []
    requires d <= FLATTEN_POLL_BUDGET ==> Residual(positions(d)) == []
    ensures DecidingRead(positions) == d
  {
    var first := FirstEmptyRead(positions, 1);
    hide FirstEmptyRead, Residual;
  }

  // ----- updating the open rows one at a time

  /** The first `n` of the listed records have been replaced by their step. */
  ghost predicate WorkedThrough(before: Rows, rows: Rows, records: seq<OrderRecord>, n: nat, step: OrderRecord -> OrderRecord)
    requires n <= |records|
  {
    && rows.Keys == before.Keys
    && (forall i :: 0 <= i < n ==> records[i].id in rows && rows[records[i].id] == step(records[i]))
    && (forall id :: id in before && (forall i :: 0 <= i < n ==> records[i].id != id) ==> rows[id] == before[id])
  }

  lemma PollStepRests(m: Market, now: int)
    ensures forall r :: !IsOpen(r) ==> PollStep(m, now)(r) == r
  {
    hide AdvanceOne;
  }

  lemma NothingWorked(before: Rows, records: seq<OrderRecord>, step: OrderRecord -> OrderRecord)
    ensures WorkedThrough(before, before, records, 0, step)
  {
  }

  /** The next listed record still stands as it was; stepping it is progress. */
  lemma NextWorkedThrough(before: Rows, rows: Rows, records: seq<OrderRecord>, n: nat, step: OrderRecord -> OrderRecord)
    requires n < |records| && ListsOpen(before, records) && WorkedThrough(before, rows, records, n, step)
    ensures records[n].id in rows && rows[records[n].id] == records[n]
    ensures WorkedThrough(before, rows[records[n].id := step(records[n])], records, n + 1, step)
  {
    assert rows[records[n].id] == before[records[n].id] == records[n];
  }

  lemma AllWorkedThrough(before: Rows, rows: Rows, records: seq<OrderRecord>, step: OrderRecord -> OrderRecord)
    requires ListsOpen(before, records) && WorkedThrough(before, rows, records, |records|, step)
    requires forall r :: !IsOpen(r) ==> step(r) == r
    ensures rows == MapRows(before, step)
  {
    forall id | id in before
      ensures rows[id] == step(before[id])
    {
      if IsOpen(before[id]) {
        var i :| 0 <= i < |records| && records[i].id == id;
      }
    }
  }
}
