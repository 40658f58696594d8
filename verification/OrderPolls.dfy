// When a poll moves a record, and to what, told from the rows the exchange
// answered: the last row that carries an id is the one that counts.

module OrderPolls {
  import opened Wrappers
  import opened Signals
  import opened OrderStates
  import opened Kite
  import opened OrderLifecycle
  import opened OrderSession

  // ----- what the answers say

  /** The `k`-th row is the last one of the order `orderId`. */
  predicate LastOrder(rows: seq<OrderRow>, orderId: string, k: int) {
    && 0 <= k < |rows| && rows[k].orderId == orderId
    && forall j :: k < j < |rows| ==> rows[j].orderId != orderId
  }

  /** The `k`-th row is the last one of the trigger `triggerId`. */
  predicate LastTrigger(rows: seq<GttRow>, triggerId: int, k: int) {
    && 0 <= k < |rows| && rows[k].id == Some(triggerId)
    && forall j :: k < j < |rows| ==> rows[j].id != Some(triggerId)
  }

  lemma {:induction false} OrderLookup(rows: seq<OrderRow>, orderId: string) returns (k: int)
    ensures orderId in OrdersById(rows) ==> LastOrder(rows, orderId, k) && OrdersById(rows)[orderId] == rows[k]
    ensures orderId !in OrdersById(rows) ==> forall j :: 0 <= j < |rows| ==> rows[j].orderId != orderId
  {
    k := |rows| - 1;
    if rows != [] && rows[k].orderId != orderId {
      k := OrderLookup(rows[..|rows| - 1], orderId);
    }
  }

  lemma {:induction false} TriggerLookup(rows: seq<GttRow>, triggerId: int) returns (k: int)
    ensures triggerId in GttsById(rows) ==> LastTrigger(rows, triggerId, k) && GttsById(rows)[triggerId] == rows[k]
    ensures triggerId !in GttsById(rows) ==> forall j :: 0 <= j < |rows| ==> rows[j].id != Some(triggerId)
  {
    k := |rows| - 1;
    if rows != [] && rows[k].id != Some(triggerId) {
      k := TriggerLookup(rows[..|rows| - 1], triggerId);
    }
  }

  /** The order book's last word on `orderId` is such a status. */
  ghost predicate Reported(rows: seq<OrderRow>, orderId: Option<string>, statuses: set<string>) {
    orderId.Some? && exists k :: 0 <= k < |rows| && LastOrder(rows, orderId.value, k) && rows[k].status in statuses
  }

  /** The trigger list's last word on `triggerId` is that it went off. */
  ghost predicate WentOff(rows: seq<GttRow>, triggerId: Option<int>) {
    triggerId.Some? && exists k :: 0 <= k < |rows| && LastTrigger(rows, triggerId.value, k) && rows[k].status == "triggered"
  }

  predicate TriggerGiven(reply: Reply<GttResponse>) {
    reply.Answer? && (reply.value.triggerId.Some? || reply.value.id.Some?)
  }

  lemma ReportedIs(rows: seq<OrderRow>, orderId: Option<string>, statuses: set<string>)
    ensures Reported(rows, orderId, statuses) <==>
            orderId.Some? && orderId.value in OrdersById(rows) && OrdersById(rows)[orderId.value].status in statuses
  {
    if orderId.Some? {
      var k := OrderLookup(rows, orderId.value);
    }
    hide OrdersById;
  }

  lemma WentOffIs(rows: seq<GttRow>, triggerId: Option<int>)
    ensures WentOff(rows, triggerId) <==>
            triggerId.Some? && triggerId.value in GttsById(rows) && GttsById(rows)[triggerId.value].status == "triggered"
  {
    if triggerId.Some? {
      var k := TriggerLookup(rows, triggerId.value);
    }
    hide GttsById;
  }

  // ----- prices

  /** The average price of the order that the trigger placed, if the book has it. */
  ghost predicate BookAverage(trigger: GttRow, orders: seq<OrderRow>, price: real) {
    && trigger.orderResult.Some? && trigger.orderResult.value.orderId.Some?
    && exists k :: 0 <= k < |orders| && LastOrder(orders, trigger.orderResult.value.orderId.value, k)
                   && orders[k].averagePrice == price
  }

  ghost predicate BookHasAverage(trigger: GttRow, orders: seq<OrderRow>) {
    exists price :: price > 0.0 && BookAverage(trigger, orders, price)
  }

  /** The exit price: first the average in the order book, then the one the trigger
      reports, then the price it went off at, and failing all these the stop; what
      is not positive does not count. */
  ghost predicate ExitPriced(r: OrderRecord, trigger: GttRow, orders: seq<OrderRow>, price: real) {
    if BookHasAverage(trigger, orders) then BookAverage(trigger, orders, price)
    else if trigger.orderResult.Some? && trigger.orderResult.value.averagePrice > 0.0 then
      price == trigger.orderResult.value.averagePrice
    else if trigger.triggeredAtPrice > 0.0 then price == trigger.triggeredAtPrice
    else price == r.stopLoss
  }

  lemma ExitPriceIs(r: OrderRecord, trigger: GttRow, orders: seq<OrderRow>)
    ensures ExitPriced(r, trigger, orders, ExtractExitPrice(r, trigger, OrdersById(orders)))
  {
    BookAverageIs(trigger, orders);
    hide OrdersById, BookAverage, BookHasAverage;
  }

  lemma BookAverageIs(trigger: GttRow, orders: seq<OrderRow>)
    ensures var book := OrdersById(orders);
            if trigger.orderResult.Some? && trigger.orderResult.value.orderId.Some?
               && trigger.orderResult.value.orderId.value in book
               && book[trigger.orderResult.value.orderId.value].averagePrice > 0.0
            then BookHasAverage(trigger, orders) && BookAverage(trigger, orders, book[trigger.orderResult.value.orderId.value].averagePrice)
            else !BookHasAverage(trigger, orders)
  {
    if trigger.orderResult.Some? && trigger.orderResult.value.orderId.Some? {
      var orderId := trigger.orderResult.value.orderId.value;
      var k := OrderLookup(orders, orderId);
      if orderId in OrdersById(orders) {
        assert BookAverage(trigger, orders, orders[k].averagePrice);
      }
    }
    hide OrdersById;
  }

  // ----- what a record turns into

  /** Sold for more than bought is profit, whichever came first. */
  predicate IsProfit(side: SignalSide, qty: int, fill: real, exit: real, pnl: real) {
    match side
    case Buy => pnl == (exit - fill) * qty as real
    case Sell => pnl == (fill - exit) * qty as real
  }

  /** An entered record, left by the trigger in row `k`. */
  ghost predicate Exits(r: OrderRecord, next: OrderRecord, gtts: seq<GttRow>, orders: seq<OrderRow>, now: int, k: int) {
    && r.slGttId.Some? && LastTrigger(gtts, r.slGttId.value, k) && r.fillPrice.Some?
    && next.exitPrice.Some? && ExitPriced(r, gtts[k], orders, next.exitPrice.value)
    && next.pnl.Some? && IsProfit(r.side, r.qty, r.fillPrice.value, next.exitPrice.value, next.pnl.value)
    && SameOrder(r, next) && next.slGttId == r.slGttId && next.fillPrice == r.fillPrice && next.updatedAt == now
  }

  /** The price the entry was filled at by row `k`: the average, or the entry price
      where none is given. */
  predicate Reports(r: OrderRecord, orders: seq<OrderRow>, k: int, price: real) {
    && r.entryOrderId.Some? && LastOrder(orders, r.entryOrderId.value, k)
    && price == if orders[k].averagePrice > 0.0 then orders[k].averagePrice else r.entryPrice
  }

  /** A pending record, filled as row `k` reports, on a trigger now its own. */
  predicate Enters(r: OrderRecord, next: OrderRecord, orders: seq<OrderRow>, reply: Reply<GttResponse>, now: int, k: int) {
    && next.fillPrice.Some? && Reports(r, orders, k, next.fillPrice.value) && reply.Answer?
    && next.slGttId == (if reply.value.triggerId.Some? then reply.value.triggerId else reply.value.id)
    && SameOrder(r, next) && next.exitPrice.None? && next.pnl.None? && next.updatedAt == now
  }

  /** Why a pending record failed is written on it. */
  ghost predicate Fails(r: OrderRecord, next: OrderRecord, orders: seq<OrderRow>, reply: Reply<GttResponse>) {
    && SameOrder(r, next)
    && (Reported(orders, r.entryOrderId, {"REJECTED"}) ==> next.error == Some("REJECTED"))
    && (Reported(orders, r.entryOrderId, {"CANCELLED"}) ==> next.error == Some("CANCELLED"))
    && (Reported(orders, r.entryOrderId, {"COMPLETE"}) ==>
          next.error == Some(match reply
                             case KiteError => "gtt_rejected"
                             case OtherError => "gtt_error"
                             case Answer(_) => "gtt_no_trigger_id"))
  }

  /** The trigger an entered record relies on, as it is asked for: at the fill
      price, on the record's symbol, both legs for its whole quantity on the other
      side, the stop at market and the target at its limit. */
  predicate Protects(p: GttPayload, r: OrderRecord, fillPrice: real) {
    var stop, target := GttLeg(if r.side == Buy then Sell else Buy, r.qty, MARKET, r.stopLoss),
                        GttLeg(if r.side == Buy then Sell else Buy, r.qty, LIMIT, r.target);
    && p.symbol == r.symbol && p.lastPrice == fillPrice && p.triggers.0 < p.triggers.1
    && p.triggers == (p.legs.0.price, p.legs.1.price)
    && (p.legs == (stop, target) || p.legs == (target, stop))
  }

  lemma PayloadProtects(r: OrderRecord, fillPrice: real)
    requires RecordOk(r)
    ensures Protects(BuildOcoPayload(r, fillPrice), r, fillPrice)
  {
    hide ExitPnl;
  }

  function MarketOf(orders: seq<OrderRow>, gtts: seq<GttRow>, gttReply: OrderId -> Reply<GttResponse>): Market {
    Market(OrdersById(orders), GttsById(gtts), gttReply)
  }

  lemma ExitedRow(r: OrderRecord, orders: map<string, OrderRow>, gtts: map<int, GttRow>, now: int)
    requires r.slGttId.Some? && r.fillPrice.Some?
    requires r.slGttId.value in gtts && gtts[r.slGttId.value].status == "triggered"
    ensures var next, price := AdvanceEntered(r, orders, gtts, now), ExtractExitPrice(r, gtts[r.slGttId.value], orders);
            && next.state == EXITED && next.exitPrice == Some(price)
            && next.pnl == Some(ExitPnl(r.side, r.qty, r.fillPrice.value, price))
            && SameOrder(r, next) && next.slGttId == r.slGttId && next.fillPrice == r.fillPrice && next.updatedAt == now
  {
    hide ExtractExitPrice, ExitPnl;
  }

  lemma EnteredMoves(r: OrderRecord, orders: seq<OrderRow>, gtts: seq<GttRow>, gttReply: OrderId -> Reply<GttResponse>, now: int)
    requires RecordOk(r) && r.state == ENTERED
    ensures var next := AdvanceOne(r, MarketOf(orders, gtts, gttReply), now).record;
            if WentOff(gtts, r.slGttId) then next.state == EXITED && exists k :: Exits(r, next, gtts, orders, now, k)
            else next == r
    ensures AdvanceOne(r, MarketOf(orders, gtts, gttReply), now).call == None
  {
    var book, triggers := OrdersById(orders), GttsById(gtts);
    assert AdvanceOne(r, MarketOf(orders, gtts, gttReply), now) == Advance(AdvanceEntered(r, book, triggers, now), None);
    WentOffIs(gtts, r.slGttId);
    if WentOff(gtts, r.slGttId) {
      var k := TriggerLookup(gtts, r.slGttId.value);
      var price := ExtractExitPrice(r, gtts[k], book);
      ExitPriceIs(r, gtts[k], orders);
      PnlIs(r.side, r.qty, r.fillPrice.value, price);
      ExitedRow(r, book, triggers, now);
      hide OrdersById, GttsById, AdvanceOne, AdvanceEntered, WentOff, LastTrigger, ExtractExitPrice, ExitPriced, ExitPnl, IsProfit, RecordOk, SameOrder;
      assert Exits(r, AdvanceEntered(r, book, triggers, now), gtts, orders, now, k);
    }
  }

  lemma PnlIs(side: SignalSide, qty: int, fill: real, exit: real)
    ensures IsProfit(side, qty, fill, exit, ExitPnl(side, qty, fill, exit))
  {
  }

  lemma OcoAnswered(r: OrderRecord, price: real, reply: Reply<GttResponse>, now: int)
    requires RecordOk(r) && r.state == PENDING_ENTRY
    ensures var a := PlaceOcoGtt(r, price, reply, now);
            && SameOrder(r, a.record) && a.call.Some? && a.call.value.PlaceGtt? && a.call.value.tag == r.id
            && Protects(a.call.value.payload, r, price) && a.call.value.payload.lastPrice == price
            && a.call.value.triggerId.Some? == TriggerGiven(reply)
            && a.record.updatedAt == now
            && if TriggerGiven(reply) then
                 && a.record.state == ENTERED && a.record.fillPrice == Some(price)
                 && a.record.slGttId == (if reply.value.triggerId.Some? then reply.value.triggerId else reply.value.id)
                 && a.record.exitPrice.None? && a.record.pnl.None?
               else
                 && a.record.state == FAILED
                 && a.record.error == Some(match reply
                                           case KiteError => "gtt_rejected"
                                           case OtherError => "gtt_error"
                                           case Answer(_) => "gtt_no_trigger_id")
  {
    PayloadProtects(r, price);
    hide Protects;
  }

  /** What the poll makes of a pending record whose order the book reports in row `k`. */
  lemma FoundPending(r: OrderRecord, orders: map<string, OrderRow>, reply: Reply<GttResponse>, now: int)
    requires r.entryOrderId.Some? && r.entryOrderId.value in orders
    ensures var row := orders[r.entryOrderId.value];
            var price := if row.averagePrice > 0.0 then row.averagePrice else r.entryPrice;
            AdvancePending(r, orders, reply, now) ==
            if row.status == "COMPLETE" then PlaceOcoGtt(r, price, reply, now)
            else if row.status in {"REJECTED", "CANCELLED"} then
              Advance(r.(state := FAILED, error := Some(row.status), updatedAt := now), None)
            else Advance(r, None)
  {
    hide PlaceOcoGtt;
  }

  lemma OneReport(orders: seq<OrderRow>, orderId: Option<string>, k: int, statuses: set<string>)
    requires orderId.Some? && LastOrder(orders, orderId.value, k)
    ensures Reported(orders, orderId, statuses) <==> orders[k].status in statuses
  {
  }

  lemma PendingMoves(r: OrderRecord, orders: seq<OrderRow>, gtts: seq<GttRow>, gttReply: OrderId -> Reply<GttResponse>, now: int)
    requires RecordOk(r) && r.state == PENDING_ENTRY
    ensures var next, reply := AdvanceOne(r, MarketOf(orders, gtts, gttReply), now).record, gttReply(r.id);
            if Reported(orders, r.entryOrderId, {"COMPLETE"}) && TriggerGiven(reply) then
              next.state == ENTERED && exists k :: Enters(r, next, orders, reply, now, k)
            else if Reported(orders, r.entryOrderId, {"COMPLETE", "REJECTED", "CANCELLED"}) then
              next.state == FAILED && Fails(r, next, orders, reply)
            else next == r
    ensures var sent := AdvanceOne(r, MarketOf(orders, gtts, gttReply), now).call;
            && (sent.Some? <==> Reported(orders, r.entryOrderId, {"COMPLETE"}))
            && (sent.Some? ==>
                  && sent.value.PlaceGtt? && sent.value.tag == r.id
                  && sent.value.triggerId.Some? == TriggerGiven(gttReply(r.id))
                  && exists k :: Reports(r, orders, k, sent.value.payload.lastPrice) && Protects(sent.value.payload, r, sent.value.payload.lastPrice))
  {
    var book, reply := OrdersById(orders), gttReply(r.id);
    var a := AdvancePending(r, book, reply, now);
    assert AdvanceOne(r, MarketOf(orders, gtts, gttReply), now) == a;
    var k := OrderLookup(orders, r.entryOrderId.value);
    if r.entryOrderId.value in book {
      FoundPending(r, book, reply, now);
      var price := if orders[k].averagePrice > 0.0 then orders[k].averagePrice else r.entryPrice;
      OcoAnswered(r, price, reply, now);
      forall statuses { OneReport(orders, r.entryOrderId, k, statuses); }
      hide OrdersById, GttsById, AdvanceOne, AdvancePending, PlaceOcoGtt, Reported, LastOrder, Protects, TriggerGiven, RecordOk;
      if orders[k].status == "COMPLETE" {
        assert Reports(r, orders, k, price);
        if TriggerGiven(reply) {
          assert Enters(r, a.record, orders, reply, now, k) by { hide SameOrder; GivenIsAnswer(reply); }
        }
      }
    } else {
      hide OrdersById, GttsById, AdvanceOne;
    }
  }

  lemma GivenIsAnswer(reply: Reply<GttResponse>)
    requires TriggerGiven(reply)
    ensures reply.Answer?
  {
  }

  // ----- over every operation

  /** The operation is a poll whose answers let it get to the records; an order
      list that fails with a broker error stops it, a trigger list that does is
      read as empty. */
  ghost predicate Answers(op: Operation, orders: seq<OrderRow>, gtts: seq<GttRow>) {
    && op.DoPoll? && op.orders == Answer(orders) && !op.gtts.OtherError?
    && gtts == (if op.gtts.Answer? then op.gtts.value else [])
  }

  lemma OtherMoves(op: Operation, w: World, e: Event, id: OrderId)
    requires Sound(w) && id in w.rows && IsOpen(w.rows[id]) && OrderSession.Records(op, w, e)
    requires !(op.DoPoll? && op.orders.Answer? && !op.gtts.OtherError?)
    ensures id in Step(w, e).rows && Step(w, e).rows[id].state !in {ENTERED, EXITED} - {w.rows[id].state}
    ensures op.DoPoll? ==> Step(w, e) == w
  {
    OtherEvent(op, w, e);
    RowStays(w, e, id);
    StepFollowsEdges(w, e, id);
    RestartIsIdle(w);
    hide Step, Sound, OrderSession.Records, SameOrder;
  }

  lemma OtherEvent(op: Operation, w: World, e: Event)
    requires OrderSession.Records(op, w, e) && !(op.DoPoll? && op.orders.Answer? && !op.gtts.OtherError?)
    ensures !e.Poll? && (op.DoPoll? ==> e == Event.Restart)
  {
    hide ListsOpen, OrdersById, GttsById;
  }

  lemma RestartIsIdle(w: World)
    ensures Step(w, Event.Restart) == w
  {
  }

  lemma RowStays(w: World, e: Event, id: OrderId)
    requires id in w.rows
    ensures id in Step(w, e).rows
  {
    hide AdvanceOne, ListsOpen, PollCalls, CancelCalls, SquareOffCalls;
  }

  lemma PollMoves(op: Operation, w: World, e: Event, id: OrderId, orders: seq<OrderRow>, gtts: seq<GttRow>)
    requires Sound(w) && id in w.rows && IsOpen(w.rows[id]) && OrderSession.Records(op, w, e) && Answers(op, orders, gtts)
    ensures id in Step(w, e).rows
    ensures Step(w, e).rows[id] == AdvanceOne(w.rows[id], MarketOf(orders, gtts, op.gttReply), op.now).record
  {
    hide Step, AdvanceOne, ListsOpen, OrdersById, GttsById, RecordOk, GttOnExchange, IsOpen;
    assert PollsRecords(w, op.orders, op.gtts);
    PolledRecord(w, e, id);
  }

  /** Over every operation: an entered record exits if and only if it is a poll whose
      order book was answered and whose trigger list says last of its trigger that
      it went off; the price and the profit are then those of that row. */
  lemma ExitsExactlyWhen(op: Operation, w: World, e: Event, id: OrderId)
    requires Sound(w) && id in w.rows && w.rows[id].state == ENTERED && OrderSession.Records(op, w, e)
    ensures id in Step(w, e).rows
    ensures Step(w, e).rows[id].state == EXITED <==>
            op.DoPoll? && op.orders.Answer? && op.gtts.Answer? && WentOff(op.gtts.value, w.rows[id].slGttId)
    ensures op.DoPoll? && Step(w, e).rows[id].state == EXITED ==>
            exists k :: Exits(w.rows[id], Step(w, e).rows[id], op.gtts.value, op.orders.value, op.now, k)
    ensures op.DoPoll? && Step(w, e).rows[id].state != EXITED ==> Step(w, e).rows[id] == w.rows[id]
  {
    hide Step, AdvanceOne, RecordOk, GttOnExchange, ListsOpen, OrderSession.Records, Exits, MarketOf;
    if op.DoPoll? && op.orders.Answer? && !op.gtts.OtherError? {
      var gtts := if op.gtts.Answer? then op.gtts.value else [];
      PollMoves(op, w, e, id, op.orders.value, gtts);
      EnteredMoves(w.rows[id], op.orders.value, gtts, op.gttReply, op.now);
    } else {
      OtherMoves(op, w, e, id);
    }
  }

  /** Over every operation: a pending record enters if and only if it is a poll that
      gets to the records, the order book's last word on its entry is that it is
      complete, and the exchange grants the exit trigger; that trigger was then asked
      for at the fill price, for the whole quantity.  A poll fails it if the last word
      is a rejection or cancellation, or the trigger is not granted; and otherwise
      leaves it as it is. */
  lemma EntersExactlyWhen(op: Operation, w: World, e: Event, id: OrderId)
    requires Sound(w) && id in w.rows && w.rows[id].state == PENDING_ENTRY && OrderSession.Records(op, w, e)
    ensures id in Step(w, e).rows
    ensures var r, next := w.rows[id], Step(w, e).rows[id];
            && (next.state == ENTERED <==>
                  && op.DoPoll? && op.orders.Answer? && !op.gtts.OtherError?
                  && Reported(op.orders.value, r.entryOrderId, {"COMPLETE"}) && TriggerGiven(op.gttReply(id)))
            && (next.state == ENTERED ==> exists k :: Enters(r, next, op.orders.value, op.gttReply(id), op.now, k))
            && (op.DoPoll? ==>
                  (next.state == FAILED <==>
                     && op.orders.Answer? && !op.gtts.OtherError?
                     && Reported(op.orders.value, r.entryOrderId, {"COMPLETE", "REJECTED", "CANCELLED"})
                     && next.state != ENTERED))
            && (op.DoPoll? && next.state == FAILED ==> Fails(r, next, op.orders.value, op.gttReply(id)))
            && (op.DoPoll? && next.state !in {ENTERED, FAILED} ==> next == r)
  {
    hide Step, AdvanceOne, RecordOk, GttOnExchange, ListsOpen, OrderSession.Records, Enters, Fails, Reported, TriggerGiven, MarketOf;
    if op.DoPoll? && op.orders.Answer? && !op.gtts.OtherError? {
      var gtts := if op.gtts.Answer? then op.gtts.value else [];
      PollMoves(op, w, e, id, op.orders.value, gtts);
      PendingMoves(w.rows[id], op.orders.value, gtts, op.gttReply, op.now);
    } else {
      OtherMoves(op, w, e, id);
    }
  }

  lemma EnteredIsProtected(w: World, id: OrderId)
    requires Sound(w) && id in w.rows && w.rows[id].state in {ENTERED, EXITED}
    ensures w.rows[id].fillPrice.Some? && w.rows[id].slGttId.Some?
    ensures exists payload ::
              && PlaceGtt(id, payload, w.rows[id].slGttId) in w.calls
              && Protects(payload, w.rows[id], w.rows[id].fillPrice.value)
  {
    var r := w.rows[id];
    PayloadProtects(r, r.fillPrice.value);
    hide ExitPnl, BuildOcoPayload, Protects;
  }
}
