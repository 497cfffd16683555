/** At which price an order is traded, what the grids mean, and what an answer says. */
module ConnectorFacts {
  import opened Sequences
  import opened Orders
  import opened Connector

  /** A market order to buy is one priced at the ask, a market order to sell one priced at the bid. */
  lemma MarketOrdersTradeAtTheTouch(ids: Idempotency, order: Order, t: Terminal)
    requires t.tick.Some? && (order.price == None || order.price == Some(0.0))
    ensures order.isBuy && t.tick.value.ask != 0.0 ==>
              Respond(ids, order, t) == Respond(ids, order.(price := Some(t.tick.value.ask)), t)
    ensures !order.isBuy && t.tick.value.bid != 0.0 ==>
              Respond(ids, order, t) == Respond(ids, order.(price := Some(t.tick.value.bid)), t)
  {
    var priced := order.(price := Some(if order.isBuy then t.tick.value.ask else t.tick.value.bid));
    assert priced.price.value != 0.0 ==> PriceOf(priced, t.tick.value) == PriceOf(order, t.tick.value);
    hide PriceOf, VolumeError, SymbolError, TickError, StopsError;
  }

  /** A priced order is sent exactly when its own price, whatever the market, fits the grid and clears its stops. */
  lemma PricedOrderIsSentIff(ids: Idempotency, order: Order, t: Terminal, price: real)
    requires order.price == Some(price) && price != 0.0
    ensures Sends(ids, order, t) <==>
              (&& !(order.clientOrderId != "" && order.clientOrderId in ids)
               && order.symbol != "" && order.quantity > 0.0
               && t.info.Some? && !t.info.value.tradeDisabled && !t.info.value.closeOnly
               && t.info.value.volumeMin <= order.quantity <= t.info.value.volumeMax
               && (t.info.value.volumeStep > 0.0 ==> OnGrid(order.quantity / t.info.value.volumeStep))
               && t.tick.Some? && t.selected
               && (t.info.value.tickSize > 0.0 ==> OnGrid(price / t.info.value.tickSize))
               && ClearOf(order.stopPrice, price, t.info.value.stopsLevel * t.info.value.point)
               && ClearOf(order.limitPrice, price, t.info.value.stopsLevel * t.info.value.point)
               && t.margin.Some? && t.freeMargin.Some? && t.freeMargin.value >= t.margin.value)
  {
    SentIffTradable(ids, order, t);
    assert t.tick.Some? ==> PriceOf(order, t.tick.value) == price;
    hide OffGrid, OnGrid, ClearOf, Sends, PriceOf;
    if t.info.Some? && t.info.value.volumeStep > 0.0 {
      OnGridIff(order.quantity / t.info.value.volumeStep);
    }
    if t.info.Some? && t.info.value.tickSize > 0.0 {
      OnGridIff(price / t.info.value.tickSize);
    }
  }

  /** Within a billionth of a whole number. */
  ghost predicate OnGrid(x: real) {
    exists k: int :: NearWhole(x, k)
  }

  predicate NearWhole(x: real, k: int) {
    -0.000000001 <= x - k as real <= 0.000000001
  }

  /** `OffGrid` is the distance from the nearest whole number: attained, and no larger than any other. */
  lemma DistanceFromWhole(x: real, k: int)
    ensures OffGrid(x) <= Abs(x - k as real)
    ensures OffGrid(x) == Abs(x - x.Floor as real) || OffGrid(x) == Abs(x - (x.Floor + 1) as real)
  {
    assert k <= x.Floor || k >= x.Floor + 1;
  }

  lemma OnGridIff(x: real)
    ensures OnGrid(x) <==> OffGrid(x) <= TOLERANCE
  {
    DistanceFromWhole(x, 0);
    if OnGrid(x) {
      var k: int :| NearWhole(x, k);
      DistanceFromWhole(x, k);
    }
    if OffGrid(x) <= TOLERANCE {
      if OffGrid(x) == Abs(x - x.Floor as real) {
        assert NearWhole(x, x.Floor);
      } else {
        assert NearWhole(x, x.Floor + 1);
      }
    }
  }

  /** The answer to an order that is sent: the order number, or failing that the deal, and success by return code. */
  lemma AnswerSays(ids: Idempotency, order: Order, t: Terminal)
    requires Sends(ids, order, t)
    ensures t.sent.None? ==> !Respond(ids, order, t).IsOk() && Remember(ids, order, t) == ids
    ensures t.sent.Some? ==>
              var result, response := t.sent.value, Respond(ids, order, t);
              var id := if result.order != 0 then result.order else result.deal;
              && response.Answered? && response.result == result && response.brokerId == id
              && (response.IsOk() <==> 10008 <= result.retcode <= 10013 || 10018 <= result.retcode <= 10019)
              && Remember(ids, order, t)
                   == (if order.clientOrderId == "" || id == 0 then ids else ids[order.clientOrderId := id])
  {
    hide Refusal;
  }

  /** An order that is not sent leaves nothing behind: a known client id is answered with its id, any other with an error. */
  lemma UnsentOrders(ids: Idempotency, order: Order, t: Terminal)
    requires !Sends(ids, order, t)
    ensures Remember(ids, order, t) == ids
    ensures if order.clientOrderId != "" && order.clientOrderId in ids
            then Respond(ids, order, t) == Duplicate(ids[order.clientOrderId])
            else Respond(ids, order, t).Failed?
  {
    hide Refusal;
  }
}
