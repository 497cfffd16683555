/** The broker connector: validation of an order, one send, and deduplication by client order id. */
module Connector {
  import opened Sequences
  import opened Orders

  datatype SymbolInfo = SymbolInfo(
    tradeDisabled: bool, closeOnly: bool, volumeMin: real, volumeMax: real, volumeStep: real,
    tickSize: real, stopsLevel: real, point: real)

  datatype Tick = Tick(bid: real, ask: real)

  datatype SendResult = SendResult(retcode: int, order: int, deal: int)

  /** Everything the terminal answers during one call. */
  datatype Terminal = Terminal(
    info: Option<SymbolInfo>, tick: Option<Tick>, selected: bool, margin: Option<real>, freeMargin: Option<real>,
    sent: Option<SendResult>)

  datatype Response =
    | Duplicate(brokerId: int)
    | Failed(error: string)
    | Answered(ok: bool, brokerId: int, result: SendResult)
  {
    predicate IsOk() {
      Duplicate? || (Answered? && ok)
    }
  }

  const SUCCESS_CODES: set<int> := {10008, 10009, 10010, 10011, 10012, 10013, 10018, 10019}

  /** Distance from the nearest integer. */
  function OffGrid(x: real): real {
    var f := x - x.Floor as real;
    if f <= 0.5 then f else 1.0 - f
  }

  const TOLERANCE: real := 0.000000001

  function SymbolError(info: Option<SymbolInfo>): Option<string> {
    if info.None? then Some("symbol not found")
    else if info.value.tradeDisabled then Some("symbol trade mode disabled")
    else if info.value.closeOnly then Some("symbol is close-only")
    else None
  }

  function VolumeError(info: SymbolInfo, volume: real): Option<string> {
    if volume < info.volumeMin || volume > info.volumeMax then Some("volume outside range")
    else if info.volumeStep > 0.0 && OffGrid(volume / info.volumeStep) > TOLERANCE then Some("volume step invalid")
    else None
  }

  function TickError(info: SymbolInfo, price: real): Option<string> {
    if info.tickSize > 0.0 && OffGrid(price / info.tickSize) > TOLERANCE then Some("price not aligned to tick size")
    else None
  }

  /** A stop of zero counts as none. */
  function StopsError(info: SymbolInfo, price: real, sl: Option<real>, tp: Option<real>): Option<string> {
    var distance := info.stopsLevel * info.point;
    if sl.Some? && sl.value != 0.0 && Abs(price - sl.value) < distance then Some("stop loss too close")
    else if tp.Some? && tp.value != 0.0 && Abs(price - tp.value) < distance then Some("take profit too close")
    else None
  }

  /** The order's own price, unless absent or zero; then the side of the market it trades against. */
  function PriceOf(order: Order, tick: Tick): real {
    if order.price.Some? && order.price.value != 0.0 then order.price.value
    else if order.isBuy then tick.ask else tick.bid
  }

  /** The first reason not to send, in the order the connector looks for one. */
  function Refusal(order: Order, t: Terminal): Option<string> {
    if order.symbol == "" || order.quantity <= 0.0 then Some("invalid order payload")
    else if SymbolError(t.info).Some? then SymbolError(t.info)
    else if VolumeError(t.info.value, order.quantity).Some? then VolumeError(t.info.value, order.quantity)
    else if t.tick.None? then Some("no market tick")
    else
      var price := PriceOf(order, t.tick.value);
      if TickError(t.info.value, price).Some? then TickError(t.info.value, price)
      else if StopsError(t.info.value, price, order.stopPrice, order.limitPrice).Some? then
        StopsError(t.info.value, price, order.stopPrice, order.limitPrice)
      else if !t.selected then Some("symbol select failed")
      else if t.margin.None? || t.freeMargin.None? || t.freeMargin.value < t.margin.value then Some("insufficient margin")
      else None
  }

  function BrokerId(result: SendResult): int {
    if result.order != 0 then result.order else result.deal
  }

  type Idempotency = map<string, int>

  predicate Known(ids: Idempotency, order: Order) {
    order.clientOrderId != "" && order.clientOrderId in ids
  }

  /** A call reaches `order_send` unless the client id is known or validation refuses. */
  predicate Sends(ids: Idempotency, order: Order, t: Terminal) {
    !Known(ids, order) && Refusal(order, t).None?
  }

  function Respond(ids: Idempotency, order: Order, t: Terminal): Response {
    if Known(ids, order) then Duplicate(ids[order.clientOrderId])
    else if Refusal(order, t).Some? then Failed(Refusal(order, t).value)
    else if t.sent.None? then Failed("order_send failed")
    else Answered(t.sent.value.retcode in SUCCESS_CODES, BrokerId(t.sent.value), t.sent.value)
  }

  function Remember(ids: Idempotency, order: Order, t: Terminal): Idempotency {
    if Sends(ids, order, t) && t.sent.Some? && order.clientOrderId != "" && BrokerId(t.sent.value) != 0 then
      ids[order.clientOrderId := BrokerId(t.sent.value)]
    else ids
  }

  class MT5Connector {
    var ids: Idempotency
    ghost var sends: seq<Order>   // every order handed to `order_send`

    constructor ()
      ensures ids == map[] && sends == []
    {
      ids, sends := map[], [];
    }

    method ExecuteOrder(order: Order, t: Terminal) returns (response: Response)
      modifies this
      ensures response == Respond(old(ids), order, t)
      ensures ids == Remember(old(ids), order, t)
      ensures sends == if Sends(old(ids), order, t) then old(sends) + [order] else old(sends)
    {
      var clientId := order.clientOrderId;
      if clientId != "" && clientId in ids {
        return Duplicate(ids[clientId]);
      }
      if order.symbol == "" || order.quantity <= 0.0 {
        return Failed("invalid order payload");
      }
      var error := SymbolError(t.info);
      if error.Some? {
        return Failed(error.value);
      }
      var info := t.info.value;
      error := VolumeError(info, order.quantity);
      if error.Some? {
        return Failed(error.value);
      }
      if t.tick.None? {
        return Failed("no market tick");
      }
      var price := PriceOf(order, t.tick.value);
      error := TickError(info, price);
      if error.Some? {
        return Failed(error.value);
      }
      error := StopsError(info, price, order.stopPrice, order.limitPrice);
      if error.Some? {
        return Failed(error.value);
      }
      if !t.selected {
        return Failed("symbol select failed");
      }
      if t.margin.None? || t.freeMargin.None? || t.freeMargin.value < t.margin.value {
        return Failed("insufficient margin");
      }
      sends := sends + [order];
      if t.sent.None? {
        return Failed("order_send failed");
      }
      var result := t.sent.value;
      var brokerId := if result.order != 0 then result.order else result.deal;
      if clientId != "" && brokerId != 0 {
        ids := ids[clientId := brokerId];
      }
      response := Answered(result.retcode in SUCCESS_CODES, brokerId, result);
    }
  }

  // ---------- laws of one call ----------

  /** What must hold for an order to reach the broker, as one condition without an order of checks. */
  predicate Tradable(order: Order, t: Terminal) {
    && order.symbol != "" && order.quantity > 0.0
    && t.info.Some? && t.tick.Some? && t.margin.Some? && t.freeMargin.Some? && t.selected
    && (var info, price := t.info.value, PriceOf(order, t.tick.value);
        && !info.tradeDisabled && !info.closeOnly
        && info.volumeMin <= order.quantity <= info.volumeMax
        && (info.volumeStep > 0.0 ==> OffGrid(order.quantity / info.volumeStep) <= TOLERANCE)
        && (info.tickSize > 0.0 ==> OffGrid(price / info.tickSize) <= TOLERANCE)
        && ClearOf(order.stopPrice, price, info.stopsLevel * info.point)
        && ClearOf(order.limitPrice, price, info.stopsLevel * info.point))
    && t.margin.value <= t.freeMargin.value
  }

  predicate ClearOf(level: Option<real>, price: real, distance: real) {
    level == None || level == Some(0.0) || level.value + distance <= price || price + distance <= level.value
      || distance <= 0.0
  }

  /** An order reaches the broker exactly when its client id is new and it is tradable. */
  lemma SentIffTradable(ids: Idempotency, order: Order, t: Terminal)
    ensures Sends(ids, order, t) <==> (!Known(ids, order) && Tradable(order, t))
  {
    hide OffGrid;
  }

  /** A duplicate is always reported as a success, so it repeats the first answer exactly when that was one. */
  lemma DuplicateRepeatsOutcomeIff(ids: Idempotency, order: Order, t: Terminal, later: Terminal)
    requires Sends(ids, order, t) && t.sent.Some? && order.clientOrderId != "" && BrokerId(t.sent.value) != 0
    ensures Respond(Remember(ids, order, t), order, later) == Duplicate(BrokerId(t.sent.value))
    ensures (Respond(Remember(ids, order, t), order, later).IsOk() == Respond(ids, order, t).IsOk())
              <==> (t.sent.value.retcode in SUCCESS_CODES)
  {
  }
}
