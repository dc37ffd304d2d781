/**
 `OrderEndpoints.SubmitOrder`: the HTTP boundary. It validates the request
 (its own copy of the checks `CreateOrder` makes), builds the order, runs it
 through the book, turns a symbol mismatch into a BadRequest, and maps the
 order's final state and the trades into the response record.

 The book is threaded through explicitly: the result carries the book the
 next request sees.
 */
module OrderEndpoints {
  import opened Models
  import opened OrderService
  import OrderBook

  datatype SubmitOrderRequest = SubmitOrderRequest(
    symbol: Option<string>,
    price: real,
    quantity: real,
    orderType: Option<string>,
    side: Option<string>
  )

  datatype TradeResponse = TradeResponse(
    tradeId: nat,
    buyOrderId: nat,
    sellOrderId: nat,
    symbol: string,
    price: real,
    quantity: real,
    timestamp: nat,
    tradeType: string
  )

  datatype SubmitOrderResponse = SubmitOrderResponse(
    orderId: nat,
    symbol: string,
    status: string,
    remainingQuantity: real,
    trades: seq<TradeResponse>
  )

  datatype ErrorResponse = ErrorResponse(error: string)

  /** The two typed results the endpoint returns. */
  datatype Response = Ok(body: SubmitOrderResponse) | BadRequest(failure: ErrorResponse)

  /** The endpoint's answer and the book the next request sees. */
  datatype Submission = Submission(book: OrderBook.Book, response: Response)

  /**
   The endpoint's validation prefix and order construction: symbol, price,
   quantity, type, side, first failure wins.
   */
  function ValidateRequest(req: SubmitOrderRequest, id: nat, now: nat): (r: Result<Order>)
    ensures r.Success? ==> WellFormed(r.value) && r.value.status == Pending
                           && r.value.remaining == req.quantity
  {
    if IsNullOrWhiteSpace(req.symbol) then Error(SymbolRequired)
    else if req.price <= 0.0 then Error(PriceNotPositive)
    else if req.quantity <= 0.0 then Error(QuantityNotPositive)
    else
      var t := ParseOrderType(req.orderType);
      if t.None? then Error(InvalidType)
      else
        var d := ParseOrderSide(req.side);
        if d.None? then Error(InvalidSide)
        else Success(Order(id, req.symbol.value, req.price, req.quantity, t.value, d.value,
                           Pending, req.quantity, now))
  }

  /** The endpoint's checks are `CreateOrder`'s: same order, same messages, same order built. */
  lemma ValidateRequestIsCreateOrder(req: SubmitOrderRequest, id: nat, now: nat)
    ensures ValidateRequest(req, id, now)
            == CreateOrder(req.symbol, req.price, req.quantity, req.orderType, req.side, id, now)
  {
  }

  /** Reads a trade back from its response record; the inverse of `ToTradeResponse`. */
  function FromTradeResponse(tr: TradeResponse): Option<Trade> {
    match TradeTypeFromName(tr.tradeType)
    case None => None
    case Some(k) =>
      Some(Trade(tr.tradeId, tr.buyOrderId, tr.sellOrderId, tr.symbol, tr.price, tr.quantity, tr.timestamp, k))
  }

  /** Copies a trade into its response record, the trade type by name; nothing is lost. */
  function ToTradeResponse(t: Trade): (r: TradeResponse)
    ensures FromTradeResponse(r) == Some(t)
  {
    TradeResponse(t.id, t.buyOrderId, t.sellOrderId, t.symbol, t.price, t.quantity, t.timestamp,
                  TradeTypeName(t.tradeType))
  }

  /** The trades of a response, one record per trade, in order. */
  function ToTradeResponses(ts: seq<Trade>): (r: seq<TradeResponse>)
    ensures |r| == |ts|
    ensures forall k :: 0 <= k < |ts| ==> FromTradeResponse(r[k]) == Some(ts[k])
  {
    if ts == [] then []
    else
      [ToTradeResponse(ts[0])] + ToTradeResponses(ts[1..])
  }

  /** The success response: the order's state after matching, and its trades. */
  function ToResponse(o: Order, trades: seq<Trade>): (r: SubmitOrderResponse)
    ensures r.orderId == o.id && r.symbol == o.symbol && r.remainingQuantity == o.remaining
    ensures StatusFromName(r.status) == Some(o.status)
    ensures |r.trades| == |trades|
    ensures forall k :: 0 <= k < |trades| ==> FromTradeResponse(r.trades[k]) == Some(trades[k])
  {
    SubmitOrderResponse(o.id, o.symbol, StatusName(o.status), o.remaining, ToTradeResponses(trades))
  }

  /**
   `OrderEndpoints.SubmitOrder`. `id` and `now` are the fresh GUID and
   clock reading of the new order; `stamp` supplies those of its trades.
   */
  function SubmitOrder(b: OrderBook.Book, req: SubmitOrderRequest, id: nat, now: nat,
                       stamp: nat -> OrderBook.Stamp): (r: Submission)
    // a rejected request leaves the book as it was
    ensures r.response.BadRequest? ==> r.book == b
    // invalid requests carry CreateOrder's message
    ensures var v := CreateOrder(req.symbol, req.price, req.quantity, req.orderType, req.side, id, now);
            v.Error? ==> r.response == BadRequest(ErrorResponse(v.error))
    // a symbol mismatch from the book becomes a BadRequest carrying its message
    ensures var v := CreateOrder(req.symbol, req.price, req.quantity, req.orderType, req.side, id, now);
            v.Success? && v.value.symbol != b.symbol
            ==> r.response == BadRequest(ErrorResponse(OrderBook.MismatchMessage(v.value.symbol, b.symbol)))
    // otherwise the book moves on and the response reports the order after matching
    ensures var v := CreateOrder(req.symbol, req.price, req.quantity, req.orderType, req.side, id, now);
            v.Success? && v.value.symbol == b.symbol ==>
              var p := OrderBook.ProcessOrder(b, v.value, stamp);
              && p.Processed?
              && r.book == p.book
              && r.response.Ok?
              && r.response.body.orderId == id
              && r.response.body.symbol == v.value.symbol
              && r.response.body.status == StatusName(p.order.status)
              && r.response.body.remainingQuantity == p.order.remaining
              && |r.response.body.trades| == |p.trades|
              && forall k :: 0 <= k < |p.trades| ==> FromTradeResponse(r.response.body.trades[k]) == Some(p.trades[k])
  {
    ValidateRequestIsCreateOrder(req, id, now);
    match ValidateRequest(req, id, now)
    case Error(e) => Submission(b, BadRequest(ErrorResponse(e)))
    case Success(order) =>
      match OrderBook.ProcessOrder(b, order, stamp)
      case SymbolMismatch(message) => Submission(b, BadRequest(ErrorResponse(message)))
      case Processed(b', o, trades, _) => Submission(b', Ok(ToResponse(o, trades)))
  }
}
