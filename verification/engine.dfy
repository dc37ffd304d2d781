/**
 `OrderBook`: the single-symbol price-time-priority matching engine.

 The book's lock only makes each call atomic, so a call is modelled as one
 pure transition from the book and the incoming order to the new book, the
 incoming order's final state, the trades and the final state of every
 resting order the call touched. Each trade's fresh GUID and clock reading
 come from `stamp`, indexed by the trade's position within the call.
 */
module OrderBook {
  import opened Models
  import opened PriceTime

  /** The GUID and clock reading a trade is created with. */
  datatype Stamp = Stamp(id: nat, time: nat)

  /** The book of one symbol: resting bids and asks, best first. */
  datatype Book = Book(symbol: string, bids: seq<Order>, asks: seq<Order>)

  /** What a call to `ProcessOrder` does: it throws, or it returns trades. */
  datatype Outcome =
    | SymbolMismatch(message: string)
    | Processed(book: Book, order: Order, trades: seq<Trade>, makers: seq<Order>)

  /** State of the match loop: the incoming order, the opposite side, and what it produced so far. */
  datatype Match = Match(order: Order, opposite: seq<Order>, trades: seq<Trade>, makers: seq<Order>)

  /** A side of the book as the engine keeps it: sorted best first, live, of that side and symbol. */
  predicate Resting(side: OrderSide, symbol: string, s: seq<Order>) {
    && Sorted(side, s)
    && forall i :: 0 <= i < |s| ==> s[i].remaining > 0.0 && s[i].side == side && s[i].symbol == symbol
  }

  predicate Valid(b: Book) {
    Resting(Buy, b.symbol, b.bids) && Resting(Sell, b.symbol, b.asks)
  }

  /** Every order on a side carries the status its remaining quantity calls for. */
  predicate AllWellFormed(s: seq<Order>) {
    forall i :: 0 <= i < |s| ==> WellFormed(s[i])
  }

  /** The constructor: an empty book for one symbol. */
  function NewBook(symbol: string): (b: Book)
    ensures Valid(b) && b.symbol == symbol
    ensures TotalRemaining(b.bids) == 0.0 && TotalRemaining(b.asks) == 0.0
  {
    Book(symbol, [], [])
  }

  /** `GetBids`: a copy of the bids, best first. */
  function GetBids(b: Book): (r: seq<Order>)
    ensures |r| == |b.bids| && forall k :: 0 <= k < |r| ==> r[k] == b.bids[k]
    ensures Valid(b) ==> Resting(Buy, b.symbol, r)
  {
    b.bids
  }

  /** `GetAsks`: a copy of the asks, best first. */
  function GetAsks(b: Book): (r: seq<Order>)
    ensures |r| == |b.asks| && forall k :: 0 <= k < |r| ==> r[k] == b.asks[k]
    ensures Valid(b) ==> Resting(Sell, b.symbol, r)
  {
    b.asks
  }

  /** The side an order of side `side` rests on. */
  function OwnSide(b: Book, side: OrderSide): seq<Order> {
    if side == Buy then b.bids else b.asks
  }

  /** The side an order of side `side` trades against. */
  function OppositeSide(b: Book, side: OrderSide): seq<Order> {
    if side == Buy then b.asks else b.bids
  }

  /**
   `CanMatch`: the incoming limit crosses the resting order's price, that is,
   the resting price ranks at or ahead of the incoming limit on the resting side.
   */
  function CanMatch(incoming: Order, resting: Order): (r: bool)
    ensures r <==> PriceNoWorse(Opposite(incoming.side), resting.price, incoming.price)
  {
    if incoming.side == Buy then incoming.price >= resting.price
    else incoming.price <= resting.price
  }

  /** `UpdateOrderStatus`. */
  function UpdateOrderStatus(o: Order): (r: Order)
    ensures r == o.(status := r.status)
    ensures o.remaining == 0.0 ==> r.status == Filled
    ensures o.remaining != 0.0 && o.remaining < o.quantity ==> r.status == PartiallyFilled
    ensures o.remaining != 0.0 && o.remaining >= o.quantity ==> r.status == o.status
  {
    if o.remaining == 0.0 then o.(status := Filled)
    else if o.quantity > o.remaining then o.(status := PartiallyFilled)
    else o
  }

  /** An order after `qty` of it has executed: remaining decremented, status recomputed. */
  function Fill(o: Order, qty: real): (r: Order)
    ensures r == o.(remaining := o.remaining - qty, status := r.status)
    ensures WellFormed(o) && 0.0 < qty <= o.remaining ==> WellFormed(r) && r.status != Pending
  {
    UpdateOrderStatus(o.(remaining := o.remaining - qty))
  }

  /** `CreateTrade`: the trade between the incoming order and a resting one. */
  function CreateTrade(symbol: string, incoming: Order, resting: Order, qty: real, st: Stamp): (t: Trade)
    ensures t.price == resting.price
    ensures t.tradeType == (if resting.side == Buy then MakerBuy else MakerSell)
    ensures t.buyOrderId == (if incoming.side == Buy then incoming.id else resting.id)
    ensures t.sellOrderId == (if incoming.side == Sell then incoming.id else resting.id)
    ensures t.symbol == symbol && t.quantity == qty && t.id == st.id && t.timestamp == st.time
  {
    Trade(
      st.id,
      if incoming.side == Buy then incoming.id else resting.id,
      if incoming.side == Sell then incoming.id else resting.id,
      symbol,
      resting.price,
      qty,
      st.time,
      if resting.side == Buy then MakerBuy else MakerSell)
  }

  /** The number of further iterations the match loop can take at most. */
  function LoopBound(order: Order, opposite: seq<Order>): nat {
    |opposite| + (if order.remaining > 0.0 then 1 else 0)
  }

  /**
   The `while` loop of `ProcessOrder`: match the incoming order against the
   head of the opposite side while it has quantity left and the head crosses.
   `n` counts the trades already made in this call.
   */
  function MatchLoop(symbol: string, order: Order, opposite: seq<Order>, stamp: nat -> Stamp, n: nat): (r: Match)
    ensures |r.trades| == |r.makers| && |r.opposite| <= |opposite|
    ensures r.order.remaining <= 0.0 || r.opposite == [] || !CanMatch(r.order, r.opposite[0])
    ensures r.order == order.(remaining := r.order.remaining, status := r.order.status)
    decreases LoopBound(order, opposite)
  {
    if order.remaining <= 0.0 || opposite == [] then Match(order, opposite, [], [])
    else
      var top := opposite[0];
      if !CanMatch(order, top) then Match(order, opposite, [], [])
      else
        var qty := Min(order.remaining, top.remaining);
        var trade := CreateTrade(symbol, order, top, qty, stamp(n));
        var order' := Fill(order, qty);
        var top' := Fill(top, qty);
        var rest := if top'.remaining == 0.0 then opposite[1..] else [top'] + opposite[1..];
        var r := MatchLoop(symbol, order', rest, stamp, n + 1);
        Match(r.order, r.opposite, [trade] + r.trades, [top'] + r.makers)
  }

  const MismatchLead := "Order symbol "
  const MismatchJoin := " does not match OrderBook symbol "

  /** The symbol-mismatch message: it names the order's symbol and then the book's. */
  function MismatchMessage(orderSymbol: string, bookSymbol: string): (r: string)
    ensures |r| == |MismatchLead| + |orderSymbol| + |MismatchJoin| + |bookSymbol|
    ensures r[..|MismatchLead|] == MismatchLead
    ensures r[|MismatchLead|..|MismatchLead| + |orderSymbol|] == orderSymbol
    ensures r[|MismatchLead| + |orderSymbol|..|r| - |bookSymbol|] == MismatchJoin
    ensures r[|r| - |bookSymbol|..] == bookSymbol
  {
    MismatchLead + orderSymbol + MismatchJoin + bookSymbol
  }

  /** `ProcessOrder`. */
  function ProcessOrder(b: Book, order: Order, stamp: nat -> Stamp): (r: Outcome)
    ensures r.SymbolMismatch? <==> order.symbol != b.symbol
    ensures r.SymbolMismatch? ==> r.message == MismatchMessage(order.symbol, b.symbol)
    ensures r.Processed? ==>
              && r.book.symbol == b.symbol
              && r.order == order.(remaining := r.order.remaining, status := r.order.status)
  {
    if order.symbol != b.symbol then SymbolMismatch(MismatchMessage(order.symbol, b.symbol))
    else
      var m := MatchLoop(b.symbol, order, OppositeSide(b, order.side), stamp, 0);
      var own := OwnSide(b, order.side);
      var own' := if m.order.remaining > 0.0 then SortOrders(order.side, own + [m.order]) else own;
      var b' := if order.side == Buy then Book(b.symbol, own', m.opposite) else Book(b.symbol, m.opposite, own');
      Processed(b', m.order, m.trades, m.makers)
  }
}
