/**
 `UnsafeOrderBook`: the same matching transition as `OrderBook` without the
 lock, written here the way the source writes it, as a `while` loop that
 updates local copies of the incoming order and the opposite side, plus the
 two summing accessors.

 Its private helpers (`CanMatch`, `CreateTrade`, `UpdateOrderStatus`,
 `SortOrders`) and its snapshot accessors are the same code as `OrderBook`'s,
 so the model uses `OrderBook`'s definitions of them.
 */
module UnsafeOrderBook {
  import opened Models
  import opened PriceTime
  import OrderBook
  import OrderBookProofs

  /**
   `UnsafeOrderBook.ProcessOrder`. Called sequentially it is the same
   transition as `OrderBook.ProcessOrder`: same rejection, same book, same
   final order, same trades and makers.
   */
  method ProcessOrder(b: OrderBook.Book, order: Order, stamp: nat -> OrderBook.Stamp)
    returns (r: OrderBook.Outcome)
    ensures r == OrderBook.ProcessOrder(b, order, stamp)
  {
    if order.symbol != b.symbol {
      return OrderBook.SymbolMismatch(OrderBook.MismatchMessage(order.symbol, b.symbol));
    }
    var opposite := if order.side == Buy then b.asks else b.bids;
    var own := if order.side == Buy then b.bids else b.asks;
    var incoming := order;
    var trades: seq<Trade> := [];
    var makers: seq<Order> := [];
    ghost var whole := OrderBook.MatchLoop(b.symbol, order, opposite, stamp, 0);
    assert whole == Resume(b.symbol, incoming, opposite, stamp, trades, makers);

    while incoming.remaining > 0.0 && |opposite| > 0
      invariant whole == Resume(b.symbol, incoming, opposite, stamp, trades, makers)
      decreases OrderBook.LoopBound(incoming, opposite)
    {
      var top := opposite[0];
      if !OrderBook.CanMatch(incoming, top) {
        break;
      }
      var matched := Min(incoming.remaining, top.remaining);
      var trade := OrderBook.CreateTrade(b.symbol, incoming, top, matched, stamp(|trades|));
      ResumeStep(b.symbol, incoming, opposite, stamp, trades, makers);
      trades := trades + [trade];

      incoming := incoming.(remaining := incoming.remaining - matched);
      top := top.(remaining := top.remaining - matched);
      incoming := OrderBook.UpdateOrderStatus(incoming);
      top := OrderBook.UpdateOrderStatus(top);
      makers := makers + [top];

      if top.remaining == 0.0 {
        opposite := opposite[1..];
      } else {
        opposite := [top] + opposite[1..];
      }
    }
    ResumeStop(b.symbol, incoming, opposite, stamp, trades, makers);

    if incoming.remaining > 0.0 {
      own := SortOrders(order.side, own + [incoming]);
    }
    var b' := if order.side == Buy then OrderBook.Book(b.symbol, own, opposite)
              else OrderBook.Book(b.symbol, opposite, own);
    return OrderBook.Processed(b', incoming, trades, makers);
  }

  /**
   What the match loop finishes with when resumed from the given state: the
   trades and makers so far followed by those of the remaining iterations.
   */
  ghost function Resume(symbol: string, incoming: Order, opposite: seq<Order>, stamp: nat -> OrderBook.Stamp,
                        trades: seq<Trade>, makers: seq<Order>): OrderBook.Match
  {
    var m := OrderBook.MatchLoop(symbol, incoming, opposite, stamp, |trades|);
    OrderBook.Match(m.order, m.opposite, trades + m.trades, makers + m.makers)
  }

  lemma ResumeStep(symbol: string, incoming: Order, opposite: seq<Order>, stamp: nat -> OrderBook.Stamp,
                   trades: seq<Trade>, makers: seq<Order>)
    requires incoming.remaining > 0.0 && opposite != [] && OrderBook.CanMatch(incoming, opposite[0])
    ensures var qty := Min(incoming.remaining, opposite[0].remaining);
            var top' := OrderBook.Fill(opposite[0], qty);
            var rest := if top'.remaining == 0.0 then opposite[1..] else [top'] + opposite[1..];
            var trade := OrderBook.CreateTrade(symbol, incoming, opposite[0], qty, stamp(|trades|));
            Resume(symbol, incoming, opposite, stamp, trades, makers)
            == Resume(symbol, OrderBook.Fill(incoming, qty), rest, stamp, trades + [trade], makers + [top'])
  {
    var qty := Min(incoming.remaining, opposite[0].remaining);
    var top' := OrderBook.Fill(opposite[0], qty);
    var rest := if top'.remaining == 0.0 then opposite[1..] else [top'] + opposite[1..];
    var trade := OrderBook.CreateTrade(symbol, incoming, opposite[0], qty, stamp(|trades|));
    var after := OrderBook.MatchLoop(symbol, OrderBook.Fill(incoming, qty), rest, stamp, |trades| + 1);
    OrderBookProofs.MatchLoopStep(symbol, incoming, opposite, stamp, |trades|);
    assert trades + ([trade] + after.trades) == (trades + [trade]) + after.trades;
    assert makers + ([top'] + after.makers) == (makers + [top']) + after.makers;
  }

  lemma ResumeStop(symbol: string, incoming: Order, opposite: seq<Order>, stamp: nat -> OrderBook.Stamp,
                   trades: seq<Trade>, makers: seq<Order>)
    requires incoming.remaining <= 0.0 || opposite == [] || !OrderBook.CanMatch(incoming, opposite[0])
    ensures Resume(symbol, incoming, opposite, stamp, trades, makers)
            == OrderBook.Match(incoming, opposite, trades, makers)
  {
    OrderBookProofs.MatchLoopStop(symbol, incoming, opposite, stamp, |trades|);
    assert trades + [] == trades && makers + [] == makers;
  }

  /** Sums the remaining quantities of a side, front to back. */
  method SumRemaining(side: seq<Order>) returns (total: real)
    ensures total == TotalRemaining(side)
  {
    total := 0.0;
    var i := 0;
    while i < |side|
      invariant 0 <= i <= |side|
      invariant total + TotalRemaining(side[i..]) == TotalRemaining(side)
    {
      assert side[i..][1..] == side[i + 1..];
      total := total + side[i].remaining;
      i := i + 1;
    }
  }

  /** `GetTotalBidQty`: the bids' total remaining quantity. */
  method GetTotalBidQty(b: OrderBook.Book) returns (total: real)
    ensures total == TotalRemaining(b.bids)
  {
    total := SumRemaining(b.bids);
  }

  /** `GetTotalAskQty`: the asks' total remaining quantity. */
  method GetTotalAskQty(b: OrderBook.Book) returns (total: real)
    ensures total == TotalRemaining(b.asks)
  {
    total := SumRemaining(b.asks);
  }
}
