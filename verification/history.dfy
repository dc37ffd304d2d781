/**
 A book's history: orders submitted one after another to the same book, as
 the lock serialises them. Conservation holds per side over any such
 history: what rested at the start plus what was submitted equals what
 traded plus what still rests.
 */
module BookHistory {
  import opened Models
  import opened OrderBook
  import opened OrderBookProofs

  datatype History = History(book: Book, trades: seq<Trade>)

  /**
   Submits `orders` in sequence; a rejected order leaves the book as it was.
   `stamps(i)` supplies the trade GUIDs and clock readings of the i-th call.
   */
  function Run(b: Book, orders: seq<Order>, stamps: nat -> nat -> Stamp): History
    decreases |orders|
  {
    if orders == [] then History(b, [])
    else
      var h := Run(b, orders[..|orders| - 1], stamps);
      match ProcessOrder(h.book, orders[|orders| - 1], stamps(|orders| - 1))
      case SymbolMismatch(_) => h
      case Processed(b', _, ts, _) => History(b', h.trades + ts)
  }

  /** The quantity the accepted orders of `side` brought to a book of `symbol`. */
  function Submitted(symbol: string, orders: seq<Order>, side: OrderSide): real
    decreases |orders|
  {
    if orders == [] then 0.0
    else
      var o := orders[|orders| - 1];
      Submitted(symbol, orders[..|orders| - 1], side)
      + (if o.symbol == symbol && o.side == side then o.quantity else 0.0)
  }

  /**
   Conservation over a history of fresh orders (remaining equal to the
   non-negative quantity): per side, the starting resting total plus the
   submitted quantity equals the traded quantity plus the final resting
   total, and the book stays valid throughout.
   */
  lemma {:induction false} RunConservation(b: Book, orders: seq<Order>, stamps: nat -> nat -> Stamp)
    requires Valid(b)
    requires forall i :: 0 <= i < |orders| ==> orders[i].remaining == orders[i].quantity >= 0.0
    ensures var h := Run(b, orders, stamps);
            && Valid(h.book) && h.book.symbol == b.symbol
            && TotalRemaining(b.bids) + Submitted(b.symbol, orders, Buy)
               == TotalTraded(h.trades) + TotalRemaining(h.book.bids)
            && TotalRemaining(b.asks) + Submitted(b.symbol, orders, Sell)
               == TotalTraded(h.trades) + TotalRemaining(h.book.asks)
    decreases |orders|
  {
    if orders != [] {
      var init := orders[..|orders| - 1];
      var o := orders[|orders| - 1];
      RunConservation(b, init, stamps);
      var h := Run(b, init, stamps);
      var r := ProcessOrder(h.book, o, stamps(|orders| - 1));
      if r.Processed? {
        ProcessOrderConservation(h.book, o, stamps(|orders| - 1));
        ProcessOrderKeepsBookValid(h.book, o, stamps(|orders| - 1));
        TotalTradedAppend(h.trades, r.trades);
      }
    }
  }
}
