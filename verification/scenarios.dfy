/**
 Concrete examples, proved as lemmas, of the situations the repository's
 tests describe.
 */
module Scenarios {
  import opened Models
  import opened PriceTime
  import opened OrderBook
  import opened OrderBookProofs
  import opened OrderService
  import OrderEndpoints

  const Symbol := "BTCUSD"

  /** A fresh limit order on `Symbol`. */
  function LimitOrder(id: nat, side: OrderSide, price: real, qty: real, time: nat): Order {
    Order(id, Symbol, price, qty, Limit, side, Pending, qty, time)
  }

  function Stamps(i: nat): Stamp {
    Stamp(1000 + i, 50)
  }

  /** The book after one call (unchanged when the call is refused). */
  function After(b: Book, o: Order): Book {
    match ProcessOrder(b, o, Stamps)
    case SymbolMismatch(_) => b
    case Processed(b', _, _, _) => b'
  }

  /** An order that does not cross the opposite head rests, sorted into its own side, and trades nothing. */
  lemma RestsWithoutTrading(b: Book, o: Order)
    requires o.symbol == b.symbol && o.remaining > 0.0
    requires OppositeSide(b, o.side) == [] || !CanMatch(o, OppositeSide(b, o.side)[0])
    ensures ProcessOrder(b, o, Stamps)
            == Processed(if o.side == Buy then Book(b.symbol, SortOrders(Buy, b.bids + [o]), b.asks)
                         else Book(b.symbol, b.bids, SortOrders(Sell, b.asks + [o])),
                         o, [], [])
  {
    MatchLoopStop(b.symbol, o, OppositeSide(b, o.side), Stamps, 0);
  }

  lemma SortOne(side: OrderSide, o: Order)
    ensures SortOrders(side, [] + [o]) == [o]
  {
    assert [] + [o] == [o];
    assert [o][1..] == [];
  }

  /** The book holding one resting order. */
  lemma OneResting(o: Order)
    requires o.symbol == Symbol && o.remaining > 0.0
    ensures After(NewBook(Symbol), o)
            == if o.side == Buy then Book(Symbol, [o], []) else Book(Symbol, [], [o])
  {
    RestsWithoutTrading(NewBook(Symbol), o);
    SortOne(o.side, o);
  }

  /** An order for another symbol is refused; the message names both symbols and says they do not match. */
  lemma OtherSymbolRejected()
    ensures var o := LimitOrder(1, Buy, 100.0, 1.0, 0).(symbol := "ETHUSD");
            var r := ProcessOrder(NewBook(Symbol), o, Stamps);
            && r.SymbolMismatch?
            && r.message[..13] == "Order symbol "
            && r.message[13..19] == "ETHUSD"
            && r.message[19..|r.message| - 6] == " does not match OrderBook symbol "
            && r.message[|r.message| - 6..] == "BTCUSD"
  {
    assert "ETHUSD"[0] != Symbol[0];
    assert |MismatchLead| == 13;
  }

  /** A buy on an empty book makes no trade and rests as the only bid. */
  lemma BuyOnEmptyBookRests()
    ensures var buy := LimitOrder(1, Buy, 100.0, 1.0, 0);
            var r := ProcessOrder(NewBook(Symbol), buy, Stamps);
            r.Processed? && r.trades == [] && r.book.bids == [buy] && r.book.asks == []
  {
    var buy := LimitOrder(1, Buy, 100.0, 1.0, 0);
    RestsWithoutTrading(NewBook(Symbol), buy);
    SortOne(Buy, buy);
  }

  /** A buy meeting an equal resting sell fills both at the sell's price and empties the book. */
  lemma BuyFillsEqualSell()
    ensures var sell := LimitOrder(1, Sell, 100.0, 1.0, 0);
            var buy := LimitOrder(2, Buy, 100.0, 1.0, 1);
            var r := ProcessOrder(After(NewBook(Symbol), sell), buy, Stamps);
            && r.Processed?
            && r.trades == [Trade(1000, 2, 1, Symbol, 100.0, 1.0, 50, MakerSell)]
            && r.book.bids == [] && r.book.asks == []
            && r.order.status == Filled && r.makers[0].status == Filled
  {
    var sell := LimitOrder(1, Sell, 100.0, 1.0, 0);
    var buy := LimitOrder(2, Buy, 100.0, 1.0, 1);
    OneResting(sell);
    MatchLoopStep(Symbol, buy, [sell], Stamps, 0);
    assert [sell][1..] == [];
    MatchLoopStop(Symbol, Fill(buy, 1.0), [], Stamps, 1);
  }

  /** The status test: after an equal buy meets a resting sell, both orders are Filled. */
  lemma EqualOrdersBothFilled()
    ensures var sell := LimitOrder(1, Sell, 100.0, 1.0, 0);
            var buy := LimitOrder(2, Buy, 100.0, 1.0, 1);
            var r := ProcessOrder(After(NewBook(Symbol), sell), buy, Stamps);
            && r.Processed? && |r.makers| == 1
            && r.order.status == Filled && r.makers[0].status == Filled
            && r.makers[0].id == sell.id
  {
    BuyFillsEqualSell();
  }

  /** A larger buy takes the whole resting sell and rests with the rest, partially filled. */
  lemma PartialFillRests()
    ensures var sell := LimitOrder(1, Sell, 100.0, 2.0, 0);
            var buy := LimitOrder(2, Buy, 100.0, 5.0, 1);
            var r := ProcessOrder(After(NewBook(Symbol), sell), buy, Stamps);
            && r.Processed?
            && |r.trades| == 1 && r.trades[0].quantity == 2.0
            && r.order.remaining == 3.0 && r.order.status == PartiallyFilled
            && r.book.bids == [r.order] && r.book.asks == []
            && r.makers[0].status == Filled
  {
    var sell := LimitOrder(1, Sell, 100.0, 2.0, 0);
    var buy := LimitOrder(2, Buy, 100.0, 5.0, 1);
    OneResting(sell);
    MatchLoopStep(Symbol, buy, [sell], Stamps, 0);
    assert [sell][1..] == [];
    MatchLoopStop(Symbol, Fill(buy, 2.0), [], Stamps, 1);
    SortOne(Buy, Fill(buy, 2.0));
  }

  /** Two equal-priced sells are taken earliest first. */
  lemma EarlierSellMatchesFirst()
    ensures var sell1 := LimitOrder(1, Sell, 100.0, 1.0, 10);
            var sell2 := LimitOrder(2, Sell, 100.0, 1.0, 20);
            var buy := LimitOrder(3, Buy, 100.0, 2.0, 30);
            var r := ProcessOrder(After(After(NewBook(Symbol), sell1), sell2), buy, Stamps);
            && r.Processed?
            && |r.trades| == 2
            && r.trades[0].sellOrderId == 1 && r.trades[1].sellOrderId == 2
            && r.trades[0].quantity == 1.0 && r.trades[1].quantity == 1.0
            && r.book.bids == [] && r.book.asks == []
  {
    var sell1 := LimitOrder(1, Sell, 100.0, 1.0, 10);
    var sell2 := LimitOrder(2, Sell, 100.0, 1.0, 20);
    var buy := LimitOrder(3, Buy, 100.0, 2.0, 30);
    OneResting(sell1);
    var b1 := Book(Symbol, [], [sell1]);
    RestsWithoutTrading(b1, sell2);
    assert SortOrders(Sell, [sell1] + [sell2]) == [sell1, sell2] by {
      assert [sell1] + [sell2] == [sell1, sell2];
      SortOrdersKeepsSorted(Sell, [sell1, sell2]);
    }
    var b2 := Book(Symbol, [], [sell1, sell2]);
    assert After(b1, sell2) == b2;
    MatchLoopStep(Symbol, buy, [sell1, sell2], Stamps, 0);
    assert [sell1, sell2][1..] == [sell2];
    var buy' := Fill(buy, 1.0);
    assert buy'.remaining == 1.0;
    MatchLoopStep(Symbol, buy', [sell2], Stamps, 1);
    assert [sell2][1..] == [];
    MatchLoopStop(Symbol, Fill(buy', 1.0), [], Stamps, 2);
  }

  /** A buy below the best ask does not trade; both orders rest. */
  lemma NoCrossBothRest()
    ensures var sell := LimitOrder(1, Sell, 100.0, 1.0, 0);
            var buy := LimitOrder(2, Buy, 99.0, 1.0, 1);
            var r := ProcessOrder(After(NewBook(Symbol), sell), buy, Stamps);
            r.Processed? && r.trades == [] && r.book.bids == [buy] && r.book.asks == [sell]
  {
    var sell := LimitOrder(1, Sell, 100.0, 1.0, 0);
    var buy := LimitOrder(2, Buy, 99.0, 1.0, 1);
    OneResting(sell);
    RestsWithoutTrading(Book(Symbol, [], [sell]), buy);
    SortOne(Buy, buy);
  }

  /** A more aggressive buy still trades at the resting sell's price. */
  lemma TradeAtMakerPrice()
    ensures var sell := LimitOrder(1, Sell, 100.0, 1.0, 0);
            var buy := LimitOrder(2, Buy, 105.0, 1.0, 1);
            var r := ProcessOrder(After(NewBook(Symbol), sell), buy, Stamps);
            r.Processed? && |r.trades| == 1 && r.trades[0].price == 100.0
  {
    var sell := LimitOrder(1, Sell, 100.0, 1.0, 0);
    var buy := LimitOrder(2, Buy, 105.0, 1.0, 1);
    OneResting(sell);
    MatchLoopStep(Symbol, buy, [sell], Stamps, 0);
    assert [sell][1..] == [];
    MatchLoopStop(Symbol, Fill(buy, 1.0), [], Stamps, 1);
  }

  /** The bids after the first two buys of `BidsByPriceThenTime`: the higher price first. */
  lemma TwoBids(buy1: Order, buy2: Order)
    requires buy1 == LimitOrder(1, Buy, 100.0, 1.0, 7) && buy2 == LimitOrder(2, Buy, 101.0, 1.0, 8)
    ensures After(After(NewBook(Symbol), buy1), buy2) == Book(Symbol, [buy2, buy1], [])
  {
    OneResting(buy1);
    var b1 := Book(Symbol, [buy1], []);
    RestsWithoutTrading(b1, buy2);
    assert [buy1] + [buy2] == [buy1, buy2];
    assert [buy1, buy2][1..] == [buy2];
    SortOne(Buy, buy2);
    assert [buy2][1..] == [];
  }

  /** Three orders in precedence order, each before the next, form a sorted side. */
  lemma SortedThree(side: OrderSide, a: Order, b: Order, c: Order)
    requires Precedes(side, a, b) && Precedes(side, b, c)
    ensures Sorted(side, [a, b, c])
  {
    PrecedesTransitive(side, a, b, c);
  }

  /** Bids rest best price first, then earliest first. */
  lemma BidsByPriceThenTime()
    ensures var buy1 := LimitOrder(1, Buy, 100.0, 1.0, 7);
            var buy2 := LimitOrder(2, Buy, 101.0, 1.0, 8);
            var buy3 := LimitOrder(3, Buy, 100.0, 1.0, 9);
            After(After(After(NewBook(Symbol), buy1), buy2), buy3).bids == [buy2, buy1, buy3]
  {
    var buy1 := LimitOrder(1, Buy, 100.0, 1.0, 7);
    var buy2 := LimitOrder(2, Buy, 101.0, 1.0, 8);
    var buy3 := LimitOrder(3, Buy, 100.0, 1.0, 9);
    TwoBids(buy1, buy2);
    RestsWithoutTrading(Book(Symbol, [buy2, buy1], []), buy3);
    assert SortOrders(Buy, [buy2, buy1] + [buy3]) == [buy2, buy1, buy3] by {
      assert [buy2, buy1] + [buy3] == [buy2, buy1, buy3];
      SortedThree(Buy, buy2, buy1, buy3);
      SortOrdersKeepsSorted(Buy, [buy2, buy1, buy3]);
    }
  }

  const Pair := "BTC/USD"

  /** The symbol of the endpoint tests is not blank. */
  lemma PairNotBlank()
    ensures !IsNullOrWhiteSpace(Some(Pair))
  {
    assert !IsWhiteSpace(Pair[0]);
  }

  /** The two requests of `EndpointFilledAgainstRestingSell` pass validation. */
  lemma EndpointOrdersBuilt()
    ensures CreateOrder(Some(Pair), 60000.0, 0.75, Some("Limit"), Some("Sell"), 1, 0)
            == Success(Order(1, Pair, 60000.0, 0.75, Limit, Sell, Pending, 0.75, 0))
    ensures CreateOrder(Some(Pair), 60000.0, 0.75, Some("Limit"), Some("Buy"), 2, 1)
            == Success(Order(2, Pair, 60000.0, 0.75, Limit, Buy, Pending, 0.75, 1))
  {
    PairNotBlank();
    ParseOrderTypeRoundTrip(Limit, "Limit");
    ParseOrderSideRoundTrip(Sell, "Sell");
    ParseOrderSideRoundTrip(Buy, "Buy");
  }

  /** Type and side names are accepted in any casing: "LiMiT" and "BuY" build a limit buy. */
  lemma EndpointCaseInsensitive(id: nat, now: nat)
    ensures CreateOrder(Some(Pair), 50000.0, 1.0, Some("LiMiT"), Some("BuY"), id, now)
            == Success(Order(id, Pair, 50000.0, 1.0, Limit, Buy, Pending, 1.0, now))
  {
    PairNotBlank();
    assert EqualsIgnoreCase("LiMiT", TypeName(Limit)) by {
      var s := "LiMiT";
      assert UpperAscii(s[0]) == 'L' && UpperAscii(s[1]) == 'I' && UpperAscii(s[2]) == 'M';
      assert UpperAscii(s[3]) == 'I' && UpperAscii(s[4]) == 'T';
    }
    assert EqualsIgnoreCase("BuY", SideName(Buy)) by {
      var s := "BuY";
      assert UpperAscii(s[0]) == 'B' && UpperAscii(s[1]) == 'U' && UpperAscii(s[2]) == 'Y';
    }
    ParseOrderTypeRoundTrip(Limit, "LiMiT");
    ParseOrderSideRoundTrip(Buy, "BuY");
  }

  /** The engine side of `EndpointFilledAgainstRestingSell`. */
  lemma EngineFillsResting(sell: Order, buy: Order)
    requires sell == Order(1, Pair, 60000.0, 0.75, Limit, Sell, Pending, 0.75, 0)
    requires buy == Order(2, Pair, 60000.0, 0.75, Limit, Buy, Pending, 0.75, 1)
    ensures ProcessOrder(NewBook(Pair), sell, Stamps) == Processed(Book(Pair, [], [sell]), sell, [], [])
    ensures var p := ProcessOrder(Book(Pair, [], [sell]), buy, Stamps);
            && p.Processed? && p.order.status == Filled && p.order.remaining == 0.0
            && |p.trades| == 1 && p.trades[0].tradeType == MakerSell
            && p.trades[0].quantity == 0.75 && p.trades[0].price == 60000.0 && p.trades[0].symbol == Pair
  {
    RestsWithoutTrading(NewBook(Pair), sell);
    SortOne(Sell, sell);
    MatchLoopStep(Pair, buy, [sell], Stamps, 0);
    assert [sell][1..] == [];
    MatchLoopStop(Pair, Fill(buy, 0.75), [], Stamps, 1);
  }

  /** At the endpoint: a buy meeting an equal resting sell answers Filled, remaining 0, one MakerSell trade. */
  lemma EndpointFilledAgainstRestingSell()
    ensures var sellReq := OrderEndpoints.SubmitOrderRequest(Some(Pair), 60000.0, 0.75, Some("Limit"), Some("Sell"));
            var buyReq := OrderEndpoints.SubmitOrderRequest(Some(Pair), 60000.0, 0.75, Some("Limit"), Some("Buy"));
            var s1 := OrderEndpoints.SubmitOrder(NewBook(Pair), sellReq, 1, 0, Stamps);
            var s2 := OrderEndpoints.SubmitOrder(s1.book, buyReq, 2, 1, Stamps);
            && s2.response.Ok?
            && s2.response.body.status == "Filled"
            && s2.response.body.remainingQuantity == 0.0
            && |s2.response.body.trades| == 1
            && s2.response.body.trades[0].quantity == 0.75
            && s2.response.body.trades[0].price == 60000.0
            && s2.response.body.trades[0].symbol == Pair
            && s2.response.body.trades[0].tradeType == "MakerSell"
  {
    var sell := Order(1, Pair, 60000.0, 0.75, Limit, Sell, Pending, 0.75, 0);
    var buy := Order(2, Pair, 60000.0, 0.75, Limit, Buy, Pending, 0.75, 1);
    EndpointOrdersBuilt();
    EngineFillsResting(sell, buy);
    var p := ProcessOrder(Book(Pair, [], [sell]), buy, Stamps);
    var t := OrderEndpoints.ToTradeResponses(p.trades);
    assert OrderEndpoints.FromTradeResponse(t[0]) == Some(p.trades[0]);
  }

  /** At the endpoint: a blank symbol is refused before anything else is looked at. */
  lemma EndpointBlankSymbol()
    ensures var req := OrderEndpoints.SubmitOrderRequest(Some("   "), 0.0, -1.0, Some("Stop"), Some("Long"));
            OrderEndpoints.SubmitOrder(NewBook(Pair), req, 1, 0, Stamps).response
            == OrderEndpoints.BadRequest(OrderEndpoints.ErrorResponse("Symbol is required"))
  {
  }
}
