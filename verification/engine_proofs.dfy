/**
 What the matching engine guarantees: conservation of quantity, the shape of
 each trade, which resting orders a call touches, price-time priority of both
 sides, and the status rule.
 */
module OrderBookProofs {
  import opened Models
  import opened PriceTime
  import opened OrderBook

  /** Filling a well-formed order by a positive amount it can cover keeps it well-formed. */
  lemma FillWellFormed(o: Order, qty: real)
    requires WellFormed(o) && 0.0 < qty <= o.remaining
    ensures WellFormed(Fill(o, qty))
    ensures Fill(o, qty).status != Pending
    ensures Fill(o, qty).remaining == 0.0 <==> Fill(o, qty).status == Filled
  {
  }

  /**
   On a side sorted best first, if the head does not cross the incoming
   limit then no order behind it does: stopping at the head loses no match.
   */
  lemma NoMatchBeyondHead(incoming: Order, symbol: string, opposite: seq<Order>)
    requires Resting(Opposite(incoming.side), symbol, opposite)
    requires opposite != [] && !CanMatch(incoming, opposite[0])
    ensures forall k :: 0 <= k < |opposite| ==> !CanMatch(incoming, opposite[k])
  {
    forall k | 0 < k < |opposite|
      ensures !CanMatch(incoming, opposite[k])
    {
      CanMatchFollowsPriority(incoming, opposite[0], opposite[k]);
    }
  }

  /**
   Crossing follows price-time priority: if the incoming order crosses a
   resting order, it crosses every order that may stand before it.
   */
  lemma CanMatchFollowsPriority(incoming: Order, a: Order, b: Order)
    requires Precedes(Opposite(incoming.side), a, b)
    ensures CanMatch(incoming, b) ==> CanMatch(incoming, a)
  {
  }

  /** One iteration of the match loop: a crossing head yields one trade, then the loop goes on. */
  lemma MatchLoopStep(symbol: string, order: Order, opposite: seq<Order>, stamp: nat -> Stamp, n: nat)
    requires order.remaining > 0.0 && opposite != [] && CanMatch(order, opposite[0])
    ensures var qty := Min(order.remaining, opposite[0].remaining);
            var top' := Fill(opposite[0], qty);
            var rest := if top'.remaining == 0.0 then opposite[1..] else [top'] + opposite[1..];
            var r' := MatchLoop(symbol, Fill(order, qty), rest, stamp, n + 1);
            MatchLoop(symbol, order, opposite, stamp, n)
            == Match(r'.order, r'.opposite,
                     [CreateTrade(symbol, order, opposite[0], qty, stamp(n))] + r'.trades,
                     [top'] + r'.makers)
  {
  }

  /** The loop's exit: an exhausted order, an empty side or a head that does not cross ends it at once. */
  lemma MatchLoopStop(symbol: string, order: Order, opposite: seq<Order>, stamp: nat -> Stamp, n: nat)
    requires order.remaining <= 0.0 || opposite == [] || !CanMatch(order, opposite[0])
    ensures MatchLoop(symbol, order, opposite, stamp, n) == Match(order, opposite, [], [])
  {
  }

  lemma TotalTradedCons(t: Trade, ts: seq<Trade>)
    ensures TotalTraded([t] + ts) == t.quantity + TotalTraded(ts)
  {
    assert ([t] + ts)[1..] == ts;
  }

  lemma TotalRemainingCons(o: Order, s: seq<Order>)
    ensures TotalRemaining([o] + s) == o.remaining + TotalRemaining(s)
  {
    assert ([o] + s)[1..] == s;
  }

  /**
   Conservation in the match loop: the traded quantity is exactly what the
   incoming order lost and exactly what the opposite side lost.
   */
  lemma {:induction false} MatchConservation(symbol: string, order: Order, opposite: seq<Order>,
                                             stamp: nat -> Stamp, n: nat)
    ensures var r := MatchLoop(symbol, order, opposite, stamp, n);
            && TotalTraded(r.trades) == order.remaining - r.order.remaining
            && TotalTraded(r.trades) == TotalRemaining(opposite) - TotalRemaining(r.opposite)
    decreases LoopBound(order, opposite)
  {
    if order.remaining <= 0.0 || opposite == [] || !CanMatch(order, opposite[0]) {
    } else {
      var top := opposite[0];
      var qty := Min(order.remaining, top.remaining);
      var trade := CreateTrade(symbol, order, top, qty, stamp(n));
      var top' := Fill(top, qty);
      var rest := if top'.remaining == 0.0 then opposite[1..] else [top'] + opposite[1..];
      var r' := MatchLoop(symbol, Fill(order, qty), rest, stamp, n + 1);
      MatchConservation(symbol, Fill(order, qty), rest, stamp, n + 1);
      TotalTradedCons(trade, r'.trades);
      assert opposite == [top] + opposite[1..];
      TotalRemainingCons(top, opposite[1..]);
      if top'.remaining != 0.0 {
        TotalRemainingCons(top', opposite[1..]);
      }
    }
  }

  /**
   The k-th trade was made against the k-th order of `opposite`, which
   crosses the incoming limit; it is `CreateTrade` of the two (so at the
   maker's price, with ids and maker tag by side); and the k-th maker is that
   order decremented by exactly the traded quantity, its status recomputed.
   */
  predicate TradesAgainst(symbol: string, order: Order, opposite: seq<Order>, stamp: nat -> Stamp, n: nat,
                          trades: seq<Trade>, makers: seq<Order>)
  {
    && |trades| == |makers| <= |opposite|
    && forall k :: 0 <= k < |trades| ==>
         && CanMatch(order, opposite[k])
         && trades[k] == CreateTrade(symbol, order, opposite[k], trades[k].quantity, stamp(n + k))
         && makers[k] == Fill(opposite[k], trades[k].quantity)
  }

  lemma TradesAgainstCons(symbol: string, order: Order, order': Order, opposite: seq<Order>, stamp: nat -> Stamp, n: nat,
                          t0: Trade, top': Order, trades: seq<Trade>, makers: seq<Order>)
    requires opposite != [] && CanMatch(order, opposite[0])
    requires order'.id == order.id && order'.side == order.side && order'.price == order.price
    requires t0 == CreateTrade(symbol, order, opposite[0], t0.quantity, stamp(n))
    requires top' == Fill(opposite[0], t0.quantity)
    requires TradesAgainst(symbol, order', opposite[1..], stamp, n + 1, trades, makers)
    ensures TradesAgainst(symbol, order, opposite, stamp, n, [t0] + trades, [top'] + makers)
  {
    var ts := [t0] + trades;
    var ms := [top'] + makers;
    forall k | 0 < k < |ts|
      ensures CanMatch(order, opposite[k])
      ensures ts[k] == CreateTrade(symbol, order, opposite[k], ts[k].quantity, stamp(n + k))
      ensures ms[k] == Fill(opposite[k], ts[k].quantity)
    {
      assert opposite[1..][k - 1] == opposite[k];
      assert ts[k] == trades[k - 1] && ms[k] == makers[k - 1];
      assert n + 1 + (k - 1) == n + k;
    }
  }

  /** The trades of the match loop, against the opposite side in order (see `TradesAgainst`). */
  lemma {:induction false} MatchTrades(symbol: string, order: Order, opposite: seq<Order>,
                                       stamp: nat -> Stamp, n: nat)
    ensures var r := MatchLoop(symbol, order, opposite, stamp, n);
            TradesAgainst(symbol, order, opposite, stamp, n, r.trades, r.makers)
    decreases LoopBound(order, opposite)
  {
    if order.remaining <= 0.0 || opposite == [] || !CanMatch(order, opposite[0]) {
    } else {
      var top := opposite[0];
      var qty := Min(order.remaining, top.remaining);
      var order' := Fill(order, qty);
      var top' := Fill(top, qty);
      var t0 := CreateTrade(symbol, order, top, qty, stamp(n));
      var rest := if top'.remaining == 0.0 then opposite[1..] else [top'] + opposite[1..];
      var r' := MatchLoop(symbol, order', rest, stamp, n + 1);
      MatchTrades(symbol, order', rest, stamp, n + 1);
      if top'.remaining != 0.0 {
        // the incoming order is exhausted, so the loop stops after this trade
        assert r'.trades == [] && r'.makers == [];
      }
      TradesAgainstCons(symbol, order, order', opposite, stamp, n, t0, top', r'.trades, r'.makers);
    }
  }

  /**
   The quantity of each trade is the smaller of the incoming order's remainder
   at that moment (what it had less everything traded before) and the maker's
   remainder.
   */
  predicate QuantitiesAgainst(remaining: real, opposite: seq<Order>, trades: seq<Trade>) {
    && |trades| <= |opposite|
    && forall k :: 0 <= k < |trades| ==>
         trades[k].quantity == Min(remaining - TotalTraded(trades[..k]), opposite[k].remaining)
  }

  lemma QuantitiesAgainstCons(remaining: real, opposite: seq<Order>, t0: Trade, trades: seq<Trade>)
    requires opposite != []
    requires t0.quantity == Min(remaining, opposite[0].remaining)
    requires QuantitiesAgainst(remaining - t0.quantity, opposite[1..], trades)
    ensures QuantitiesAgainst(remaining, opposite, [t0] + trades)
  {
    var ts := [t0] + trades;
    forall k | 0 <= k < |ts|
      ensures ts[k].quantity == Min(remaining - TotalTraded(ts[..k]), opposite[k].remaining)
    {
      if k == 0 {
        assert ts[..0] == [];
      } else {
        assert opposite[1..][k - 1] == opposite[k];
        assert ts[k] == trades[k - 1];
        assert ts[..k] == [t0] + trades[..k - 1];
        TotalTradedCons(t0, trades[..k - 1]);
      }
    }
  }

  /** The quantities of the match loop's trades (see `QuantitiesAgainst`). */
  lemma {:induction false} MatchQuantities(symbol: string, order: Order, opposite: seq<Order>,
                                           stamp: nat -> Stamp, n: nat)
    ensures QuantitiesAgainst(order.remaining, opposite, MatchLoop(symbol, order, opposite, stamp, n).trades)
    decreases LoopBound(order, opposite)
  {
    if order.remaining <= 0.0 || opposite == [] || !CanMatch(order, opposite[0]) {
    } else {
      var top := opposite[0];
      var qty := Min(order.remaining, top.remaining);
      var order' := Fill(order, qty);
      var top' := Fill(top, qty);
      var t0 := CreateTrade(symbol, order, top, qty, stamp(n));
      var rest := if top'.remaining == 0.0 then opposite[1..] else [top'] + opposite[1..];
      var r' := MatchLoop(symbol, order', rest, stamp, n + 1);
      MatchQuantities(symbol, order', rest, stamp, n + 1);
      if top'.remaining != 0.0 {
        assert r'.trades == [];
      }
      QuantitiesAgainstCons(order.remaining, opposite, t0, r'.trades);
    }
  }

  /**
   Which resting orders the loop touches: every maker but the last was fully
   consumed and removed; the opposite side afterwards is the untouched tail
   of the old one, headed by the last maker if (and only if) it still has
   quantity left.
   */
  lemma {:induction false} MatchRemainder(symbol: string, order: Order, opposite: seq<Order>,
                                          stamp: nat -> Stamp, n: nat)
    ensures var r := MatchLoop(symbol, order, opposite, stamp, n);
            var t := |r.trades|;
            && t <= |opposite|
            && (forall k :: 0 <= k < t - 1 ==> r.makers[k].remaining == 0.0)
            && r.opposite == (if t > 0 && r.makers[t - 1].remaining != 0.0
                              then [r.makers[t - 1]] + opposite[t..]
                              else opposite[t..])
    decreases LoopBound(order, opposite)
  {
    if order.remaining <= 0.0 || opposite == [] || !CanMatch(order, opposite[0]) {
    } else {
      var top := opposite[0];
      var qty := Min(order.remaining, top.remaining);
      var order' := Fill(order, qty);
      var top' := Fill(top, qty);
      var rest := if top'.remaining == 0.0 then opposite[1..] else [top'] + opposite[1..];
      var r := MatchLoop(symbol, order, opposite, stamp, n);
      var r' := MatchLoop(symbol, order', rest, stamp, n + 1);
      MatchRemainder(symbol, order', rest, stamp, n + 1);
      assert r.makers == [top'] + r'.makers;
      if top'.remaining != 0.0 {
        assert r'.trades == [];
      } else {
        assert opposite[1..][|r'.trades|..] == opposite[|r'.trades| + 1..];
      }
    }
  }

  /**
   The loop keeps the opposite side a resting side: sorted, every order live.
   Every trade moves a positive quantity, and the incoming remainder never
   goes negative.
   */
  lemma {:induction false} MatchKeepsResting(symbol: string, order: Order, opposite: seq<Order>,
                                             stamp: nat -> Stamp, n: nat)
    requires Resting(Opposite(order.side), symbol, opposite)
    ensures var r := MatchLoop(symbol, order, opposite, stamp, n);
            && Resting(Opposite(order.side), symbol, r.opposite)
            && r.order.remaining <= order.remaining
            && (order.remaining >= 0.0 ==> r.order.remaining >= 0.0)
            && forall k :: 0 <= k < |r.trades| ==> r.trades[k].quantity > 0.0
    decreases LoopBound(order, opposite)
  {
    if order.remaining <= 0.0 || opposite == [] || !CanMatch(order, opposite[0]) {
    } else {
      var side := Opposite(order.side);
      var top := opposite[0];
      var qty := Min(order.remaining, top.remaining);
      var order' := Fill(order, qty);
      var top' := Fill(top, qty);
      var rest := if top'.remaining == 0.0 then opposite[1..] else [top'] + opposite[1..];
      if top'.remaining != 0.0 {
        forall i, j | 0 <= i < j < |rest|
          ensures Precedes(side, rest[i], rest[j])
        {
          assert rest[j] == opposite[j];
          if i > 0 {
            assert rest[i] == opposite[i];
          } else {
            assert Precedes(side, opposite[0], opposite[j]);
          }
        }
      } else {
        forall i, j | 0 <= i < j < |rest|
          ensures Precedes(side, rest[i], rest[j])
        {
          assert rest[i] == opposite[i + 1] && rest[j] == opposite[j + 1];
        }
      }
      assert Resting(side, symbol, rest);
      MatchKeepsResting(symbol, order', rest, stamp, n + 1);
      var r := MatchLoop(symbol, order, opposite, stamp, n);
      var r' := MatchLoop(symbol, order', rest, stamp, n + 1);
      assert r.trades == [CreateTrade(symbol, order, top, qty, stamp(n))] + r'.trades;
      forall k | 0 <= k < |r.trades|
        ensures r.trades[k].quantity > 0.0
      {
        if k > 0 {
          assert r.trades[k] == r'.trades[k - 1];
        }
      }
    }
  }

  /**
   The status rule over the whole loop: a well-formed incoming order and
   well-formed resting orders stay well-formed, and every maker and the
   incoming order, once they have traded, are no longer Pending.
   */
  lemma {:induction false} MatchKeepsWellFormed(symbol: string, order: Order, opposite: seq<Order>,
                                                stamp: nat -> Stamp, n: nat)
    requires Resting(Opposite(order.side), symbol, opposite) && AllWellFormed(opposite)
    requires WellFormed(order)
    ensures var r := MatchLoop(symbol, order, opposite, stamp, n);
            && WellFormed(r.order)
            && AllWellFormed(r.opposite)
            && AllWellFormed(r.makers)
            && (forall k :: 0 <= k < |r.makers| ==> r.makers[k].status != Pending)
            && (r.trades == [] <==> r.order == order)
            && (r.trades != [] ==> r.order.status != Pending)
    decreases LoopBound(order, opposite)
  {
    if order.remaining <= 0.0 || opposite == [] || !CanMatch(order, opposite[0]) {
    } else {
      var side := Opposite(order.side);
      var top := opposite[0];
      var qty := Min(order.remaining, top.remaining);
      var order' := Fill(order, qty);
      var top' := Fill(top, qty);
      FillWellFormed(order, qty);
      FillWellFormed(top, qty);
      var rest := if top'.remaining == 0.0 then opposite[1..] else [top'] + opposite[1..];
      MatchKeepsResting(symbol, order, opposite, stamp, n);
      if top'.remaining != 0.0 {
        assert forall i :: 1 <= i < |rest| ==> rest[i] == opposite[i];
        assert Resting(side, symbol, rest) by {
          forall i, j | 0 <= i < j < |rest|
            ensures Precedes(side, rest[i], rest[j])
          {
            assert Precedes(side, opposite[i], opposite[j]);
          }
        }
      } else {
        assert forall i :: 0 <= i < |rest| ==> rest[i] == opposite[i + 1];
      }
      MatchKeepsWellFormed(symbol, order', rest, stamp, n + 1);
      var r := MatchLoop(symbol, order, opposite, stamp, n);
      var r' := MatchLoop(symbol, order', rest, stamp, n + 1);
      assert r.makers == [top'] + r'.makers;
      assert r.order.remaining <= order'.remaining < order.remaining by {
        MatchKeepsResting(symbol, order', rest, stamp, n + 1);
      }
      forall k | 0 <= k < |r.makers|
        ensures WellFormed(r.makers[k]) && r.makers[k].status != Pending
      {
        if k > 0 {
          assert r.makers[k] == r'.makers[k - 1];
        }
      }
    }
  }

  /** Best bid strictly below best ask: no resting pair could still trade. */
  predicate Uncrossed(b: Book) {
    b.bids != [] && b.asks != [] ==> b.bids[0].price < b.asks[0].price
  }

  /** The match loop of a processed call, as `ProcessOrder` runs it. */
  function LoopOf(b: Book, order: Order, stamp: nat -> Stamp): Match {
    MatchLoop(b.symbol, order, OppositeSide(b, order.side), stamp, 0)
  }

  /** How a processed call's outcome is assembled from its match loop. */
  lemma ProcessedFromLoop(b: Book, order: Order, stamp: nat -> Stamp)
    requires order.symbol == b.symbol
    ensures var r := ProcessOrder(b, order, stamp);
            var m := LoopOf(b, order, stamp);
            && r.Processed?
            && r.order == m.order && r.trades == m.trades && r.makers == m.makers
            && OppositeSide(r.book, order.side) == m.opposite
            && OwnSide(r.book, order.side)
               == (if m.order.remaining > 0.0
                   then SortOrders(order.side, OwnSide(b, order.side) + [m.order])
                   else OwnSide(b, order.side))
  {
  }

  /**
   Conservation for one call: the traded quantity is what the incoming order
   lost and what the opposite side lost, and the own side gains exactly the
   incoming order's remainder when it rests.
   */
  lemma ProcessOrderConservation(b: Book, order: Order, stamp: nat -> Stamp)
    ensures var r := ProcessOrder(b, order, stamp);
            r.Processed? ==>
              && TotalTraded(r.trades) == order.remaining - r.order.remaining
              && TotalTraded(r.trades)
                 == TotalRemaining(OppositeSide(b, order.side)) - TotalRemaining(OppositeSide(r.book, order.side))
              && TotalRemaining(OwnSide(r.book, order.side))
                 == TotalRemaining(OwnSide(b, order.side)) + (if r.order.remaining > 0.0 then r.order.remaining else 0.0)
  {
    if order.symbol == b.symbol {
      ProcessedFromLoop(b, order, stamp);
      var m := LoopOf(b, order, stamp);
      MatchConservation(b.symbol, order, OppositeSide(b, order.side), stamp, 0);
      if m.order.remaining > 0.0 {
        var own := OwnSide(b, order.side);
        SortOrdersTotal(order.side, own + [m.order]);
        TotalRemainingAppend(own, [m.order]);
        assert [m.order][1..] == [];
      }
    }
  }

  /**
   The incoming order rests exactly when it has quantity left: the own side
   afterwards holds the old own side plus, in that case, the order's final
   state, and nothing else.
   */
  lemma ProcessOrderRestsIffRemaining(b: Book, order: Order, stamp: nat -> Stamp)
    ensures var r := ProcessOrder(b, order, stamp);
            r.Processed? ==>
              multiset(OwnSide(r.book, order.side))
              == multiset(OwnSide(b, order.side))
                 + (if r.order.remaining > 0.0 then multiset{r.order} else multiset{})
  {
    if order.symbol == b.symbol {
      ProcessedFromLoop(b, order, stamp);
    }
  }

  /**
   The trades of one call against the book's opposite side: the k-th trade
   was made against the k-th best resting order, which crossed the incoming
   limit, at the maker's price (never worse than the taker's limit), for the
   smaller of the two remainders; the makers are those orders after the fill;
   all but the last were consumed and removed, the rest of the side is
   untouched, and the loop stopped because the order was exhausted, the side
   was empty, or the new head does not cross.
   */
  lemma ProcessOrderMatches(b: Book, order: Order, stamp: nat -> Stamp)
    ensures var r := ProcessOrder(b, order, stamp);
            var opp := OppositeSide(b, order.side);
            r.Processed? ==>
              var t := |r.trades|;
              && TradesAgainst(b.symbol, order, opp, stamp, 0, r.trades, r.makers)
              && QuantitiesAgainst(order.remaining, opp, r.trades)
              && (forall k :: 0 <= k < t ==>
                    && r.trades[k].price == opp[k].price
                    && (order.side == Buy ==> r.trades[k].price <= order.price)
                    && (order.side == Sell ==> r.trades[k].price >= order.price))
              && (forall k :: 0 <= k < t - 1 ==> r.makers[k].remaining == 0.0)
              && OppositeSide(r.book, order.side)
                 == (if t > 0 && r.makers[t - 1].remaining != 0.0
                     then [r.makers[t - 1]] + opp[t..]
                     else opp[t..])
              && (r.order.remaining <= 0.0 || OppositeSide(r.book, order.side) == []
                  || !CanMatch(r.order, OppositeSide(r.book, order.side)[0]))
  {
    if order.symbol == b.symbol {
      ProcessedFromLoop(b, order, stamp);
      var opp := OppositeSide(b, order.side);
      MatchTrades(b.symbol, order, opp, stamp, 0);
      MatchQuantities(b.symbol, order, opp, stamp, 0);
      MatchRemainder(b.symbol, order, opp, stamp, 0);
    }
  }

  /**
   Each side of a processed book is still a resting side: sorted best first
   by price then time, every order live and of that side. No remaining
   quantity goes negative and every trade moves a positive quantity.
   */
  lemma ProcessOrderKeepsBookValid(b: Book, order: Order, stamp: nat -> Stamp)
    requires Valid(b)
    ensures var r := ProcessOrder(b, order, stamp);
            r.Processed? ==>
              && Valid(r.book)
              && r.order.remaining <= order.remaining
              && (order.remaining >= 0.0 ==> r.order.remaining >= 0.0)
              && forall k :: 0 <= k < |r.trades| ==> r.trades[k].quantity > 0.0
  {
    if order.symbol == b.symbol {
      ProcessedFromLoop(b, order, stamp);
      var r := ProcessOrder(b, order, stamp);
      var m := LoopOf(b, order, stamp);
      var own := OwnSide(b, order.side);
      MatchKeepsResting(b.symbol, order, OppositeSide(b, order.side), stamp, 0);
      if m.order.remaining > 0.0 {
        var own' := SortOrders(order.side, own + [m.order]);
        forall i | 0 <= i < |own'|
          ensures own'[i].remaining > 0.0 && own'[i].side == order.side && own'[i].symbol == b.symbol
        {
          assert own'[i] in multiset(own + [m.order]);
          var j :| 0 <= j < |own + [m.order]| && (own + [m.order])[j] == own'[i];
          if j < |own| {
            assert own'[i] == own[j];
          }
        }
        assert Resting(order.side, b.symbol, own');
      }
      assert Resting(order.side, b.symbol, OwnSide(r.book, order.side));
    }
  }

  /**
   When the incoming order rests, nothing left on the opposite side crosses
   it: the loop only stops early at a head that does not cross, and the side
   behind that head is worse still.
   */
  lemma ProcessOrderExhaustsCrossing(b: Book, order: Order, stamp: nat -> Stamp)
    requires Valid(b)
    ensures var r := ProcessOrder(b, order, stamp);
            r.Processed? && r.order.remaining > 0.0 ==>
              forall k :: 0 <= k < |OppositeSide(r.book, order.side)| ==>
                !CanMatch(r.order, OppositeSide(r.book, order.side)[k])
  {
    var r := ProcessOrder(b, order, stamp);
    if r.Processed? && r.order.remaining > 0.0 && OppositeSide(r.book, order.side) != [] {
      ProcessOrderKeepsBookValid(b, order, stamp);
      ProcessOrderMatches(b, order, stamp);
      NoMatchBeyondHead(r.order, b.symbol, OppositeSide(r.book, order.side));
    }
  }

  /**
   The status rule for one call, when every order involved is well-formed:
   the incoming order, every maker and every order left on the book carry
   the status their remaining quantity calls for (Filled at zero,
   PartiallyFilled strictly between, Pending only when untouched).
   */
  lemma ProcessOrderStatus(b: Book, order: Order, stamp: nat -> Stamp)
    requires Valid(b) && AllWellFormed(b.bids) && AllWellFormed(b.asks)
    requires WellFormed(order)
    ensures var r := ProcessOrder(b, order, stamp);
            r.Processed? ==>
              && WellFormed(r.order)
              && AllWellFormed(r.makers)
              && AllWellFormed(r.book.bids) && AllWellFormed(r.book.asks)
              && (forall k :: 0 <= k < |r.makers| ==> r.makers[k].status != Pending)
              && (r.trades == [] <==> r.order == order)
              && (r.trades != [] ==> r.order.status != Pending)
  {
    if order.symbol == b.symbol {
      ProcessedFromLoop(b, order, stamp);
      var m := LoopOf(b, order, stamp);
      var own := OwnSide(b, order.side);
      MatchKeepsWellFormed(b.symbol, order, OppositeSide(b, order.side), stamp, 0);
      if m.order.remaining > 0.0 {
        var own' := SortOrders(order.side, own + [m.order]);
        forall i | 0 <= i < |own'|
          ensures WellFormed(own'[i])
        {
          assert own'[i] in multiset(own + [m.order]);
          var j :| 0 <= j < |own + [m.order]| && (own + [m.order])[j] == own'[i];
        }
      }
    }
  }

  /**
   The opposite side's new head is one of its old orders, so on a sorted
   side it is priced no better than the old head.
   */
  lemma OppositeHeadNoBetter(b: Book, order: Order, stamp: nat -> Stamp)
    requires Valid(b)
    ensures var r := ProcessOrder(b, order, stamp);
            var opp := OppositeSide(b, order.side);
            r.Processed? && OppositeSide(r.book, order.side) != [] ==>
              var opp' := OppositeSide(r.book, order.side);
              && opp != []
              && (order.side == Buy ==> opp'[0].price >= opp[0].price)
              && (order.side == Sell ==> opp'[0].price <= opp[0].price)
  {
    var r := ProcessOrder(b, order, stamp);
    if r.Processed? {
      ProcessOrderMatches(b, order, stamp);
      var opp := OppositeSide(b, order.side);
      var opp' := OppositeSide(r.book, order.side);
      var t := |r.trades|;
      if opp' != [] {
        var h := if t > 0 && r.makers[t - 1].remaining != 0.0 then t - 1 else t;
        assert h < |opp| && opp'[0].price == opp[h].price by {
          if t > 0 && r.makers[t - 1].remaining != 0.0 {
            assert opp'[0] == r.makers[t - 1];
          } else {
            assert opp'[0] == opp[t];
          }
        }
        if h > 0 {
          assert Precedes(Opposite(order.side), opp[0], opp[h]);
        }
      }
    }
  }

  /**
   The own side's new head is the incoming order, resting with quantity
   left, or one of the old own orders, priced no better than the old head.
   */
  lemma OwnHeadSource(b: Book, order: Order, stamp: nat -> Stamp)
    requires Valid(b)
    ensures var r := ProcessOrder(b, order, stamp);
            var own := OwnSide(b, order.side);
            r.Processed? && OwnSide(r.book, order.side) != [] ==>
              var own' := OwnSide(r.book, order.side);
              || (own'[0] == r.order && r.order.remaining > 0.0)
              || (&& own != []
                  && (order.side == Buy ==> own'[0].price <= own[0].price)
                  && (order.side == Sell ==> own'[0].price >= own[0].price))
  {
    var r := ProcessOrder(b, order, stamp);
    if r.Processed? {
      ProcessedFromLoop(b, order, stamp);
      var own := OwnSide(b, order.side);
      var own' := OwnSide(r.book, order.side);
      if own' != [] && !(own'[0] == r.order && r.order.remaining > 0.0) {
        assert own'[0] in multiset(own') by { assert own'[0] in own'; }
        assert own'[0] in multiset(own);
        var j :| 0 <= j < |own| && own[j] == own'[0];
        if j > 0 {
          assert Precedes(order.side, own[0], own[j]);
        }
      }
    }
  }

  /**
   Price priority across the book: a book whose best bid is below its best
   ask keeps that property, because the incoming order only rests once
   nothing on the opposite side crosses it.
   */
  lemma ProcessOrderKeepsUncrossed(b: Book, order: Order, stamp: nat -> Stamp)
    requires Valid(b) && Uncrossed(b)
    ensures var r := ProcessOrder(b, order, stamp);
            r.Processed? ==> Uncrossed(r.book)
  {
    var r := ProcessOrder(b, order, stamp);
    if r.Processed? {
      ProcessedFromLoop(b, order, stamp);
      ProcessOrderMatches(b, order, stamp);
      OppositeHeadNoBetter(b, order, stamp);
      OwnHeadSource(b, order, stamp);
    }
  }
}
