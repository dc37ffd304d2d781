/**
 Price-time priority, the order `OrderBook.SortOrders` puts a resting side in:
 bids by price descending, asks by price ascending, and on either side equal
 prices by timestamp ascending (earliest arrival first).
 */
module PriceTime {
  import opened Models

  /** `decimal.CompareTo`: -1, 0 or 1 as `x` is below, equal to or above `y`. */
  function CompareReal(x: real, y: real): int {
    if x < y then -1 else if x == y then 0 else 1
  }

  /** `DateTime.CompareTo` on the modelled clock readings. */
  function CompareTime(x: nat, y: nat): int {
    if x < y then -1 else if x == y then 0 else 1
  }

  /**
   The comparison lambda `SortOrders` passes to `List.Sort` for `side`: price
   descending for bids, ascending for asks, then timestamp ascending.
   */
  function Comparison(side: OrderSide, a: Order, b: Order): int {
    var priceCompare := if side == Buy then CompareReal(b.price, a.price) else CompareReal(a.price, b.price);
    if priceCompare != 0 then priceCompare else CompareTime(a.timestamp, b.timestamp)
  }

  /** Price `p` ranks at or ahead of price `q` on `side`: no lower for bids, no higher for asks. */
  predicate PriceNoWorse(side: OrderSide, p: real, q: real) {
    if side == Buy then p >= q else p <= q
  }

  /**
   `a` may stand before `b` on the side `side`: the comparison of `SortOrders`
   does not return a positive number for the pair.
   */
  function Precedes(side: OrderSide, a: Order, b: Order): (r: bool)
    ensures r <==> Comparison(side, a, b) <= 0
    ensures r ==> PriceNoWorse(side, a.price, b.price)
  {
    if side == Buy then
      a.price > b.price || (a.price == b.price && a.timestamp <= b.timestamp)
    else
      a.price < b.price || (a.price == b.price && a.timestamp <= b.timestamp)
  }

  /** Every earlier element may stand before every later one. */
  predicate Sorted(side: OrderSide, s: seq<Order>) {
    forall i, j :: 0 <= i < j < |s| ==> Precedes(side, s[i], s[j])
  }

  /** Precedence is total: of two orders, one may stand before the other. */
  lemma PrecedesTotal(side: OrderSide, a: Order, b: Order)
    ensures Precedes(side, a, b) || Precedes(side, b, a)
  {
  }

  lemma PrecedesTransitive(side: OrderSide, a: Order, b: Order, c: Order)
    requires Precedes(side, a, b) && Precedes(side, b, c)
    ensures Precedes(side, a, c)
  {
  }

  /** Inserts `x` into a side after every order it may not precede. */
  function Insert(side: OrderSide, x: Order, s: seq<Order>): (r: seq<Order>)
    ensures multiset(r) == multiset(s) + multiset{x}
    ensures |r| == |s| + 1
  {
    if s == [] then [x]
    else if Precedes(side, x, s[0]) then [x] + s
    else
      assert s == [s[0]] + s[1..];
      [s[0]] + Insert(side, x, s[1..])
  }

  /** An order that may stand before every order of a sorted side can lead it. */
  lemma ConsSorted(side: OrderSide, h: Order, rest: seq<Order>)
    requires Sorted(side, rest)
    requires forall k :: 0 <= k < |rest| ==> Precedes(side, h, rest[k])
    ensures Sorted(side, [h] + rest)
  {
    var r := [h] + rest;
    forall i, j | 0 <= i < j < |r|
      ensures Precedes(side, r[i], r[j])
    {
      if i == 0 {
        assert r[j] == rest[j - 1];
      } else {
        assert r[i] == rest[i - 1] && r[j] == rest[j - 1];
      }
    }
  }

  /** The head of a sorted side may stand before every order of its tail with `x` inserted, if before `x`. */
  lemma HeadPrecedesInserted(side: OrderSide, x: Order, s: seq<Order>)
    requires s != [] && Sorted(side, s) && Precedes(side, s[0], x)
    ensures forall k :: 0 <= k < |Insert(side, x, s[1..])| ==> Precedes(side, s[0], Insert(side, x, s[1..])[k])
  {
    var rest := Insert(side, x, s[1..]);
    forall k | 0 <= k < |rest|
      ensures Precedes(side, s[0], rest[k])
    {
      assert rest[k] in multiset(rest);
      if rest[k] != x {
        assert rest[k] in multiset(s[1..]);
        var m :| 0 <= m < |s[1..]| && s[1..][m] == rest[k];
        assert s[m + 1] == rest[k];
      }
    }
  }

  /** Inserting into a sorted side keeps it sorted. */
  lemma {:induction false} InsertSorted(side: OrderSide, x: Order, s: seq<Order>)
    requires Sorted(side, s)
    ensures Sorted(side, Insert(side, x, s))
  {
    if s == [] {
    } else if Precedes(side, x, s[0]) {
      forall k | 0 <= k < |s|
        ensures Precedes(side, x, s[k])
      {
        if k > 0 {
          PrecedesTransitive(side, x, s[0], s[k]);
        }
      }
      ConsSorted(side, x, s);
    } else {
      SortedTail(side, s);
      InsertSorted(side, x, s[1..]);
      PrecedesTotal(side, x, s[0]);
      HeadPrecedesInserted(side, x, s);
      ConsSorted(side, s[0], Insert(side, x, s[1..]));
    }
  }

  /**
   `SortOrders`: re-establishes price-time priority over a whole side. The
   source sorts with `List.Sort`, which may order exactly equal keys either way;
   the model fixes one such order and promises only what both share.
   */
  function SortOrders(side: OrderSide, s: seq<Order>): (r: seq<Order>)
    ensures Sorted(side, r)
    ensures multiset(r) == multiset(s)
    ensures |r| == |s|
  {
    if s == [] then []
    else
      assert s == [s[0]] + s[1..];
      InsertSorted(side, s[0], SortOrders(side, s[1..]));
      Insert(side, s[0], SortOrders(side, s[1..]))
  }

  /** Re-sorting a side that is already in price-time order leaves it exactly as it was. */
  lemma {:induction false} SortOrdersKeepsSorted(side: OrderSide, s: seq<Order>)
    requires Sorted(side, s)
    ensures SortOrders(side, s) == s
  {
    if s != [] {
      var tail := s[1..];
      SortedTail(side, s);
      SortOrdersKeepsSorted(side, tail);
      if tail != [] {
        assert Precedes(side, s[0], tail[0]);
      }
      assert [s[0]] + tail == s;
    }
  }

  /** No two different orders of `s` share both price and timestamp, the sort key. */
  predicate DistinctKeys(s: seq<Order>) {
    forall a, b :: a in s && b in s && a != b ==> a.price != b.price || a.timestamp != b.timestamp
  }

  /** Dropping the head of a sorted side leaves it sorted. */
  lemma SortedTail(side: OrderSide, s: seq<Order>)
    requires s != [] && Sorted(side, s)
    ensures Sorted(side, s[1..])
  {
    var tail := s[1..];
    forall i, j | 0 <= i < j < |tail|
      ensures Precedes(side, tail[i], tail[j])
    {
      assert tail[i] == s[i + 1] && tail[j] == s[j + 1];
    }
  }

  /** Two sorted permutations of the same orders start with orders of the same key. */
  lemma HeadKeysMeet(side: OrderSide, s: seq<Order>, t: seq<Order>)
    requires s != [] && Sorted(side, s) && Sorted(side, t)
    requires multiset(s) == multiset(t)
    ensures t != [] && t[0] in s
    ensures s[0].price == t[0].price && s[0].timestamp == t[0].timestamp
  {
    assert s[0] in multiset(t);
    var j :| 0 <= j < |t| && t[j] == s[0];
    assert t[0] in multiset(s);
    var i :| 0 <= i < |s| && s[i] == t[0];
    assert i == 0 || Precedes(side, s[0], s[i]);
    assert j == 0 || Precedes(side, t[0], t[j]);
  }

  /** With distinct keys, two sorted permutations of the same orders start with the same order. */
  lemma SameHead(side: OrderSide, s: seq<Order>, t: seq<Order>)
    requires s != [] && Sorted(side, s) && Sorted(side, t)
    requires multiset(s) == multiset(t)
    requires DistinctKeys(s)
    ensures t != [] && s[0] == t[0]
  {
    HeadKeysMeet(side, s, t);
    assert s[0] in s;
  }

  /** Equal multisets with equal heads have equal tails. */
  lemma SameTail(s: seq<Order>, t: seq<Order>)
    requires s != [] && t != [] && s[0] == t[0]
    requires multiset(s) == multiset(t)
    ensures multiset(s[1..]) == multiset(t[1..])
  {
    assert s == [s[0]] + s[1..] && t == [t[0]] + t[1..];
    assert multiset(s[1..]) == multiset(s) - multiset{s[0]};
    assert multiset(t[1..]) == multiset(t) - multiset{t[0]};
  }

  /** Dropping the head keeps the keys distinct. */
  lemma DistinctKeysTail(s: seq<Order>)
    requires s != [] && DistinctKeys(s)
    ensures DistinctKeys(s[1..])
  {
    forall x | x in s[1..] ensures x in s {
      var k :| 0 <= k < |s[1..]| && s[1..][k] == x;
      assert s[k + 1] == x;
    }
  }

  /**
   With distinct keys a side has only one sorted arrangement: two sorted
   permutations of the same orders are equal. Any correct sort, an unstable
   one included, therefore returns an already sorted side unchanged.
   */
  lemma {:induction false} SortedUnique(side: OrderSide, s: seq<Order>, t: seq<Order>)
    requires Sorted(side, s) && Sorted(side, t)
    requires multiset(s) == multiset(t)
    requires DistinctKeys(s)
    ensures s == t
  {
    if s == [] {
      assert |t| == |multiset(t)| == 0;
    } else {
      SameHead(side, s, t);
      SameTail(s, t);
      SortedTail(side, s);
      SortedTail(side, t);
      DistinctKeysTail(s);
      SortedUnique(side, s[1..], t[1..]);
      assert s == [s[0]] + s[1..] && t == [t[0]] + t[1..];
    }
  }

  /**
   With distinct keys the tie order does not matter: every sorted permutation
   of a side, whatever an unstable sort returns, is the model's `SortOrders`.
   */
  lemma SortAgrees(side: OrderSide, s: seq<Order>, r: seq<Order>)
    requires Sorted(side, r) && multiset(r) == multiset(s)
    requires DistinctKeys(s)
    ensures r == SortOrders(side, s)
  {
    var m := SortOrders(side, s);
    forall x ensures x in m <==> x in s {
      assert x in m <==> x in multiset(m);
      assert x in s <==> x in multiset(s);
    }
    SortedUnique(side, m, r);
  }

  /** Inserting adds exactly the inserted order's remaining quantity to the side's total. */
  lemma {:induction false} InsertTotal(side: OrderSide, x: Order, s: seq<Order>)
    ensures TotalRemaining(Insert(side, x, s)) == x.remaining + TotalRemaining(s)
  {
    if s == [] {
    } else if Precedes(side, x, s[0]) {
      assert ([x] + s)[1..] == s;
    } else {
      InsertTotal(side, x, s[1..]);
      var r := [s[0]] + Insert(side, x, s[1..]);
      assert r[1..] == Insert(side, x, s[1..]);
    }
  }

  /** Re-sorting neither creates nor loses resting quantity. */
  lemma {:induction false} SortOrdersTotal(side: OrderSide, s: seq<Order>)
    ensures TotalRemaining(SortOrders(side, s)) == TotalRemaining(s)
  {
    if s != [] {
      SortOrdersTotal(side, s[1..]);
      InsertTotal(side, s[0], SortOrders(side, s[1..]));
    }
  }
}
