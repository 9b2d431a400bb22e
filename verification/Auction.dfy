/** One batch auction: what `run` returns and what is true of every result. */
module Auction {
  import opened Types
  import opened Encoding
  import opened Priority
  import opened Clearing
  import opened Matching

  datatype AuctionResult = AuctionResult(
    auctionId: Id,
    pair: string,
    clearingPrice: Decimal,
    matchedVolume: Decimal,
    matches: seq<Match>)

  function MatchOf(s: Sweep, t: Trade, p: Decimal): Match
    requires t.bid < |s.bids| && t.ask < |s.asks|
  {
    Match(Fill(s.bids[t.bid].id, t.size), Fill(s.asks[t.ask].id, t.size), p, t.size)
  }

  function MatchesOf(s: Sweep, trades: seq<Trade>, p: Decimal): seq<Match>
    requires forall n :: 0 <= n < |trades| ==> trades[n].bid < |s.bids| && trades[n].ask < |s.asks|
  {
    seq(|trades|, n requires 0 <= n < |trades| => MatchOf(s, trades[n], p))
  }

  /** The whole auction: sort, check the cross, price, fill. */
  ghost function Run(auctionId: Id, pair: string, bids: seq<Order>, asks: seq<Order>): Option<AuctionResult> {
    if bids == [] || asks == [] then None
    else
      var b, a := Sort(Buy, bids), Sort(Sell, asks);
      SortSorts(Buy, bids);
      SortSorts(Sell, asks);
      assert |b| == |multiset(b)| && |a| == |multiset(a)|;
      if b[0].price < a[0].price then None
      else
        var p := ClearingPrice(b, a);
        if p <= 0 then None
        else
          var s := MatchAll(b, a, p);
          MatchAllSound(b, a, p);
          if s.trades == [] then None
          else Some(AuctionResult(auctionId, pair, p, Traded(s.trades), MatchesOf(s, s.trades, p)))
  }

  /** The result is a function of the set of orders: the arrangement handed in is irrelevant. */
  lemma RunIgnoresArrangement(auctionId: Id, pair: string, bids: seq<Order>, asks: seq<Order>,
                              bids': seq<Order>, asks': seq<Order>)
    requires multiset(bids) == multiset(bids') && multiset(asks) == multiset(asks')
    requires DistinctSeqs(bids) && DistinctSeqs(asks)
    ensures Run(auctionId, pair, bids, asks) == Run(auctionId, pair, bids', asks')
  {
    SortIgnoresArrangement(Buy, bids, bids');
    SortIgnoresArrangement(Sell, asks, asks');
    assert |bids| == |multiset(bids)| == |multiset(bids')| == |bids'|;
    assert |asks| == |multiset(asks)| == |multiset(asks')| == |asks'|;
  }

  /** What one resting side of a book guarantees about its orders. */
  predicate BookSide(side: Side, orders: seq<Order>) {
    && Resting(orders) && PricesEncode(orders) && DistinctSeqs(orders)
    && (forall i :: 0 <= i < |orders| ==> orders[i].side == side)
    && (forall x, y :: x in orders && y in orders && x.id == y.id ==> x == y)
  }

  predicate DisjointIds(bids: seq<Order>, asks: seq<Order>) {
    forall b, a :: b in bids && a in asks ==> b.id != a.id
  }

  /** A book's two sides, as an auction receives them. */
  predicate Crossable(bids: seq<Order>, asks: seq<Order>) {
    BookSide(Buy, bids) && BookSide(Sell, asks) && DisjointIds(bids, asks)
  }

  /** How much of an order a list of matches consumes, on either leg. */
  function FilledOf(matches: seq<Match>, id: Id): Decimal {
    if matches == [] then 0
    else
      var m := matches[|matches| - 1];
      FilledOf(matches[..|matches| - 1], id)
      + (if m.bid.orderId == id then m.bid.size else 0)
      + (if m.ask.orderId == id then m.ask.size else 0)
  }

  lemma {:induction false} FilledOfBid(s: Sweep, trades: seq<Trade>, p: Decimal, k: nat)
    requires forall n :: 0 <= n < |trades| ==> trades[n].bid < |s.bids| && trades[n].ask < |s.asks|
    requires k < |s.bids| && BookIds(s)
    ensures FilledOf(MatchesOf(s, trades, p), s.bids[k].id) == Filled(Buy, trades, k)
  {
    if trades != [] {
      var n := |trades| - 1;
      assert MatchesOf(s, trades, p)[..n] == MatchesOf(s, trades[..n], p);
      FilledOfBid(s, trades[..n], p, k);
    }
  }

  lemma {:induction false} FilledOfAsk(s: Sweep, trades: seq<Trade>, p: Decimal, k: nat)
    requires forall n :: 0 <= n < |trades| ==> trades[n].bid < |s.bids| && trades[n].ask < |s.asks|
    requires k < |s.asks| && BookIds(s)
    ensures FilledOf(MatchesOf(s, trades, p), s.asks[k].id) == Filled(Sell, trades, k)
  {
    if trades != [] {
      var n := |trades| - 1;
      assert MatchesOf(s, trades, p)[..n] == MatchesOf(s, trades[..n], p);
      FilledOfAsk(s, trades[..n], p, k);
    }
  }

  /** Positions and identifiers correspond one to one. */
  predicate BookIds(s: Sweep) {
    && (forall i, j :: 0 <= i < |s.bids| && 0 <= j < |s.bids| && s.bids[i].id == s.bids[j].id ==> i == j)
    && (forall i, j :: 0 <= i < |s.asks| && 0 <= j < |s.asks| && s.asks[i].id == s.asks[j].id ==> i == j)
    && DisjointIds(s.bids, s.asks)
  }

  lemma {:induction false} EligibleSorted(side: Side, orders: seq<Order>, p: Decimal)
    requires Sorted(side, orders)
    ensures Sorted(side, Eligible(side, orders, p))
  {
    if orders != [] {
      EligibleSorted(side, orders[1..], p);
      EligibleWhat(side, orders[1..], p);
      var e := Eligible(side, orders[1..], p);
      forall x | x in e ensures Before(side, orders[0], x) {
        var k :| 0 <= k < |orders[1..]| && orders[1..][k] == x;
        assert orders[k + 1] == x;
      }
      ConsSorted(side, orders[0], e);
      assert [] + e == e;
    }
  }

  lemma {:induction false} EligibleDistinct(side: Side, orders: seq<Order>, p: Decimal)
    requires DistinctSeqs(orders)
    ensures DistinctSeqs(Eligible(side, orders, p))
  {
    if orders != [] {
      EligibleDistinct(side, orders[1..], p);
      EligibleWhat(side, orders[1..], p);
      var e := Eligible(side, orders[1..], p);
      forall k | 0 <= k < |e| ensures orders[0].placedSeq != e[k].placedSeq {
        assert e[k] in orders[1..];
      }
    }
  }

  /** The vector `match_orders` starts from: one side's willing orders, in priority order. */
  function Queue(side: Side, orders: seq<Order>, p: Decimal): seq<Order> {
    Eligible(side, Sort(side, orders), p)
  }

  lemma SideOfMembers(side: Side, orders: seq<Order>, sub: seq<Order>)
    requires BookSide(side, orders) && DistinctSeqs(sub)
    requires forall o :: o in sub ==> o in orders
    ensures BookSide(side, sub)
  {
    forall i | 0 <= i < |sub|
      ensures sub[i].remaining > 0 && sub[i].price > 0 && Encodable(sub[i].price) && sub[i].side == side
    {
      assert sub[i] in orders;
      var k :| 0 <= k < |orders| && orders[k] == sub[i];
    }
  }

  lemma SortWhat(side: Side, orders: seq<Order>)
    requires BookSide(side, orders)
    ensures BookSide(side, Sort(side, orders)) && Sorted(side, Sort(side, orders))
    ensures forall o :: o in Sort(side, orders) <==> o in orders
  {
    var t := Sort(side, orders);
    SortSorts(side, orders);
    DistinctSeqsPermute(orders, t);
    forall o ensures o in t <==> o in orders {
      assert o in multiset(t) <==> o in multiset(orders);
    }
    SideOfMembers(side, orders, t);
  }

  /** `q` is the queue of one side, said without the sort: the willing orders, best first. */
  predicate IsQueue(side: Side, orders: seq<Order>, p: Decimal, q: seq<Order>) {
    && BookSide(side, q) && Sorted(side, q)
    && (forall o :: o in orders && Reaches(side, o, p) ==> o in q)
    && (forall o :: o in q ==> o in orders && Reaches(side, o, p))
  }

  lemma QueueWhat(side: Side, orders: seq<Order>, p: Decimal)
    requires BookSide(side, orders)
    ensures IsQueue(side, orders, p, Queue(side, orders, p))
  {
    var t, q := Sort(side, orders), Queue(side, orders, p);
    SortWhat(side, orders);
    EligibleSorted(side, t, p);
    EligibleDistinct(side, t, p);
    EligibleWhat(side, t, p);
    SideOfMembers(side, t, q);
    forall o | o in orders ensures o.remaining > 0 {
      var k :| 0 <= k < |orders| && orders[k] == o;
    }
  }

  predicate Leg(bids: seq<Order>, asks: seq<Order>, m: Match, b: Order, a: Order) {
    b in bids && a in asks && m.bid.orderId == b.id && m.ask.orderId == a.id
  }

  /** A fill at price `p`, within both limits, between two different traders. */
  ghost predicate LegalFill(bids: seq<Order>, asks: seq<Order>, p: Decimal, m: Match) {
    && m.price == p && m.size > 0 && m.bid.size == m.size == m.ask.size
    && exists b, a :: Leg(bids, asks, m, b, a) && b.price >= p >= a.price && b.trader != a.trader
  }

  ghost predicate Legal(bids: seq<Order>, asks: seq<Order>, p: Decimal, ms: seq<Match>) {
    forall n :: 0 <= n < |ms| ==> LegalFill(bids, asks, p, ms[n])
  }

  /** No order is filled beyond what it has left. */
  predicate Within(orders: seq<Order>, ms: seq<Match>) {
    forall o :: o in orders ==> 0 <= FilledOf(ms, o.id) <= o.remaining
  }

  predicate Spent(o: Order, ms: seq<Match>) {
    FilledOf(ms, o.id) == o.remaining
  }

  /** No two willing orders of different traders are both left with something. */
  predicate Maximal(bids: seq<Order>, asks: seq<Order>, p: Decimal, ms: seq<Match>) {
    forall b, a :: b in bids && a in asks && b.price >= p >= a.price ==>
                     Spent(b, ms) || Spent(a, ms) || b.trader == a.trader
  }

  /** At the better price, or at the same price and placed earlier. */
  predicate Better(side: Side, x: Order, o: Order) {
    || (side == Buy && x.price > o.price)
    || (side == Sell && x.price < o.price)
    || (x.price == o.price && x.placedSeq < o.placedSeq)
  }

  /** Whoever is ahead of `o` is spent, or belongs to the trader that `o` was filled against. */
  ghost predicate InTurn(side: Side, orders: seq<Order>, ms: seq<Match>, o: Order, counterparty: Address) {
    forall x :: x in orders && Better(side, x, o) ==> Spent(x, ms) || x.trader == counterparty
  }

  ghost predicate BothInTurn(bids: seq<Order>, asks: seq<Order>, ms: seq<Match>, m: Match, b: Order, a: Order) {
    Leg(bids, asks, m, b, a) ==> InTurn(Buy, bids, ms, b, a.trader) && InTurn(Sell, asks, ms, a, b.trader)
  }

  /** Strict price-time priority on both legs of every fill. */
  ghost predicate PriceTime(bids: seq<Order>, asks: seq<Order>, ms: seq<Match>) {
    forall n, b, a :: 0 <= n < |ms| ==> BothInTurn(bids, asks, ms, ms[n], b, a)
  }

  ghost predicate Fair(bids: seq<Order>, asks: seq<Order>, p: Decimal, ms: seq<Match>) {
    && Legal(bids, asks, p, ms) && Within(bids, ms) && Within(asks, ms)
    && Maximal(bids, asks, p, ms) && PriceTime(bids, asks, ms)
  }
}
