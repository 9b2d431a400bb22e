/** Every auction result is fair: legal, bounded, maximal, and in strict price-time priority. */
module Fairness {
  import opened Types
  import opened Priority
  import opened Clearing
  import opened Matching
  import opened Auction

  /** Filling changed sizes only, and by what `ms` says of each order. */
  predicate Consumed(was: seq<Order>, now: seq<Order>, ms: seq<Match>) {
    && |was| == |now|
    && forall k :: 0 <= k < |was| ==>
                     && now[k].id == was[k].id && now[k].trader == was[k].trader
                     && 0 <= now[k].remaining == was[k].remaining - FilledOf(ms, was[k].id)
                     && 0 <= FilledOf(ms, was[k].id)
  }

  lemma IdsOf(w: Sweep, bids: seq<Order>, asks: seq<Order>, p: Decimal)
    requires DisjointIds(bids, asks)
    requires IsQueue(Buy, bids, p, w.bids) && IsQueue(Sell, asks, p, w.asks)
    ensures BookIds(w)
  {
  }

  lemma SameIds(w: Sweep, s: Sweep)
    requires BookIds(w) && Filling(w.bids, s.bids) && Filling(w.asks, s.asks)
    ensures BookIds(s)
  {
  }

  /** Consumption by identifier is consumption by position. */
  lemma BidsConsumed(w: Sweep, s: Sweep, p: Decimal)
    requires Genuine(s) && BookIds(s) && Balanced(Buy, w.bids, s.bids, s.trades)
    ensures Consumed(w.bids, s.bids, MatchesOf(s, s.trades, p))
  {
    forall k | 0 <= k < |w.bids|
      ensures FilledOf(MatchesOf(s, s.trades, p), w.bids[k].id) == w.bids[k].remaining - s.bids[k].remaining
    {
      FilledOfBid(s, s.trades, p, k);
    }
  }

  lemma AsksConsumed(w: Sweep, s: Sweep, p: Decimal)
    requires Genuine(s) && BookIds(s) && Balanced(Sell, w.asks, s.asks, s.trades)
    ensures Consumed(w.asks, s.asks, MatchesOf(s, s.trades, p))
  {
    forall k | 0 <= k < |w.asks|
      ensures FilledOf(MatchesOf(s, s.trades, p), w.asks[k].id) == w.asks[k].remaining - s.asks[k].remaining
    {
      FilledOfAsk(s, s.trades, p, k);
    }
  }

  lemma {:induction false} FilledOfNone(ms: seq<Match>, id: Id)
    requires forall n :: 0 <= n < |ms| ==> ms[n].bid.orderId != id && ms[n].ask.orderId != id
    ensures FilledOf(ms, id) == 0
  {
    if ms != [] {
      FilledOfNone(ms[..|ms| - 1], id);
    }
  }

  lemma {:induction false} FillsLegal(bids: seq<Order>, asks: seq<Order>, p: Decimal, w: Sweep, s: Sweep, ms: seq<Match>)
    requires IsQueue(Buy, bids, p, w.bids) && IsQueue(Sell, asks, p, w.asks)
    requires Genuine(s) && ms == MatchesOf(s, s.trades, p)
    requires Consumed(w.bids, s.bids, ms) && Consumed(w.asks, s.asks, ms)
    ensures Legal(bids, asks, p, ms)
  {
    forall n | 0 <= n < |ms| ensures LegalFill(bids, asks, p, ms[n]) {
      var b, a := w.bids[s.trades[n].bid], w.asks[s.trades[n].ask];
      assert b in w.bids && a in w.asks;
      assert Leg(bids, asks, ms[n], b, a);
    }
  }

  /** Orders outside the queues are not touched; orders inside give up at most what they have. */
  lemma FillsWithin(side: Side, orders: seq<Order>, p: Decimal, w: seq<Order>, s: seq<Order>, ms: seq<Match>)
    requires BookSide(side, orders) && IsQueue(side, orders, p, w) && Consumed(w, s, ms)
    requires forall o, n :: o in orders && 0 <= n < |ms| && !Reaches(side, o, p) ==>
                              ms[n].bid.orderId != o.id && ms[n].ask.orderId != o.id
    ensures Within(orders, ms)
  {
    forall o | o in orders ensures 0 <= FilledOf(ms, o.id) <= o.remaining {
      if Reaches(side, o, p) {
        var k :| 0 <= k < |w| && w[k] == o;
      } else {
        FilledOfNone(ms, o.id);
        var i :| 0 <= i < |orders| && orders[i] == o;
      }
    }
  }

  lemma FillsMaximal(bids: seq<Order>, asks: seq<Order>, p: Decimal, w: Sweep, s: Sweep, ms: seq<Match>)
    requires IsQueue(Buy, bids, p, w.bids) && IsQueue(Sell, asks, p, w.asks)
    requires Exhausted(s, |s.bids|, 0)
    requires Consumed(w.bids, s.bids, ms) && Consumed(w.asks, s.asks, ms)
    ensures Maximal(bids, asks, p, ms)
  {
  }

  /** In a sorted queue, whoever comes before an order stands before it. */
  lemma Ahead(side: Side, orders: seq<Order>, p: Decimal, q: seq<Order>, i: nat, x: Order) returns (k: nat)
    requires IsQueue(side, orders, p, q) && i < |q|
    requires x in orders && x != q[i] && Before(side, x, q[i])
    ensures k < i && q[k] == x
  {
    assert q[i] in q;
    assert Reaches(side, x, p);
    k :| 0 <= k < |q| && q[k] == x;
  }

  lemma BidsInTurn(bids: seq<Order>, p: Decimal, w: seq<Order>, s: Sweep, t: Trade, ms: seq<Match>)
    requires IsQueue(Buy, bids, p, w) && Consumed(w, s.bids, ms)
    requires t.bid < |s.bids| && t.ask < |s.asks| && BidFirst(s, t)
    ensures InTurn(Buy, bids, ms, w[t.bid], s.asks[t.ask].trader)
  {
    forall x | x in bids && Better(Buy, x, w[t.bid])
      ensures Spent(x, ms) || x.trader == s.asks[t.ask].trader
    {
      var k := Ahead(Buy, bids, p, w, t.bid, x);
    }
  }

  lemma AsksInTurn(asks: seq<Order>, p: Decimal, w: seq<Order>, s: Sweep, t: Trade, ms: seq<Match>)
    requires IsQueue(Sell, asks, p, w) && Consumed(w, s.asks, ms)
    requires t.bid < |s.bids| && t.ask < |s.asks| && AskFirst(s, t)
    ensures InTurn(Sell, asks, ms, w[t.ask], s.bids[t.bid].trader)
  {
    forall x | x in asks && Better(Sell, x, w[t.ask])
      ensures Spent(x, ms) || x.trader == s.bids[t.bid].trader
    {
      var k := Ahead(Sell, asks, p, w, t.ask, x);
    }
  }

  /** The order a match names is the one its trade crossed. */
  lemma LegIs(side: Side, orders: seq<Order>, p: Decimal, q: seq<Order>, k: nat, o: Order)
    requires BookSide(side, orders) && IsQueue(side, orders, p, q) && k < |q|
    requires o in orders && o.id == q[k].id
    ensures o == q[k]
  {
  }

  lemma FillInTurn(bids: seq<Order>, asks: seq<Order>, p: Decimal, w: Sweep, s: Sweep, ms: seq<Match>, t: Trade,
                   b: Order, a: Order)
    requires BookSide(Buy, bids) && IsQueue(Buy, bids, p, w.bids) && Consumed(w.bids, s.bids, ms)
    requires BookSide(Sell, asks) && IsQueue(Sell, asks, p, w.asks) && Consumed(w.asks, s.asks, ms)
    requires t.bid < |s.bids| && t.ask < |s.asks| && BidFirst(s, t) && AskFirst(s, t)
    ensures BothInTurn(bids, asks, ms, MatchOf(s, t, p), b, a)
  {
    if Leg(bids, asks, MatchOf(s, t, p), b, a) {
      LegIs(Buy, bids, p, w.bids, t.bid, b);
      LegIs(Sell, asks, p, w.asks, t.ask, a);
      BidsInTurn(bids, p, w.bids, s, t, ms);
      AsksInTurn(asks, p, w.asks, s, t, ms);
    }
  }

  lemma FillsInTurn(bids: seq<Order>, asks: seq<Order>, p: Decimal, w: Sweep, s: Sweep, ms: seq<Match>)
    requires BookSide(Buy, bids) && BookSide(Sell, asks)
    requires IsQueue(Buy, bids, p, w.bids) && IsQueue(Sell, asks, p, w.asks)
    requires Genuine(s) && Prioritised(s) && ms == MatchesOf(s, s.trades, p)
    requires Consumed(w.bids, s.bids, ms) && Consumed(w.asks, s.asks, ms)
    ensures PriceTime(bids, asks, ms)
  {
    forall n, b, a | 0 <= n < |ms| ensures BothInTurn(bids, asks, ms, ms[n], b, a) {
      FillInTurn(bids, asks, p, w, s, ms, s.trades[n], b, a);
    }
  }

  /** The state `match_orders` starts in, and the one it ends in. */
  lemma RunOutcome(auctionId: Id, pair: string, bids: seq<Order>, asks: seq<Order>) returns (w: Sweep, s: Sweep)
    requires Crossable(bids, asks) && Run(auctionId, pair, bids, asks).Some?
    ensures var r := Run(auctionId, pair, bids, asks).value;
            && IsQueue(Buy, bids, r.clearingPrice, w.bids) && IsQueue(Sell, asks, r.clearingPrice, w.asks)
            && Sound(w, s, |s.bids|, 0)
            && r.matches == MatchesOf(s, s.trades, r.clearingPrice)
            && r.matchedVolume == Traded(s.trades)
            && Consumed(w.bids, s.bids, r.matches) && Consumed(w.asks, s.asks, r.matches)
            && w.bids == Queue(Buy, bids, r.clearingPrice) && w.asks == Queue(Sell, asks, r.clearingPrice)
  {
    var r := Run(auctionId, pair, bids, asks).value;
    var p := r.clearingPrice;
    w := Sweep(Queue(Buy, bids, p), Queue(Sell, asks, p), []);
    s := MatchAll(Sort(Buy, bids), Sort(Sell, asks), p);
    MatchAllSound(Sort(Buy, bids), Sort(Sell, asks), p);
    QueueWhat(Buy, bids, p);
    QueueWhat(Sell, asks, p);
    IdsOf(w, bids, asks, p);
    SameIds(w, s);
    BidsConsumed(w, s, p);
    AsksConsumed(w, s, p);
  }

  /**
    Every result is fair: fills are legal and bounded, priority is strict, and
    nothing that could still trade is left over.
   */
  lemma RunIsFair(auctionId: Id, pair: string, bids: seq<Order>, asks: seq<Order>)
    requires Crossable(bids, asks) && Run(auctionId, pair, bids, asks).Some?
    ensures var r := Run(auctionId, pair, bids, asks).value; Fair(bids, asks, r.clearingPrice, r.matches)
  {
    var r := Run(auctionId, pair, bids, asks).value;
    var p, ms := r.clearingPrice, r.matches;
    var w, s := RunOutcome(auctionId, pair, bids, asks);
    FillsLegal(bids, asks, p, w, s, ms);
    FillsMaximal(bids, asks, p, w, s, ms);
    FillsInTurn(bids, asks, p, w, s, ms);
    Untouched(bids, asks, p, ms);
    FillsWithin(Buy, bids, p, w.bids, s.bids, ms);
    FillsWithin(Sell, asks, p, w.asks, s.asks, ms);
  }

  lemma Untouched(bids: seq<Order>, asks: seq<Order>, p: Decimal, ms: seq<Match>)
    requires Crossable(bids, asks) && Legal(bids, asks, p, ms)
    ensures forall o, n :: o in bids && 0 <= n < |ms| && !Reaches(Buy, o, p) ==>
                             ms[n].bid.orderId != o.id && ms[n].ask.orderId != o.id
    ensures forall o, n :: o in asks && 0 <= n < |ms| && !Reaches(Sell, o, p) ==>
                             ms[n].bid.orderId != o.id && ms[n].ask.orderId != o.id
  {
  }
}
