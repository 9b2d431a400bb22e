/** How much an auction trades, against everything it could have traded. */
module Optimality {
  import opened Types
  import opened Encoding
  import opened Priority
  import opened Clearing
  import opened Matching
  import opened Auction
  import opened Fairness

  /** What one trader's own willing orders on one side add up to. */
  function Own(side: Side, orders: seq<Order>, p: Decimal, trader: Address): Decimal {
    if orders == [] then 0
    else (if Reaches(side, orders[0], p) && orders[0].trader == trader then orders[0].remaining else 0)
         + Own(side, orders[1..], p, trader)
  }

  lemma {:induction false} InsertVolume(side: Side, sort: Side, o: Order, s: seq<Order>, p: Decimal, t: Address)
    ensures Volume(side, Insert(sort, o, s), p) == Volume(side, [o] + s, p)
    ensures Own(side, Insert(sort, o, s), p, t) == Own(side, [o] + s, p, t)
  {
    assert ([o] + s)[1..] == s;
    if s != [] && !Before(sort, o, s[0]) {
      InsertVolume(side, sort, o, s[1..], p, t);
      assert Insert(sort, o, s)[1..] == Insert(sort, o, s[1..]);
      assert ([o] + s[1..])[1..] == s[1..];
    }
  }

  /** Sorting does not change what a side adds up to. */
  lemma {:induction false} SortVolume(side: Side, sort: Side, s: seq<Order>, p: Decimal, t: Address)
    ensures Volume(side, Sort(sort, s), p) == Volume(side, s, p)
    ensures Own(side, Sort(sort, s), p, t) == Own(side, s, p, t)
  {
    if s != [] {
      SortVolume(side, sort, s[1..], p, t);
      InsertVolume(side, sort, s[0], Sort(sort, s[1..]), p, t);
      var r := [s[0]] + Sort(sort, s[1..]);
      assert r[1..] == Sort(sort, s[1..]);
    }
  }

  lemma SortPrices(side: Side, s: seq<Order>)
    ensures Prices(Sort(side, s)) == Prices(s)
  {
    var t := Sort(side, s);
    SortSorts(side, s);
    forall x ensures x in Prices(t) <==> x in Prices(s) {
      if x in Prices(t) {
        var i :| 0 <= i < |t| && t[i].price == x;
        assert t[i] in multiset(s);
      }
      if x in Prices(s) {
        var i :| 0 <= i < |s| && s[i].price == x;
        assert s[i] in multiset(t);
      }
    }
  }

  /** Nor does it change the clearing price. */
  lemma SortClearingPrice(bids: seq<Order>, asks: seq<Order>)
    ensures ClearingPrice(Sort(Buy, bids), Sort(Sell, asks)) == ClearingPrice(bids, asks)
  {
    var b, a := Sort(Buy, bids), Sort(Sell, asks);
    SortPrices(Buy, bids);
    SortPrices(Sell, asks);
    forall p ensures Matched(b, a, p) == Matched(bids, asks, p) {
      SortVolume(Buy, Buy, bids, p, 0);
      SortVolume(Sell, Sell, asks, p, 0);
    }
    assert Tied(b, a) == Tied(bids, asks);
  }

  /** A result clears midway between the lowest and the highest price of any order at which the most trades. */
  lemma RunClearsCentrally(auctionId: Id, pair: string, bids: seq<Order>, asks: seq<Order>) returns (lo: Decimal, hi: Decimal)
    requires Crossable(bids, asks) && Run(auctionId, pair, bids, asks).Some?
    ensures Outermost(bids, asks, lo, hi)
    ensures -QUANTUM <= 2 * Run(auctionId, pair, bids, asks).value.clearingPrice - (lo + hi) <= QUANTUM
  {
    SortClearingPrice(bids, asks);
    lo, hi := OutermostExist(bids, asks);
    var k := ClearingPriceIsCentral(bids, asks, lo, hi);
  }

  /** Position by position, what is left belongs to `t` and was there before. */
  lemma {:induction false} LeftBelongs(side: Side, was: seq<Order>, now: seq<Order>, p: Decimal, t: Address)
    requires Filling(was, now)
    requires forall k :: 0 <= k < |was| ==> Reaches(side, was[k], p) && was[k].remaining > 0
    requires forall k :: 0 <= k < |now| && now[k].remaining > 0 ==> now[k].trader == t
    ensures Left(now) <= Own(side, was, p, t)
  {
    if now != [] {
      LeftBelongs(side, was[1..], now[1..], p, t);
      assert now == [now[0]] + now[1..];
      LeftConcat([now[0]], now[1..]);
      assert Left([now[0]]) == Left([]) + now[0].remaining;
      assert was[0].trader == now[0].trader;
    }
  }

  lemma {:induction false} EligibleOwn(side: Side, orders: seq<Order>, p: Decimal, t: Address)
    requires Resting(orders)
    ensures Own(side, Eligible(side, orders, p), p, t) == Own(side, orders, p, t)
  {
    if orders != [] {
      EligibleOwn(side, orders[1..], p, t);
      var rest := Eligible(side, orders[1..], p);
      if Reaches(side, orders[0], p) {
        assert ([orders[0]] + rest)[1..] == rest;
      } else {
        assert [] + rest == rest;
      }
    }
  }

  lemma QueueSums(side: Side, orders: seq<Order>, p: Decimal, t: Address)
    requires BookSide(side, orders)
    ensures Left(Queue(side, orders, p)) == Volume(side, orders, p)
    ensures Own(side, Queue(side, orders, p), p, t) == Own(side, orders, p, t)
  {
    SortWhat(side, orders);
    SortVolume(side, side, orders, p, t);
    EligibleLeft(side, Sort(side, orders), p);
    EligibleOwn(side, Sort(side, orders), p, t);
  }

  lemma {:induction false} SomethingLeft(orders: seq<Order>) returns (k: nat)
    requires Left(orders) > 0
    ensures k < |orders| && orders[k].remaining > 0
  {
    var n := |orders| - 1;
    if orders[n].remaining > 0 {
      k := n;
    } else {
      k := SomethingLeft(orders[..n]);
    }
  }

  /** When both sides have something left, all of it belongs to one trader. */
  lemma OneTraderLeft(s: Sweep) returns (t: Address)
    requires Exhausted(s, |s.bids|, 0) && Left(s.bids) > 0 && Left(s.asks) > 0
    ensures forall k :: 0 <= k < |s.bids| && s.bids[k].remaining > 0 ==> s.bids[k].trader == t
    ensures forall k :: 0 <= k < |s.asks| && s.asks[k].remaining > 0 ==> s.asks[k].trader == t
    decreases |s.bids|
  {
    var i := SomethingLeft(s.bids);
    var j := SomethingLeft(s.asks);
    t := s.bids[i].trader;
    assert Done(s.bids[i], s.asks[j]);
    forall k | 0 <= k < |s.bids| && s.bids[k].remaining > 0 ensures s.bids[k].trader == t {
      assert Done(s.bids[k], s.asks[j]);
    }
    forall k | 0 <= k < |s.asks| && s.asks[k].remaining > 0 ensures s.asks[k].trader == t {
      assert Done(s.bids[i], s.asks[k]);
    }
  }

  lemma LossOf(bids: seq<Order>, asks: seq<Order>, p: Decimal, w: Sweep, s: Sweep) returns (t: Address)
    requires Filling(w.bids, s.bids) && Filling(w.asks, s.asks) && Exhausted(s, |s.bids|, 0)
    requires Left(w.bids) - Left(s.bids) == Left(w.asks) - Left(s.asks) == Traded(s.trades)
    requires forall k :: 0 <= k < |w.bids| ==> Reaches(Buy, w.bids[k], p) && w.bids[k].remaining > 0
    requires forall k :: 0 <= k < |w.asks| ==> Reaches(Sell, w.asks[k], p) && w.asks[k].remaining > 0
    ensures Traded(s.trades) <= Min(Left(w.bids), Left(w.asks))
    ensures Min(Left(w.bids), Left(w.asks)) - Traded(s.trades) <= Min(Own(Buy, w.bids, p, t), Own(Sell, w.asks, p, t))
  {
    LeftNonNegative(s.bids);
    LeftNonNegative(s.asks);
    OwnNonNegative(Buy, w.bids, p, 0);
    OwnNonNegative(Sell, w.asks, p, 0);
    t := 0;
    if Left(s.bids) > 0 && Left(s.asks) > 0 {
      t := OneTraderLeft(s);
      LeftBelongs(Buy, w.bids, s.bids, p, t);
      LeftBelongs(Sell, w.asks, s.asks, p, t);
    }
  }

  lemma {:induction false} LeftNonNegative(orders: seq<Order>)
    requires forall k :: 0 <= k < |orders| ==> orders[k].remaining >= 0
    ensures Left(orders) >= 0
  {
    if orders != [] {
      LeftNonNegative(orders[..|orders| - 1]);
    }
  }

  lemma {:induction false} OwnNonNegative(side: Side, orders: seq<Order>, p: Decimal, t: Address)
    requires forall k :: 0 <= k < |orders| ==> orders[k].remaining >= 0
    ensures Own(side, orders, p, t) >= 0
  {
    if orders != [] {
      OwnNonNegative(side, orders[1..], p, t);
    }
  }

  lemma QueueMembers(side: Side, orders: seq<Order>, p: Decimal, q: seq<Order>)
    requires IsQueue(side, orders, p, q)
    ensures forall k :: 0 <= k < |q| ==> Reaches(side, q[k], p) && q[k].remaining > 0
  {
  }

  /**
    An auction clears at a price no other price beats, and trades all that can be
    exchanged there, short of at most what one single trader could only have
    bought from itself.
   */
  lemma RunVolume(auctionId: Id, pair: string, bids: seq<Order>, asks: seq<Order>) returns (t: Address)
    requires Crossable(bids, asks) && Run(auctionId, pair, bids, asks).Some?
    ensures var r := Run(auctionId, pair, bids, asks).value;
            var p := r.clearingPrice;
            && p == ClearingPrice(bids, asks)
            && (forall q :: Matched(bids, asks, q) <= Matched(bids, asks, p))
            && r.matchedVolume <= Matched(bids, asks, p)
            && Matched(bids, asks, p) - r.matchedVolume <= Min(Own(Buy, bids, p, t), Own(Sell, asks, p, t))
  {
    var r := Run(auctionId, pair, bids, asks).value;
    var p := r.clearingPrice;
    var w, s := RunOutcome(auctionId, pair, bids, asks);
    QueueMembers(Buy, bids, p, w.bids);
    QueueMembers(Sell, asks, p, w.asks);
    t := LossOf(bids, asks, p, w, s);
    QueueSums(Buy, bids, p, t);
    QueueSums(Sell, asks, p, t);
    SortClearingPrice(bids, asks);
    ClearingPriceIsBest(bids, asks);
  }

  /** No trader has orders on both sides. */
  predicate NoSharedTrader(bids: seq<Order>, asks: seq<Order>) {
    forall b, a :: b in bids && a in asks ==> b.trader != a.trader
  }

  /** At the clearing price no trader is willing on both sides. */
  ghost predicate NobodyMeetsSelf(bids: seq<Order>, asks: seq<Order>) {
    var p := ClearingPrice(bids, asks);
    forall b, a :: b in bids && a in asks && b.price >= p >= a.price ==> b.trader != a.trader
  }

  lemma SeparateTradersNeverMeet(bids: seq<Order>, asks: seq<Order>)
    requires NoSharedTrader(bids, asks)
    ensures NobodyMeetsSelf(bids, asks)
  {
  }

  lemma {:induction false} OwnAbsent(side: Side, orders: seq<Order>, p: Decimal, t: Address)
    requires forall k :: 0 <= k < |orders| && Reaches(side, orders[k], p) ==> orders[k].trader != t
    ensures Own(side, orders, p, t) == 0
  {
    if orders != [] {
      OwnAbsent(side, orders[1..], p, t);
    }
  }

  /** With no trader willing on both sides at the clearing price, the auction trades the most any price allows. */
  lemma RunTradesEverything(auctionId: Id, pair: string, bids: seq<Order>, asks: seq<Order>)
    requires Crossable(bids, asks) && Run(auctionId, pair, bids, asks).Some? && NobodyMeetsSelf(bids, asks)
    ensures var r := Run(auctionId, pair, bids, asks).value;
            forall q :: Matched(bids, asks, q) <= r.matchedVolume == Matched(bids, asks, r.clearingPrice)
  {
    var r := Run(auctionId, pair, bids, asks).value;
    var p := r.clearingPrice;
    var t := RunVolume(auctionId, pair, bids, asks);
    if i :| 0 <= i < |bids| && Reaches(Buy, bids[i], p) && bids[i].trader == t {
      assert forall k :: 0 <= k < |asks| ==> asks[k] in asks && bids[i] in bids;
      OwnAbsent(Sell, asks, p, t);
    } else {
      OwnAbsent(Buy, bids, p, t);
    }
  }

  /** One of a trader's willing orders was not filled in full. */
  ghost predicate LeftWilling(side: Side, orders: seq<Order>, p: Decimal, ms: seq<Match>, t: Address) {
    exists o :: o in orders && Reaches(side, o, p) && o.trader == t && FilledOf(ms, o.id) < o.remaining
  }

  lemma {:induction false} LeftIncludes(orders: seq<Order>, k: nat)
    requires k < |orders| && forall i :: 0 <= i < |orders| ==> orders[i].remaining >= 0
    ensures Left(orders) >= orders[k].remaining
  {
    var n := |orders| - 1;
    LeftNonNegative(orders[..n]);
    if k < n {
      LeftIncludes(orders[..n], k);
    }
  }

  lemma LeftOverIsWilling(side: Side, orders: seq<Order>, p: Decimal, w: seq<Order>, s: seq<Order>, ms: seq<Match>, k: nat)
    requires IsQueue(side, orders, p, w) && Filling(w, s) && Consumed(w, s, ms) && k < |s| && s[k].remaining > 0
    ensures LeftWilling(side, orders, p, ms, s[k].trader)
  {
    assert w[k] in orders;
  }

  lemma WillingIsLeftOver(side: Side, orders: seq<Order>, p: Decimal, w: seq<Order>, s: seq<Order>, ms: seq<Match>, t: Address)
    requires IsQueue(side, orders, p, w) && Filling(w, s) && Consumed(w, s, ms) && LeftWilling(side, orders, p, ms, t)
    ensures Left(s) > 0
  {
    var o :| o in orders && Reaches(side, o, p) && o.trader == t && FilledOf(ms, o.id) < o.remaining;
    var k :| 0 <= k < |w| && w[k] == o;
    LeftIncludes(s, k);
  }

  /** Both sides have something left exactly when one trader is left willing on both. */
  lemma LeftOnBothSides(bids: seq<Order>, asks: seq<Order>, p: Decimal, w: Sweep, s: Sweep, ms: seq<Match>)
    requires IsQueue(Buy, bids, p, w.bids) && Filling(w.bids, s.bids) && Consumed(w.bids, s.bids, ms)
    requires IsQueue(Sell, asks, p, w.asks) && Filling(w.asks, s.asks) && Consumed(w.asks, s.asks, ms)
    requires Exhausted(s, |s.bids|, 0)
    ensures Left(s.bids) > 0 && Left(s.asks) > 0 <==>
            exists t :: LeftWilling(Buy, bids, p, ms, t) && LeftWilling(Sell, asks, p, ms, t)
  {
    if Left(s.bids) > 0 && Left(s.asks) > 0 {
      var i := SomethingLeft(s.bids);
      var j := SomethingLeft(s.asks);
      assert Done(s.bids[i], s.asks[j]);
      LeftOverIsWilling(Buy, bids, p, w.bids, s.bids, ms, i);
      LeftOverIsWilling(Sell, asks, p, w.asks, s.asks, ms, j);
    }
    if t :| LeftWilling(Buy, bids, p, ms, t) && LeftWilling(Sell, asks, p, ms, t) {
      WillingIsLeftOver(Buy, bids, p, w.bids, s.bids, ms, t);
      WillingIsLeftOver(Sell, asks, p, w.asks, s.asks, ms, t);
    }
  }

  lemma ShortOfBoth(w: Sweep, s: Sweep, volume: Decimal, best: Decimal)
    requires Filling(w.bids, s.bids) && Filling(w.asks, s.asks) && best == Min(Left(w.bids), Left(w.asks))
    requires Left(w.bids) - Left(s.bids) == Left(w.asks) - Left(s.asks) == volume
    ensures volume < best <==> Left(s.bids) > 0 && Left(s.asks) > 0
  {
  }

  /** The auction trades less than the best volume exactly when it leaves some trader willing on both sides. */
  lemma RunFallsShortExactly(auctionId: Id, pair: string, bids: seq<Order>, asks: seq<Order>)
    requires Crossable(bids, asks) && Run(auctionId, pair, bids, asks).Some?
    ensures var r := Run(auctionId, pair, bids, asks).value;
            r.matchedVolume < Matched(bids, asks, r.clearingPrice) <==>
            exists t :: LeftWilling(Buy, bids, r.clearingPrice, r.matches, t) && LeftWilling(Sell, asks, r.clearingPrice, r.matches, t)
  {
    var r := Run(auctionId, pair, bids, asks).value;
    var p := r.clearingPrice;
    var w, s := RunOutcome(auctionId, pair, bids, asks);
    QueueSums(Buy, bids, p, 0);
    QueueSums(Sell, asks, p, 0);
    ShortOfBoth(w, s, r.matchedVolume, Matched(bids, asks, p));
    LeftOnBothSides(bids, asks, p, w, s, r.matches);
  }

  /** Any way at all of filling orders against each other at one price `q`, limits respected. */
  predicate Feasible(bids: seq<Order>, asks: seq<Order>, q: Decimal, trades: seq<Trade>) {
    && (forall n :: 0 <= n < |trades| ==>
                      && trades[n].bid < |bids| && trades[n].ask < |asks| && trades[n].size >= 0
                      && bids[trades[n].bid].price >= q >= asks[trades[n].ask].price)
    && (forall k :: 0 <= k < |bids| ==> Filled(Buy, trades, k) <= bids[k].remaining)
    && (forall k :: 0 <= k < |asks| ==> Filled(Sell, trades, k) <= asks[k].remaining)
  }

  function FilledUpTo(side: Side, trades: seq<Trade>, n: nat): Decimal {
    if n == 0 then 0 else FilledUpTo(side, trades, n - 1) + Filled(side, trades, n - 1)
  }

  lemma {:induction false} FilledUpToStep(side: Side, trades: seq<Trade>, t: Trade, n: nat)
    ensures FilledUpTo(side, trades + [t], n) ==
            FilledUpTo(side, trades, n) + if (if side.Buy? then t.bid else t.ask) < n then t.size else 0
  {
    assert (trades + [t])[..|trades + [t]| - 1] == trades;
    if n > 0 {
      FilledUpToStep(side, trades, t, n - 1);
    }
  }

  lemma {:induction false} FilledUpToNone(side: Side, n: nat)
    ensures FilledUpTo(side, [], n) == 0
  {
    if n > 0 {
      FilledUpToNone(side, n - 1);
    }
  }

  /** Adding up fills order by order gives their total. */
  lemma {:induction false} FilledAddsUp(side: Side, trades: seq<Trade>, n: nat)
    requires forall i :: 0 <= i < |trades| ==> (if side.Buy? then trades[i].bid else trades[i].ask) < n
    ensures FilledUpTo(side, trades, n) == Traded(trades)
  {
    if trades == [] {
      FilledUpToNone(side, n);
    } else {
      var m := |trades| - 1;
      FilledAddsUp(side, trades[..m], n);
      FilledUpToStep(side, trades[..m], trades[m], n);
      assert trades[..m] + [trades[m]] == trades;
    }
  }

  lemma {:induction false} FilledUntouched(side: Side, trades: seq<Trade>, k: nat)
    requires forall i :: 0 <= i < |trades| ==> (if side.Buy? then trades[i].bid else trades[i].ask) != k
    ensures Filled(side, trades, k) == 0
  {
    if trades != [] {
      FilledUntouched(side, trades[..|trades| - 1], k);
    }
  }

  lemma {:induction false} VolumeSnoc(side: Side, orders: seq<Order>, p: Decimal)
    requires orders != []
    ensures var n := |orders| - 1;
            Volume(side, orders, p) ==
            Volume(side, orders[..n], p) + if Reaches(side, orders[n], p) then orders[n].remaining else 0
  {
    var n := |orders| - 1;
    if n > 0 {
      VolumeSnoc(side, orders[1..], p);
      assert orders[1..][..n - 1] == orders[..n][1..];
    }
  }

  /** Filling each order at most to its size, and only the willing ones, stays within their volume. */
  lemma {:induction false} FilledWithinVolume(side: Side, orders: seq<Order>, q: Decimal, trades: seq<Trade>, n: nat)
    requires n <= |orders|
    requires forall k :: 0 <= k < n ==> Filled(side, trades, k) <= if Reaches(side, orders[k], q) then orders[k].remaining else 0
    ensures FilledUpTo(side, trades, n) <= Volume(side, orders[..n], q)
  {
    if n > 0 {
      FilledWithinVolume(side, orders, q, trades, n - 1);
      VolumeSnoc(side, orders[..n], q);
      assert orders[..n][..n - 1] == orders[..n - 1];
    }
  }

  lemma {:induction false} SideWithinVolume(side: Side, orders: seq<Order>, q: Decimal, trades: seq<Trade>)
    requires forall i :: 0 <= i < |trades| ==>
                           var k := if side.Buy? then trades[i].bid else trades[i].ask;
                           k < |orders| && Reaches(side, orders[k], q)
    requires forall k :: 0 <= k < |orders| ==> Filled(side, trades, k) <= orders[k].remaining
    ensures Traded(trades) <= Volume(side, orders, q)
  {
    forall k | 0 <= k < |orders|
      ensures Filled(side, trades, k) <= if Reaches(side, orders[k], q) then orders[k].remaining else 0
    {
      if !Reaches(side, orders[k], q) {
        FilledUntouched(side, trades, k);
      }
    }
    FilledAddsUp(side, trades, |orders|);
    FilledWithinVolume(side, orders, q, trades, |orders|);
    assert orders[..|orders|] == orders;
  }

  lemma FeasibleWithinVolume(bids: seq<Order>, asks: seq<Order>, q: Decimal, trades: seq<Trade>)
    requires Feasible(bids, asks, q, trades)
    ensures Traded(trades) <= Matched(bids, asks, q)
  {
    SideWithinVolume(Buy, bids, q, trades);
    SideWithinVolume(Sell, asks, q, trades);
  }

  /** With no trader willing on both sides, no set of fills at any single price trades more than the auction. */
  lemma NothingTradesMore(auctionId: Id, pair: string, bids: seq<Order>, asks: seq<Order>, q: Decimal, trades: seq<Trade>)
    requires Crossable(bids, asks) && Run(auctionId, pair, bids, asks).Some? && NobodyMeetsSelf(bids, asks)
    requires Feasible(bids, asks, q, trades)
    ensures Traded(trades) <= Run(auctionId, pair, bids, asks).value.matchedVolume
  {
    RunTradesEverything(auctionId, pair, bids, asks);
    FeasibleWithinVolume(bids, asks, q, trades);
  }

  /** Two willing orders of different traders at the clearing price. */
  ghost predicate Counterparties(bids: seq<Order>, asks: seq<Order>) {
    var p := ClearingPrice(bids, asks);
    exists b, a :: b in bids && a in asks && b.price >= p >= a.price && b.trader != a.trader
  }

  lemma {:induction false} HeadIsBest(side: Side, orders: seq<Order>, o: Order)
    requires o in orders
    ensures Sort(side, orders) != []
    ensures var h := Sort(side, orders)[0]; if side.Buy? then h.price >= o.price else h.price <= o.price
  {
    SortSorts(side, orders);
    assert o in multiset(Sort(side, orders));
    var k :| 0 <= k < |Sort(side, orders)| && Sort(side, orders)[k] == o;
    if k > 0 {
      assert Before(side, Sort(side, orders)[0], o);
    }
  }

  lemma LegalNeedsCounterparties(bids: seq<Order>, asks: seq<Order>, ms: seq<Match>)
    requires Legal(bids, asks, ClearingPrice(bids, asks), ms) && ms != []
    ensures Counterparties(bids, asks)
  {
    assert LegalFill(bids, asks, ClearingPrice(bids, asks), ms[0]);
  }

  lemma ResultNeedsCounterparties(auctionId: Id, pair: string, bids: seq<Order>, asks: seq<Order>)
    requires Crossable(bids, asks) && Run(auctionId, pair, bids, asks).Some?
    ensures Counterparties(bids, asks)
  {
    SortClearingPrice(bids, asks);
    RunIsFair(auctionId, pair, bids, asks);
    LegalNeedsCounterparties(bids, asks, Run(auctionId, pair, bids, asks).value.matches);
  }

  lemma CounterpartiesGiveResult(auctionId: Id, pair: string, bids: seq<Order>, asks: seq<Order>, b: Order, a: Order)
    requires Crossable(bids, asks) && b in bids && a in asks && b.trader != a.trader
    requires b.price >= ClearingPrice(bids, asks) >= a.price
    ensures Run(auctionId, pair, bids, asks).Some?
  {
    SortClearingPrice(bids, asks);
    HeadIsBest(Buy, bids, b);
    HeadIsBest(Sell, asks, a);
    SomeTrade(bids, asks, ClearingPrice(bids, asks), b, a);
    var j :| 0 <= j < |asks| && asks[j] == a;
  }

  /** An auction has a result exactly when two different traders are willing at the clearing price. */
  lemma RunIffCounterparties(auctionId: Id, pair: string, bids: seq<Order>, asks: seq<Order>)
    requires Crossable(bids, asks)
    ensures Run(auctionId, pair, bids, asks).Some? <==> Counterparties(bids, asks)
  {
    if Run(auctionId, pair, bids, asks).Some? {
      ResultNeedsCounterparties(auctionId, pair, bids, asks);
    } else if Counterparties(bids, asks) {
      var p := ClearingPrice(bids, asks);
      var b, a :| b in bids && a in asks && b.price >= p >= a.price && b.trader != a.trader;
      CounterpartiesGiveResult(auctionId, pair, bids, asks, b, a);
    }
  }

  lemma StillWilling(w: Sweep, s: Sweep, b: Order, a: Order)
    requires Sound(w, s, |s.bids|, 0) && b in w.bids && a in w.asks
    requires b.remaining > 0 && a.remaining > 0 && b.trader != a.trader
    ensures s.trades != []
  {
  }

  lemma SomeTrade(bids: seq<Order>, asks: seq<Order>, p: Decimal, b: Order, a: Order)
    requires Crossable(bids, asks)
    requires b in bids && a in asks && b.price >= p >= a.price && b.trader != a.trader
    ensures MatchAll(Sort(Buy, bids), Sort(Sell, asks), p).trades != []
  {
    var s := MatchAll(Sort(Buy, bids), Sort(Sell, asks), p);
    var w := Sweep(Queue(Buy, bids, p), Queue(Sell, asks, p), []);
    MatchAllSound(Sort(Buy, bids), Sort(Sell, asks), p);
    QueueWhat(Buy, bids, p);
    QueueWhat(Sell, asks, p);
    QueueMembers(Buy, bids, p, w.bids);
    QueueMembers(Sell, asks, p, w.asks);
    StillWilling(w, s, b, a);
  }

  /** With no trader willing on both sides, that is exactly when the book is crossed. */
  lemma RunIffCrossed(auctionId: Id, pair: string, bids: seq<Order>, asks: seq<Order>)
    requires Crossable(bids, asks) && NobodyMeetsSelf(bids, asks)
    ensures Run(auctionId, pair, bids, asks).Some? <==>
            exists i, j :: 0 <= i < |bids| && 0 <= j < |asks| && bids[i].price >= asks[j].price
  {
    RunIffCounterparties(auctionId, pair, bids, asks);
    TradableIffCrossed(bids, asks);
    if Counterparties(bids, asks) {
      var p := ClearingPrice(bids, asks);
      var b, a :| b in bids && a in asks && b.price >= p >= a.price && b.trader != a.trader;
      var i :| 0 <= i < |bids| && bids[i] == b;
      var j :| 0 <= j < |asks| && asks[j] == a;
    }
    if Tied(bids, asks) != {} {
      var p := ClearingPrice(bids, asks);
      ClearingPriceIsBest(bids, asks);
      var i := SomeoneReaches(Buy, bids, p);
      var j := SomeoneReaches(Sell, asks, p);
      assert bids[i] in bids && asks[j] in asks;
    }
  }

  lemma SomeoneReaches(side: Side, orders: seq<Order>, p: Decimal) returns (i: nat)
    requires Volume(side, orders, p) > 0
    ensures i < |orders| && Reaches(side, orders[i], p)
  {
    if forall i :: 0 <= i < |orders| ==> !Reaches(side, orders[i], p) {
      VolumeEmpty(side, orders, p);
    }
    i :| 0 <= i < |orders| && Reaches(side, orders[i], p);
  }

  // ---------------------------------------------------------------- a self-trader's cost, exhibited

  /** An order for one unit at price one. */
  function Unit(id: Id, trader: Address, side: Side, placed: nat): Order {
    Order(id, trader, "", side, QUANTUM, QUANTUM, QUANTUM, "", [], 0, placed)
  }

  const TWO_BIDS: seq<Order> := [Unit(1, 2, Buy, 1), Unit(2, 1, Buy, 2)]
  const TWO_ASKS: seq<Order> := [Unit(3, 3, Sell, 3), Unit(4, 1, Sell, 4)]

  lemma UnitsAreSorted()
    ensures Sort(Buy, TWO_BIDS) == TWO_BIDS && Sort(Sell, TWO_ASKS) == TWO_ASKS
  {
    assert TWO_BIDS[1..] == [TWO_BIDS[1]] && TWO_BIDS[1..][1..] == [];
    assert Sort(Buy, TWO_BIDS[1..]) == [TWO_BIDS[1]];
    assert TWO_ASKS[1..] == [TWO_ASKS[1]] && TWO_ASKS[1..][1..] == [];
    assert Sort(Sell, TWO_ASKS[1..]) == [TWO_ASKS[1]];
  }

  lemma TwoOrders(side: Side, a: Order, b: Order, p: Decimal)
    requires Reaches(side, a, p) && Reaches(side, b, p) && a.remaining > 0 && b.remaining > 0
    ensures Volume(side, [a, b], p) == a.remaining + b.remaining && Eligible(side, [a, b], p) == [a, b]
  {
    assert [a, b][1..] == [b] && [b][1..] == [];
    assert Volume(side, [b], p) == b.remaining + Volume(side, [], p);
    assert Eligible(side, [b], p) == [b];
  }

  lemma UnitsVolume()
    ensures Volume(Buy, TWO_BIDS, QUANTUM) == Volume(Sell, TWO_ASKS, QUANTUM) == 2 * QUANTUM
    ensures Eligible(Buy, TWO_BIDS, QUANTUM) == TWO_BIDS && Eligible(Sell, TWO_ASKS, QUANTUM) == TWO_ASKS
  {
    TwoOrders(Buy, TWO_BIDS[0], TWO_BIDS[1], QUANTUM);
    TwoOrders(Sell, TWO_ASKS[0], TWO_ASKS[1], QUANTUM);
  }

  lemma UnitsClearAtOne()
    ensures ClearingPrice(TWO_BIDS, TWO_ASKS) == QUANTUM
  {
    UnitsVolume();
    assert TWO_BIDS[0].price == QUANTUM;
    assert Candidates(TWO_BIDS, TWO_ASKS) == {QUANTUM};
    assert Tied(TWO_BIDS, TWO_ASKS) == {QUANTUM};
    SoleTiedPrice(TWO_BIDS, TWO_ASKS, QUANTUM);
  }

  /** The first bid takes the first ask; the second bid finds only its own trader's ask. */
  lemma UnitsMatchOnce()
    ensures MatchAll(TWO_BIDS, TWO_ASKS, QUANTUM).trades == [Trade(0, 0, QUANTUM)]
  {
    UnitsVolume();
    var was := Sweep(TWO_BIDS, TWO_ASKS, []);
    var s := Cross(was, 0, 0);
    assert s.bids[0].remaining == 0 && s.asks[0].remaining == 0 && s.trades == [Trade(0, 0, QUANTUM)];
    assert Turn(Cursor(was, 0, 0)) == Cursor(s, 0, 1);
    assert Turn(Cursor(s, 0, 1)) == Cursor(s, 1, 0);
    assert Turn(Cursor(s, 1, 0)) == Cursor(s, 1, 1);
    assert Turn(Cursor(s, 1, 1)) == Cursor(s, 1, 2);
    assert Turn(Cursor(s, 1, 2)) == Cursor(s, 2, 0);
    assert MatchFrom(Cursor(s, 2, 0)) == s;
    assert MatchFrom(Cursor(s, 1, 2)) == s;
    assert MatchFrom(Cursor(s, 1, 1)) == s;
    assert MatchFrom(Cursor(s, 1, 0)) == s;
    assert MatchFrom(Cursor(s, 0, 1)) == s;
  }

  lemma UnitEncodes()
    ensures Encodable(QUANTUM)
  {
    assert QUANTUM == 1 * QUANTUM;
  }

  lemma TwoAreASide(side: Side, a: Order, b: Order)
    requires a.side == b.side == side && a.id != b.id && a.placedSeq != b.placedSeq
    requires a.remaining > 0 && b.remaining > 0 && a.price > 0 && b.price > 0 && Encodable(a.price) && Encodable(b.price)
    ensures BookSide(side, [a, b])
  {
  }

  lemma UnitsCross()
    ensures Crossable(TWO_BIDS, TWO_ASKS)
  {
    UnitEncodes();
    TwoAreASide(Buy, TWO_BIDS[0], TWO_BIDS[1]);
    TwoAreASide(Sell, TWO_ASKS[0], TWO_ASKS[1]);
  }

  lemma UnitsTradeOnce(auctionId: Id, pair: string)
    ensures var r := Run(auctionId, pair, TWO_BIDS, TWO_ASKS);
            r.Some? && r.value.matchedVolume == QUANTUM && r.value.clearingPrice == QUANTUM
  {
    UnitsAreSorted();
    UnitsClearAtOne();
    UnitsMatchOnce();
    var done := [Trade(0, 0, QUANTUM)];
    assert done[..0] == [] && Traded(done) == QUANTUM;
  }

  /** Each bid with the other ask. */
  const CROSSWISE: seq<Trade> := [Trade(0, 1, QUANTUM), Trade(1, 0, QUANTUM)]

  /** Every fill is between two different traders. */
  predicate NoSelfTrade(bids: seq<Order>, asks: seq<Order>, trades: seq<Trade>) {
    forall n :: 0 <= n < |trades| ==>
                  trades[n].bid < |bids| && trades[n].ask < |asks| && bids[trades[n].bid].trader != asks[trades[n].ask].trader
  }

  lemma CrosswiseIsFeasible()
    ensures Feasible(TWO_BIDS, TWO_ASKS, QUANTUM, CROSSWISE) && NoSelfTrade(TWO_BIDS, TWO_ASKS, CROSSWISE)
    ensures Traded(CROSSWISE) == 2 * QUANTUM
  {
    var one := [Trade(0, 1, QUANTUM)];
    assert CROSSWISE[..1] == one && one[..0] == [];
    assert Traded(one) == QUANTUM;
    forall side: Side, k: nat ensures Filled(side, CROSSWISE, k) <= QUANTUM {
      assert Filled(side, one, k) == if (if side.Buy? then 0 else 1) == k then QUANTUM else 0;
    }
  }

  /**
    A trader on both sides can cost volume: of two bids and two asks for one unit each, all at one price, the
    auction fills one unit, although pairing each bid with the other ask would fill two without a self-trade.
   */
  lemma SelfTraderCostsVolume(auctionId: Id, pair: string)
    ensures Crossable(TWO_BIDS, TWO_ASKS)
    ensures var r := Run(auctionId, pair, TWO_BIDS, TWO_ASKS);
            r.Some? && r.value.matchedVolume == QUANTUM && Matched(TWO_BIDS, TWO_ASKS, r.value.clearingPrice) == 2 * QUANTUM
    ensures Feasible(TWO_BIDS, TWO_ASKS, QUANTUM, CROSSWISE) && NoSelfTrade(TWO_BIDS, TWO_ASKS, CROSSWISE)
    ensures Traded(CROSSWISE) == 2 * QUANTUM
  {
    UnitsCross();
    UnitsVolume();
    UnitsTradeOnce(auctionId, pair);
    CrosswiseIsFeasible();
  }
}
