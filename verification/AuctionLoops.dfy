/** The auction as it executes: loops over local vectors, proved against the specification. */
module AuctionLoops {
  import opened Types
  import opened Encoding
  import opened Priority
  import opened Clearing
  import opened Matching
  import opened Auction

  /** The candidates seen so far that tie for the best volume so far. */
  ghost function TiedIn(bids: seq<Order>, asks: seq<Order>, seen: set<Decimal>, best: Decimal): set<Decimal> {
    set p | p in seen && Matched(bids, asks, p) == best && best > 0
  }

  ghost predicate BestOf(bids: seq<Order>, asks: seq<Order>, seen: set<Decimal>, best: Decimal) {
    && best >= 0
    && (forall p :: p in seen ==> Matched(bids, asks, p) <= best)
    && (best > 0 ==> exists p :: p in seen && Matched(bids, asks, p) == best)
  }

  predicate Ascending(s: seq<Decimal>) {
    forall i, j :: 0 <= i < j < |s| ==> s[i] < s[j]
  }

  method InsertPrices(prices: set<Decimal>, orders: seq<Order>) returns (all: set<Decimal>)
    ensures all == prices + Prices(orders)
  {
    all := prices;
    for i := 0 to |orders|
      invariant all == prices + Prices(orders[..i])
    {
      all := all + {orders[i].price};
      assert orders[..i + 1] == orders[..i] + [orders[i]];
      PricesSnoc(orders[..i], orders[i]);
    }
    assert orders[..|orders|] == orders;
  }

  /** Visits the candidates in ascending order, keeping those that tie for the best volume. */
  method TiedPrices(bids: seq<Order>, asks: seq<Order>, candidates: set<Decimal>) returns (tied: seq<Decimal>)
    requires candidates == Candidates(bids, asks)
    ensures Ascending(tied) && forall p :: p in tied <==> p in Tied(bids, asks)
  {
    var best := 0;
    tied := [];
    var rest := candidates;
    ghost var seen: set<Decimal> := {};
    while rest != {}
      invariant seen + rest == candidates && Below(seen, rest)
      invariant Scanned(bids, asks, seen, best, tied)
    {
      assert Least(rest) in rest;
      var p :| p in rest && forall q :: q in rest ==> p <= q;
      var matched := Matched(bids, asks, p);
      ScanStep(bids, asks, seen, best, tied, p);
      if matched > best {
        best := matched;
        tied := [p];
      } else if matched == best && matched > 0 {
        tied := tied + [p];
      }
      BelowStep(seen, rest, p);
      seen, rest := seen + {p}, rest - {p};
    }
    AllSeen(bids, asks, best);
  }

  method ComputeClearingPrice(bids: seq<Order>, asks: seq<Order>) returns (price: Decimal)
    ensures price == ClearingPrice(bids, asks)
  {
    var candidates := InsertPrices({}, bids);
    candidates := InsertPrices(candidates, asks);
    var tied := TiedPrices(bids, asks, candidates);
    if tied == [] {
      price := 0;
    } else {
      var lo, hi := tied[0], tied[|tied| - 1];
      price := Midpoint(lo, hi);
      EndsOfTied(Tied(bids, asks), tied);
    }
  }

  lemma PricesSnoc(s: seq<Order>, o: Order)
    ensures Prices(s + [o]) == Prices(s) + {o.price}
  {
    var t := s + [o];
    forall x | x in Prices(s) + {o.price} ensures x in Prices(t) {
      if x in Prices(s) {
        var i :| 0 <= i < |s| && s[i].price == x;
        assert t[i].price == x;
      } else {
        assert t[|s|].price == x;
      }
    }
  }

  predicate Below(seen: set<Decimal>, rest: set<Decimal>) {
    forall p, q :: p in seen && q in rest ==> p < q
  }

  lemma BelowStep(seen: set<Decimal>, rest: set<Decimal>, p: Decimal)
    requires Below(seen, rest) && p in rest && forall q :: q in rest ==> p <= q
    ensures Below(seen + {p}, rest - {p})
    ensures (seen + {p}) + (rest - {p}) == seen + rest
  {
  }

  /** The best volume so far, and the candidates so far that reach it. */
  ghost predicate Scanned(bids: seq<Order>, asks: seq<Order>, seen: set<Decimal>, best: Decimal, tied: seq<Decimal>) {
    && BestOf(bids, asks, seen, best) && Ascending(tied)
    && forall p :: p in tied <==> p in TiedIn(bids, asks, seen, best)
  }

  lemma ScanStep(bids: seq<Order>, asks: seq<Order>, seen: set<Decimal>, best: Decimal, tied: seq<Decimal>, p: Decimal)
    requires Scanned(bids, asks, seen, best, tied)
    requires forall q :: q in seen ==> q < p
    ensures var m := Matched(bids, asks, p);
            Scanned(bids, asks, seen + {p}, if m > best then m else best,
                    if m > best then [p] else if m == best && m > 0 then tied + [p] else tied)
  {
    var m := Matched(bids, asks, p);
    if m > best {
      assert p in seen + {p};
    } else if best > 0 {
      var q :| q in seen && Matched(bids, asks, q) == best;
      assert q in seen + {p};
    }
    if m == best && m > 0 {
      assert forall k :: 0 <= k < |tied| ==> tied[k] in tied;
    }
  }

  /** Once every candidate is seen, the running ties are the ties. */
  lemma AllSeen(bids: seq<Order>, asks: seq<Order>, best: Decimal)
    requires BestOf(bids, asks, Candidates(bids, asks), best)
    ensures Tied(bids, asks) == TiedIn(bids, asks, Candidates(bids, asks), best)
  {
  }

  lemma EndsOfTied(all: set<Decimal>, tied: seq<Decimal>)
    requires Ascending(tied) && tied != []
    requires forall q :: q in tied <==> q in all
    ensures all != {} && tied[0] == Least(all) && tied[|tied| - 1] == Greatest(all)
  {
    assert tied[0] in tied && tied[|tied| - 1] in tied;
    assert all != {};
    var i :| 0 <= i < |tied| && tied[i] == Least(all);
    var j :| 0 <= j < |tied| && tied[j] == Greatest(all);
  }

  method MatchOrders(bids: seq<Order>, asks: seq<Order>, price: Decimal) returns (matches: seq<Match>)
    ensures Written(MatchAll(bids, asks, price), matches, price)
  {
    var eligibleBids := Eligible(Buy, bids, price);
    var eligibleAsks := Eligible(Sell, asks, price);
    ghost var end := MatchAll(bids, asks, price);
    ghost var s := Sweep(eligibleBids, eligibleAsks, []);
    matches := [];
    var i := 0;
    ghost var n := |eligibleBids|;
    while i < |eligibleBids|
      invariant |eligibleBids| == n
      invariant s.bids == eligibleBids && s.asks == eligibleAsks && i <= |eligibleBids|
      invariant MatchFrom(Cursor(s, i, 0)) == end
      invariant Written(s, matches, price)
      decreases n - i
    {
      var j := 0;
      while j < |eligibleAsks|
        invariant |eligibleBids| == n
        invariant s.bids == eligibleBids && s.asks == eligibleAsks && i < |eligibleBids| && j <= |eligibleAsks|
        invariant MatchFrom(Cursor(s, i, j)) == end
        invariant Written(s, matches, price)
        decreases |eligibleAsks| - j
      {
        var bid, ask := eligibleBids[i], eligibleAsks[j];
        if bid.remaining <= 0 {
          break;
        }
        if ask.remaining > 0 && bid.trader != ask.trader {
          var size := Min(bid.remaining, ask.remaining);
          matches := matches + [Match(Fill(bid.id, size), Fill(ask.id, size), price, size)];
          eligibleBids := eligibleBids[i := Less(bid, size)];
          eligibleAsks := eligibleAsks[j := Less(ask, size)];
          s := Cross(s, i, j);
        }
        j := j + 1;
      }
      i := i + 1;
    }
  }

  /** Each match written so far is the one its trade stands for. */
  predicate Written(s: Sweep, matches: seq<Match>, price: Decimal) {
    && |matches| == |s.trades|
    && forall n :: 0 <= n < |matches| ==>
                     && s.trades[n].bid < |s.bids| && s.trades[n].ask < |s.asks|
                     && matches[n] == MatchOf(s, s.trades[n], price)
  }

  method RunAuction(auctionId: Id, pair: string, bids: seq<Order>, asks: seq<Order>) returns (result: Option<AuctionResult>)
    ensures result == Run(auctionId, pair, bids, asks)
  {
    if bids == [] || asks == [] {
      return None;
    }
    var sortedBids, sortedAsks := Sort(Buy, bids), Sort(Sell, asks);
    SortSorts(Buy, bids);
    SortSorts(Sell, asks);
    assert |sortedBids| == |multiset(bids)| && |sortedAsks| == |multiset(asks)|;
    if sortedBids[0].price < sortedAsks[0].price {
      return None;
    }
    var price := ComputeClearingPrice(sortedBids, sortedAsks);
    if price <= 0 {
      return None;
    }
    var matches := MatchOrders(sortedBids, sortedAsks, price);
    ghost var s := MatchAll(sortedBids, sortedAsks, price);
    if matches == [] {
      return None;
    }
    assert matches == MatchesOf(s, s.trades, price);
    var volume := 0;
    for k := 0 to |matches|
      invariant volume == Traded(s.trades[..k])
    {
      volume := volume + matches[k].size;
      assert s.trades[..k + 1][..k] == s.trades[..k];
    }
    assert s.trades[..|matches|] == s.trades;
    result := Some(AuctionResult(auctionId, pair, price, volume, matches));
  }
}
