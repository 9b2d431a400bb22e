/** An auction round: its matches, applied to the book one by one, are lawful throughout. */
module Rounds {
  import opened Types
  import opened Encoding
  import opened Events
  import opened BookSpec
  import opened Projection
  import opened Legality
  import opened History
  import opened Clearing
  import opened Auction
  import opened Fairness
  import opened Optimality
  import opened Operations
  import opened Refinement

  lemma {:induction false} ListedWhat(s: set<Order>)
    ensures forall o :: o in AsList(s) <==> o in s
    ensures forall i, j :: 0 <= i < j < |AsList(s)| ==> AsList(s)[i] != AsList(s)[j]
    decreases s
  {
    if s != {} {
      var o := Pick(s);
      var rest := AsList(s - {o});
      ListedWhat(s - {o});
      assert o !in rest;
      assert forall i :: 0 <= i < |rest| ==> rest[i] in rest;
    }
  }

  /** An order listed for a side of a pair is the resting order of its own identifier. */
  lemma ListedRests(k: Core, last: nat, pair: string, side: Side, o: Order)
    requires Healthy(k, last) && o in AsList(OnSide(k.orders, pair, side))
    ensures o.id in k.orders && k.orders[o.id] == o && o.pair == pair && o.side == side && RestsWell(k, last, o.id)
  {
    ListedWhat(OnSide(k.orders, pair, side));
    var id :| id in k.orders && k.orders[id] == o && o.pair == pair && o.side == side;
    assert RestsWell(k, last, id);
  }

  lemma RestingIsListed(k: Core, last: nat, id: Id)
    requires Healthy(k, last) && id in k.orders
    ensures k.orders[id] in AsList(OnSide(k.orders, k.orders[id].pair, k.orders[id].side)) && k.orders[id].id == id
  {
    ListedWhat(OnSide(k.orders, k.orders[id].pair, k.orders[id].side));
    assert RestsWell(k, last, id);
  }

  lemma SideIsBookSide(k: Core, last: nat, pair: string, side: Side)
    requires Healthy(k, last)
    ensures BookSide(side, AsList(OnSide(k.orders, pair, side)))
  {
    var s := AsList(OnSide(k.orders, pair, side));
    forall i | 0 <= i < |s|
      ensures s[i].remaining > 0 && s[i].price > 0 && Encodable(s[i].price) && s[i].side == side
      ensures s[i].id in k.orders && k.orders[s[i].id] == s[i]
    {
      ListedRests(k, last, pair, side, s[i]);
    }
    forall x | x in s ensures x.id in k.orders && k.orders[x.id] == x {
      ListedRests(k, last, pair, side, x);
    }
    ListedWhat(OnSide(k.orders, pair, side));
    forall i, j | 0 <= i < j < |s| ensures s[i].placedSeq != s[j].placedSeq {
      assert s[i] != s[j];
    }
  }

  /** The two sides of a pair, as the auction receives them. */
  lemma PairIsCrossable(k: Core, last: nat, pair: string)
    requires Healthy(k, last)
    ensures Crossable(AsList(OnSide(k.orders, pair, Buy)), AsList(OnSide(k.orders, pair, Sell)))
  {
    var bids, asks := AsList(OnSide(k.orders, pair, Buy)), AsList(OnSide(k.orders, pair, Sell));
    SideIsBookSide(k, last, pair, Buy);
    SideIsBookSide(k, last, pair, Sell);
    forall b, a | b in bids && a in asks ensures b.id != a.id {
      ListedRests(k, last, pair, Buy, b);
      ListedRests(k, last, pair, Sell, a);
    }
  }

  // ---------------------------------------------------------------- applying a list of matches

  /** A match of two resting orders of `pair`, sizes aside. */
  predicate Pairs(orders: Orders, pair: string, m: Match) {
    && m.bid.orderId in orders && m.ask.orderId in orders
    && var b, a := orders[m.bid.orderId], orders[m.ask.orderId];
    && b.side == Buy && a.side == Sell && b.trader != a.trader && b.pair == a.pair == pair
    && m.bid.size == m.ask.size == m.size && 0 < m.size && a.price <= m.price <= b.price
  }

  predicate DepletedAt(was: Orders, ms: seq<Match>, now: Orders, id: Id) {
    && (id in now <==> id in was && was[id].remaining > FilledOf(ms, id))
    && (id in now ==> now[id] == was[id].(remaining := was[id].remaining - FilledOf(ms, id)))
  }

  /** `now` is what is left of `was` once `ms` has been taken out of it. */
  ghost predicate Depleted(was: Orders, ms: seq<Match>, now: Orders) {
    forall id :: DepletedAt(was, ms, now, id)
  }

  lemma {:induction false} FilledOfPrefix(ms: seq<Match>, n: nat, id: Id)
    requires n <= |ms| && forall i :: 0 <= i < |ms| ==> ms[i].bid.size > 0 && ms[i].ask.size > 0
    ensures FilledOf(ms[..n], id) <= FilledOf(ms, id)
  {
    if n == |ms| {
      assert ms[..n] == ms;
    } else {
      var m := |ms| - 1;
      FilledOfPrefix(ms[..m], n, id);
      assert ms[..m][..n] == ms[..n];
    }
  }

  /** Taking one more match out of a depleted book. */
  lemma DepletedStep(was: Orders, ms: seq<Match>, now: Orders, m: Match, pair: string)
    requires Depleted(was, ms, now) && Pairs(was, pair, m)
    requires FilledOf(ms + [m], m.bid.orderId) <= was[m.bid.orderId].remaining
    requires FilledOf(ms + [m], m.ask.orderId) <= was[m.ask.orderId].remaining
    ensures m.bid.orderId in now && m.ask.orderId in now
    ensures m.size <= now[m.bid.orderId].remaining && m.size <= now[m.ask.orderId].remaining
    ensures Pairs(now, pair, m) && Depleted(was, ms + [m], ApplyMatch(now, m))
  {
    assert (ms + [m])[..|ms + [m]| - 1] == ms;
    assert DepletedAt(was, ms, now, m.bid.orderId) && DepletedAt(was, ms, now, m.ask.orderId);
    forall id ensures DepletedAt(was, ms + [m], ApplyMatch(now, m), id) {
      assert DepletedAt(was, ms, now, id);
    }
  }

  /** The matches fit: no order is asked for more than it has. */
  predicate Affordable(orders: Orders, ms: seq<Match>) {
    forall id :: id in orders ==> FilledOf(ms, id) <= orders[id].remaining
  }

  /** One match event for each match, in order. */
  predicate MatchEvents(ms: seq<Match>, es: seq<Event>) {
    && |ms| == |es|
    && forall i :: 0 <= i < |ms| ==> es[i].data.OrderMatched? && es[i].data.m == ms[i]
  }

  predicate AllPair(orders: Orders, pair: string, ms: seq<Match>) {
    && (forall i :: 0 <= i < |ms| ==> Pairs(orders, pair, ms[i]))
    && (forall id :: id in orders ==> orders[id].remaining > 0)
  }

  lemma NextMatch(orders: Orders, pair: string, ms: seq<Match>, now: Orders, n: nat)
    requires n < |ms| && Affordable(orders, ms) && AllPair(orders, pair, ms) && Depleted(orders, ms[..n], now)
    ensures Pairs(now, pair, ms[n])
    ensures ms[n].size <= now[ms[n].bid.orderId].remaining && ms[n].size <= now[ms[n].ask.orderId].remaining
    ensures Depleted(orders, ms[..n + 1], ApplyMatch(now, ms[n]))
  {
    assert Pairs(orders, pair, ms[n]);
    assert ms[..n + 1] == ms[..n] + [ms[n]];
    FilledOfPrefix(ms, n + 1, ms[n].bid.orderId);
    FilledOfPrefix(ms, n + 1, ms[n].ask.orderId);
    DepletedStep(orders, ms[..n], now, ms[n], pair);
  }

  /** Affordable matches, applied in order, take out of each order exactly what they say. */
  lemma {:induction false} MatchesDeplete(orders: Orders, pair: string, ms: seq<Match>, es: seq<Event>, n: nat)
    requires n <= |ms| && Affordable(orders, ms) && AllPair(orders, pair, ms) && MatchEvents(ms, es)
    ensures Depleted(orders, ms[..n], Effects(orders, es[..n]))
  {
    if n == 0 {
      assert es[..0] == [] && ms[..0] == [];
      assert forall id :: DepletedAt(orders, [], orders, id);
    } else {
      MatchesDeplete(orders, pair, ms, es, n - 1);
      NextMatch(orders, pair, ms, Effects(orders, es[..n - 1]), n - 1);
      assert es[..n][..n - 1] == es[..n - 1];
      assert Effects(orders, es[..n]) == ApplyMatch(Effects(orders, es[..n - 1]), ms[n - 1]);
    }
  }

  /** Affordable matches of an active pair, one event each, are lawful throughout. */
  lemma {:induction false} MatchesLawful(c: Codec, k: Core, pair: string, ms: seq<Match>, es: seq<Event>, n: nat)
    requires n <= |ms| && IsActive(k, pair) && Affordable(k.orders, ms) && AllPair(k.orders, pair, ms) && MatchEvents(ms, es)
    ensures LawfulFrom(c, k, es[..n])
    ensures FoldFrom(c, k, es[..n]) == Ok(k.(orders := Effects(k.orders, es[..n])))
  {
    if n == 0 {
      assert es[..0] == [];
    } else {
      var now := Effects(k.orders, es[..n - 1]);
      MatchesLawful(c, k, pair, ms, es, n - 1);
      MatchesDeplete(k.orders, pair, ms, es, n - 1);
      NextMatch(k.orders, pair, ms, now, n - 1);
      assert es[..n][..n - 1] == es[..n - 1];
      MatchIsLawful(c, k.(orders := now), pair, es[n - 1]);
    }
  }

  lemma MatchIsLawful(c: Codec, k: Core, pair: string, e: Event)
    requires IsActive(k, pair) && e.data.OrderMatched? && Pairs(k.orders, pair, e.data.m)
    requires var m := e.data.m; m.size <= k.orders[m.bid.orderId].remaining && m.size <= k.orders[m.ask.orderId].remaining
    ensures Lawful(c, k, e) && Step(c, k, e) == Ok(k.(orders := Effect(k.orders, e.data)))
  {
  }

  // ---------------------------------------------------------------- from an auction result to events

  /** A match of a fair result is between two resting orders of the pair. */
  lemma FillPairs(k: Core, last: nat, pair: string, p: Decimal, m: Match)
    requires Healthy(k, last)
    requires LegalFill(AsList(OnSide(k.orders, pair, Buy)), AsList(OnSide(k.orders, pair, Sell)), p, m)
    ensures Pairs(k.orders, pair, m)
  {
    var bids, asks := AsList(OnSide(k.orders, pair, Buy)), AsList(OnSide(k.orders, pair, Sell));
    var b, a :| Leg(bids, asks, m, b, a) && b.price >= p >= a.price && b.trader != a.trader;
    ListedRests(k, last, pair, Buy, b);
    ListedRests(k, last, pair, Sell, a);
  }

  lemma FairIsAffordable(k: Core, last: nat, pair: string, ms: seq<Match>)
    requires Healthy(k, last)
    requires Within(AsList(OnSide(k.orders, pair, Buy)), ms) && Within(AsList(OnSide(k.orders, pair, Sell)), ms)
    requires forall i :: 0 <= i < |ms| ==> Pairs(k.orders, pair, ms[i])
    ensures Affordable(k.orders, ms)
  {
    forall id | id in k.orders ensures FilledOf(ms, id) <= k.orders[id].remaining {
      RestingIsListed(k, last, id);
      if k.orders[id].pair != pair {
        FilledOfNone(ms, id);
        assert RestsWell(k, last, id);
      } else if k.orders[id].side == Buy {
        assert k.orders[id] in AsList(OnSide(k.orders, pair, Buy));
      } else {
        assert k.orders[id] in AsList(OnSide(k.orders, pair, Sell));
      }
    }
  }

  /** Everything a round needs to know about its result. */
  lemma RoundFits(k: Core, last: nat, pair: string, auctionId: Id)
    requires Healthy(k, last) && Round(k.orders, pair, auctionId).Some?
    ensures var r := Round(k.orders, pair, auctionId).value;
            && AllPair(k.orders, pair, r.matches) && Affordable(k.orders, r.matches)
            && forall i :: 0 <= i < |r.matches| ==> r.matches[i].price == r.clearingPrice
  {
    var bids, asks := AsList(OnSide(k.orders, pair, Buy)), AsList(OnSide(k.orders, pair, Sell));
    var r := Round(k.orders, pair, auctionId).value;
    PairIsCrossable(k, last, pair);
    RunIsFair(auctionId, pair, bids, asks);
    forall i | 0 <= i < |r.matches| ensures Pairs(k.orders, pair, r.matches[i]) {
      FillPairs(k, last, pair, r.clearingPrice, r.matches[i]);
    }
    forall id | id in k.orders ensures k.orders[id].remaining > 0 {
      assert RestsWell(k, last, id);
    }
    FairIsAffordable(k, last, pair, r.matches);
  }

  /** The result is worth recording, and the encodability gate never refuses it. */
  lemma RoundIsSettleable(k: Core, last: nat, pair: string, auctionId: Id)
    requires Healthy(k, last) && Round(k.orders, pair, auctionId).Some?
    ensures var r := Round(k.orders, pair, auctionId).value;
            && Encodable(r.clearingPrice) && r.clearingPrice > 0 && r.matchedVolume > 0 && r.matches != []
            && r.auctionId == auctionId && r.pair == pair
  {
    var bids, asks := AsList(OnSide(k.orders, pair, Buy)), AsList(OnSide(k.orders, pair, Sell));
    PairIsCrossable(k, last, pair);
    var t := RunVolume(auctionId, pair, bids, asks);
    ClearingPriceIsBest(bids, asks);
    ResultTrades(auctionId, pair, bids, asks);
  }

  lemma ResultTrades(auctionId: Id, pair: string, bids: seq<Order>, asks: seq<Order>)
    requires Crossable(bids, asks) && Run(auctionId, pair, bids, asks).Some?
    ensures Run(auctionId, pair, bids, asks).value.matchedVolume > 0
  {
    var w, s := RunOutcome(auctionId, pair, bids, asks);
    TradedPositive(s);
  }

  lemma {:induction false} TradedPositive(s: Matching.Sweep)
    requires Matching.Genuine(s) && s.trades != []
    ensures Matching.Traded(s.trades) > 0
    decreases |s.trades|
  {
    var n := |s.trades| - 1;
    if n > 0 {
      TradedPositive(s.(trades := s.trades[..n]));
    } else {
      assert s.trades[..0] == [];
    }
  }

  /** The event that records the round itself. */
  lemma RoundHead(c: Codec, k: Core, last: nat, pair: string, auctionId: Id, now: int, e: Event)
    requires Healthy(k, last) && IsActive(k, pair) && Round(k.orders, pair, auctionId).Some?
    requires e.data == ExecutedData(Round(k.orders, pair, auctionId).value, now)
    ensures Lawful(c, k, e) && Step(c, k, e) == Ok(k.(auctionLog := k.auctionLog + [RecordOf(e.data)]))
  {
    RoundIsSettleable(k, last, pair, auctionId);
  }

  lemma RoundTail(c: Codec, k: Core, k': Core, last: nat, pair: string, auctionId: Id, es: seq<Event>)
    requires Healthy(k, last) && IsActive(k, pair) && Round(k.orders, pair, auctionId).Some?
    requires k'.orders == k.orders && k'.pairs == k.pairs
    requires MatchEvents(Round(k.orders, pair, auctionId).value.matches, es)
    ensures LawfulFrom(c, k', es) && FoldFrom(c, k', es) == Ok(k'.(orders := Effects(k.orders, es)))
  {
    RoundFits(k, last, pair, auctionId);
    MatchesLawful(c, k', pair, Round(k.orders, pair, auctionId).value.matches, es, |es|);
    assert es[..|es|] == es;
  }

  lemma {:induction false} EffectsSkip(orders: Orders, e: Event, es: seq<Event>)
    requires Effect(orders, e.data) == orders
    ensures Effects(orders, [e] + es) == Effects(orders, es)
  {
    if es == [] {
      assert [e] + es == [e];
    } else {
      var n := |es| - 1;
      EffectsSkip(orders, e, es[..n]);
      assert ([e] + es)[..|[e] + es| - 1] == [e] + es[..n];
    }
  }

  lemma StampedRound(r: AuctionResult, now: int, last: nat) returns (e: Event, tail: seq<Event>)
    ensures Stamp(RoundData(r, now), last) == [e] + tail && e.data == ExecutedData(r, now) && MatchEvents(r.matches, tail)
  {
    var es := Stamp(RoundData(r, now), last);
    e, tail := es[0], es[1..];
  }

  lemma HeadThenTail(c: Codec, k: Core, e: Event, k': Core, tail: seq<Event>)
    requires Lawful(c, k, e) && Step(c, k, e) == Ok(k') && Effect(k.orders, e.data) == k.orders && LawfulFrom(c, k', tail)
    ensures LawfulFrom(c, k, [e] + tail) && FoldFrom(c, k, [e] + tail) == FoldFrom(c, k', tail)
    ensures Effects(k.orders, [e] + tail) == Effects(k.orders, tail)
  {
    SingleEvent(c, k, e);
    LawfulConcat(c, k, [e], tail);
    FoldFromConcat(c, k, [e], tail);
    EffectsSkip(k.orders, e, tail);
  }

  lemma RoundEventsLawful(c: Codec, k: Core, last: nat, pair: string, auctionId: Id, now: int)
    requires Healthy(k, last) && IsActive(k, pair) && Round(k.orders, pair, auctionId).Some?
    ensures var r := Round(k.orders, pair, auctionId).value;
            var es := Stamp(RoundData(r, now), last);
            && LawfulFrom(c, k, es)
            && FoldFrom(c, k, es) == Ok(k.(orders := Effects(k.orders, es), auctionLog := k.auctionLog + [RecordOf(ExecutedData(r, now))]))
  {
    var e, tail := StampedRound(Round(k.orders, pair, auctionId).value, now, last);
    RoundHead(c, k, last, pair, auctionId, now, e);
    var k' := k.(auctionLog := k.auctionLog + [RecordOf(e.data)]);
    RoundTail(c, k, k', last, pair, auctionId, tail);
    HeadThenTail(c, k, e, k', tail);
  }

  lemma RoundRefines(c: Codec, s: EngineState, op: Operation, last: nat)
    requires Healthy(CoreOf(s), last) && op.RunRound? && Possible(c, CoreOf(s), op) && Plan(c, CoreOf(s), op).Ok?
    requires s.book.applied <= last
    ensures var es := Stamp(Plan(c, CoreOf(s), op).value, last); Refines(c, s, es, Commit(c, s, op, es), last)
  {
    var k := CoreOf(s);
    var es := Stamp(Plan(c, k, op).value, last);
    RoundEventsLawful(c, k, last, op.pair, op.auctionId, op.now);
    StampNumbered(Plan(c, k, op).value, last);
    FreshEventsApply(s.book, es, last + |es|);
  }

  /**
    The refinement, for every operation: what it appends is lawful, and the state it leaves is
    the one replaying those events gives.
   */
  lemma OperationRefines(c: Codec, s: EngineState, op: Operation, last: nat)
    requires ParsesCanonically(c) && Healthy(CoreOf(s), last) && s.book.applied <= last
    requires Possible(c, CoreOf(s), op) && Plan(c, CoreOf(s), op).Ok?
    ensures var es := Stamp(Plan(c, CoreOf(s), op).value, last); Refines(c, s, es, Commit(c, s, op, es), last)
  {
    match op
    case Register(_, _) => RegisterRefines(c, s, op, last);
    case Suspend(_) => SuspendRefines(c, s, op, last);
    case Delist(_, _) => DelistRefines(c, s, op, last);
    case Place(_) => PlaceRefines(c, s, op, last);
    case Cancel(_) => CancelRefines(c, s, op, last);
    case Expire(_, _) => ExpireRefines(c, s, op, last);
    case RunRound(_, _, _) => RoundRefines(c, s, op, last);
    case Finalize(_, _) => FinalizeRefines(c, s, op, last);
  }
}
