/** The proof batches of rounds: together they hold exactly the recorded matches, and every match of each settles. */
module Batches {
  import opened Types
  import opened Events
  import opened BookSpec
  import opened Projection
  import opened Legality
  import opened Auction
  import opened Operations
  import opened Recovery
  import opened Orphans
  import opened Settlement

  /** One proof batch of a round, with the full orders it settles. */
  datatype PendingAggregation = PendingAggregation(auctionId: Id, pair: string, matches: seq<Match>, orders: Orders)

  /** A round's proof batches. */
  function Aggregations(r: AuctionResult, orders: Orders, n: nat): seq<PendingAggregation>
    requires n > 0
  {
    var chunks := Chunks(r.matches, n);
    seq(|chunks|, i requires 0 <= i < |chunks| =>
      PendingAggregation(r.auctionId, r.pair, chunks[i], Snapshot(r.matches, orders)))
  }

  /** The matches of an auction, each with the auction it is of. */
  function Tagged(auctionId: Id, ms: seq<Match>): seq<(Id, Match)> {
    seq(|ms|, i requires 0 <= i < |ms| => (auctionId, ms[i]))
  }

  /** Everything the batches settle, batch by batch. */
  function Batched(bs: seq<PendingAggregation>): seq<(Id, Match)> {
    if bs == [] then [] else Batched(bs[..|bs| - 1]) + Tagged(bs[|bs| - 1].auctionId, bs[|bs| - 1].matches)
  }

  /** Every match the events record, in order. */
  function Logged(es: seq<Event>): seq<(Id, Match)> {
    if es == [] then []
    else
      var d := es[|es| - 1].data;
      Logged(es[..|es| - 1]) + if d.OrderMatched? then [(d.auctionId, d.m)] else []
  }

  lemma {:induction false} BatchedConcat(a: seq<PendingAggregation>, b: seq<PendingAggregation>)
    ensures Batched(a + b) == Batched(a) + Batched(b)
  {
    if b == [] {
      assert a + b == a;
    } else {
      var n := |b| - 1;
      var all, init, last := a + b, a + b[..n], Tagged(b[n].auctionId, b[n].matches);
      BatchedConcat(a, b[..n]);
      assert all[..|all| - 1] == init && all[|all| - 1] == b[n];
      assert Batched(all) == Batched(init) + last == Batched(a) + (Batched(b[..n]) + last);
    }
  }

  lemma {:induction false} LoggedConcat(a: seq<Event>, b: seq<Event>)
    ensures Logged(a + b) == Logged(a) + Logged(b)
  {
    if b == [] {
      assert a + b == a;
    } else {
      var n := |b| - 1;
      LoggedConcat(a, b[..n]);
      assert (a + b)[..|a + b| - 1] == a + b[..n];
    }
  }

  lemma {:induction false} NothingLogged(es: seq<Event>)
    requires forall i :: 0 <= i < |es| ==> !es[i].data.OrderMatched?
    ensures Logged(es) == []
  {
    if es != [] {
      NothingLogged(es[..|es| - 1]);
    }
  }

  lemma {:induction false} MatchesLogged(auctionId: Id, ms: seq<Match>, es: seq<Event>)
    requires |es| == |ms| && forall i :: 0 <= i < |ms| ==> es[i].data == OrderMatched(auctionId, ms[i])
    ensures Logged(es) == Tagged(auctionId, ms)
  {
    if ms != [] {
      var n := |ms| - 1;
      MatchesLogged(auctionId, ms[..n], es[..n]);
    }
  }

  /** A round's events log exactly its matches. */
  lemma RoundLogged(r: AuctionResult, time: int, last: nat)
    ensures Logged(Stamp(RoundData(r, time), last)) == Tagged(r.auctionId, r.matches)
  {
    var es := Stamp(RoundData(r, time), last);
    assert es == [es[0]] + es[1..];
    LoggedConcat([es[0]], es[1..]);
    NothingLogged([es[0]]);
    MatchesLogged(r.auctionId, r.matches, es[1..]);
  }

  lemma TaggedConcat(a: Id, ms: seq<Match>, ns: seq<Match>)
    ensures Tagged(a, ms + ns) == Tagged(a, ms) + Tagged(a, ns)
  {
  }

  lemma {:induction false} BatchesJoin(bs: seq<PendingAggregation>, auctionId: Id, mss: seq<seq<Match>>)
    requires |bs| == |mss| && forall i :: 0 <= i < |bs| ==> bs[i].auctionId == auctionId && bs[i].matches == mss[i]
    ensures Batched(bs) == Tagged(auctionId, Joined(mss))
  {
    if bs != [] {
      var n := |bs| - 1;
      BatchesJoin(bs[..n], auctionId, mss[..n]);
      TaggedConcat(auctionId, Joined(mss[..n]), mss[n]);
    }
  }

  /** The batches of a round hold exactly its matches, in order. */
  lemma AggregationsHold(r: AuctionResult, orders: Orders, n: nat)
    requires n > 0
    ensures Batched(Aggregations(r, orders, n)) == Tagged(r.auctionId, r.matches)
  {
    BatchesJoin(Aggregations(r, orders, n), r.auctionId, Chunks(r.matches, n));
    ChunksJoin(r.matches, n);
  }

  /** The batch is of this round, not empty, not too large. */
  predicate BatchOf(b: PendingAggregation, auctionId: Id, pair: string, n: nat) {
    b.auctionId == auctionId && b.pair == pair && 0 < |b.matches| <= n
  }

  /** Every match of the batch resolves in the batch's own orders to a row that settles it between the orders of the book. */
  ghost predicate Settleable(b: PendingAggregation, orders: Orders, pairs: map<string, PairConfig>) {
    && b.pair in pairs
    && forall i :: 0 <= i < |b.matches| ==> MatchResolves(b.matches[i], b.orders, orders, pairs, pairs[b.pair])
  }

  predicate MatchResolves(m: Match, known: Orders, orders: Orders, pairs: map<string, PairConfig>, cfg: PairConfig) {
    var row := SettlementRowOf(m, known, pairs); row.Some? && Settles(row.value, m, orders, cfg)
  }

  lemma AggregationsAreOfRound(r: AuctionResult, orders: Orders, n: nat, b: PendingAggregation)
    requires n > 0 && b in Aggregations(r, orders, n)
    ensures BatchOf(b, r.auctionId, r.pair, n) && b.matches in Chunks(r.matches, n) && b.orders == Snapshot(r.matches, orders)
  {
    ChunksJoin(r.matches, n);
  }

  lemma AggregationsSettle(k: Core, last: nat, pair: string, auctionId: Id, r: AuctionResult, n: nat, b: PendingAggregation)
    requires Healthy(k, last) && IsActive(k, pair) && Round(k.orders, pair, auctionId) == Some(r) && r.pair == pair
    requires n > 0 && b in Aggregations(r, k.orders, n)
    ensures Settleable(b, k.orders, k.pairs)
  {
    AggregationsAreOfRound(r, k.orders, n, b);
    ChunkPairs(k, last, pair, auctionId, r, n, b.matches);
    forall i | 0 <= i < |b.matches| ensures MatchResolves(b.matches[i], b.orders, k.orders, k.pairs, k.pairs[pair]) {
      RowSettles(b.matches[i], r.matches, k.orders, pair, k.pairs, k.pairs[pair]);
    }
  }

  /** The log grew by events that record exactly the matches of the batches, in order. */
  ghost predicate Grew(was: seq<Event>, now: seq<Event>, bs: seq<PendingAggregation>) {
    was <= now && Logged(now[|was|..]) == Batched(bs)
  }

  lemma GrewNothing(es: seq<Event>)
    ensures Grew(es, es, [])
  {
    assert es[|es|..] == [];
  }

  lemma GrewBy(was: seq<Event>, more: seq<Event>, bs: seq<PendingAggregation>)
    requires Logged(more) == Batched(bs)
    ensures Grew(was, was + more, bs)
  {
    assert (was + more)[|was|..] == more;
  }

  lemma GrewOn(a: seq<Event>, b: seq<Event>, d: seq<Event>, bs: seq<PendingAggregation>, cs: seq<PendingAggregation>)
    requires Grew(a, b, bs) && Grew(b, d, cs)
    ensures Grew(a, d, bs + cs)
  {
    assert d[|a|..] == b[|a|..] + d[|b|..];
    LoggedConcat(b[|a|..], d[|b|..]);
    BatchedConcat(bs, cs);
  }
}
