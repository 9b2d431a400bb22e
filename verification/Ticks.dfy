/** The auction tick: expiry, then one round per active pair. */
module Ticks {
  import opened Types
  import opened Encoding
  import opened Events
  import opened BookSpec
  import opened Projection
  import opened Legality
  import opened History
  import opened Priority
  import opened Auction
  import opened AuctionLoops
  import opened Operations
  import opened Refinement
  import opened Rounds
  import opened Settlement
  import opened Batches
  import opened System
  import opened Engine
  import opened Outcomes

  /** Collects the orders whose time is up, stores their expiry and applies it. */
  method RemoveExpired(e: Engine, now: int, outcome: Append) returns (reply: Reply, ghost ids: seq<Id>)
    requires e.Valid()
    modifies e, e.book, e.store
    ensures e.Valid() && e.secrets == old(e.secrets) && e.pairs == old(e.pairs)
    ensures e.Did(Expire(now, ids), outcome, reply) && Possible(e.codec, CoreOf(old(e.View())), Expire(now, ids))
  {
    var expired := e.book.CollectExpired(now);
    ids := expired;
    if expired == [] {
      return Done, ids;
    }
    var stored := e.store.Append(ExpireAll(expired), outcome);
    if stored.None? {
      return StoreFailed, ids;
    }
    e.ApplyEvents(stored.value);
    reply := Done;
  }

  /** The order has no expiry, or has not reached it. */
  predicate StillGood(o: Order, now: int) {
    o.expiresAt == 0 || now < o.expiresAt
  }

  /** Removes the orders whose time is up: what has no expiry or has not reached it stays as it is, and nothing else does. */
  method ExpireOrders(e: Engine, now: int, outcome: Append) returns (reply: Reply, ghost ids: seq<Id>)
    requires e.Valid()
    modifies e, e.book, e.store
    ensures e.Valid() && e.secrets == old(e.secrets) && e.pairs == old(e.pairs)
    ensures e.Did(Expire(now, ids), outcome, reply) && Possible(e.codec, CoreOf(old(e.View())), Expire(now, ids))
    ensures old(e.book.applied) <= old(e.store.counter) && reply.Done? ==>
              e.book.orders == map id | id in old(e.book.orders) && StillGood(old(e.book.orders)[id], now) :: old(e.book.orders)[id]
  {
    reply, ids := RemoveExpired(e, now, outcome);
    if old(e.book.applied) <= old(e.store.counter) {
      ExpiredIs(e.codec, now, ids, outcome, old(e.View()), old(e.TheLog()), e.View(), e.TheLog(), reply);
    }
  }

  /** The two sides of the book, however listed, give the round its definition is about. */
  lemma ListingIsIrrelevant(orders: Orders, pair: string, auctionId: Id, bids: seq<Order>, asks: seq<Order>)
    requires DistinctPlacements(orders)
    requires multiset(bids) == multiset(OnSide(orders, pair, Buy)) && multiset(asks) == multiset(OnSide(orders, pair, Sell))
    ensures Run(auctionId, pair, bids, asks) == Round(orders, pair, auctionId)
  {
    var b, a := AsList(OnSide(orders, pair, Buy)), AsList(OnSide(orders, pair, Sell));
    ListedMultiset(OnSide(orders, pair, Buy));
    ListedMultiset(OnSide(orders, pair, Sell));
    SideIsDistinct(orders, pair, Buy, bids);
    SideIsDistinct(orders, pair, Sell, asks);
    RunIgnoresArrangement(auctionId, pair, bids, asks, b, a);
  }

  lemma {:induction false} ListedMultiset(s: set<Order>)
    ensures multiset(AsList(s)) == multiset(s)
  {
    if s != {} {
      var o := Pick(s);
      ListedMultiset(s - {o});
      assert s == (s - {o}) + {o};
    }
  }

  lemma SideIsDistinct(orders: Orders, pair: string, side: Side, listed: seq<Order>)
    requires DistinctPlacements(orders) && multiset(listed) == multiset(OnSide(orders, pair, side))
    ensures DistinctSeqs(listed)
  {
    forall i, j | 0 <= i < j < |listed| ensures listed[i].placedSeq != listed[j].placedSeq {
      assert listed[i] in multiset(listed) && listed[j] in multiset(listed);
      var x :| x in orders && orders[x] == listed[i];
      var y :| y in orders && orders[y] == listed[j];
      if listed[i] == listed[j] {
        AppearsTwice(listed, i, j);
      }
    }
  }

  lemma AppearsTwice(listed: seq<Order>, i: nat, j: nat)
    requires i < j < |listed| && listed[i] == listed[j]
    ensures multiset(listed)[listed[i]] >= 2
  {
    assert listed == listed[..j] + [listed[j]] + listed[j + 1..];
    assert listed[..j][i] == listed[i];
  }

  lemma ChunkStep(ms: seq<Match>, n: nat, k: nat)
    requires ms != [] && n > 0 && k == Min(n, |ms|)
    ensures Chunks(ms, n) == [ms[..k]] + Chunks(ms[k..], n)
  {
    if |ms| <= n {
      assert ms[..k] == ms && ms[k..] == [] && Chunks(ms[k..], n) == [];
    }
  }

  /** The next batch starts where the last one ended. */
  lemma ChunkOn(ms: seq<Match>, n: nat, i: nat, end: nat, chunks: seq<seq<Match>>)
    requires n > 0 && i < |ms| && end == Min(i + n, |ms|) && Chunks(ms, n) == chunks + Chunks(ms[i..], n)
    ensures Chunks(ms, n) == chunks + [ms[i..end]] + Chunks(ms[end..], n)
  {
    ChunkStep(ms[i..], n, end - i);
    assert ms[i..][..end - i] == ms[i..end] && ms[i..][end - i..] == ms[end..];
  }

  /** Splits a round into batches of at most `n` matches. */
  method ChunkRound(ms: seq<Match>, n: nat) returns (chunks: seq<seq<Match>>)
    requires n > 0
    ensures chunks == Chunks(ms, n)
  {
    chunks := [];
    var i := 0;
    while i < |ms|
      invariant 0 <= i <= |ms| && Chunks(ms, n) == chunks + Chunks(ms[i..], n)
    {
      var end := Min(i + n, |ms|);
      ChunkOn(ms, n, i, end, chunks);
      chunks := chunks + [ms[i..end]];
      i := end;
    }
  }

  lemma RoundGrows(c: Codec, pair: string, auctionId: Id, time: int, outcome: Append, was: EngineState, log: Log,
                   now: EngineState, log': Log, reply: Reply, n: nat)
    requires Performed(c, RunRound(pair, auctionId, time), outcome, was, log, now, log', reply) && reply.Done? && n > 0
    ensures Round(was.book.orders, pair, auctionId).Some?
    ensures Grew(log.history, log'.history, Aggregations(Round(was.book.orders, pair, auctionId).value, was.book.orders, n))
  {
    var r := RoundPerforms(c, pair, auctionId, time, outcome, was, log, now, log', reply);
    RoundLogged(r, time, log.counter);
    AggregationsHold(r, was.book.orders, n);
    GrewBy(log.history, Stamp(RoundData(r, time), log.counter), Aggregations(r, was.book.orders, n));
  }

  method RoundEvents(r: AuctionResult, now: int) returns (data: seq<EventData>)
    ensures data == RoundData(r, now)
  {
    data := [ExecutedData(r, now)];
    for i := 0 to |r.matches|
      invariant data == RoundData(r, now)[..i + 1]
    {
      data := data + [OrderMatched(r.auctionId, r.matches[i])];
    }
  }

  function Found(orders: Orders, id: Id): Orders {
    if id in orders then map[id := orders[id]] else map[]
  }

  lemma SnapshotSnoc(ms: seq<Match>, m: Match, orders: Orders)
    ensures Snapshot(ms + [m], orders) == Snapshot(ms, orders) + Found(orders, m.bid.orderId) + Found(orders, m.ask.orderId)
  {
  }

  method Lookup(book: OrderBook.OrderBook, id: Id) returns (found: Orders)
    requires book.Valid()
    ensures found == Found(book.orders, id)
  {
    var order := book.FindOrder(id);
    found := if order.Some? then map[id := order.value] else map[];
  }

  /** Looks up every matched order before any fill is applied. */
  method TakeSnapshot(book: OrderBook.OrderBook, ms: seq<Match>) returns (snapshot: Orders)
    requires book.Valid()
    ensures snapshot == Snapshot(ms, book.orders)
  {
    snapshot := map[];
    for i := 0 to |ms|
      invariant snapshot == Snapshot(ms[..i], book.orders)
    {
      var bid := Lookup(book, ms[i].bid.orderId);
      var ask := Lookup(book, ms[i].ask.orderId);
      snapshot := snapshot + bid + ask;
      SnapshotSnoc(ms[..i], ms[i], book.orders);
      assert ms[..i + 1] == ms[..i] + [ms[i]];
    }
    assert ms[..|ms|] == ms;
  }

  /** The auction of one pair over the book as it stands. */
  method ClearPair(e: Engine, pair: string, auctionId: Id) returns (result: Option<AuctionResult>)
    requires e.Valid() && DistinctPlacements(e.book.orders)
    ensures result == Round(e.book.orders, pair, auctionId)
  {
    var bids := e.book.SideOrders(pair, Buy);
    var asks := e.book.SideOrders(pair, Sell);
    result := RunAuction(auctionId, pair, bids, asks);
    ListingIsIrrelevant(e.book.orders, pair, auctionId, bids, asks);
  }

  lemma RoundPerformed(c: Codec, s: EngineState, log: Log, pair: string, auctionId: Id, now: int, r: AuctionResult,
                       outcome: Append, s': EngineState, log': Log)
    requires Round(s.book.orders, pair, auctionId) == Some(r) && Encodable(r.clearingPrice)
    requires match outcome
             case Stored =>
               var es := Stamp(RoundData(r, now), log.counter);
               s' == Cleared(s, r, now, es) && log' == Log(log.history + es, log.counter + |es|)
             case Lost(burned) => s' == s && log' == log.(counter := log.counter + burned)
    ensures Performed(c, RunRound(pair, auctionId, now), outcome, s, log, s', log', if outcome.Stored? then Done else StoreFailed)
  {
  }

  /** Applies a round's stored events. */
  method ApplyRound(e: Engine, r: AuctionResult, now: int, es: seq<Event>)
    requires e.Valid()
    modifies e, e.book
    ensures e.Valid() && e.secrets == old(e.secrets) && e.pairs == old(e.pairs)
    ensures e.View() == Cleared(old(e.View()), r, now, es)
  {
    e.auctionLog := e.auctionLog + [AuctionRecord(r.auctionId, r.pair, r.clearingPrice, r.matchedVolume, |r.matches|, now)];
    e.ApplyEvents(es);
  }

  /** Stores a round's events and applies them. */
  method RecordRound(e: Engine, pair: string, auctionId: Id, now: int, r: AuctionResult, outcome: Append) returns (reply: Reply)
    requires e.Valid() && Round(e.book.orders, pair, auctionId) == Some(r) && Encodable(r.clearingPrice)
    modifies e, e.book, e.store
    ensures e.Valid() && e.secrets == old(e.secrets) && e.pairs == old(e.pairs)
    ensures e.Did(RunRound(pair, auctionId, now), outcome, reply)
    ensures reply == if outcome.Stored? then Done else StoreFailed
  {
    ghost var was, log := e.View(), e.TheLog();
    var data := RoundEvents(r, now);
    var stored := e.store.Append(data, outcome);
    if stored.None? {
      RoundPerformed(e.codec, was, log, pair, auctionId, now, r, outcome, e.View(), e.TheLog());
      return StoreFailed;
    }
    ApplyRound(e, r, now, stored.value);
    RoundPerformed(e.codec, was, log, pair, auctionId, now, r, outcome, e.View(), e.TheLog());
    reply := Done;
  }

  /** Splits a recorded round into proof batches. */
  method SplitRound(r: AuctionResult, snapshot: Orders, ghost orders: Orders, n: nat) returns (pending: seq<PendingAggregation>)
    requires n > 0 && snapshot == Snapshot(r.matches, orders)
    ensures pending == Aggregations(r, orders, n)
  {
    pending := [];
    var chunks := ChunkRound(r.matches, n);
    for i := 0 to |chunks|
      invariant pending == Aggregations(r, orders, n)[..i]
    {
      pending := pending + [PendingAggregation(r.auctionId, r.pair, chunks[i], snapshot)];
    }
  }

  /** Records a round and splits it into proof batches. */
  method PublishRound(e: Engine, pair: string, auctionId: Id, now: int, r: AuctionResult, n: nat, outcome: Append)
    returns (reply: Reply, pending: seq<PendingAggregation>)
    requires e.Valid() && Round(e.book.orders, pair, auctionId) == Some(r) && Encodable(r.clearingPrice) && n > 0
    modifies e, e.book, e.store
    ensures e.Valid() && e.secrets == old(e.secrets) && e.pairs == old(e.pairs)
    ensures e.Did(RunRound(pair, auctionId, now), outcome, reply) && !reply.Refused?
    ensures pending == if reply.Done? then Aggregations(r, old(e.book.orders), n) else []
  {
    var snapshot := TakeSnapshot(e.book, r.matches);
    reply := RecordRound(e, pair, auctionId, now, r, outcome);
    pending := [];
    if reply.Done? {
      pending := SplitRound(r, snapshot, old(e.book.orders), n);
    }
  }

  /** What a round that was not recorded leaves: nothing. */
  lemma NothingGrows(c: Codec, op: Operation, outcome: Append, was: EngineState, log: Log, now: EngineState, log': Log, reply: Reply)
    requires Performed(c, op, outcome, was, log, now, log', reply) && !reply.Done?
    ensures Grew(log.history, log'.history, [])
  {
    NothingHalfDone(c, op, outcome, was, log, now, log', reply);
    GrewNothing(log.history);
  }

  /** The log grew by exactly the matches of the batches, and every batch is one of this round. */
  ghost predicate HoldsRound(was: seq<Event>, now: seq<Event>, auctionId: Id, pair: string, n: nat, bs: seq<PendingAggregation>) {
    Grew(was, now, bs) && forall b :: b in bs ==> BatchOf(b, auctionId, pair, n)
  }

  lemma RoundIsNamed(orders: Orders, pair: string, auctionId: Id)
    requires Round(orders, pair, auctionId).Some?
    ensures var r := Round(orders, pair, auctionId).value; r.auctionId == auctionId && r.pair == pair
  {
  }

  lemma RoundHeld(c: Codec, pair: string, auctionId: Id, time: int, outcome: Append, was: EngineState, log: Log,
                  now: EngineState, log': Log, reply: Reply, n: nat, bs: seq<PendingAggregation>)
    requires Performed(c, RunRound(pair, auctionId, time), outcome, was, log, now, log', reply) && n > 0
    requires Round(was.book.orders, pair, auctionId).Some?
    requires bs == if reply.Done? then Aggregations(Round(was.book.orders, pair, auctionId).value, was.book.orders, n) else []
    ensures HoldsRound(log.history, log'.history, auctionId, pair, n, bs)
  {
    if reply.Done? {
      RoundGrows(c, pair, auctionId, time, outcome, was, log, now, log', reply, n);
      RoundIsNamed(was.book.orders, pair, auctionId);
      forall b | b in bs ensures BatchOf(b, auctionId, pair, n) {
        AggregationsAreOfRound(Round(was.book.orders, pair, auctionId).value, was.book.orders, n, b);
      }
    } else {
      NothingGrows(c, RunRound(pair, auctionId, time), outcome, was, log, now, log', reply);
    }
  }

  /** Runs one pair's auction, records it, and splits it into proof batches. */
  method RunPair(e: Engine, pair: string, auctionId: Id, now: int, n: nat, outcome: Append)
    returns (reply: Reply, pending: seq<PendingAggregation>)
    requires e.Valid() && DistinctPlacements(e.book.orders) && n > 0
    modifies e, e.book, e.store
    ensures e.Valid() && e.secrets == old(e.secrets) && e.pairs == old(e.pairs)
    ensures e.Did(RunRound(pair, auctionId, now), outcome, reply)
    ensures reply.Done? ==> Round(old(e.book.orders), pair, auctionId).Some?
    ensures pending == if reply.Done? then Aggregations(Round(old(e.book.orders), pair, auctionId).value, old(e.book.orders), n)
                       else []
    ensures HoldsRound(old(e.store.history), e.store.history, auctionId, pair, n, pending)
  {
    pending := [];
    ghost var was, log := e.View(), e.TheLog();
    GrewNothing(log.history);
    var result := ClearPair(e, pair, auctionId);
    if result.None? {
      return Refused(NothingToClear), [];
    }
    if !Encodable(result.value.clearingPrice) {
      return Refused(PriceNotEncodable), [];
    }
    reply, pending := PublishRound(e, pair, auctionId, now, result.value, n, outcome);
    RoundHeld(e.codec, pair, auctionId, now, outcome, was, log, e.View(), e.TheLog(), reply, n, pending);
  }

  // ---------------------------------------------------------------- the whole tick

  /** Lexicographic order, in which a tick visits pairs. */
  predicate Precedes(a: string, b: string) {
    b != [] && (a == [] || a[0] < b[0] || (a[0] == b[0] && Precedes(a[1..], b[1..])))
  }

  lemma {:induction false} PrecedesTotal(a: string, b: string)
    ensures a == b || Precedes(a, b) || Precedes(b, a)
  {
    if a != [] && b != [] && a[0] == b[0] {
      PrecedesTotal(a[1..], b[1..]);
      assert a[1..] == b[1..] ==> a == [a[0]] + a[1..] == b;
    }
  }

  lemma {:induction false} PrecedesTransitive(a: string, b: string, c: string)
    requires Precedes(a, b) && Precedes(b, c)
    ensures Precedes(a, c)
  {
    if a != [] && a[0] == b[0] == c[0] {
      PrecedesTransitive(a[1..], b[1..], c[1..]);
    }
  }

  /** That is: a shorter beginning comes first, and otherwise the first difference decides. */
  lemma {:induction false} PrecedesExactly(a: string, b: string)
    ensures Precedes(a, b) <==> a < b || exists i :: DiffersFirst(a, b, i) && a[i] < b[i]
  {
    if a != [] && b != [] && a[0] == b[0] {
      PrecedesExactly(a[1..], b[1..]);
      DiffersLater(a, b);
      assert a == [a[0]] + a[1..] && b == [b[0]] + b[1..];
      assert a < b <==> a[1..] < b[1..];
    } else if a != [] && b != [] {
      assert DiffersFirst(a, b, 0);
      assert !(a <= b);
    }
  }

  predicate DiffersFirst(a: string, b: string, i: int) {
    0 <= i < |a| && i < |b| && a[i] != b[i] && a[..i] == b[..i]
  }

  lemma DiffersLater(a: string, b: string)
    requires a != [] && b != [] && a[0] == b[0]
    ensures (exists i :: DiffersFirst(a, b, i) && a[i] < b[i])
            <==> (exists i :: DiffersFirst(a[1..], b[1..], i) && a[1..][i] < b[1..][i])
  {
    if i :| DiffersFirst(a, b, i) && a[i] < b[i] {
      assert a[..i][1..] == a[1..][..i - 1] && b[..i][1..] == b[1..][..i - 1];
      assert DiffersFirst(a[1..], b[1..], i - 1);
    }
    if i :| DiffersFirst(a[1..], b[1..], i) && a[1..][i] < b[1..][i] {
      assert a[..i + 1] == [a[0]] + a[1..][..i] && b[..i + 1] == [b[0]] + b[1..][..i];
      assert DiffersFirst(a, b, i + 1);
    }
  }

  /** The first of some pairs. */
  method FirstPair(s: set<string>) returns (first: string)
    requires s != {}
    ensures first in s && forall p :: p in s && p != first ==> Precedes(first, p)
  {
    first :| first in s;
    var todo := s - {first};
    while todo != {}
      invariant first in s && todo <= s
      invariant forall p :: p in s - todo && p != first ==> Precedes(first, p)
    {
      var q :| q in todo;
      PrecedesTotal(first, q);
      if Precedes(q, first) {
        forall p | p in s - todo && p != first ensures Precedes(q, p) {
          PrecedesTransitive(q, first, p);
        }
        first := q;
      }
      todo := todo - {q};
    }
  }

  /** One operation of a tick, the state it started from and how it was answered. */
  datatype Step = Step(op: Operation, outcome: Append, was: EngineState, log: Log, reply: Reply)

  ghost predicate Leads(c: Codec, st: Step, now: EngineState, log: Log) {
    Possible(c, CoreOf(st.was), st.op) && Performed(c, st.op, st.outcome, st.was, st.log, now, log, st.reply)
  }

  /** Each step leads to the next and the last one to `now`. */
  ghost predicate Traced(c: Codec, steps: seq<Step>, now: EngineState, log: Log) {
    steps == [] ||
    var st := steps[|steps| - 1];
    Leads(c, st, now, log) && Traced(c, steps[..|steps| - 1], st.was, st.log)
  }

  lemma PerformedKeepsHealth(c: Codec, st: Step, now: EngineState, log: Log)
    requires ParsesCanonically(c) && Leads(c, st, now, log)
    requires Healthy(CoreOf(st.was), st.log.counter) && st.was.book.applied <= st.log.counter
    ensures Healthy(CoreOf(now), log.counter) && now.book.applied <= log.counter
  {
    if now == st.was {
      LaterKeepsHealth(CoreOf(now), st.log.counter, log.counter);
    } else {
      var data := Plan(c, CoreOf(st.was), st.op).value;
      StampNumbered(data, st.log.counter);
      OperationRefines(c, st.was, st.op, st.log.counter);
      LawfulReplays(c, CoreOf(st.was), Stamp(data, st.log.counter), st.log.counter, log.counter);
    }
  }

  /** The proof batches of a tick's rounds, in order. */
  ghost function Collected(steps: seq<Step>, n: nat): seq<PendingAggregation>
    requires n > 0
  {
    if steps == [] then [] else Collected(steps[..|steps| - 1], n) + OfStep(steps[|steps| - 1], n)
  }

  ghost function OfStep(st: Step, n: nat): seq<PendingAggregation>
    requires n > 0
  {
    if st.op.RunRound? && st.reply.Done? && Round(st.was.book.orders, st.op.pair, st.op.auctionId).Some?
    then Aggregations(Round(st.was.book.orders, st.op.pair, st.op.auctionId).value, st.was.book.orders, n)
    else []
  }

  /** The log grew by exactly what the batches of the step settle, and each batch is one of the step's round and settles. */
  ghost predicate StepSettles(st: Step, now: Log, bs: seq<PendingAggregation>, n: nat) {
    && Grew(st.log.history, now.history, bs)
    && forall b :: b in bs ==> SettlesStep(st, b, n)
  }

  ghost predicate SettlesStep(st: Step, b: PendingAggregation, n: nat) {
    st.op.RunRound? && BatchOf(b, st.op.auctionId, st.op.pair, n) && Settleable(b, st.was.book.orders, st.was.pairs)
  }

  lemma BatchSettlesStep(st: Step, r: AuctionResult, n: nat, b: PendingAggregation)
    requires st.op.RunRound? && IsActive(CoreOf(st.was), st.op.pair) && Healthy(CoreOf(st.was), st.log.counter) && n > 0
    requires Round(st.was.book.orders, st.op.pair, st.op.auctionId) == Some(r) && b in Aggregations(r, st.was.book.orders, n)
    ensures SettlesStep(st, b, n)
  {
    RoundIsSettleable(CoreOf(st.was), st.log.counter, st.op.pair, st.op.auctionId);
    AggregationsAreOfRound(r, st.was.book.orders, n, b);
    AggregationsSettle(CoreOf(st.was), st.log.counter, st.op.pair, st.op.auctionId, r, n, b);
  }

  lemma RecordedRoundSettles(st: Step, r: AuctionResult, now: Log, n: nat)
    requires st.op.RunRound? && st.reply.Done? && IsActive(CoreOf(st.was), st.op.pair) && Healthy(CoreOf(st.was), st.log.counter)
    requires n > 0 && Round(st.was.book.orders, st.op.pair, st.op.auctionId) == Some(r)
    requires Grew(st.log.history, now.history, Aggregations(r, st.was.book.orders, n))
    ensures StepSettles(st, now, OfStep(st, n), n)
  {
    forall b | b in Aggregations(r, st.was.book.orders, n) ensures SettlesStep(st, b, n) {
      BatchSettlesStep(st, r, n, b);
    }
  }

  lemma RoundSettles(c: Codec, pair: string, auctionId: Id, time: int, st: Step, now: EngineState, log: Log, n: nat)
    requires st.op == RunRound(pair, auctionId, time) && n > 0 && IsActive(CoreOf(st.was), pair)
    requires Performed(c, RunRound(pair, auctionId, time), st.outcome, st.was, st.log, now, log, st.reply)
    requires Healthy(CoreOf(st.was), st.log.counter) && st.was.book.applied <= st.log.counter
    ensures StepSettles(st, log, OfStep(st, n), n)
  {
    if st.reply.Done? {
      RoundGrows(c, pair, auctionId, time, st.outcome, st.was, st.log, now, log, st.reply, n);
      RecordedRoundSettles(st, Round(st.was.book.orders, pair, auctionId).value, log, n);
    } else {
      NothingGrows(c, st.op, st.outcome, st.was, st.log, now, log, st.reply);
    }
  }

  lemma ExpiryLogsNothing(c: Codec, st: Step, now: EngineState, log: Log)
    requires Leads(c, st, now, log) && st.op.Expire? && st.was.book.applied <= st.log.counter
    ensures Grew(st.log.history, log.history, [])
  {
    if st.reply.Done? {
      ExpiredIs(c, st.op.now, st.op.expiredIds, st.outcome, st.was, st.log, now, log, st.reply);
      var more := log.history[|st.log.history|..];
      NothingLogged(more);
      assert log.history == st.log.history + more;
      GrewBy(st.log.history, more, []);
    } else {
      NothingGrows(c, st.op, st.outcome, st.was, st.log, now, log, st.reply);
    }
  }

  /** Every batch of the tick belongs to one of its rounds and settles against the book that round started from. */
  ghost predicate AllSettle(steps: seq<Step>, bs: seq<PendingAggregation>, n: nat) {
    forall b :: b in bs ==> exists i :: 0 <= i < |steps| && SettlesStep(steps[i], b, n)
  }

  lemma AllSettleOn(steps: seq<Step>, st: Step, bs: seq<PendingAggregation>, more: seq<PendingAggregation>, n: nat)
    requires AllSettle(steps, bs, n) && forall b :: b in more ==> SettlesStep(st, b, n)
    ensures AllSettle(steps + [st], bs + more, n)
  {
    forall b | b in bs + more ensures exists i :: 0 <= i < |steps + [st]| && SettlesStep((steps + [st])[i], b, n) {
      if b in bs {
        var i :| 0 <= i < |steps| && SettlesStep(steps[i], b, n);
        assert (steps + [st])[i] == steps[i];
      } else {
        assert SettlesStep((steps + [st])[|steps|], b, n);
      }
    }
  }

  /** Since `start` the log grew by exactly what the batches settle, and every batch settles. */
  ghost predicate SettledSoFar(start: seq<Event>, now: seq<Event>, steps: seq<Step>, bs: seq<PendingAggregation>, n: nat) {
    Grew(start, now, bs) && AllSettle(steps, bs, n)
  }

  lemma NothingToSettle(start: seq<Event>, steps: seq<Step>, n: nat)
    ensures SettledSoFar(start, start, steps, [], n)
  {
    GrewNothing(start);
  }

  lemma SettleOn(start: seq<Event>, steps: seq<Step>, st: Step, now: Log, bs: seq<PendingAggregation>,
                 more: seq<PendingAggregation>, n: nat)
    requires SettledSoFar(start, st.log.history, steps, bs, n) && StepSettles(st, now, more, n)
    ensures SettledSoFar(start, now.history, steps + [st], bs + more, n)
  {
    GrewOn(start, st.log.history, now.history, bs, more);
    AllSettleOn(steps, st, bs, more, n);
  }

  function ActivePairs(pairs: map<string, PairConfig>): set<string> {
    set p | p in pairs && pairs[p].status == Active
  }

  /** The rounds of a tick are one per visited pair, in order. */
  ghost predicate OneRoundEach(steps: seq<Step>, visited: seq<string>, ids: string -> Id, now: int) {
    && |steps| == |visited| + 1
    && forall i :: 0 <= i < |visited| ==> steps[i + 1].op == RunRound(visited[i], ids(visited[i]), now)
  }

  ghost predicate Ascends(visited: seq<string>) {
    forall i, j :: 0 <= i < j < |visited| ==> Precedes(visited[i], visited[j])
  }

  /** The state between two operations of a tick. */
  ghost predicate Sane(e: Engine)
    reads e, e.book, e.store
  {
    e.Valid() && Healthy(CoreOf(e.View()), e.store.counter) && e.book.applied <= e.store.counter
  }

  method StepExpire(e: Engine, now: int, outcome: Append) returns (ghost st: Step)
    requires Sane(e) && ParsesCanonically(e.codec)
    modifies e, e.book, e.store
    ensures Sane(e) && e.secrets == old(e.secrets) && e.pairs == old(e.pairs)
    ensures st.op.Expire? && st.op.now == now && st.was == old(e.View()) && st.log == old(e.TheLog())
    ensures Leads(e.codec, st, e.View(), e.TheLog()) && Grew(old(e.store.history), e.store.history, [])
  {
    ghost var was, log := e.View(), e.TheLog();
    var reply;
    ghost var ids;
    reply, ids := ExpireOrders(e, now, outcome);
    st := Step(Expire(now, ids), outcome, was, log, reply);
    PerformedKeepsHealth(e.codec, st, e.View(), e.TheLog());
    ExpiryLogsNothing(e.codec, st, e.View(), e.TheLog());
  }

  method StepRound(e: Engine, pair: string, auctionId: Id, now: int, n: nat, outcome: Append)
    returns (pending: seq<PendingAggregation>, ghost st: Step)
    requires Sane(e) && ParsesCanonically(e.codec) && n > 0 && pair in ActivePairs(e.pairs)
    modifies e, e.book, e.store
    ensures Sane(e) && e.secrets == old(e.secrets) && e.pairs == old(e.pairs)
    ensures st.op == RunRound(pair, auctionId, now) && st.was == old(e.View()) && st.log == old(e.TheLog())
    ensures Leads(e.codec, st, e.View(), e.TheLog()) && pending == OfStep(st, n) && StepSettles(st, e.TheLog(), pending, n)
  {
    ghost var was, log := e.View(), e.TheLog();
    var reply;
    reply, pending := RunPair(e, pair, auctionId, now, n, outcome);
    st := Step(RunRound(pair, auctionId, now), outcome, was, log, reply);
    PerformedKeepsHealth(e.codec, st, e.View(), e.TheLog());
    RoundSettles(e.codec, pair, auctionId, now, st, e.View(), e.TheLog(), n);
  }

  /** Where a tick is: the pairs visited so far, in order, are those active and not still to do. */
  ghost predicate Progress(visited: seq<string>, todo: set<string>, active: set<string>) {
    && todo <= active && Ascends(visited)
    && (forall p :: p in visited <==> p in active && p !in todo)
    && (forall p, q :: p in visited && q in todo ==> Precedes(p, q))
  }

  lemma VisitNext(visited: seq<string>, todo: set<string>, active: set<string>, pair: string)
    requires Progress(visited, todo, active) && pair in todo
    requires forall p :: p in todo && p != pair ==> Precedes(pair, p)
    ensures Progress(visited + [pair], todo - {pair}, active)
  {
  }

  lemma TracedSnoc(c: Codec, steps: seq<Step>, st: Step, now: EngineState, log: Log, n: nat)
    requires Traced(c, steps, st.was, st.log) && Leads(c, st, now, log) && n > 0
    ensures Traced(c, steps + [st], now, log)
    ensures Collected(steps + [st], n) == Collected(steps, n) + OfStep(st, n)
  {
  }

  /** What a tick has done so far, and what it holds. */
  ghost predicate RoundsSoFar(c: Codec, start: seq<Event>, first: Step, steps: seq<Step>, visited: seq<string>, ids: string -> Id,
                              time: int, bs: seq<PendingAggregation>, n: nat, now: EngineState, log: Log) {
    && Traced(c, steps, now, log) && steps != [] && steps[0] == first && OneRoundEach(steps, visited, ids, time)
    && n > 0 && bs == Collected(steps, n) && SettledSoFar(start, log.history, steps, bs, n)
  }

  lemma NoRoundsYet(c: Codec, first: Step, ids: string -> Id, time: int, n: nat, now: EngineState, log: Log)
    requires Leads(c, first, now, log) && first.op.Expire? && n > 0
    ensures RoundsSoFar(c, log.history, first, [first], [], ids, time, [], n, now, log)
  {
    assert [first] == [] + [first];
    TracedSnoc(c, [], first, now, log, n);
    NothingToSettle(log.history, [first], n);
  }

  lemma OneRoundMore(c: Codec, start: seq<Event>, first: Step, steps: seq<Step>, visited: seq<string>, ids: string -> Id,
                     time: int, bs: seq<PendingAggregation>, n: nat, st: Step, more: seq<PendingAggregation>, pair: string,
                     now: EngineState, log: Log)
    requires RoundsSoFar(c, start, first, steps, visited, ids, time, bs, n, st.was, st.log)
    requires st.op == RunRound(pair, ids(pair), time) && Leads(c, st, now, log)
    requires more == OfStep(st, n) && StepSettles(st, log, more, n)
    ensures RoundsSoFar(c, start, first, steps + [st], visited + [pair], ids, time, bs + more, n, now, log)
  {
    TracedSnoc(c, steps, st, now, log, n);
    VisitOne(steps, st, visited, pair, ids, time);
    SettleOn(start, steps, st, log, bs, more, n);
  }

  /** The rounds of a tick, after its first step. */
  method RunRounds(e: Engine, now: int, ids: string -> Id, outcomes: string -> Append, n: nat, ghost first: Step)
    returns (pending: seq<PendingAggregation>, ghost steps: seq<Step>, ghost visited: seq<string>)
    requires Sane(e) && ParsesCanonically(e.codec) && n > 0
    requires Leads(e.codec, first, e.View(), e.TheLog()) && first.op.Expire?
    modifies e, e.book, e.store
    ensures Sane(e) && e.secrets == old(e.secrets) && e.pairs == old(e.pairs)
    ensures RoundsSoFar(e.codec, old(e.store.history), first, steps, visited, ids, now, pending, n, e.View(), e.TheLog())
    ensures Progress(visited, {}, ActivePairs(e.pairs))
  {
    pending, steps, visited := [], [first], [];
    NoRoundsYet(e.codec, first, ids, now, n, e.View(), e.TheLog());
    var todo := ActivePairs(e.pairs);
    while todo != {}
      invariant Sane(e) && e.secrets == old(e.secrets) && e.pairs == old(e.pairs)
      invariant Progress(visited, todo, ActivePairs(e.pairs))
      invariant RoundsSoFar(e.codec, old(e.store.history), first, steps, visited, ids, now, pending, n, e.View(), e.TheLog())
    {
      var pair := FirstPair(todo);
      VisitNext(visited, todo, ActivePairs(e.pairs), pair);
      var more;
      ghost var st;
      more, st := StepRound(e, pair, ids(pair), now, n, outcomes(pair));
      OneRoundMore(e.codec, old(e.store.history), first, steps, visited, ids, now, pending, n, st, more, pair, e.View(), e.TheLog());
      steps, visited := steps + [st], visited + [pair];
      pending := pending + more;
      todo := todo - {pair};
    }
  }

  lemma VisitOne(steps: seq<Step>, st: Step, visited: seq<string>, pair: string, ids: string -> Id, now: int)
    requires OneRoundEach(steps, visited, ids, now) && st.op == RunRound(pair, ids(pair), now)
    ensures OneRoundEach(steps + [st], visited + [pair], ids, now)
  {
  }

  /**
    A tick expires what is due and then runs exactly one round for each active pair, in name order;
    every step is an operation of the state machine, whichever appends fail.
   */
  method Tick(e: Engine, now: int, ids: string -> Id, expiry: Append, outcomes: string -> Append, n: nat)
    returns (pending: seq<PendingAggregation>, ghost steps: seq<Step>, ghost visited: seq<string>)
    requires Sane(e) && ParsesCanonically(e.codec) && n > 0
    modifies e, e.book, e.store
    ensures Sane(e) && e.secrets == old(e.secrets) && e.pairs == old(e.pairs)
    ensures Traced(e.codec, steps, e.View(), e.TheLog())
    ensures steps != [] && steps[0].was == old(e.View()) && steps[0].log == old(e.TheLog())
    ensures steps[0].op.Expire? && steps[0].op.now == now && OneRoundEach(steps, visited, ids, now)
    ensures Ascends(visited) && forall p :: p in visited <==> p in e.pairs && e.pairs[p].status == Active
    ensures pending == Collected(steps, n)
    ensures SettledSoFar(old(e.store.history), e.store.history, steps, pending, n)
  {
    ghost var first := StepExpire(e, now, expiry);
    ghost var before := e.store.history;
    pending, steps, visited := RunRounds(e, now, ids, outcomes, n, first);
    GrewOn(old(e.store.history), before, e.store.history, [], pending);
    assert [] + pending == pending;
  }
}
