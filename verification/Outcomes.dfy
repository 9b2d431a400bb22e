/**
  What each operation does, said of the states, the log and the answer alone: what it leaves when it is done, and exactly
  when it refuses.
 */
module Outcomes {
  import opened Types
  import opened Events
  import opened BookSpec
  import opened Projection
  import opened Legality
  import opened Auction
  import opened Fairness
  import opened Optimality
  import opened Operations
  import opened Refinement
  import opened Rounds
  import opened System
  import opened SystemSafety
  import opened Engine

  /** One event more, under the next number. */
  predicate AppendedOne(log: Log, log': Log, data: EventData) {
    log'.history == log.history + [Event(log.counter + 1, data)] && log'.counter == log.counter + 1
  }

  /** Whatever was not done changed nothing; what the store did not take failed. */
  predicate AllOrNothing(outcome: Append, was: EngineState, log: Log, now: EngineState, log': Log, reply: Reply) {
    && (!reply.Done? ==> now == was && log'.history == log.history)
    && (reply.Refused? ==> log' == log)
    && (reply.StoreFailed? ==> outcome.Lost? && log'.counter == log.counter + outcome.burned)
    && (outcome.Lost? ==> log'.history == log.history && now == was)
  }

  lemma NothingHalfDone(c: Codec, op: Operation, outcome: Append, was: EngineState, log: Log, now: EngineState, log': Log, reply: Reply)
    requires Performed(c, op, outcome, was, log, now, log', reply)
    ensures AllOrNothing(outcome, was, log, now, log', reply)
  {
  }

  // ---------------------------------------------------------------- pairs

  /** A registration is refused exactly for a bad name or a name in use; done, the pair trades as configured and the log says so. */
  lemma Registered(c: Codec, input: string, cfg: PairConfig, outcome: Append, was: EngineState, log: Log,
                   now: EngineState, log': Log, reply: Reply)
    requires Performed(c, Register(input, cfg), outcome, was, log, now, log', reply)
    ensures reply.Refused? <==> c.parsePair(input).Err? || c.parsePair(input).value in was.pairs
    ensures !reply.Refused? ==> (reply.Done? <==> outcome.Stored?)
    ensures reply.Done? ==>
              && c.parsePair(input).Ok? && now == was.(pairs := now.pairs)
              && now.pairs == was.pairs[c.parsePair(input).value := cfg]
              && AppendedOne(log, log', PairRegistered(c.parsePair(input).value, cfg.baseToken, cfg.quoteToken, cfg.minOrderSize,
                                                       cfg.tickSize, cfg.interval, cfg.baseDecimals, cfg.quoteDecimals))
  {
  }

  /** A suspension is refused exactly for a bad, unknown or delisted pair; done, the pair is suspended, and logged unless it was before. */
  lemma SuspendedIs(c: Codec, input: string, outcome: Append, was: EngineState, log: Log,
                    now: EngineState, log': Log, reply: Reply)
    requires Performed(c, Suspend(input), outcome, was, log, now, log', reply)
    ensures reply.Refused? <==>
            c.parsePair(input).Err? || c.parsePair(input).value !in was.pairs || was.pairs[c.parsePair(input).value].status == Delisted
    ensures !reply.Refused? ==> (reply.Done? <==> outcome.Stored? || was.pairs[c.parsePair(input).value].status == Suspended)
    ensures reply.Done? ==>
              && c.parsePair(input).Ok? && c.parsePair(input).value in was.pairs && now == was.(pairs := now.pairs)
              && var key := c.parsePair(input).value;
              && now.pairs == was.pairs[key := was.pairs[key].(status := Suspended)]
              && (was.pairs[key].status == Suspended ==> log' == log)
              && (was.pairs[key].status == Active ==> AppendedOne(log, log', PairSuspended(key)))
  {
    if reply.Done? && was.pairs[c.parsePair(input).value].status == Suspended {
      var key := c.parsePair(input).value;
      assert was.pairs[key := was.pairs[key].(status := Suspended)] == was.pairs;
    }
  }

  /** The log gained a cancel for each order on the pair and then the delisting. */
  predicate AppendedDelisting(log: Log, log': Log, ids: seq<Id>, key: string) {
    var n := |log.history|;
    && |log'.history| == n + |ids| + 1 && log'.history[..n] == log.history
    && (forall i :: 0 <= i < |ids| ==> log'.history[n + i].data == OrderCancelled(ids[i]))
    && log'.history[n + |ids|].data == PairDelisted(key)
  }

  /** A delisting is refused exactly for a bad or unknown pair; done, the pair is delisted and exactly its orders are gone. */
  lemma DelistedIs(c: Codec, input: string, ids: seq<Id>, outcome: Append, was: EngineState, log: Log,
                   now: EngineState, log': Log, reply: Reply)
    requires Performed(c, Delist(input, ids), outcome, was, log, now, log', reply) && Possible(c, CoreOf(was), Delist(input, ids))
    requires was.book.applied <= log.counter
    ensures reply.Refused? <==> c.parsePair(input).Err? || c.parsePair(input).value !in was.pairs
    ensures !reply.Refused? ==> (reply.Done? <==> outcome.Stored? || was.pairs[c.parsePair(input).value].status == Delisted)
    ensures reply.Done? ==>
              && c.parsePair(input).Ok? && c.parsePair(input).value in was.pairs
              && var key := c.parsePair(input).value;
              && now == was.(book := now.book, pairs := was.pairs[key := was.pairs[key].(status := Delisted)])
              && (was.pairs[key].status == Delisted ==> log' == log && now.book == was.book)
              && (was.pairs[key].status != Delisted ==>
                    && AppendedDelisting(log, log', ids, key)
                    && now.book.orders == map id | id in was.book.orders && was.book.orders[id].pair != key :: was.book.orders[id])
  {
    if reply.Done? {
      var key := c.parsePair(input).value;
      if was.pairs[key].status == Delisted {
        assert was.pairs[key := was.pairs[key].(status := Delisted)] == was.pairs;
      } else {
        CancelsTake(was.book, ids, key, log.counter);
        EnumerationSet(ids, OnPair(was.book.orders, key));
      }
    }
  }

  // ---------------------------------------------------------------- orders

  /** How many orders the trader has resting. */
  function RestingOf(orders: Orders, trader: Address): nat {
    |set id | id in orders && orders[id].trader == trader|
  }

  /** What keeps a prepared order out, in the order it is looked for. */
  predicate KeptOut(c: Codec, s: EngineState, p: Placement, why: Refusal) {
    match why
    case PairNotRegistered => p.order.pair !in s.pairs
    case PairNotAccepting => p.order.pair in s.pairs && s.pairs[p.order.pair].status != Active
    case DuplicateOrder => c.digest(p.ciphertext) in s.seen || p.nullifier in s.nullifiers || p.nonceDigest in s.nonces
    case OrderBookCapacityExceeded => |s.book.orders| >= 16384
    case TooManyRestingOrdersForTrader => RestingOf(s.book.orders, p.order.trader) >= 128
    case _ => false
  }

  function Sooner(why: Refusal): nat {
    match why
    case PairNotRegistered => 0
    case PairNotAccepting => 1
    case DuplicateOrder => 2
    case OrderBookCapacityExceeded => 3
    case _ => 4
  }

  lemma RestingOfIs(orders: Orders, trader: Address)
    ensures RestingOf(orders, trader) == |OrdersOf(orders, trader)|
  {
    assert (set id | id in orders && orders[id].trader == trader) == OrdersOf(orders, trader);
  }

  /** A placement is refused exactly when something keeps it out, and for the first such reason. */
  lemma PlacementRefusedExactly(c: Codec, p: Placement, outcome: Append, was: EngineState, log: Log,
                                now: EngineState, log': Log, reply: Reply, why: Refusal)
    requires Performed(c, Place(p), outcome, was, log, now, log', reply)
    ensures KeptOut(c, was, p, why) ==> reply.Refused? && Sooner(reply.refusal) <= Sooner(why)
    ensures reply.Refused? ==> KeptOut(c, was, p, reply.refusal)
  {
    RestingOfIs(was.book.orders, p.order.trader);
  }

  /** Done, exactly that order rests in addition, numbered by its event, and its three keys are spent. */
  lemma PlacedIs(c: Codec, p: Placement, outcome: Append, was: EngineState, log: Log,
                 now: EngineState, log': Log, reply: Reply)
    requires Performed(c, Place(p), outcome, was, log, now, log', reply)
    ensures !reply.Refused? ==> (reply.Done? <==> outcome.Stored?)
    ensures reply.Done? ==>
              && AppendedOne(log, log', OrderPlaced(p.order.id, p.commitment, p.ciphertext))
              && now.book.orders == was.book.orders[p.order.id := p.order.(placedSeq := log.counter + 1)]
              && now.pairs == was.pairs && now.auctionLog == was.auctionLog && now.pending == was.pending
              && now.seen == was.seen + {c.digest(p.ciphertext)}
              && now.nullifiers == was.nullifiers + {p.nullifier} && now.nonces == was.nonces + {p.nonceDigest}
  {
  }

  /** A cancel is refused exactly when the order does not rest; done, exactly that order is gone. */
  lemma CancelledIs(c: Codec, id: Id, outcome: Append, was: EngineState, log: Log, now: EngineState, log': Log, reply: Reply)
    requires Performed(c, Cancel(id), outcome, was, log, now, log', reply) && was.book.applied <= log.counter
    ensures reply.Refused? <==> id !in was.book.orders
    ensures !reply.Refused? ==> (reply.Done? <==> outcome.Stored?)
    ensures reply.Done? ==>
              && AppendedOne(log, log', OrderCancelled(id)) && now == was.(book := now.book)
              && now.book.orders == was.book.orders - {id}
  {
  }

  /** The log gained exactly an expiry for each listed order. */
  predicate AppendedExpiries(log: Log, log': Log, ids: seq<Id>) {
    var n := |log.history|;
    && |log'.history| == n + |ids| && log'.history[..n] == log.history
    && forall i :: 0 <= i < |ids| ==> log'.history[n + i].data == OrderExpired(ids[i])
  }

  lemma ExpiriesTake(b: Book, ids: seq<Id>, last: nat)
    requires b.applied <= last
    ensures ApplyAll(b, Stamp(ExpireAll(ids), last)).orders == b.orders - Set(ids)
  {
    var es, n := Stamp(ExpireAll(ids), last), |ids|;
    StampNumbered(ExpireAll(ids), last);
    FreshEventsApply(b, es, last + |es|);
    RemovalEffects(b.orders, es, ids, n);
    assert ids[..n] == ids && es[..n] == es;
  }

  /** Expiry is never refused; done, exactly the orders are gone that have an expiry and have reached it. */
  lemma ExpiredIs(c: Codec, time: int, ids: seq<Id>, outcome: Append, was: EngineState, log: Log,
                  now: EngineState, log': Log, reply: Reply)
    requires Performed(c, Expire(time, ids), outcome, was, log, now, log', reply) && Possible(c, CoreOf(was), Expire(time, ids))
    requires was.book.applied <= log.counter
    ensures !reply.Refused? && (outcome.Stored? ==> reply.Done?)
    ensures reply.Done? ==>
              && AppendedExpiries(log, log', ids) && now == was.(book := now.book)
              && now.book.orders
                 == map id | id in was.book.orders && (was.book.orders[id].expiresAt == 0 || time < was.book.orders[id].expiresAt)
                      :: was.book.orders[id]
  {
    EnumerationSet(ids, ExpiredBy(was.book.orders, time));
    ExpiriesTake(was.book, ids, log.counter);
    if ids == [] {
      assert Set(ids) == {};
    }
  }

  /** Submitting a batch is never refused; done, exactly that batch is pending in addition. */
  lemma FinalizedIs(c: Codec, b: Id, batch: PendingBatch, outcome: Append, was: EngineState, log: Log,
                    now: EngineState, log': Log, reply: Reply)
    requires Performed(c, Finalize(b, batch), outcome, was, log, now, log', reply)
    ensures !reply.Refused? && (reply.Done? <==> outcome.Stored?)
    ensures reply.Done? ==>
              && AppendedOne(log, log', BatchSubmitted(b, batch.auctionId))
              && now.pending == was.pending[b := batch] && now == was.(book := now.book, pending := now.pending)
              && now.book.orders == was.book.orders
  {
  }

  // ---------------------------------------------------------------- rounds

  /** What the matches trade in all. */
  function VolumeOf(ms: seq<Match>): Decimal {
    if ms == [] then 0 else VolumeOf(ms[..|ms| - 1]) + ms[|ms| - 1].size
  }

  lemma {:induction false} TradedIsVolume(s: Matching.Sweep, trades: seq<Matching.Trade>, p: Decimal)
    requires forall n :: 0 <= n < |trades| ==> trades[n].bid < |s.bids| && trades[n].ask < |s.asks|
    ensures VolumeOf(MatchesOf(s, trades, p)) == Matching.Traded(trades)
  {
    if trades != [] {
      var n := |trades| - 1;
      TradedIsVolume(s, trades[..n], p);
      assert MatchesOf(s, trades, p)[..n] == MatchesOf(s, trades[..n], p);
    }
  }

  /** Everyone resting ahead of this order on its side of the pair is filled in full or belongs to its counterparty's trader. */
  ghost predicate ServedInTurn(orders: Orders, side: Side, ms: seq<Match>, id: Id, counterparty: Id)
    requires id in orders && counterparty in orders
  {
    forall x :: x in orders && orders[x].pair == orders[id].pair && orders[x].side == side && Better(side, orders[x], orders[id]) ==>
                  FilledOf(ms, x) == orders[x].remaining || orders[x].trader == orders[counterparty].trader
  }

  /** Every match is between resting orders of the pair, at the one price, and both of them are served in turn. */
  ghost predicate FairOnBook(orders: Orders, pair: string, p: Decimal, ms: seq<Match>) {
    forall i :: 0 <= i < |ms| ==> FairMatch(orders, pair, p, ms, ms[i])
  }

  ghost predicate FairMatch(orders: Orders, pair: string, p: Decimal, ms: seq<Match>, m: Match) {
    && Pairs(orders, pair, m) && m.price == p
    && ServedInTurn(orders, Buy, ms, m.bid.orderId, m.ask.orderId)
    && ServedInTurn(orders, Sell, ms, m.ask.orderId, m.bid.orderId)
  }

  /** No two orders left on the pair, of different traders, would still trade at the price. */
  predicate NothingLeftToTrade(orders: Orders, pair: string, p: Decimal) {
    forall b, a :: b in orders && a in orders && orders[b].pair == pair && orders[a].pair == pair
                   && orders[b].side == Buy && orders[a].side == Sell && orders[b].price >= p >= orders[a].price ==>
                     orders[b].trader == orders[a].trader
  }

  /** The log gained the round's record and then its matches, in order. */
  predicate AppendedRound(log: Log, log': Log, auctionId: Id, pair: string, p: Decimal, ms: seq<Match>, time: int) {
    var n := |log.history|;
    && |log'.history| == n + 1 + |ms| && log'.history[..n] == log.history
    && log'.history[n].data == AuctionExecuted(auctionId, pair, p, VolumeOf(ms), |ms|, time)
    && forall i :: 0 <= i < |ms| ==> log'.history[n + 1 + i].data == OrderMatched(auctionId, ms[i])
  }

  lemma MatchIsFair(k: Core, last: nat, pair: string, p: Decimal, ms: seq<Match>, m: Match)
    requires Healthy(k, last) && m in ms
    requires Fair(AsList(OnSide(k.orders, pair, Buy)), AsList(OnSide(k.orders, pair, Sell)), p, ms)
    ensures FairMatch(k.orders, pair, p, ms, m)
  {
    var bids, asks := AsList(OnSide(k.orders, pair, Buy)), AsList(OnSide(k.orders, pair, Sell));
    var n :| 0 <= n < |ms| && ms[n] == m;
    assert LegalFill(bids, asks, p, ms[n]);
    FillPairs(k, last, pair, p, m);
    var b, a := k.orders[m.bid.orderId], k.orders[m.ask.orderId];
    RestingIsListed(k, last, m.bid.orderId);
    RestingIsListed(k, last, m.ask.orderId);
    assert Leg(bids, asks, m, b, a) && BothInTurn(bids, asks, ms, ms[n], b, a);
    InTurnOnBook(k, last, pair, Buy, ms, m.bid.orderId, m.ask.orderId);
    InTurnOnBook(k, last, pair, Sell, ms, m.ask.orderId, m.bid.orderId);
  }

  lemma InTurnOnBook(k: Core, last: nat, pair: string, side: Side, ms: seq<Match>, id: Id, counterparty: Id)
    requires Healthy(k, last) && id in k.orders && counterparty in k.orders && k.orders[id].pair == pair
    requires InTurn(side, AsList(OnSide(k.orders, pair, side)), ms, k.orders[id], k.orders[counterparty].trader)
    ensures ServedInTurn(k.orders, side, ms, id, counterparty)
  {
    forall x | x in k.orders && k.orders[x].pair == pair && k.orders[x].side == side && Better(side, k.orders[x], k.orders[id])
      ensures FilledOf(ms, x) == k.orders[x].remaining || k.orders[x].trader == k.orders[counterparty].trader
    {
      RestingIsListed(k, last, x);
    }
  }

  lemma MaximalOnBook(k: Core, last: nat, pair: string, p: Decimal, ms: seq<Match>, now: Orders)
    requires Healthy(k, last) && Depleted(k.orders, ms, now)
    requires Maximal(AsList(OnSide(k.orders, pair, Buy)), AsList(OnSide(k.orders, pair, Sell)), p, ms)
    ensures NothingLeftToTrade(now, pair, p)
  {
    forall b, a | b in now && a in now && now[b].pair == pair && now[a].pair == pair && now[b].side == Buy && now[a].side == Sell
                  && now[b].price >= p >= now[a].price
      ensures now[b].trader == now[a].trader
    {
      assert DepletedAt(k.orders, ms, now, b) && DepletedAt(k.orders, ms, now, a);
      RestingIsListed(k, last, b);
      RestingIsListed(k, last, a);
    }
  }

  /** The round of a healthy state, on the book: fair, at its price, and worth its recorded volume. */
  lemma RoundIsFair(k: Core, last: nat, pair: string, auctionId: Id, r: AuctionResult, now: Orders)
    requires Healthy(k, last) && Round(k.orders, pair, auctionId) == Some(r) && Depleted(k.orders, r.matches, now)
    ensures FairOnBook(k.orders, pair, r.clearingPrice, r.matches) && NothingLeftToTrade(now, pair, r.clearingPrice)
    ensures r.matchedVolume == VolumeOf(r.matches)
  {
    var bids, asks := AsList(OnSide(k.orders, pair, Buy)), AsList(OnSide(k.orders, pair, Sell));
    PairIsCrossable(k, last, pair);
    RunIsFair(auctionId, pair, bids, asks);
    forall i | 0 <= i < |r.matches| ensures FairMatch(k.orders, pair, r.clearingPrice, r.matches, r.matches[i]) {
      MatchIsFair(k, last, pair, r.clearingPrice, r.matches, r.matches[i]);
    }
    MaximalOnBook(k, last, pair, r.clearingPrice, r.matches, now);
    var w, s := RunOutcome(auctionId, pair, bids, asks);
    TradedIsVolume(s, s.trades, r.clearingPrice);
  }

  lemma {:induction false} TailDepletes(orders: Orders, pair: string, ms: seq<Match>, tail: seq<Event>)
    requires AllPair(orders, pair, ms) && Affordable(orders, ms) && MatchEvents(ms, tail)
    ensures Depleted(orders, ms, Effects(orders, tail))
  {
    MatchesDeplete(orders, pair, ms, tail, |ms|);
    assert tail[..|ms|] == tail && ms[..|ms|] == ms;
  }

  lemma RoundTakesEffect(r: AuctionResult, time: int, b: Book, last: nat) returns (tail: seq<Event>)
    requires b.applied <= last
    ensures MatchEvents(r.matches, tail)
    ensures ApplyAll(b, Stamp(RoundData(r, time), last)).orders == Effects(b.orders, tail)
  {
    var es := Stamp(RoundData(r, time), last);
    var e;
    e, tail := StampedRound(r, time, last);
    StampNumbered(RoundData(r, time), last);
    FreshEventsApply(b, es, last + |es|);
    EffectsSkip(b.orders, e, tail);
  }

  lemma RoundPlans(c: Codec, k: Core, pair: string, auctionId: Id, time: int)
    requires Plan(c, k, RunRound(pair, auctionId, time)).Ok?
    ensures Round(k.orders, pair, auctionId).Some?
    ensures Plan(c, k, RunRound(pair, auctionId, time)).value == RoundData(Round(k.orders, pair, auctionId).value, time)
  {
  }

  /** The state a recorded round leaves. */
  function Cleared(s: EngineState, r: AuctionResult, time: int, es: seq<Event>): EngineState {
    s.(auctionLog := s.auctionLog +
       [AuctionRecord(r.auctionId, r.pair, r.clearingPrice, r.matchedVolume, |r.matches|, time)],
       book := ApplyAll(s.book, es))
  }

  lemma RoundCommits(c: Codec, s: EngineState, pair: string, auctionId: Id, time: int, es: seq<Event>)
    requires Plan(c, CoreOf(s), RunRound(pair, auctionId, time)).Ok?
    requires |es| == |Plan(c, CoreOf(s), RunRound(pair, auctionId, time)).value|
    ensures Round(s.book.orders, pair, auctionId).Some?
    ensures Commit(c, s, RunRound(pair, auctionId, time), es) == Cleared(s, Round(s.book.orders, pair, auctionId).value, time, es)
  {
  }

  lemma DoneStored(c: Codec, op: Operation, outcome: Append, was: EngineState, log: Log, now: EngineState, log': Log, reply: Reply)
    requires Performed(c, op, outcome, was, log, now, log', reply) && reply.Done?
    requires Plan(c, CoreOf(was), op).Ok? && Plan(c, CoreOf(was), op).value != []
    ensures var es := Stamp(Plan(c, CoreOf(was), op).value, log.counter);
            now == Commit(c, was, op, es) && log'.history == log.history + es
  {
  }

  /** What performing a round comes to. */
  lemma RoundPerforms(c: Codec, pair: string, auctionId: Id, time: int, outcome: Append, was: EngineState, log: Log,
                      now: EngineState, log': Log, reply: Reply) returns (r: AuctionResult)
    requires Performed(c, RunRound(pair, auctionId, time), outcome, was, log, now, log', reply) && reply.Done?
    ensures Round(was.book.orders, pair, auctionId) == Some(r)
    ensures now == Cleared(was, r, time, Stamp(RoundData(r, time), log.counter))
    ensures log'.history == log.history + Stamp(RoundData(r, time), log.counter)
  {
    var op := RunRound(pair, auctionId, time);
    RoundPlans(c, CoreOf(was), pair, auctionId, time);
    r := Round(was.book.orders, pair, auctionId).value;
    DoneStored(c, op, outcome, was, log, now, log', reply);
    RoundCommits(c, was, pair, auctionId, time, Stamp(RoundData(r, time), log.counter));
  }

  lemma RoundAppends(log: Log, log': Log, r: AuctionResult, time: int)
    requires log'.history == log.history + Stamp(RoundData(r, time), log.counter) && r.matchedVolume == VolumeOf(r.matches)
    ensures AppendedRound(log, log', r.auctionId, r.pair, r.clearingPrice, r.matches, time)
  {
  }

  /**
    A recorded round, on the book and in the log: one price, fair matches in price-time order, nothing left that would
    still trade at the price, every order reduced by exactly its fills, and the log holding exactly that.
   */
  lemma RoundDone(c: Codec, pair: string, auctionId: Id, time: int, outcome: Append, was: EngineState, log: Log,
                  now: EngineState, log': Log, reply: Reply) returns (p: Decimal, ms: seq<Match>)
    requires Performed(c, RunRound(pair, auctionId, time), outcome, was, log, now, log', reply) && reply.Done?
    requires Healthy(CoreOf(was), log.counter) && was.book.applied <= log.counter
    ensures 0 < p && ms != [] && FairOnBook(was.book.orders, pair, p, ms)
    ensures Depleted(was.book.orders, ms, now.book.orders) && NothingLeftToTrade(now.book.orders, pair, p)
    ensures AppendedRound(log, log', auctionId, pair, p, ms, time)
    ensures now == was.(book := now.book, auctionLog := now.auctionLog)
    ensures now.auctionLog == was.auctionLog + [AuctionRecord(auctionId, pair, p, VolumeOf(ms), |ms|, time)]
  {
    var k := CoreOf(was);
    var r := RoundPerforms(c, pair, auctionId, time, outcome, was, log, now, log', reply);
    p, ms := r.clearingPrice, r.matches;
    RoundIsSettleable(k, log.counter, pair, auctionId);
    var tail := RoundTakesEffect(r, time, was.book, log.counter);
    RoundFits(k, log.counter, pair, auctionId);
    TailDepletes(was.book.orders, pair, ms, tail);
    RoundIsFair(k, log.counter, pair, auctionId, r, now.book.orders);
    RoundAppends(log, log', r, time);
  }

  /** Both sides of a pair in the book, as lists. */
  ghost predicate WillingPair(orders: Orders, pair: string) {
    Counterparties(AsList(OnSide(orders, pair, Buy)), AsList(OnSide(orders, pair, Sell)))
  }

  lemma RoundPlannedExactly(c: Codec, k: Core, last: nat, pair: string, auctionId: Id, time: int)
    requires Healthy(k, last)
    ensures Plan(c, k, RunRound(pair, auctionId, time)).Ok? <==> WillingPair(k.orders, pair)
    ensures Plan(c, k, RunRound(pair, auctionId, time)).Ok? ==> Plan(c, k, RunRound(pair, auctionId, time)).value != []
  {
    PairIsCrossable(k, last, pair);
    RunIffCounterparties(auctionId, pair, AsList(OnSide(k.orders, pair, Buy)), AsList(OnSide(k.orders, pair, Sell)));
    if Round(k.orders, pair, auctionId).Some? {
      RoundIsSettleable(k, last, pair, auctionId);
    }
  }

  lemma AnsweredByPlan(c: Codec, op: Operation, outcome: Append, was: EngineState, log: Log, now: EngineState, log': Log, reply: Reply)
    requires Performed(c, op, outcome, was, log, now, log', reply)
    ensures reply.Refused? <==> Plan(c, CoreOf(was), op).Err?
    ensures Plan(c, CoreOf(was), op).Ok? && Plan(c, CoreOf(was), op).value != [] ==> (reply.Done? <==> outcome.Stored?)
  {
  }

  /** A round is refused exactly when no two willing orders of different traders meet at the clearing price. */
  lemma RoundRefusedExactly(c: Codec, pair: string, auctionId: Id, time: int, outcome: Append, was: EngineState, log: Log,
                            now: EngineState, log': Log, reply: Reply)
    requires Performed(c, RunRound(pair, auctionId, time), outcome, was, log, now, log', reply)
    requires Healthy(CoreOf(was), log.counter)
    ensures reply.Refused? <==> !WillingPair(was.book.orders, pair)
    ensures !reply.Refused? ==> (reply.Done? <==> outcome.Stored?)
  {
    RoundPlannedExactly(c, CoreOf(was), log.counter, pair, auctionId, time);
    AnsweredByPlan(c, RunRound(pair, auctionId, time), outcome, was, log, now, log', reply);
  }
}
