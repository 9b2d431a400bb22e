/**
  The settlement rows recovery rebuilds: every match of every batch submitted in the replayed events gets its row, with
  the traders of the orders as they were placed and the tokens of the pair as it was registered.
 */
module Rebuilding {
  import opened Types
  import opened Events
  import opened BookSpec
  import opened Projection
  import opened Legality
  import opened History
  import opened Conservation
  import opened Operations
  import opened Recovery
  import opened Checkpoint
  import opened Truncation
  import opened Orphans
  import opened Admission
  import opened Settlement

  // ---------------------------------------------------------------- orders as they were placed

  /** The same order, but for what is left of it. */
  predicate SameOrder(a: Order, b: Order) {
    a == b.(remaining := a.remaining)
  }

  /** If the event places an order, exactly that order is remembered under its identifier. */
  predicate Remembered(c: Codec, e: Event, placed: map<Id, Order>) {
    e.data.OrderPlaced? ==>
      && var p := Rebuild(c, e.data.orderId, e.data.commitment, e.data.ciphertext, e.number);
      p.Ok? && e.data.orderId in placed && placed[e.data.orderId] == p.value.order
  }

  /** What is remembered are the orders the events place, and otherwise those that rested before. */
  ghost predicate Remembers(c: Codec, orders: Orders, es: seq<Event>, placed: map<Id, Order>) {
    && (forall i :: 0 <= i < |es| ==> Remembered(c, es[i], placed))
    && (forall id :: id in placed ==> id in orders || PlacedBefore(es, id, |es|))
    && (forall id :: id in orders ==> id in placed && (!PlacedBefore(es, id, |es|) ==> placed[id] == orders[id]))
  }

  /** Every identifier placed is new: it did not rest before, and no earlier event places it. */
  predicate PlacesNew(orders: Orders, es: seq<Event>) {
    FreshIds(es) && forall i :: 0 <= i < |es| && es[i].data.OrderPlaced? ==> es[i].data.orderId !in orders
  }

  lemma PlacedBeforeSnoc(es: seq<Event>, e: Event, id: Id)
    ensures PlacedBefore(es + [e], id, |es| + 1) <==> PlacedBefore(es, id, |es|) || (e.data.OrderPlaced? && e.data.orderId == id)
  {
    var all := es + [e];
    assert all[|es|] == e;
    if PlacedBefore(es, id, |es|) {
      var i :| 0 <= i < |es| && es[i].data.OrderPlaced? && es[i].data.orderId == id;
      assert all[i] == es[i];
    }
  }

  lemma PlacesNewPrefix(orders: Orders, es: seq<Event>)
    requires es != [] && PlacesNew(orders, es)
    ensures PlacesNew(orders, es[..|es| - 1])
  {
    var n := |es| - 1;
    forall i | 0 <= i < n && es[..n][i].data.OrderPlaced? ensures !PlacedBefore(es[..n], es[..n][i].data.orderId, i) {
      assert es[i].data.OrderPlaced? && !PlacedBefore(es, es[i].data.orderId, i);
    }
  }

  lemma PlacedBeforeLast(es: seq<Event>, e: Event, id: Id)
    requires PlacedBefore(es, id, |es|)
    ensures PlacedBefore(es + [e], id, |es|)
  {
    var i :| 0 <= i < |es| && es[i].data.OrderPlaced? && es[i].data.orderId == id;
    assert (es + [e])[i] == es[i];
  }

  /** The last placement names an order that is not remembered yet. */
  lemma LastIsForgotten(c: Codec, orders: Orders, es: seq<Event>, e: Event, placed: map<Id, Order>)
    requires PlacesNew(orders, es + [e]) && Remembers(c, orders, es, placed) && e.data.OrderPlaced?
    ensures e.data.orderId !in placed
  {
    var all, id := es + [e], e.data.orderId;
    assert all[|es|] == e && !PlacedBefore(all, all[|es|].data.orderId, |es|);
    if PlacedBefore(es, id, |es|) {
      PlacedBeforeLast(es, e, id);
    }
  }

  /** What a replayed event adds to what is remembered. */
  lemma PlacedAfter(c: Codec, r: Replaying, e: Event, r': Replaying)
    requires ReplayEvent(c, r, e) == Ok(r')
    ensures !e.data.OrderPlaced? ==> r'.placed == r.placed
    ensures e.data.OrderPlaced? ==>
              && var p := Rebuild(c, e.data.orderId, e.data.commitment, e.data.ciphertext, e.number);
              p.Ok? && r'.placed == r.placed[e.data.orderId := p.value.order]
  {
  }

  lemma RemembersPlacement(c: Codec, orders: Orders, es: seq<Event>, placed: map<Id, Order>, e: Event, o: Order)
    requires Remembers(c, orders, es, placed) && e.data.OrderPlaced? && e.data.orderId !in placed
    requires var p := Rebuild(c, e.data.orderId, e.data.commitment, e.data.ciphertext, e.number); p.Ok? && p.value.order == o
    ensures Remembers(c, orders, es + [e], placed[e.data.orderId := o])
  {
    var all, placed' := es + [e], placed[e.data.orderId := o];
    forall i | 0 <= i < |all| ensures Remembered(c, all[i], placed') {
      if i < |es| {
        assert Remembered(c, es[i], placed);
      }
    }
    forall id ensures PlacedBefore(all, id, |all|) <==> PlacedBefore(es, id, |es|) || e.data.orderId == id {
      PlacedBeforeSnoc(es, e, id);
    }
  }

  lemma RemembersOther(c: Codec, orders: Orders, es: seq<Event>, placed: map<Id, Order>, e: Event)
    requires Remembers(c, orders, es, placed) && !e.data.OrderPlaced?
    ensures Remembers(c, orders, es + [e], placed)
  {
    var all := es + [e];
    forall i | 0 <= i < |all| ensures Remembered(c, all[i], placed) {
      if i < |es| {
        assert Remembered(c, es[i], placed);
      }
    }
    forall id ensures PlacedBefore(all, id, |all|) <==> PlacedBefore(es, id, |es|) {
      PlacedBeforeSnoc(es, e, id);
    }
  }

  lemma RemembersOn(c: Codec, orders: Orders, es: seq<Event>, r: Replaying, e: Event, r': Replaying)
    requires PlacesNew(orders, es + [e]) && Remembers(c, orders, es, r.placed) && ReplayEvent(c, r, e) == Ok(r')
    ensures Remembers(c, orders, es + [e], r'.placed)
    ensures forall id :: id in r.placed ==> id in r'.placed && r'.placed[id] == r.placed[id]
  {
    PlacedAfter(c, r, e, r');
    if e.data.OrderPlaced? {
      LastIsForgotten(c, orders, es, e, r.placed);
      RemembersPlacement(c, orders, es, r.placed, e, r'.placed[e.data.orderId]);
    } else {
      RemembersOther(c, orders, es, r.placed, e);
    }
  }

  // ---------------------------------------------------------------- what a match needs to be settled

  /** Every resting order is remembered. */
  ghost predicate Knows(orders: Orders, placed: map<Id, Order>) {
    forall id :: id in orders ==> id in placed && SameOrder(orders[id], placed[id])
  }

  /** Both orders of the match are remembered, as a bid and an ask of different traders on one pair, and the pair is known. */
  predicate Known(m: Match, placed: map<Id, Order>, pairs: map<string, PairConfig>) {
    && m.bid.orderId in placed && m.ask.orderId in placed
    && var b, a := placed[m.bid.orderId], placed[m.ask.orderId];
    && b.side == Buy && a.side == Sell && b.trader != a.trader && b.pair == a.pair && b.pair in pairs
  }

  ghost predicate AllKnown(es: seq<Event>, placed: map<Id, Order>, pairs: map<string, PairConfig>) {
    forall i :: 0 <= i < |es| && es[i].data.OrderMatched? ==> Known(es[i].data.m, placed, pairs)
  }

  /** Nothing remembered is forgotten, and of a known pair only the status changes. */
  ghost predicate KnowsMore(placed: map<Id, Order>, pairs: map<string, PairConfig>,
                            placed': map<Id, Order>, pairs': map<string, PairConfig>)
  {
    && (forall id :: id in placed ==> id in placed' && placed'[id] == placed[id])
    && (forall x :: x in pairs ==> x in pairs' && SameButStatus(pairs'[x], pairs[x]))
  }

  lemma OrdersAfterPlacement(c: Codec, k: Core, e: Event, k': Core)
    requires Lawful(c, k, e) && Step(c, k, e) == Ok(k') && e.data.OrderPlaced?
    ensures var p := Rebuild(c, e.data.orderId, e.data.commitment, e.data.ciphertext, e.number);
            p.Ok? && k'.orders == k.orders[e.data.orderId := p.value.order]
  {
  }

  lemma OrdersAfterOther(c: Codec, k: Core, e: Event, k': Core)
    requires Step(c, k, e) == Ok(k') && !e.data.OrderPlaced?
    ensures forall id :: id in k'.orders ==> id in k.orders && SameOrder(k'.orders[id], k.orders[id])
  {
  }

  lemma KnowsOn(c: Codec, k: Core, r: Replaying, e: Event, k': Core, r': Replaying)
    requires Lawful(c, k, e) && Step(c, k, e) == Ok(k') && ReplayEvent(c, r, e) == Ok(r') && Knows(k.orders, r.placed)
    requires e.data.OrderPlaced? ==> e.data.orderId !in r.placed
    ensures Knows(k'.orders, r'.placed)
  {
    if e.data.OrderPlaced? {
      OrdersAfterPlacement(c, k, e, k');
    } else {
      OrdersAfterOther(c, k, e, k');
    }
  }

  lemma PairsOn(c: Codec, k: Core, e: Event, k': Core)
    requires Lawful(c, k, e) && Step(c, k, e) == Ok(k')
    ensures forall x :: x in k.pairs ==> x in k'.pairs && SameButStatus(k'.pairs[x], k.pairs[x])
  {
    forall x | x in k.pairs ensures x in k'.pairs && SameButStatus(k'.pairs[x], k.pairs[x]) {
      StepKeepsConfigs(c, k, e, x);
    }
  }

  lemma LawfulMatchIsKnown(k: Core, m: Match, placed: map<Id, Order>)
    requires LawfulMatch(k, m) && Knows(k.orders, placed)
    ensures Known(m, placed, k.pairs)
  {
  }

  lemma KnownOn(m: Match, placed: map<Id, Order>, pairs: map<string, PairConfig>, placed': map<Id, Order>, pairs': map<string, PairConfig>)
    requires Known(m, placed, pairs) && KnowsMore(placed, pairs, placed', pairs')
    ensures Known(m, placed', pairs')
  {
  }

  lemma AllKnownOn(c: Codec, es: seq<Event>, k: Core, e: Event, k': Core, placed: map<Id, Order>, placed': map<Id, Order>)
    requires AllKnown(es, placed, k.pairs) && Lawful(c, k, e) && Step(c, k, e) == Ok(k') && Knows(k.orders, placed)
    requires KnowsMore(placed, k.pairs, placed', k'.pairs)
    ensures AllKnown(es + [e], placed', k'.pairs)
  {
    var all := es + [e];
    forall i | 0 <= i < |all| && all[i].data.OrderMatched? ensures Known(all[i].data.m, placed', k'.pairs) {
      var m := all[i].data.m;
      if i < |es| {
        assert es[i].data.OrderMatched? && Known(es[i].data.m, placed, k.pairs);
      } else {
        LawfulMatchIsKnown(k, m, placed);
      }
      KnownOn(m, placed, k.pairs, placed', k'.pairs);
    }
  }

  // ---------------------------------------------------------------- along a replay

  /** What a lawful replay has made of the events so far. */
  ghost predicate Follows(c: Codec, s: EngineState, es: seq<Event>, r: Replaying) {
    && Remembers(c, s.book.orders, es, r.placed) && Knows(r.state.book.orders, r.placed)
    && AllKnown(es, r.placed, r.state.pairs)
  }

  lemma FollowsOn(c: Codec, s: EngineState, es: seq<Event>, r: Replaying, e: Event, r': Replaying)
    requires Follows(c, s, es, r) && PlacesNew(s.book.orders, es + [e]) && Lawful(c, CoreOf(r.state), e)
    requires ReplayEvent(c, r, e) == Ok(r') && Step(c, CoreOf(r.state), e) == Ok(CoreOf(r'.state))
    ensures Follows(c, s, es + [e], r') && KnowsMore(r.placed, r.state.pairs, r'.placed, r'.state.pairs)
  {
    var k, k' := CoreOf(r.state), CoreOf(r'.state);
    RemembersOn(c, s.book.orders, es, r, e, r');
    if e.data.OrderPlaced? {
      LastIsForgotten(c, s.book.orders, es, e, r.placed);
    }
    KnowsOn(c, k, r, e, k', r');
    PairsOn(c, k, e, k');
    AllKnownOn(c, es, k, e, k', r.placed, r'.placed);
  }

  lemma FollowsTo(c: Codec, s: EngineState, fs: seq<Event>, r: Replaying, e: Event, r': Replaying, es: seq<Event>)
    requires es != [] && fs == es[..|es| - 1] && e == es[|es| - 1] && Follows(c, s, fs, r) && PlacesNew(s.book.orders, es)
    requires Lawful(c, CoreOf(r.state), e)
    requires ReplayEvent(c, r, e) == Ok(r') && Step(c, CoreOf(r.state), e) == Ok(CoreOf(r'.state))
    ensures Follows(c, s, es, r')
  {
    assert fs + [e] == es;
    FollowsOn(c, s, fs, r, e, r');
  }

  lemma FollowsFromStart(c: Codec, s: EngineState)
    ensures Follows(c, s, [], Begin(s))
  {
  }

  /** The last event of a lawful replay: what it found, and that it is one step. */
  lemma LastReplayed(c: Codec, s: EngineState, es: seq<Event>, last: nat) returns (r: Replaying, r': Replaying)
    requires es != [] && LawfulFrom(c, CoreOf(s), es) && Numbered(es, s.book.applied, last) && s.book.applied <= last
    ensures var n := |es| - 1;
            && ReplayAll(c, Begin(s), es[..n]) == Ok(r) && ReplayAll(c, Begin(s), es) == Ok(r')
            && LawfulFrom(c, CoreOf(s), es[..n]) && Numbered(es[..n], s.book.applied, last)
            && Lawful(c, CoreOf(r.state), es[n]) && ReplayEvent(c, r, es[n]) == Ok(r')
            && Step(c, CoreOf(r.state), es[n]) == Ok(CoreOf(r'.state))
  {
    var n := |es| - 1;
    FoldsAnywhere(c, CoreOf(s), CoreOf(s), es);
    ReplayFollowsFold(c, Begin(s), es, last);
    ReplayFollowsFold(c, Begin(s), es[..n], last);
    r, r' := ReplayAll(c, Begin(s), es[..n]).value, ReplayAll(c, Begin(s), es).value;
  }

  /** A lawful replay remembers every order as it was placed and can settle every match it has seen. */
  lemma {:induction false} ReplayRemembers(c: Codec, s: EngineState, es: seq<Event>, last: nat) returns (r: Replaying)
    requires LawfulFrom(c, CoreOf(s), es) && Numbered(es, s.book.applied, last) && s.book.applied <= last
    requires PlacesNew(s.book.orders, es)
    ensures ReplayAll(c, Begin(s), es) == Ok(r) && Follows(c, s, es, r)
  {
    if es == [] {
      FollowsFromStart(c, s);
      r := Begin(s);
    } else {
      var fs, e := es[..|es| - 1], es[|es| - 1];
      var before;
      before, r := LastReplayed(c, s, es, last);
      PlacesNewPrefix(s.book.orders, es);
      var same := ReplayRemembers(c, s, fs, last);
      FollowsTo(c, s, fs, before, e, r, es);
    }
  }

  // ---------------------------------------------------------------- rows

  /** The row settles the match between its two orders as they were placed, in the tokens of their pair. */
  predicate RowPays(row: SettlementRow, m: Match, placed: map<Id, Order>, pairs: map<string, PairConfig>) {
    Known(m, placed, pairs) && Settles(row, m, placed, pairs[placed[m.bid.orderId].pair])
  }

  /** One row for each match, each settling its match. */
  ghost predicate Paid(ms: seq<Match>, rows: seq<SettlementRow>, placed: map<Id, Order>, pairs: map<string, PairConfig>) {
    |rows| == |ms| && forall i :: 0 <= i < |ms| ==> RowPays(rows[i], ms[i], placed, pairs)
  }

  ghost predicate EachKnown(ms: seq<Match>, placed: map<Id, Order>, pairs: map<string, PairConfig>) {
    forall i :: 0 <= i < |ms| ==> Known(ms[i], placed, pairs)
  }

  lemma {:induction false} RowsPay(ms: seq<Match>, placed: map<Id, Order>, pairs: map<string, PairConfig>)
    requires EachKnown(ms, placed, pairs)
    ensures Paid(ms, RowsOf(ms, placed, pairs), placed, pairs)
  {
    if ms != [] {
      var n := |ms| - 1;
      RowsPay(ms[..n], placed, pairs);
      assert Known(ms[n], placed, pairs);
    }
  }

  lemma PaidOn(ms: seq<Match>, rows: seq<SettlementRow>, placed: map<Id, Order>, pairs: map<string, PairConfig>,
               placed': map<Id, Order>, pairs': map<string, PairConfig>)
    requires Paid(ms, rows, placed, pairs) && KnowsMore(placed, pairs, placed', pairs')
    ensures Paid(ms, rows, placed', pairs')
  {
    forall i | 0 <= i < |ms| ensures RowPays(rows[i], ms[i], placed', pairs') {
      assert RowPays(rows[i], ms[i], placed, pairs);
      KnownOn(ms[i], placed, pairs, placed', pairs');
    }
  }

  lemma {:induction false} LooseIsLogged(es: seq<Event>, a: Id, m: Match)
    requires m in Loose(es, a)
    ensures exists i :: 0 <= i < |es| && es[i].data.OrderMatched? && es[i].data.m == m
  {
    var n := |es| - 1;
    if es[n].data != OrderMatched(a, m) {
      LooseIsLogged(es[..n], a, m);
      var i :| 0 <= i < n && es[..n][i].data.OrderMatched? && es[..n][i].data.m == m;
      assert es[i].data.m == m;
    }
  }

  lemma LooseIsKnown(es: seq<Event>, a: Id, placed: map<Id, Order>, pairs: map<string, PairConfig>)
    requires AllKnown(es, placed, pairs)
    ensures EachKnown(Loose(es, a), placed, pairs)
  {
    var ms := Loose(es, a);
    forall i | 0 <= i < |ms| ensures Known(ms[i], placed, pairs) {
      LooseIsLogged(es, a, ms[i]);
    }
  }

  /** Every batch that was not there at the start is paid in full. */
  ghost predicate AllPaid(was: map<Id, PendingBatch>, r: Replaying) {
    forall b :: b in r.state.pending && b !in was ==>
                  Paid(r.state.pending[b].matches, r.state.pending[b].rows, r.placed, r.state.pairs)
  }

  lemma PendingGrows(c: Codec, r: Replaying, e: Event, r': Replaying, b: Id)
    requires ReplayEvent(c, r, e) == Ok(r') && b in r'.state.pending
    ensures (b in r.state.pending && r'.state.pending[b] == r.state.pending[b]) ||
            (e.data.BatchSubmitted? && e.data.batchId == b &&
             var ms := Unclaimed(r, e.data.auctionId);
             r'.state.pending[b] == PendingBatch(e.data.auctionId, ms, RowsOf(ms, r.placed, r.state.pairs)))
  {
  }

  lemma AllPaidOn(c: Codec, was: map<Id, PendingBatch>, es: seq<Event>, r: Replaying, e: Event, r': Replaying)
    requires AllPaid(was, r) && AllKnown(es, r.placed, r.state.pairs) && forall a :: Unclaimed(r, a) == Loose(es, a)
    requires ReplayEvent(c, r, e) == Ok(r') && KnowsMore(r.placed, r.state.pairs, r'.placed, r'.state.pairs)
    ensures AllPaid(was, r')
  {
    forall b | b in r'.state.pending && b !in was
      ensures Paid(r'.state.pending[b].matches, r'.state.pending[b].rows, r'.placed, r'.state.pairs)
    {
      var batch := r'.state.pending[b];
      PendingGrows(c, r, e, r', b);
      if !(b in r.state.pending && batch == r.state.pending[b]) {
        LooseIsKnown(es, e.data.auctionId, r.placed, r.state.pairs);
        RowsPay(batch.matches, r.placed, r.state.pairs);
      }
      PaidOn(batch.matches, batch.rows, r.placed, r.state.pairs, r'.placed, r'.state.pairs);
    }
  }

  /** A lawful replay pays every batch it rebuilds. */
  lemma {:induction false} ReplayPays(c: Codec, s: EngineState, es: seq<Event>, last: nat)
    requires LawfulFrom(c, CoreOf(s), es) && Numbered(es, s.book.applied, last) && s.book.applied <= last
    requires PlacesNew(s.book.orders, es)
    ensures ReplayAll(c, Begin(s), es).Ok? && AllPaid(s.pending, ReplayAll(c, Begin(s), es).value)
  {
    if es != [] {
      var n := |es| - 1;
      var r, r' := LastReplayed(c, s, es, last);
      PlacesNewPrefix(s.book.orders, es);
      ReplayPays(c, s, es[..n], last);
      var same := ReplayRemembers(c, s, es[..n], last);
      assert es[..n] + [es[n]] == es;
      FollowsOn(c, s, es[..n], r, es[n], r');
      forall a ensures Unclaimed(r, a) == Loose(es[..n], a) {
        TailOrphans(c, s, es[..n], a);
      }
      AllPaidOn(c, s.pending, es[..n], r, es[n], r');
    }
  }

  // ---------------------------------------------------------------- which batches

  /** None of these batches is submitted by the events. */
  predicate SubmitsNew(was: map<Id, PendingBatch>, es: seq<Event>) {
    forall i :: 0 <= i < |es| && es[i].data.BatchSubmitted? ==> es[i].data.batchId !in was
  }

  /** What the event leaves of the batches that were not there at the start. */
  lemma NewPendingAfter(c: Codec, was: map<Id, PendingBatch>, r: Replaying, e: Event, r': Replaying)
    requires ReplayEvent(c, r, e) == Ok(r') && (e.data.BatchSubmitted? ==> e.data.batchId !in was)
    ensures var before, after := r.state.pending - was.Keys, r'.state.pending - was.Keys;
            match e.data
            case BatchSubmitted(b, a) =>
              b !in before ==> after == before[b := PendingBatch(a, Unclaimed(r, a), RowsOf(Unclaimed(r, a), r.placed, r.state.pairs))]
            case BatchConfirmed(b) => after == before - {b}
            case BatchSettled(b) => after == before - {b}
            case _ => after == before
  {
    PendingAfter(c, r, e);
  }

  lemma RebuiltOn(c: Codec, was: map<Id, PendingBatch>, es: seq<Event>, r: Replaying, r': Replaying)
    requires es != [] && DistinctBatches(es) && SubmitsNew(was, es) && ReplayEvent(c, r, es[|es| - 1]) == Ok(r')
    requires Rebuilt(es[..|es| - 1], r.state.pending - was.Keys)
    requires forall a :: Unclaimed(r, a) == Loose(es[..|es| - 1], a)
    ensures Rebuilt(es, r'.state.pending - was.Keys)
  {
    var e, before := es[|es| - 1], r.state.pending - was.Keys;
    NewPendingAfter(c, was, r, e, r');
    if e.data.BatchSubmitted? {
      var a := e.data.auctionId;
      RebuiltBySubmission(es, before, PendingBatch(a, Unclaimed(r, a), RowsOf(Unclaimed(r, a), r.placed, r.state.pairs)));
    } else if e.data.BatchConfirmed? || e.data.BatchSettled? {
      RebuiltByClosing(es, before, e.data.batchId);
    } else {
      RebuiltByOther(es, before);
    }
  }

  /** Replaying from any state rebuilds exactly the batches submitted since and still open, each with its claim. */
  lemma {:induction false} ReplayRebuildsTail(c: Codec, s: EngineState, es: seq<Event>)
    requires DistinctBatches(es) && SubmitsNew(s.pending, es) && ReplayAll(c, Begin(s), es).Ok?
    ensures Rebuilt(es, ReplayAll(c, Begin(s), es).value.state.pending - s.pending.Keys)
  {
    if es != [] {
      var n := |es| - 1;
      ReplayRebuildsTail(c, s, es[..n]);
      forall a ensures Unclaimed(ReplayAll(c, Begin(s), es[..n]).value, a) == Loose(es[..n], a) {
        TailOrphans(c, s, es[..n], a);
      }
      RebuiltOn(c, s.pending, es, ReplayAll(c, Begin(s), es[..n]).value, ReplayAll(c, Begin(s), es).value);
    } else {
      assert s.pending - s.pending.Keys == map[];
    }
  }

  // ---------------------------------------------------------------- said of the log alone

  /** The event places this order, as it was encrypted. */
  predicate PlacesOrder(c: Codec, e: Event, id: Id, o: Order) {
    && e.data.OrderPlaced? && e.data.orderId == id
    && var p := Rebuild(c, id, e.data.commitment, e.data.ciphertext, e.number);
    p.Ok? && p.value.order == o
  }

  /** Two events place the orders and a third registers their pair: the row is what the match between them comes to. */
  predicate RowFrom(c: Codec, bid: Event, ask: Event, registration: Event, row: SettlementRow, m: Match, b: Order, a: Order) {
    && PlacesOrder(c, bid, m.bid.orderId, b) && PlacesOrder(c, ask, m.ask.orderId, a)
    && b.side == Buy && a.side == Sell && b.trader != a.trader && b.pair == a.pair
    && registration.data.PairRegistered? && registration.data.pair == b.pair
    && row == SettlementRow(m.bid.orderId, m.ask.orderId, b.trader, a.trader,
                            registration.data.baseToken, registration.data.quoteToken, m.price, m.size)
  }

  ghost predicate RowFromLog(c: Codec, es: seq<Event>, row: SettlementRow, m: Match) {
    exists bid, ask, registration, b, a :: bid in es && ask in es && registration in es && RowFrom(c, bid, ask, registration, row, m, b, a)
  }

  /** One row for each match, in order, each of them what the log says. */
  ghost predicate PaidFromLog(c: Codec, es: seq<Event>, ms: seq<Match>, rows: seq<SettlementRow>) {
    |rows| == |ms| && forall i :: 0 <= i < |ms| ==> RowFromLog(c, es, rows[i], ms[i])
  }

  /** The log places the order; what is left of it aside. */
  ghost predicate FromLog(c: Codec, es: seq<Event>, id: Id, o: Order) {
    exists e, p :: e in es && PlacesOrder(c, e, id, p) && SameOrder(o, p)
  }

  lemma RememberedFromLog(c: Codec, orders: Orders, es: seq<Event>, placed: map<Id, Order>, id: Id)
    requires Remembers(c, orders, es, placed) && PlacedBefore(es, id, |es|)
    ensures id in placed && FromLog(c, es, id, placed[id])
  {
    var i :| 0 <= i < |es| && es[i].data.OrderPlaced? && es[i].data.orderId == id;
    assert Remembered(c, es[i], placed);
    assert PlacesOrder(c, es[i], id, placed[id]);
  }

  /** Every resting order is the one the log placed, but for what was filled of it. */
  lemma RestingFromLog(c: Codec, es: seq<Event>, id: Id)
    requires Proper(c, es) && FreshIds(es) && Fold(c, es).Ok? && id in Fold(c, es).value.orders
    ensures FromLog(c, es, id, Fold(c, es).value.orders[id])
  {
    assert CoreOf(FRESH) == EMPTY;
    var r := ReplayRemembers(c, FRESH, es, LastNumber(es));
    ReplayFollowsFold(c, Begin(FRESH), es, LastNumber(es));
    var placed := r.placed;
    RememberedFromLog(c, map[], es, placed, id);
    var e, p :| e in es && PlacesOrder(c, e, id, p) && SameOrder(placed[id], p);
    assert SameOrder(Fold(c, es).value.orders[id], p);
  }

  lemma FromLogGrows(c: Codec, es: seq<Event>, all: seq<Event>, id: Id, o: Order)
    requires FromLog(c, es, id, o) && forall e :: e in es ==> e in all
    ensures FromLog(c, all, id, o)
  {
    var e, p :| e in es && PlacesOrder(c, e, id, p) && SameOrder(o, p);
    assert e in all;
  }

  lemma FreshPart(es: seq<Event>, n: nat)
    requires FreshIds(es) && n <= |es|
    ensures FreshIds(es[..n]) && FreshIds(es[n..])
  {
    var head, tail := es[..n], es[n..];
    forall i | 0 <= i < |head| && head[i].data.OrderPlaced? ensures !PlacedBefore(head, head[i].data.orderId, i) {
      assert es[i].data.OrderPlaced? && !PlacedBefore(es, es[i].data.orderId, i);
    }
    forall i | 0 <= i < |tail| && tail[i].data.OrderPlaced? ensures !PlacedBefore(tail, tail[i].data.orderId, i) {
      assert es[n + i] == tail[i] && !PlacedBefore(es, es[n + i].data.orderId, n + i);
      NotPlacedSince(es, n, i, tail[i].data.orderId);
    }
  }

  lemma NotPlacedSince(es: seq<Event>, n: nat, i: nat, id: Id)
    requires n + i <= |es| && !PlacedBefore(es, id, n + i)
    ensures !PlacedBefore(es[n..], id, i)
  {
    forall j | 0 <= j < i ensures !(es[n..][j].data.OrderPlaced? && es[n..][j].data.orderId == id) {
      assert es[n..][j] == es[n + j];
    }
  }

  lemma PlacedAt(es: seq<Event>, j: nat, i: nat)
    requires j < i <= |es| && es[j].data.OrderPlaced?
    ensures PlacedBefore(es, es[j].data.orderId, i)
  {
  }

  lemma NumberedPart(es: seq<Event>, n: nat)
    requires Numbered(es, 0, LastNumber(es)) && n <= |es|
    ensures Numbered(es[..n], 0, LastNumber(es[..n]))
  {
  }

  lemma {:induction false} ProperPart(c: Codec, es: seq<Event>, n: nat)
    requires Proper(c, es) && n <= |es|
    ensures Proper(c, es[..n])
  {
    LawfulPrefix(c, EMPTY, es, n);
    NumberedPart(es, n);
  }

  /** A state that stands for the first `n` events of a proper log with fresh identifiers. */
  ghost predicate StandsAt(c: Codec, es: seq<Event>, n: nat, s: EngineState) {
    && Proper(c, es) && FreshIds(es) && n <= |es| && Fold(c, es[..n]) == Ok(CoreOf(s))
    && Numbered(es[n..], s.book.applied, Max(s.book.applied, LastNumber(es)))
  }

  lemma RestingWasPlacedBy(c: Codec, es: seq<Event>, n: nat, s: EngineState, id: Id)
    requires StandsAt(c, es, n, s) && id in s.book.orders
    ensures PlacedBefore(es, id, n)
  {
    FreshPart(es, n);
    ProperPart(c, es, n);
    RestingFromLog(c, es[..n], id);
    var e, p :| e in es[..n] && PlacesOrder(c, e, id, p);
    var j :| 0 <= j < n && es[..n][j] == e;
    PlacedAt(es, j, n);
  }

  lemma NotPlacedEarlier(es: seq<Event>, n: nat, m: nat, id: Id)
    requires n <= m <= |es| && !PlacedBefore(es, id, m)
    ensures !PlacedBefore(es, id, n)
  {
  }

  /** What the rest of the log places is new to the state. */
  lemma TailPlacesNew(c: Codec, es: seq<Event>, n: nat, s: EngineState)
    requires StandsAt(c, es, n, s)
    ensures PlacesNew(s.book.orders, es[n..])
  {
    var tail := es[n..];
    FreshPart(es, n);
    forall id | id in s.book.orders ensures PlacedBefore(es, id, n) {
      RestingWasPlacedBy(c, es, n, s, id);
    }
    forall i | 0 <= i < |tail| && tail[i].data.OrderPlaced? ensures tail[i].data.orderId !in s.book.orders {
      assert es[n + i] == tail[i] && !PlacedBefore(es, es[n + i].data.orderId, n + i);
      NotPlacedEarlier(es, n, n + i, tail[i].data.orderId);
    }
  }

  /** Everything a replay of the rest remembers is in the log. */
  lemma PlacedFromLog(c: Codec, es: seq<Event>, n: nat, s: EngineState, placed: map<Id, Order>, id: Id)
    requires StandsAt(c, es, n, s) && Remembers(c, s.book.orders, es[n..], placed) && id in placed
    ensures FromLog(c, es, id, placed[id])
  {
    var head, tail := es[..n], es[n..];
    if PlacedBefore(tail, id, |tail|) {
      RememberedFromLog(c, s.book.orders, tail, placed, id);
      FromLogGrows(c, tail, es, id, placed[id]);
    } else {
      FreshPart(es, n);
      ProperPart(c, es, n);
      RestingFromLog(c, head, id);
      FromLogGrows(c, head, es, id, placed[id]);
    }
  }

  lemma RowPaysFromLog(c: Codec, es: seq<Event>, row: SettlementRow, m: Match, placed: map<Id, Order>, pairs: map<string, PairConfig>)
    requires RowPays(row, m, placed, pairs) && Registry(es, pairs)
    requires FromLog(c, es, m.bid.orderId, placed[m.bid.orderId]) && FromLog(c, es, m.ask.orderId, placed[m.ask.orderId])
    ensures RowFromLog(c, es, row, m)
  {
    var bid, b :| bid in es && PlacesOrder(c, bid, m.bid.orderId, b) && SameOrder(placed[m.bid.orderId], b);
    var ask, a :| ask in es && PlacesOrder(c, ask, m.ask.orderId, a) && SameOrder(placed[m.ask.orderId], a);
    assert RegisteredIn(es, b.pair, pairs[b.pair]);
    var g :| 0 <= g < |es| && RegisteredBy(es[g], b.pair, pairs[b.pair]);
    assert RowFrom(c, bid, ask, es[g], row, m, b, a);
  }

  lemma AllPaysFromLog(c: Codec, es: seq<Event>, n: nat, s: EngineState, ms: seq<Match>, rows: seq<SettlementRow>,
                       placed: map<Id, Order>, pairs: map<string, PairConfig>)
    requires StandsAt(c, es, n, s) && Remembers(c, s.book.orders, es[n..], placed) && Registry(es, pairs)
    requires Paid(ms, rows, placed, pairs)
    ensures PaidFromLog(c, es, ms, rows)
  {
    forall i | 0 <= i < |ms| ensures RowFromLog(c, es, rows[i], ms[i]) {
      assert RowPays(rows[i], ms[i], placed, pairs);
      PlacedFromLog(c, es, n, s, placed, ms[i].bid.orderId);
      PlacedFromLog(c, es, n, s, placed, ms[i].ask.orderId);
      RowPaysFromLog(c, es, rows[i], ms[i], placed, pairs);
    }
  }

  /** What replaying the rest of the log leaves, all of it from the log. */
  lemma RestReplayed(c: Codec, es: seq<Event>, n: nat, s: EngineState) returns (r: Replaying)
    requires StandsAt(c, es, n, s)
    ensures ReplayAll(c, Begin(s), es[n..]) == Ok(r) && Fold(c, es) == Ok(CoreOf(r.state))
    ensures Follows(c, s, es[n..], r) && AllPaid(s.pending, r) && Registry(es, r.state.pairs)
  {
    var tail, last := es[n..], Max(s.book.applied, LastNumber(es));
    assert es == es[..n] + tail;
    TailIsLawful(c, es, n, CoreOf(s));
    TailPlacesNew(c, es, n, s);
    r := ReplayRemembers(c, s, tail, last);
    ReplayPays(c, s, tail, last);
    ReplayFollowsFold(c, Begin(s), tail, last);
    FoldFromConcat(c, EMPTY, es[..n], tail);
    LawfulRegistry(c, es);
  }

  /**
    Recovery from a state that stands for the log up to some event: every batch submitted since and still open is pending
    with exactly its claim and one settlement row for each match of it, between the traders of the two placements and in
    the tokens of the registration. What no batch claimed would be settled by just such rows.
   */
  lemma RecoveredBatchesSettle(c: Codec, es: seq<Event>, n: nat, s: EngineState) returns (r: Replaying)
    requires StandsAt(c, es, n, s) && DistinctBatches(es[n..]) && SubmitsNew(s.pending, es[n..])
    ensures ReplayAll(c, Begin(s), es[n..]) == Ok(r)
    ensures forall j: nat, b :: OpenAt(es[n..], j, b) ==>
              && b in r.state.pending && r.state.pending[b].auctionId == es[n..][j].data.auctionId
              && r.state.pending[b].matches == Claim(es[n..], j)
              && PaidFromLog(c, es, Claim(es[n..], j), r.state.pending[b].rows)
    ensures forall a :: Unclaimed(r, a) == Loose(es[n..], a)
              && PaidFromLog(c, es, Unclaimed(r, a), RowsOf(Unclaimed(r, a), r.placed, r.state.pairs))
  {
    var tail := es[n..];
    r := RestReplayed(c, es, n, s);
    ReplayRebuildsTail(c, s, tail);
    forall j: nat, b | OpenAt(tail, j, b)
      ensures && b in r.state.pending && r.state.pending[b].auctionId == tail[j].data.auctionId
              && r.state.pending[b].matches == Claim(tail, j)
              && PaidFromLog(c, es, Claim(tail, j), r.state.pending[b].rows)
    {
      OpenBatchSettles(c, es, n, s, r, j, b);
    }
    forall a ensures Unclaimed(r, a) == Loose(tail, a)
      && PaidFromLog(c, es, Unclaimed(r, a), RowsOf(Unclaimed(r, a), r.placed, r.state.pairs))
    {
      TailOrphans(c, s, tail, a);
      LooseIsKnown(tail, a, r.placed, r.state.pairs);
      RowsPay(Unclaimed(r, a), r.placed, r.state.pairs);
      AllPaysFromLog(c, es, n, s, Unclaimed(r, a), RowsOf(Unclaimed(r, a), r.placed, r.state.pairs), r.placed, r.state.pairs);
    }
  }

  lemma OpenBatchSettles(c: Codec, es: seq<Event>, n: nat, s: EngineState, r: Replaying, j: nat, b: Id)
    requires StandsAt(c, es, n, s) && Follows(c, s, es[n..], r) && AllPaid(s.pending, r) && Registry(es, r.state.pairs)
    requires Rebuilt(es[n..], r.state.pending - s.pending.Keys) && OpenAt(es[n..], j, b)
    ensures b in r.state.pending && r.state.pending[b].auctionId == es[n..][j].data.auctionId
    ensures r.state.pending[b].matches == Claim(es[n..], j) && PaidFromLog(c, es, Claim(es[n..], j), r.state.pending[b].rows)
  {
    var since := r.state.pending - s.pending.Keys;
    assert b in since && since[b] == r.state.pending[b];
    AllPaysFromLog(c, es, n, s, r.state.pending[b].matches, r.state.pending[b].rows, r.placed, r.state.pairs);
  }

  /** An envelope that stands is such a state, and what lies above its watermark is the rest. */
  lemma StandingIsAt(c: Codec, es: seq<Event>, watermark: nat, s: EngineState) returns (n: nat)
    requires Proper(c, es) && FreshIds(es) && Stands(c, es, watermark, s)
    ensures StandsAt(c, es, n, s) && After(es, watermark) == es[n..]
  {
    n :| Cut(es, n, watermark) && Fold(c, es[..n]) == Ok(CoreOf(s));
    AfterIsTail(es, n, watermark);
    CutNumbers(es, n, watermark);
  }

  /** A full replay settles every match of every open batch. */
  lemma FullReplaySettles(c: Codec, es: seq<Event>) returns (r: Replaying)
    requires Proper(c, es) && FreshIds(es) && DistinctBatches(es)
    ensures ReplayAll(c, Begin(FRESH), es) == Ok(r)
    ensures forall i :: 0 <= i < |es| ==> Remembered(c, es[i], r.placed)
    ensures forall j: nat, b :: OpenAt(es, j, b) ==>
              && b in r.state.pending && r.state.pending[b].matches == Claim(es, j)
              && PaidFromLog(c, es, Claim(es, j), r.state.pending[b].rows)
  {
    assert es[..0] == [] && es[0..] == es && CoreOf(FRESH) == EMPTY;
    r := RecoveredBatchesSettle(c, es, 0, FRESH);
    var same := RestReplayed(c, es, 0, FRESH);
  }
}
