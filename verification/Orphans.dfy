/** Matches and the batches that claim them on replay, and the re-aggregation of what no batch claimed. */
module Orphans {
  import opened Types
  import opened Events
  import opened Projection
  import opened Operations
  import opened Recovery

  // ---------------------------------------------------------------- who claims which match

  /** Every match of one auction in the log, in order. */
  function MatchesIn(es: seq<Event>, auctionId: Id): seq<Match> {
    if es == [] then []
    else
      var e := es[|es| - 1];
      MatchesIn(es[..|es| - 1], auctionId) +
      if e.data.OrderMatched? && e.data.auctionId == auctionId then [e.data.m] else []
  }

  /** What the batch submitted at position `j` claims: its auction's matches since the previous such batch. */
  function Claim(es: seq<Event>, j: nat): seq<Match>
    requires j < |es| && es[j].data.BatchSubmitted?
  {
    Loose(es[..j], es[j].data.auctionId)
  }

  /** The matches of an auction that no batch has claimed yet. */
  function Loose(es: seq<Event>, auctionId: Id): seq<Match> {
    if es == [] then []
    else
      var e, rest := es[|es| - 1], es[..|es| - 1];
      if e.data.BatchSubmitted? && e.data.auctionId == auctionId then []
      else Loose(rest, auctionId) + if e.data.OrderMatched? && e.data.auctionId == auctionId then [e.data.m] else []
  }

  /** All claims on an auction's matches, in order of submission. */
  function Claims(es: seq<Event>, auctionId: Id): seq<seq<Match>> {
    if es == [] then []
    else
      var e, n := es[|es| - 1], |es| - 1;
      Claims(es[..n], auctionId) +
      if e.data.BatchSubmitted? && e.data.auctionId == auctionId then [Loose(es[..n], auctionId)] else []
  }

  function Joined(mss: seq<seq<Match>>): seq<Match> {
    if mss == [] then [] else Joined(mss[..|mss| - 1]) + mss[|mss| - 1]
  }

  /** The claims and what is left over are the auction's matches, each exactly once and in order. */
  lemma {:induction false} ClaimsPartitionMatches(es: seq<Event>, auctionId: Id)
    ensures Joined(Claims(es, auctionId)) + Loose(es, auctionId) == MatchesIn(es, auctionId)
  {
    if es != [] {
      var e, rest := es[|es| - 1], es[..|es| - 1];
      ClaimsPartitionMatches(rest, auctionId);
      var cs := Claims(rest, auctionId);
      if e.data.BatchSubmitted? && e.data.auctionId == auctionId {
        assert (cs + [Loose(rest, auctionId)])[..|cs|] == cs;
      } else {
        assert Claims(es, auctionId) == cs;
        assert MatchesIn(es, auctionId) == Joined(cs) + Loose(es, auctionId);
      }
    }
  }

  /** Whether a batch is closed at or after position `i`. */
  predicate ClosedFrom(es: seq<Event>, i: nat, batchId: Id) {
    exists j :: i <= j < |es| && (es[j].data == BatchConfirmed(batchId) || es[j].data == BatchSettled(batchId))
  }

  /** Each batch is submitted once. */
  predicate DistinctBatches(es: seq<Event>) {
    forall i, j :: 0 <= i < j < |es| && es[i].data.BatchSubmitted? && es[j].data.BatchSubmitted? ==>
                     es[i].data.batchId != es[j].data.batchId
  }

  /** The batch was submitted at position `j` and not closed since. */
  predicate OpenAt(es: seq<Event>, j: nat, batchId: Id) {
    j < |es| && es[j].data.BatchSubmitted? && es[j].data.batchId == batchId && !ClosedFrom(es, j, batchId)
  }

  /** A rebuilt batch holds exactly its claim. */
  ghost predicate Rebuilt(es: seq<Event>, pending: map<Id, PendingBatch>) {
    && (forall b :: b in pending ==> exists j: nat :: OpenAt(es, j, b))
    && (forall j: nat, b :: OpenAt(es, j, b) ==>
                              b in pending && pending[b].auctionId == es[j].data.auctionId && pending[b].matches == Claim(es, j))
  }

  lemma OpenBefore(es: seq<Event>, j: nat, b: Id)
    requires OpenAt(es, j, b) && j < |es| - 1
    ensures OpenAt(es[..|es| - 1], j, b) && Claim(es[..|es| - 1], j) == Claim(es, j)
  {
    assert es[..|es| - 1][..j] == es[..j];
  }

  lemma OpenAfter(es: seq<Event>, j: nat, b: Id)
    requires es != [] && OpenAt(es[..|es| - 1], j, b)
    requires es[|es| - 1].data != BatchConfirmed(b) && es[|es| - 1].data != BatchSettled(b)
    ensures OpenAt(es, j, b)
  {
  }

  lemma RebuiltByOther(es: seq<Event>, pending: map<Id, PendingBatch>)
    requires es != [] && Rebuilt(es[..|es| - 1], pending)
    requires var d := es[|es| - 1].data; !d.BatchSubmitted? && !d.BatchConfirmed? && !d.BatchSettled?
    ensures Rebuilt(es, pending)
  {
    forall b | b in pending ensures exists j: nat :: OpenAt(es, j, b) {
      var j: nat :| OpenAt(es[..|es| - 1], j, b);
      OpenAfter(es, j, b);
    }
    forall j: nat, b | OpenAt(es, j, b)
      ensures b in pending && pending[b].auctionId == es[j].data.auctionId && pending[b].matches == Claim(es, j)
    {
      OpenBefore(es, j, b);
    }
  }

  lemma RebuiltByClosing(es: seq<Event>, pending: map<Id, PendingBatch>, closed: Id)
    requires es != [] && Rebuilt(es[..|es| - 1], pending)
    requires es[|es| - 1].data == BatchConfirmed(closed) || es[|es| - 1].data == BatchSettled(closed)
    ensures Rebuilt(es, pending - {closed})
  {
    var now := pending - {closed};
    forall b | b in now ensures exists j: nat :: OpenAt(es, j, b) {
      var j: nat :| OpenAt(es[..|es| - 1], j, b);
      OpenAfter(es, j, b);
    }
    forall j: nat, b | OpenAt(es, j, b)
      ensures b in now && now[b].auctionId == es[j].data.auctionId && now[b].matches == Claim(es, j)
    {
      OpenBefore(es, j, b);
    }
  }

  lemma RebuiltBySubmission(es: seq<Event>, pending: map<Id, PendingBatch>, batch: PendingBatch)
    requires es != [] && Rebuilt(es[..|es| - 1], pending) && DistinctBatches(es)
    requires var d := es[|es| - 1].data;
             d.BatchSubmitted? && batch.auctionId == d.auctionId && batch.matches == Loose(es[..|es| - 1], d.auctionId)
    ensures es[|es| - 1].data.batchId !in pending
    ensures Rebuilt(es, pending[es[|es| - 1].data.batchId := batch])
  {
    var n, id := |es| - 1, es[|es| - 1].data.batchId;
    var now := pending[id := batch];
    forall b | b in pending ensures b != id && exists j: nat :: OpenAt(es, j, b) {
      var j: nat :| OpenAt(es[..n], j, b);
      OpenAfter(es, j, b);
    }
    assert OpenAt(es, n, id);
    forall j: nat, b | OpenAt(es, j, b)
      ensures b in now && now[b].auctionId == es[j].data.auctionId && now[b].matches == Claim(es, j)
    {
      if j < n {
        OpenBefore(es, j, b);
      }
    }
  }

  /** What one replayed event does to the pending batches. */
  lemma PendingAfter(c: Codec, r: Replaying, e: Event)
    requires ReplayEvent(c, r, e).Ok?
    ensures var was, now := r.state.pending, ReplayEvent(c, r, e).value.state.pending;
            match e.data
            case BatchSubmitted(b, a) =>
              b !in was ==> now == was[b := PendingBatch(a, Unclaimed(r, a), RowsOf(Unclaimed(r, a), r.placed, r.state.pairs))]
            case BatchConfirmed(b) => now == was - {b}
            case BatchSettled(b) => now == was - {b}
            case _ => now == was
  {
  }

  /** What one replayed event does to the matches not yet claimed. */
  lemma OrphansAfter(c: Codec, r: Replaying, e: Event)
    requires ReplayEvent(c, r, e).Ok?
    ensures var now := ReplayEvent(c, r, e).value.orphans;
            match e.data
            case BatchSubmitted(_, a) => now == r.orphans - {a}
            case OrderMatched(a, m) => now == r.orphans[a := Unclaimed(r, a) + [m]]
            case _ => now == r.orphans
  {
  }

  lemma UnclaimedAfter(c: Codec, r: Replaying, es: seq<Event>, a: Id, r': Replaying)
    requires es != [] && Unclaimed(r, a) == Loose(es[..|es| - 1], a) && ReplayEvent(c, r, es[|es| - 1]) == Ok(r')
    ensures Unclaimed(r', a) == Loose(es, a)
  {
    OrphansAfter(c, r, es[|es| - 1]);
  }

  lemma RebuiltByEvent(c: Codec, r: Replaying, es: seq<Event>, now: map<Id, PendingBatch>)
    requires es != [] && DistinctBatches(es) && Rebuilt(es[..|es| - 1], r.state.pending)
    requires forall a :: Unclaimed(r, a) == Loose(es[..|es| - 1], a)
    requires ReplayEvent(c, r, es[|es| - 1]).Ok? && now == ReplayEvent(c, r, es[|es| - 1]).value.state.pending
    ensures Rebuilt(es, now)
  {
    var e := es[|es| - 1];
    PendingAfter(c, r, e);
    if e.data.BatchSubmitted? {
      var a := e.data.auctionId;
      RebuiltBySubmission(es, r.state.pending, PendingBatch(a, Unclaimed(r, a), RowsOf(Unclaimed(r, a), r.placed, r.state.pairs)));
    } else if e.data.BatchConfirmed? || e.data.BatchSettled? {
      RebuiltByClosing(es, r.state.pending, e.data.batchId);
    } else {
      RebuiltByOther(es, r.state.pending);
    }
  }

  /**
    Full replay: every batch still open holds exactly its claim, nothing else is pending, and what is
    left for re-aggregation is exactly what no batch claimed.
   */
  lemma {:induction false} ReplayRebuildsClaims(c: Codec, es: seq<Event>)
    requires DistinctBatches(es) && ReplayAll(c, Begin(FRESH), es).Ok?
    ensures var r := ReplayAll(c, Begin(FRESH), es).value;
            Rebuilt(es, r.state.pending) && forall a :: Unclaimed(r, a) == Loose(es, a)
  {
    if es != [] {
      var n := |es| - 1;
      ReplayRebuildsClaims(c, es[..n]);
      var before := ReplayAll(c, Begin(FRESH), es[..n]).value;
      var after := ReplayEvent(c, before, es[n]).value;
      RebuiltByEvent(c, before, es, after.state.pending);
      forall a ensures Unclaimed(after, a) == Loose(es, a) {
        UnclaimedAfter(c, before, es, a, after);
      }
    }
  }

  // ---------------------------------------------------------------- after a snapshot

  /** The log holds no batch of the auction. */
  predicate NoBatchOf(es: seq<Event>, auctionId: Id) {
    forall i :: 0 <= i < |es| && es[i].data.BatchSubmitted? ==> es[i].data.auctionId != auctionId
  }

  /** Replaying a tail from a restored state leaves what is loose in the tail: the recovery starts with no orphans. */
  lemma {:induction false} TailOrphans(c: Codec, s: EngineState, tail: seq<Event>, a: Id)
    requires ReplayAll(c, Begin(s), tail).Ok?
    ensures Unclaimed(ReplayAll(c, Begin(s), tail).value, a) == Loose(tail, a)
  {
    if tail != [] {
      var n := |tail| - 1;
      TailOrphans(c, s, tail[..n], a);
      UnclaimedAfter(c, ReplayAll(c, Begin(s), tail[..n]).value, tail, a, ReplayAll(c, Begin(s), tail).value);
    }
  }

  /** A batch in the tail settles who claims what came before; otherwise what was loose before stays loose. */
  lemma {:induction false} LooseSplits(es: seq<Event>, tail: seq<Event>, a: Id)
    ensures Loose(es + tail, a) == (if NoBatchOf(tail, a) then Loose(es, a) else []) + Loose(tail, a)
  {
    if tail == [] {
      assert es + tail == es;
    } else {
      var n := |tail| - 1;
      assert (es + tail)[..|es + tail| - 1] == es + tail[..n];
      LooseSplits(es, tail[..n], a);
      if NoBatchOf(tail, a) {
        assert NoBatchOf(tail[..n], a);
      } else if tail[n].data.BatchSubmitted? && tail[n].data.auctionId == a {
        assert Loose(es + tail, a) == [] && Loose(tail, a) == [];
      } else {
        assert !NoBatchOf(tail[..n], a);
      }
    }
  }

  /** The auction's matches below the watermark are all claimed by then, or a batch above it takes over the auction. */
  predicate NothingStranded(es: seq<Event>, tail: seq<Event>, a: Id) {
    Loose(es, a) == [] || !NoBatchOf(tail, a)
  }

  /**
    After a boot from a snapshot, recovery re-aggregates what the whole log leaves loose exactly when no auction
    had loose matches at or below the watermark that no later batch takes over. Others are never re-aggregated.
   */
  lemma SnapshotKeepsOrphansExactly(c: Codec, s: EngineState, es: seq<Event>, tail: seq<Event>)
    requires ReplayAll(c, Begin(s), tail).Ok?
    ensures (forall a :: Unclaimed(ReplayAll(c, Begin(s), tail).value, a) == Loose(es + tail, a))
            <==> forall a :: NothingStranded(es, tail, a)
  {
    var r := ReplayAll(c, Begin(s), tail).value;
    forall a ensures Unclaimed(r, a) == Loose(es + tail, a) <==> NothingStranded(es, tail, a) {
      TailOrphans(c, s, tail, a);
      LooseSplits(es, tail, a);
      assert Loose(es, a) != [] ==> |Loose(es, a) + Loose(tail, a)| > |Loose(tail, a)|;
      assert [] + Loose(tail, a) == Loose(tail, a);
    }
  }

  /** A batch restored as pending stays so unless the replayed tail itself closes it. */
  lemma {:induction false} RestoredBatchStays(c: Codec, r: Replaying, es: seq<Event>, b: Id)
    requires b in r.state.pending && !ClosedFrom(es, 0, b) && ReplayAll(c, r, es).Ok?
    ensures b in ReplayAll(c, r, es).value.state.pending
  {
    if es != [] {
      var n := |es| - 1;
      assert !ClosedFrom(es[..n], 0, b);
      RestoredBatchStays(c, r, es[..n], b);
      PendingAfter(c, ReplayAll(c, r, es[..n]).value, es[n]);
    }
  }

  /**
    A snapshot that still holds a batch closed at or below its watermark brings the batch back: the tail
    above the watermark does not close it, while a replay of the whole log knows it is closed.
   */
  lemma ClosedBatchComesBack(c: Codec, captured: EngineState, log: seq<Event>, n: nat, b: Id)
    requires n <= |log| && DistinctBatches(log) && b in captured.pending && !ClosedFrom(log[n..], 0, b)
    requires exists j :: 0 <= j < |log| && log[j].data.BatchSubmitted? && log[j].data.batchId == b && ClosedFrom(log, j, b)
    requires ReplayAll(c, Begin(captured), log[n..]).Ok? && ReplayAll(c, Begin(FRESH), log).Ok?
    ensures b in ReplayAll(c, Begin(captured), log[n..]).value.state.pending
    ensures b !in ReplayAll(c, Begin(FRESH), log).value.state.pending
  {
    RestoredBatchStays(c, Begin(captured), log[n..], b);
    ReplayRebuildsClaims(c, log);
  }
}
