/** The second pass of recovery: batching what no batch claimed, and why doing it again finds nothing to do. */
module Reaggregation {
  import opened Types
  import opened Events
  import opened BookSpec
  import opened Projection
  import opened Operations
  import opened Clearing
  import opened Recovery
  import opened Checkpoint

  /** What came of one auction's orphans: aggregated and appended under a number, or left for the next recovery. */
  datatype Verdict =
    | Adopted(auctionId: Id, batchId: Id, number: nat)
    | NotAggregated(auctionId: Id)

  function SubmittedEvent(v: Verdict): Event
    requires v.Adopted?
  {
    Event(v.number, BatchSubmitted(v.batchId, v.auctionId))
  }

  /** The batch events the second pass appends. */
  function AppendedBy(vs: seq<Verdict>): seq<Event> {
    if vs == [] then []
    else AppendedBy(vs[..|vs| - 1]) + if vs[|vs| - 1].Adopted? then [SubmittedEvent(vs[|vs| - 1])] else []
  }

  /** The state the second pass leaves, from what the first pass rebuilt. */
  function Adopt(r: Replaying, vs: seq<Verdict>): EngineState {
    if vs == [] then r.state
    else
      var s, v := Adopt(r, vs[..|vs| - 1]), vs[|vs| - 1];
      match v
      case NotAggregated(_) => s
      case Adopted(a, b, _) =>
        s.(book := Apply(s.book, SubmittedEvent(v)),
           pending := s.pending[b := PendingBatch(a, Unclaimed(r, a), RowsOf(Unclaimed(r, a), r.placed, s.pairs))])
  }

  function AdoptedAuctions(vs: seq<Verdict>): set<Id> {
    set v | v in vs && v.Adopted? :: v.auctionId
  }

  function AdoptedBatches(vs: seq<Verdict>): set<Id> {
    set v | v in vs && v.Adopted? :: v.batchId
  }

  /** One verdict per auction, and batch identifiers that are new. */
  predicate Verdicts(r: Replaying, vs: seq<Verdict>) {
    && (forall i, j :: 0 <= i < j < |vs| ==> vs[i].auctionId != vs[j].auctionId)
    && (forall i, j :: 0 <= i < j < |vs| && vs[i].Adopted? && vs[j].Adopted? ==> vs[i].batchId != vs[j].batchId)
    && (forall i :: 0 <= i < |vs| && vs[i].Adopted? ==> vs[i].batchId !in r.state.pending)
  }

  lemma {:induction false} AdoptedPending(r: Replaying, vs: seq<Verdict>)
    ensures Adopt(r, vs).pending.Keys == r.state.pending.Keys + AdoptedBatches(vs)
    ensures Adopt(r, vs).pairs == r.state.pairs
  {
    if vs != [] {
      AdoptedPending(r, vs[..|vs| - 1]);
      assert vs == vs[..|vs| - 1] + [vs[|vs| - 1]];
    }
  }

  /** Each adopted auction's orphans are pending under its batch, with the rows of those that resolve. */
  lemma {:induction false} AdoptHolds(r: Replaying, vs: seq<Verdict>, i: nat)
    requires Verdicts(r, vs) && i < |vs| && vs[i].Adopted?
    ensures vs[i].batchId in Adopt(r, vs).pending
    ensures var a := vs[i].auctionId;
            Adopt(r, vs).pending[vs[i].batchId] == PendingBatch(a, Unclaimed(r, a), RowsOf(Unclaimed(r, a), r.placed, r.state.pairs))
  {
    var n := |vs| - 1;
    AdoptedPending(r, vs[..n]);
    if i < n {
      VerdictsPrefix(r, vs);
      AdoptHolds(r, vs[..n], i);
    }
  }

  /** What was pending before stays as it was. */
  lemma {:induction false} AdoptKeeps(r: Replaying, vs: seq<Verdict>, b: Id)
    requires Verdicts(r, vs) && b in r.state.pending
    ensures b in Adopt(r, vs).pending && Adopt(r, vs).pending[b] == r.state.pending[b]
  {
    if vs != [] {
      VerdictsPrefix(r, vs);
      AdoptKeeps(r, vs[..|vs| - 1], b);
    }
  }

  lemma AdoptedAuctionsSnoc(vs: seq<Verdict>, v: Verdict)
    ensures AdoptedAuctions(vs + [v]) == AdoptedAuctions(vs) + if v.Adopted? then {v.auctionId} else {}
  {
  }

  lemma LastIsNew(r: Replaying, vs: seq<Verdict>, v: Verdict)
    requires v.Adopted? && Verdicts(r, vs + [v])
    ensures v.batchId !in AdoptedBatches(vs) && v.auctionId !in AdoptedAuctions(vs)
  {
    var all := vs + [v];
    forall i | 0 <= i < |vs| ensures vs[i].auctionId != v.auctionId && (vs[i].Adopted? ==> vs[i].batchId != v.batchId) {
      assert all[i] == vs[i] && all[|vs|] == v;
    }
  }

  lemma BatchEventReplays(c: Codec, r: Replaying, e: Event)
    requires e.data.BatchSubmitted? && e.data.batchId !in r.state.pending
    ensures var a, s := e.data.auctionId, r.state;
            var batch := PendingBatch(a, Unclaimed(r, a), RowsOf(Unclaimed(r, a), r.placed, s.pairs));
            ReplayEvent(c, r, e)
            == Ok(Replaying(s.(book := Apply(s.book, e), pending := s.pending[e.data.batchId := batch]),
                            r.orphans - {a}, r.placed))
  {
  }

  /** Replaying a freshly appended batch event does what adopting the orphans did. */
  lemma ReplayAdopts(c: Codec, r: Replaying, vs: seq<Verdict>, v: Verdict, before: Replaying)
    requires v.Adopted? && Verdicts(r, vs + [v])
    requires before == AfterAdoption(r, vs)
    ensures ReplayEvent(c, before, SubmittedEvent(v)) == Ok(AfterAdoption(r, vs + [v]))
  {
    var all := vs + [v];
    assert all[..|all| - 1] == vs && all[|all| - 1] == v;
    AdoptedPending(r, vs);
    AdoptedAuctionsSnoc(vs, v);
    LastIsNew(r, vs, v);
    assert all[|vs|] == v;
    BatchEventReplays(c, before, SubmittedEvent(v));
    assert Unclaimed(before, v.auctionId) == Unclaimed(r, v.auctionId);
    assert before.orphans - {v.auctionId} == r.orphans - AdoptedAuctions(all);
  }

  /** What a replay knows once it has replayed the second pass too. */
  function AfterAdoption(r: Replaying, vs: seq<Verdict>): Replaying {
    Replaying(Adopt(r, vs), r.orphans - AdoptedAuctions(vs), r.placed)
  }

  lemma VerdictsPrefix(r: Replaying, vs: seq<Verdict>)
    requires vs != [] && Verdicts(r, vs)
    ensures Verdicts(r, vs[..|vs| - 1])
  {
  }

  /** Replaying what the second pass appended rebuilds the very state it left, and the orphans that were not adopted. */
  lemma {:induction false} ReplayFollowsAdoption(c: Codec, r: Replaying, vs: seq<Verdict>)
    requires Verdicts(r, vs)
    ensures ReplayAll(c, r, AppendedBy(vs)) == Ok(AfterAdoption(r, vs))
  {
    if vs == [] {
      assert r.orphans - AdoptedAuctions(vs) == r.orphans;
    } else {
      var n := |vs| - 1;
      var init, v := vs[..n], vs[n];
      assert vs == init + [v];
      VerdictsPrefix(r, vs);
      ReplayFollowsAdoption(c, r, init);
      AdoptionStep(c, r, init, v, AppendedBy(init));
    }
  }

  lemma AdoptionStep(c: Codec, r: Replaying, vs: seq<Verdict>, v: Verdict, es: seq<Event>)
    requires Verdicts(r, vs + [v]) && es == AppendedBy(vs)
    requires ReplayAll(c, r, es) == Ok(AfterAdoption(r, vs))
    ensures ReplayAll(c, r, AppendedBy(vs + [v])) == Ok(AfterAdoption(r, vs + [v]))
  {
    var all := vs + [v];
    assert all[..|all| - 1] == vs && all[|all| - 1] == v;
    if v.Adopted? {
      var e := SubmittedEvent(v);
      assert AppendedBy(all) == es + [e] && (es + [e])[..|es|] == es;
      ReplayAdopts(c, r, vs, v, ReplayAll(c, r, es).value);
    } else {
      assert AppendedBy(all) == es;
      assert AdoptedAuctions(all) == AdoptedAuctions(vs);
    }
  }

  lemma {:induction false} ReplayAllConcat(c: Codec, r: Replaying, es: seq<Event>, fs: seq<Event>)
    requires ReplayAll(c, r, es).Ok?
    ensures ReplayAll(c, r, es + fs) == ReplayAll(c, ReplayAll(c, r, es).value, fs)
  {
    if fs == [] {
      assert es + fs == es;
    } else {
      var n := |fs| - 1;
      ReplayAllConcat(c, r, es, fs[..n]);
      assert (es + fs)[..|es + fs| - 1] == es + fs[..n];
    }
  }

  /** A set of identifiers in ascending order. */
  ghost predicate Ordered(ids: seq<Id>, s: set<Id>) {
    && (forall i, j :: 0 <= i < j < |ids| ==> ids[i] < ids[j])
    && (forall a :: a in ids <==> a in s)
  }

  function Auctions(vs: seq<Verdict>): seq<Id> {
    seq(|vs|, i requires 0 <= i < |vs| => vs[i].auctionId)
  }

  /** The verdicts answer for each orphaned auction once, in ascending order. */
  ghost predicate Answers(vs: seq<Verdict>, orphans: map<Id, seq<Match>>) {
    Ordered(Auctions(vs), orphans.Keys)
  }

  /**
    Recovery run again over the extended log, from the same starting point, rebuilds the state the first
    one ended in: the same pending batches with the same matches and rows. What it then still has to
    re-aggregate is exactly what the first could not.
   */
  lemma SecondRecoveryAgrees(c: Codec, start: EngineState, log: seq<Event>, vs: seq<Verdict>)
    requires ReplayAll(c, Begin(start), log).Ok?
    requires Verdicts(ReplayAll(c, Begin(start), log).value, vs)
    ensures var r := ReplayAll(c, Begin(start), log).value;
            ReplayAll(c, Begin(start), log + AppendedBy(vs)) == Ok(AfterAdoption(r, vs))
  {
    ReplayAllConcat(c, Begin(start), log, AppendedBy(vs));
    ReplayFollowsAdoption(c, ReplayAll(c, Begin(start), log).value, vs);
  }

  /** A second recovery has nothing left to append exactly when every orphaned auction was aggregated. */
  lemma RecoveryIsAFixpointExactly(c: Codec, start: EngineState, log: seq<Event>, vs: seq<Verdict>)
    requires ReplayAll(c, Begin(start), log).Ok?
    requires var r := ReplayAll(c, Begin(start), log).value; Verdicts(r, vs) && Answers(vs, r.orphans)
    ensures var again := ReplayAll(c, Begin(start), log + AppendedBy(vs));
            && again.Ok? && again.value.state == Adopt(ReplayAll(c, Begin(start), log).value, vs)
            && (again.value.orphans == map[] <==> forall i :: 0 <= i < |vs| ==> vs[i].Adopted?)
  {
    SecondRecoveryAgrees(c, start, log, vs);
    LeftoverOrphans(ReplayAll(c, Begin(start), log).value.orphans, vs);
  }

  lemma LeftoverOrphans(orphans: map<Id, seq<Match>>, vs: seq<Verdict>)
    requires Answers(vs, orphans)
    ensures orphans - AdoptedAuctions(vs) == map[] <==> forall i :: 0 <= i < |vs| ==> vs[i].Adopted?
  {
    var order, left := Auctions(vs), orphans - AdoptedAuctions(vs);
    if forall i :: 0 <= i < |vs| ==> vs[i].Adopted? {
      forall a | a in orphans ensures a in AdoptedAuctions(vs) {
        assert a in order;
        var i :| 0 <= i < |order| && order[i] == a;
        assert vs[i] in vs && vs[i].auctionId == a;
      }
    } else {
      var i :| 0 <= i < |vs| && !vs[i].Adopted?;
      var a := vs[i].auctionId;
      assert order[i] == a;
      forall j | 0 <= j < |vs| && vs[j].Adopted? ensures vs[j].auctionId != a {
        assert order[j] == vs[j].auctionId;
      }
      assert a in left;
    }
  }

  // ---------------------------------------------------------------- the next boot

  /** An envelope is about to be restored. */
  predicate Restores(envelopes: Envelopes, probe: Probe) {
    probe.Listed? && probe.cipherPresent && Readable(envelopes, probe.unreadable) != {}
  }

  ghost function Restored(envelopes: Envelopes, probe: Probe): (e: Envelope)
    requires Restores(envelopes, probe)
    ensures e.Sealed?
  {
    var k := Greatest(Readable(envelopes, probe.unreadable));
    assert k in Readable(envelopes, probe.unreadable);
    envelopes[k]
  }

  /** The events come after everything that could be restored. */
  ghost predicate AllAbove(more: seq<Event>, envelopes: Envelopes, probe: Probe) {
    Restores(envelopes, probe) ==> forall i :: 0 <= i < |more| ==> more[i].number > Restored(envelopes, probe).watermark
  }

  /** The first event after the envelope did not take the next number. */
  ghost predicate LeavesHole(log: seq<Event>, more: seq<Event>, envelopes: Envelopes, probe: Probe) {
    && Restores(envelopes, probe)
    && var w := Restored(envelopes, probe).watermark;
    After(log, w) == [] && more != [] && more[0].number != w + 1
  }

  /** With more events at its end the log starts from the same state, and replays them too, unless they leave a hole. */
  lemma StartExtends(log: seq<Event>, more: seq<Event>, envelopes: Envelopes, probe: Probe)
    requires StartOf(log, envelopes, probe).Ok? && AllAbove(more, envelopes, probe)
    ensures var s := StartOf(log, envelopes, probe).value;
            StartOf(log + more, envelopes, probe)
            == if LeavesHole(log, more, envelopes, probe) then Err(SnapshotsCorruptAndLogTruncated)
               else Ok(Start(s.state, s.rest + more))
  {
    if Restores(envelopes, probe) {
      var e := Restored(envelopes, probe);
      assert envelopes != map[];
      AfterConcat(log, more, e.watermark);
      assert StartOf(log + more, envelopes, probe) == StartFrom(log + more, e);
    }
  }

  /**
    A restart after recovery rebuilds the very state recovery left, batches included, and hands on exactly the orphans
    that did not aggregate. Only when recovery's own batch event left a hole right after the restored envelope does
    the restart refuse.
   */
  lemma RestartAfterRecovery(c: Codec, log: seq<Event>, envelopes: Envelopes, probe: Probe, vs: seq<Verdict>)
    requires var r := Recovered(c, log, envelopes, probe); r.Ok? && Verdicts(r.value, vs)
    requires AllAbove(AppendedBy(vs), envelopes, probe)
    ensures Recovered(c, log + AppendedBy(vs), envelopes, probe)
            == if LeavesHole(log, AppendedBy(vs), envelopes, probe) then Err(SnapshotsCorruptAndLogTruncated)
               else Ok(AfterAdoption(Recovered(c, log, envelopes, probe).value, vs))
  {
    StartExtends(log, AppendedBy(vs), envelopes, probe);
    var s := StartOf(log, envelopes, probe).value;
    SecondRecoveryAgrees(c, s.state, s.rest, vs);
  }
}
