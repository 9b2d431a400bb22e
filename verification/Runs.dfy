/** Whole runs of the system: what is true after any sequence of moves from the beginning. */
module Runs {
  import opened Types
  import opened Events
  import opened BookSpec
  import opened Projection
  import opened Legality
  import opened History
  import opened Conservation
  import opened Operations
  import opened Refinement
  import opened Checkpoint
  import opened System
  import opened SystemSafety

  /** The moves can happen one after the other. */
  ghost predicate Possibly(c: Codec, y: System, ms: seq<Move>)
    decreases |ms|
  {
    ms == [] || (Enabled(c, y, ms[0]) && Possibly(c, Do(c, y, ms[0]), ms[1..]))
  }

  ghost function End(c: Codec, y: System, ms: seq<Move>): System
    requires Possibly(c, y, ms)
    decreases |ms|
  {
    if ms == [] then y else End(c, Do(c, y, ms[0]), ms[1..])
  }

  /** Every crash of the run happens in a safe state. */
  ghost predicate SafeCrashes(c: Codec, y: System, ms: seq<Move>)
    requires Possibly(c, y, ms)
    decreases |ms|
  {
    ms == [] || ((ms[0].Crash? ==> CrashSafe(y)) && SafeCrashes(c, Do(c, y, ms[0]), ms[1..]))
  }

  lemma {:induction false} RunKeepsInv(c: Codec, y: System, ms: seq<Move>)
    requires ParsesCanonically(c) && Inv(c, y) && Possibly(c, y, ms) && SafeCrashes(c, y, ms)
    ensures Inv(c, End(c, y, ms))
    decreases |ms|
  {
    if ms != [] {
      MoveKeepsInv(c, y, ms[0]);
      RunKeepsInv(c, Do(c, y, ms[0]), ms[1..]);
    }
  }

  // ---------------------------------------------------------------- stores that do not burn numbers

  /** A failed append leaves the numbering alone. */
  predicate BurnsNothing(m: Move) {
    match m
    case Operate(_, Lost(burned)) => burned == 0
    case AppendOffLock(_, Lost(burned)) => burned == 0
    case _ => true
  }

  predicate Tight(y: System) {
    Gapless(y.history) && y.counter == |y.history|
  }

  /** Without burned numbers every crash is safe. */
  lemma TightIsCrashSafe(c: Codec, y: System)
    requires Inv(c, y) && Tight(y)
    ensures CrashSafe(y)
  {
  }

  lemma OperateStaysTight(c: Codec, y: System, p: Process, op: Operation, outcome: Append)
    requires Tight(y) && BurnsNothing(Operate(op, outcome))
    ensures Tight(DoOperate(c, y, p, op, outcome))
  {
  }

  lemma MoveStaysTight(c: Codec, y: System, m: Move)
    requires Inv(c, y) && Tight(y) && Enabled(c, y, m) && BurnsNothing(m)
    ensures Tight(Do(c, y, m))
  {
    if m.Operate? {
      OperateStaysTight(c, y, y.process.value, m.op, m.outcome);
    } else if m.Crash? {
      TightIsCrashSafe(c, y);
      SafeCrashKeepsLast(c, y);
    }
  }

  lemma UnburnedMove(c: Codec, y: System, m: Move)
    requires ParsesCanonically(c) && Inv(c, y) && Tight(y) && Enabled(c, y, m) && BurnsNothing(m)
    ensures CrashSafe(y) && Inv(c, Do(c, y, m)) && Tight(Do(c, y, m))
  {
    TightIsCrashSafe(c, y);
    MoveKeepsInv(c, y, m);
    MoveStaysTight(c, y, m);
  }

  /** If failed appends never burn numbers, every crash of every run is safe. */
  lemma {:induction false} UnburnedRunsAreSafe(c: Codec, y: System, ms: seq<Move>)
    requires ParsesCanonically(c) && Inv(c, y) && Tight(y) && Possibly(c, y, ms)
    requires forall i :: 0 <= i < |ms| ==> BurnsNothing(ms[i])
    ensures SafeCrashes(c, y, ms) && Tight(End(c, y, ms))
    decreases |ms|
  {
    if ms != [] {
      UnburnedMove(c, y, ms[0]);
      UnburnedRunsAreSafe(c, Do(c, y, ms[0]), ms[1..]);
    }
  }

  // ---------------------------------------------------------------- what holds after every run

  /** After any run, a live engine's state is exactly what replaying the entire history gives, and is healthy. */
  lemma LiveStateIsReplayedHistory(c: Codec, ms: seq<Move>)
    requires ParsesCanonically(c) && Possibly(c, INITIAL, ms) && SafeCrashes(c, INITIAL, ms)
    ensures var y := End(c, INITIAL, ms);
            y.process.Some? ==>
              var s := y.process.value.state;
              var r := Replay(c, FRESH, y.history);
              r.Ok? && CoreOf(r.value) == CoreOf(s) && Healthy(CoreOf(s), y.counter)
  {
    InitialInv(c);
    RunKeepsInv(c, INITIAL, ms);
    var y := End(c, INITIAL, ms);
    if y.process.Some? {
      ReplayWholeLog(c, y.history);
      LiveIsHealthy(c, y, y.process.value);
    }
  }

  /** After any run, no two placements in the history share a ciphertext digest, a nullifier or a trader nonce. */
  lemma HistoryHasNoReplays(c: Codec, ms: seq<Move>, i: nat, j: nat)
    requires ParsesCanonically(c) && Possibly(c, INITIAL, ms) && SafeCrashes(c, INITIAL, ms)
    requires var h := End(c, INITIAL, ms).history; i < j < |h| && h[i].data.OrderPlaced? && h[j].data.OrderPlaced?
    ensures var h := End(c, INITIAL, ms).history;
            && Rebuild(c, h[i].data.orderId, h[i].data.commitment, h[i].data.ciphertext, h[i].number).Ok?
            && Rebuild(c, h[j].data.orderId, h[j].data.commitment, h[j].data.ciphertext, h[j].number).Ok?
            && var a, b := KeysOf(c, h[i]), KeysOf(c, h[j]);
            a.0 != b.0 && a.1 != b.1 && a.2 != b.2
  {
    InitialInv(c);
    RunKeepsInv(c, INITIAL, ms);
    NoReplayedPlacement(c, End(c, INITIAL, ms).history, i, j);
  }

  /** After any run, every resting order has left its size minus the fills the whole history records for it. */
  lemma HistoryConservesSize(c: Codec, ms: seq<Move>, id: Id)
    requires ParsesCanonically(c) && Possibly(c, INITIAL, ms) && SafeCrashes(c, INITIAL, ms)
    requires var y := End(c, INITIAL, ms); y.process.Some? && id in y.process.value.state.book.orders
    ensures var y := End(c, INITIAL, ms);
            var o := y.process.value.state.book.orders[id];
            0 < o.remaining == o.size - Recorded(y.history, id, |y.history|)
  {
    InitialInv(c);
    RunKeepsInv(c, INITIAL, ms);
    var y := End(c, INITIAL, ms);
    var ks := TraceOf(c, y.history);
    SizeIsConserved(c, y.history, ks, |y.history|, id);
  }

  /** After any run, the history has bought as much as it sold, and no recorded fill exceeded what its order had left. */
  lemma HistoryBalances(c: Codec, ms: seq<Move>, n: nat)
    requires ParsesCanonically(c) && Possibly(c, INITIAL, ms) && SafeCrashes(c, INITIAL, ms) && n <= |End(c, INITIAL, ms).history|
    ensures var h := End(c, INITIAL, ms).history;
            && Filled(Buy, h, n) == Filled(Sell, h, n)
            && (n < |h| && h[n].data.OrderMatched? ==>
                  && Fold(c, h[..n]).Ok?
                  && var orders, m := Fold(c, h[..n]).value.orders, h[n].data.m;
                  && m.bid.orderId in orders && m.bid.size <= orders[m.bid.orderId].remaining
                  && m.ask.orderId in orders && m.ask.size <= orders[m.ask.orderId].remaining)
  {
    InitialInv(c);
    RunKeepsInv(c, INITIAL, ms);
    var h := End(c, INITIAL, ms).history;
    var ks := TraceOf(c, h);
    FillsBalance(c, h, ks, n);
    if n < |h| {
      LawfulPrefix(c, EMPTY, h, n);
    }
  }

  lemma MoveExtends(c: Codec, y: System, m: Move)
    requires Enabled(c, y, m)
    ensures y.history <= Do(c, y, m).history
  {
  }

  lemma {:induction false} RunExtends(c: Codec, y: System, ms: seq<Move>)
    requires Possibly(c, y, ms)
    ensures y.history <= End(c, y, ms).history
    decreases |ms|
  {
    if ms != [] {
      MoveExtends(c, y, ms[0]);
      RunExtends(c, Do(c, y, ms[0]), ms[1..]);
    }
  }

  lemma DelistedSince(c: Codec, before: seq<Event>, h: seq<Event>, k: Core, pair: string)
    requires before <= h && Proper(c, h) && Proper(c, before) && Fold(c, before) == Ok(k) && IsDelisted(k, pair)
    ensures Fold(c, h).Ok? && IsDelisted(Fold(c, h).value, pair)
    ensures forall id :: id in Fold(c, h).value.orders ==> Fold(c, h).value.orders[id].pair != pair
  {
    var ks := TraceOf(c, h);
    var i := |before|;
    TracePrefix(c, h, ks, i);
    assert h[..i] == before;
    TraceIsUnique(c, before, ks[..i + 1]);
    DelistedForever(c, h, ks, i, |h|, pair);
  }

  /** Once a pair is delisted it stays delisted with no resting orders, through any moves, crashes and boots. */
  lemma DelistedThroughRuns(c: Codec, y: System, ms: seq<Move>, pair: string)
    requires ParsesCanonically(c) && Inv(c, y) && Possibly(c, y, ms) && SafeCrashes(c, y, ms)
    requires y.process.Some? && IsDelisted(CoreOf(y.process.value.state), pair)
    ensures var z := End(c, y, ms);
            z.process.Some? ==>
              var s := z.process.value.state;
              IsDelisted(CoreOf(s), pair) && forall id :: id in s.book.orders ==> s.book.orders[id].pair != pair
  {
    RunKeepsInv(c, y, ms);
    RunExtends(c, y, ms);
    var z := End(c, y, ms);
    if z.process.Some? {
      DelistedSince(c, y.history, z.history, CoreOf(y.process.value.state), pair);
    }
  }

  /** After any run, every resting order that this process admitted has its witness secret. */
  lemma AdmittedOrdersHaveSecrets(c: Codec, ms: seq<Move>, id: Id)
    requires ParsesCanonically(c) && Possibly(c, INITIAL, ms) && SafeCrashes(c, INITIAL, ms)
    requires var y := End(c, INITIAL, ms);
             y.process.Some? && id in y.process.value.own && id in y.process.value.state.book.orders
    ensures id in End(c, INITIAL, ms).process.value.secrets
  {
    InitialInv(c);
    RunKeepsInv(c, INITIAL, ms);
  }

  /** Only the orders a process admitted itself have their secret in it. */
  predicate SecretsAreOwn(y: System) {
    y.process.Some? ==> y.process.value.secrets <= y.process.value.own
  }

  lemma MoveKeepsSecretsOwn(c: Codec, y: System, m: Move)
    requires SecretsAreOwn(y) && Enabled(c, y, m)
    ensures SecretsAreOwn(Do(c, y, m))
  {
  }

  lemma {:induction false} RunKeepsSecretsOwn(c: Codec, y: System, ms: seq<Move>)
    requires SecretsAreOwn(y) && Possibly(c, y, ms)
    ensures SecretsAreOwn(End(c, y, ms))
    decreases |ms|
  {
    if ms != [] {
      MoveKeepsSecretsOwn(c, y, ms[0]);
      RunKeepsSecretsOwn(c, Do(c, y, ms[0]), ms[1..]);
    }
  }

  /** After any run, pruning leaves exactly the secrets of the resting orders that this process admitted. */
  lemma PrunedSecretsAreExact(c: Codec, ms: seq<Move>, id: Id)
    requires ParsesCanonically(c) && Possibly(c, INITIAL, ms) && SafeCrashes(c, INITIAL, ms)
    requires Enabled(c, End(c, INITIAL, ms), PruneSecrets)
    ensures var p := Do(c, End(c, INITIAL, ms), PruneSecrets).process.value;
            id in p.secrets <==> id in p.own && id in p.state.book.orders
  {
    RunKeepsSecretsOwn(c, INITIAL, ms);
    if id in End(c, INITIAL, ms).process.value.own && id in End(c, INITIAL, ms).process.value.state.book.orders {
      AdmittedOrdersHaveSecrets(c, ms, id);
    }
  }

  /** Discarding a secret takes exactly that one, and never one of a resting order. */
  lemma DroppedSecretIsDead(c: Codec, ms: seq<Move>, id: Id)
    requires ParsesCanonically(c) && Possibly(c, INITIAL, ms) && SafeCrashes(c, INITIAL, ms)
    requires Enabled(c, End(c, INITIAL, ms), DropSecret(id))
    ensures var p, p' := End(c, INITIAL, ms).process.value, Do(c, End(c, INITIAL, ms), DropSecret(id)).process.value;
            && id !in p'.secrets && p'.secrets + {id} == p.secrets + {id}
            && p'.state == p.state && p'.own == p.own && id !in p.state.book.orders
  {
    InitialInv(c);
    RunKeepsInv(c, INITIAL, ms);
  }

  /** In any run, the dedupe guard discards no effect of an operation, whatever was appended off the lock meanwhile. */
  lemma GuardDiscardsNothing(c: Codec, ms: seq<Move>, data: seq<EventData>)
    requires ParsesCanonically(c) && Possibly(c, INITIAL, ms) && SafeCrashes(c, INITIAL, ms)
    requires End(c, INITIAL, ms).process.Some?
    ensures var y := End(c, INITIAL, ms);
            var b, es := y.process.value.state.book, Stamp(data, y.counter);
            && (forall i :: 0 <= i < |es| ==> es[i].number > b.applied)
            && ApplyAll(b, es).orders == Effects(b.orders, es)
            && ApplyAll(ApplyAll(b, es), es) == ApplyAll(b, es)
  {
    InitialInv(c);
    RunKeepsInv(c, INITIAL, ms);
    var y := End(c, INITIAL, ms);
    var b, es := y.process.value.state.book, Stamp(data, y.counter);
    StampNumbered(data, y.counter);
    FreshEventsApply(b, es, y.counter + |es|);
    ReapplyingChangesNothing(ApplyAll(b, es), es);
  }

  // ---------------------------------------------------------------- retention

  /** Some envelope key is at or above `n`. */
  ghost predicate KeyAtLeast(envelopes: Envelopes, n: nat) {
    exists k :: k in envelopes && n <= k
  }

  /** What was compacted, or is about to be, lies below some envelope that is still there. */
  ghost predicate KeysCover(y: System) {
    && (y.floor <= 1 || KeyAtLeast(y.envelopes, y.floor))
    && (y.process.Some? && y.process.value.snapshotter.Written? ==> KeyAtLeast(y.envelopes, y.process.value.snapshotter.watermark))
  }

  lemma KeyAtLeastGrows(envelopes: Envelopes, key: nat, e: Envelope, n: nat)
    requires KeyAtLeast(envelopes, n)
    ensures KeyAtLeast(envelopes[key := e], n)
  {
    var k :| k in envelopes && n <= k;
    assert k in envelopes[key := e];
  }

  lemma PruneKeepsKey(envelopes: Envelopes, cutoff: nat, n: nat)
    requires cutoff in envelopes && KeyAtLeast(envelopes, n)
    ensures KeyAtLeast(map k | k in envelopes && k >= cutoff :: envelopes[k], n)
  {
    var k :| k in envelopes && n <= k;
    var kept := map k | k in envelopes && k >= cutoff :: envelopes[k];
    if k >= cutoff {
      assert k in kept;
    } else {
      assert cutoff in kept && n <= cutoff;
    }
  }

  lemma GrowingKeepsCover(y: System, y': System, key: nat, e: Envelope)
    requires KeysCover(y) && y'.envelopes == y.envelopes[key := e] && y'.floor == y.floor
    requires y'.process.Some? && y'.process.value.snapshotter.Written? ==>
               || y'.process.value.snapshotter.watermark == key
               || (y.process.Some? && y'.process.value.snapshotter == y.process.value.snapshotter)
    ensures KeysCover(y')
  {
    assert key in y'.envelopes;
    if y.floor > 1 {
      KeyAtLeastGrows(y.envelopes, key, e, y.floor);
    }
    if y.process.Some? && y.process.value.snapshotter.Written? {
      KeyAtLeastGrows(y.envelopes, key, e, y.process.value.snapshotter.watermark);
    }
  }

  lemma PruningKeepsCover(c: Codec, y: System, cutoff: nat)
    requires KeysCover(y) && Enabled(c, y, PruneEnvelopes(cutoff))
    ensures KeysCover(Do(c, y, PruneEnvelopes(cutoff)))
  {
    PruneKeepsKey(y.envelopes, cutoff, y.process.value.snapshotter.watermark);
    if y.floor > 1 {
      PruneKeepsKey(y.envelopes, cutoff, y.floor);
    }
  }

  lemma CompactingKeepsCover(c: Codec, y: System, retain: nat)
    requires KeysCover(y) && Enabled(c, y, CompactLog(retain))
    ensures KeysCover(Do(c, y, CompactLog(retain)))
  {
    var y' := Do(c, y, CompactLog(retain));
    if y'.floor != y.floor {
      var k :| k in y.envelopes && y.process.value.snapshotter.watermark <= k;
      assert k in y'.envelopes && y'.floor <= k;
    }
  }

  lemma OtherKeepsCover(c: Codec, y: System, m: Move)
    requires KeysCover(y) && Enabled(c, y, m)
    requires !m.Lose? && !m.Tamper? && !m.WriteEnvelope? && !m.CompactLog? && !m.PruneEnvelopes?
    ensures KeysCover(Do(c, y, m))
  {
  }

  lemma MoveKeepsCover(c: Codec, y: System, m: Move)
    requires KeysCover(y) && Enabled(c, y, m) && !m.Lose?
    ensures KeysCover(Do(c, y, m))
  {
    if m.Tamper? {
      GrowingKeepsCover(y, Do(c, y, m), m.key, m.envelope);
    } else if m.WriteEnvelope? {
      var w := y.process.value.snapshotter;
      GrowingKeepsCover(y, Do(c, y, m), w.watermark, Sealed(w.watermark, w.state));
    } else if m.CompactLog? {
      CompactingKeepsCover(c, y, m.retain);
    } else if m.PruneEnvelopes? {
      PruningKeepsCover(c, y, m.cutoff);
    } else {
      OtherKeepsCover(c, y, m);
    }
  }

  predicate LosesNone(ms: seq<Move>) {
    forall i :: 0 <= i < |ms| ==> !ms[i].Lose?
  }

  lemma {:induction false} RunKeepsCover(c: Codec, y: System, ms: seq<Move>)
    requires KeysCover(y) && Possibly(c, y, ms) && LosesNone(ms)
    ensures KeysCover(End(c, y, ms))
    decreases |ms|
  {
    if ms != [] {
      MoveKeepsCover(c, y, ms[0]);
      RunKeepsCover(c, Do(c, y, ms[0]), ms[1..]);
    }
  }

  /** Compaction discards nothing numbered within `retain` of the watermark, and nothing it would have to bring back. */
  lemma CompactionRetains(c: Codec, y: System, retain: nat)
    requires Enabled(c, y, CompactLog(retain))
    ensures var y', w := Do(c, y, CompactLog(retain)), y.process.value.snapshotter.watermark;
            && y' == y.(floor := y'.floor) && y.floor <= y'.floor
            && (forall e :: e in y.history && y.floor <= e.number && w <= e.number + retain ==> y'.floor <= e.number)
            && (forall e :: e in y.history && 0 < e.number && e.number + retain < w ==> e.number < y'.floor)
  {
  }

  /** Pruning discards exactly the envelopes below the cutoff. */
  lemma PruningRetains(c: Codec, y: System, cutoff: nat, k: nat)
    requires Enabled(c, y, PruneEnvelopes(cutoff))
    ensures var y' := Do(c, y, PruneEnvelopes(cutoff));
            && y' == y.(envelopes := y'.envelopes)
            && (k in y'.envelopes <==> k in y.envelopes && cutoff <= k)
            && (k in y'.envelopes ==> y'.envelopes[k] == y.envelopes[k])
  {
  }

  /** Compaction and retention never leave a compacted log without an envelope: only losing files does. */
  lemma RetentionKeepsAnEnvelope(c: Codec, ms: seq<Move>)
    requires Possibly(c, INITIAL, ms) && LosesNone(ms)
    ensures var y := End(c, INITIAL, ms); y.floor <= 1 || exists k :: k in y.envelopes && y.floor <= k
  {
    RunKeepsCover(c, INITIAL, ms);
  }

  // ---------------------------------------------------------------- coming back up

  /**
    After any run that left the process down with its newest envelope intact, a boot succeeds exactly when the log was
    not compacted beyond that envelope and the number right after its watermark was not burned.
   */
  lemma NewestEnvelopeBootsExactly(c: Codec, ms: seq<Move>, probe: Probe, k: nat)
    requires ParsesCanonically(c) && Possibly(c, INITIAL, ms) && SafeCrashes(c, INITIAL, ms)
    requires var y := End(c, INITIAL, ms); y.process.None? && NewestIntact(y.envelopes, probe, k)
    ensures var y := End(c, INITIAL, ms);
            && (Boot(c, Kept(y.history, y.floor), y.envelopes, probe).Ok? <==> y.floor <= k + 1 && ContinuousAfter(y.history, k))
            && (LosesNone(ms) ==> y.floor <= k + 1)
  {
    InitialInv(c);
    RunKeepsInv(c, INITIAL, ms);
    var y := End(c, INITIAL, ms);
    DownIsConsistent(c, y);
    BootsFromNewestExactly(c, y.history, y.floor, y.envelopes, probe, k);
    if LosesNone(ms) {
      RetentionKeepsAnEnvelope(c, ms);
    }
  }

  /** If failed appends never burn numbers, the newest intact envelope boots exactly when the log reaches down to it. */
  lemma UnburnedNewestEnvelopeBoots(c: Codec, ms: seq<Move>, probe: Probe, k: nat)
    requires ParsesCanonically(c) && Possibly(c, INITIAL, ms) && forall i :: 0 <= i < |ms| ==> BurnsNothing(ms[i])
    requires var y := End(c, INITIAL, ms); y.process.None? && NewestIntact(y.envelopes, probe, k)
    ensures var y := End(c, INITIAL, ms);
            && (Boot(c, Kept(y.history, y.floor), y.envelopes, probe).Ok? <==> y.floor <= k + 1)
            && (LosesNone(ms) ==> y.floor <= k + 1)
  {
    InitialInv(c);
    UnburnedRunsAreSafe(c, INITIAL, ms);
    RunKeepsInv(c, INITIAL, ms);
    var y := End(c, INITIAL, ms);
    GaplessHasNoGap(y.history, k);
    NewestEnvelopeBootsExactly(c, ms, probe, k);
  }
}
