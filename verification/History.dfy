/** Logs in which every event was lawful when it was appended, and what follows for the whole of them. */
module History {
  import opened Types
  import opened Events
  import opened Projection
  import opened Legality

  /** Each event of `es` was lawful in the state that the ones before it led to. */
  predicate LawfulFrom(c: Codec, k: Core, es: seq<Event>) {
    es == [] ||
    var n := |es| - 1;
    && LawfulFrom(c, k, es[..n])
    && var before := FoldFrom(c, k, es[..n]);
    before.Ok? && Lawful(c, before.value, es[n])
  }

  predicate LawfulLog(c: Codec, es: seq<Event>) {
    LawfulFrom(c, EMPTY, es)
  }

  /** Lawful events always replay, and lead from healthy states to healthy states. */
  lemma {:induction false} LawfulReplays(c: Codec, k: Core, es: seq<Event>, after: nat, last: nat)
    requires Healthy(k, after) && LawfulFrom(c, k, es) && Numbered(es, after, last) && after <= last
    ensures FoldFrom(c, k, es).Ok? && Healthy(FoldFrom(c, k, es).value, last)
  {
    if es == [] {
      LaterKeepsHealth(k, after, last);
    } else {
      var n := |es| - 1;
      LawfulReplays(c, k, es[..n], after, es[n].number - 1);
      LawfulStep(c, FoldFrom(c, k, es[..n]).value, es[n], es[n].number - 1);
      LaterKeepsHealth(FoldFrom(c, k, es).value, es[n].number, last);
    }
  }

  lemma {:induction false} LawfulConcat(c: Codec, k: Core, es: seq<Event>, fs: seq<Event>)
    requires LawfulFrom(c, k, es) && FoldFrom(c, k, es).Ok?
    requires LawfulFrom(c, FoldFrom(c, k, es).value, fs)
    ensures LawfulFrom(c, k, es + fs)
  {
    if fs == [] {
      assert es + fs == es;
    } else {
      var n := |fs| - 1;
      LawfulConcat(c, k, es, fs[..n]);
      FoldFromConcat(c, k, es, fs[..n]);
      assert (es + fs)[..|es + fs| - 1] == es + fs[..n];
    }
  }

  /** What follows in a lawful log is lawful from where it starts. */
  lemma {:induction false} LawfulSuffix(c: Codec, k: Core, es: seq<Event>, fs: seq<Event>)
    requires LawfulFrom(c, k, es + fs) && FoldFrom(c, k, es).Ok?
    ensures LawfulFrom(c, FoldFrom(c, k, es).value, fs)
  {
    if fs != [] {
      var n := |fs| - 1;
      assert (es + fs)[..|es + fs| - 1] == es + fs[..n];
      LawfulSuffix(c, k, es, fs[..n]);
      FoldFromConcat(c, k, es, fs[..n]);
    }
  }

  lemma {:induction false} LawfulPrefix(c: Codec, k: Core, es: seq<Event>, n: nat)
    requires LawfulFrom(c, k, es) && n <= |es|
    ensures LawfulFrom(c, k, es[..n])
    ensures n < |es| ==> FoldFrom(c, k, es[..n]).Ok? && Lawful(c, FoldFrom(c, k, es[..n]).value, es[n])
  {
    if n == |es| {
      assert es[..n] == es;
    } else {
      var m := |es| - 1;
      if n < m {
        LawfulPrefix(c, k, es[..m], n);
        assert es[..m][..n] == es[..n];
      }
    }
  }

  lemma EmptyIsHealthy()
    ensures Healthy(EMPTY, 0)
  {
  }

  function LastNumber(es: seq<Event>): nat {
    if es == [] then 0 else es[|es| - 1].number
  }

  /** A log with lawful events and climbing numbers. */
  ghost predicate Proper(c: Codec, es: seq<Event>) {
    LawfulLog(c, es) && Numbered(es, 0, LastNumber(es))
  }

  /** One lawful event leads from `k` to `k'`. */
  predicate Next(c: Codec, k: Core, e: Event, k': Core) {
    Lawful(c, k, e) && Step(c, k, e) == Ok(k')
  }

  /** The states a log passes through: `ks[n]` is the one after its first `n` events. */
  ghost predicate Trace(c: Codec, es: seq<Event>, ks: seq<Core>) {
    && |ks| == |es| + 1
    && ks[0] == EMPTY
    && forall n :: 0 <= n < |es| ==> NextAt(c, es, ks, n)
  }

  ghost predicate NextAt(c: Codec, es: seq<Event>, ks: seq<Core>, n: nat)
    requires n < |es| && |ks| == |es| + 1
  {
    Next(c, ks[n], es[n], ks[n + 1])
  }

  ghost predicate AllHealthy(ks: seq<Core>, last: nat) {
    forall n :: 0 <= n < |ks| ==> Healthy(ks[n], last)
  }

  lemma TraceSnoc(c: Codec, es: seq<Event>, ks: seq<Core>, e: Event, k: Core)
    requires Trace(c, es, ks) && Next(c, ks[|es|], e, k)
    ensures Trace(c, es + [e], ks + [k])
  {
    forall n | 0 <= n < |es + [e]| ensures NextAt(c, es + [e], ks + [k], n) {
      if n < |es| {
        assert NextAt(c, es, ks, n);
      }
    }
  }

  lemma HealthySnoc(ks: seq<Core>, last: nat, k: Core, last': nat)
    requires AllHealthy(ks, last) && last <= last' && Healthy(k, last')
    ensures AllHealthy(ks + [k], last')
  {
    forall n | 0 <= n < |ks| ensures Healthy(ks[n], last') {
      LaterKeepsHealth(ks[n], last, last');
    }
  }

  lemma ProperPrefix(c: Codec, es: seq<Event>, fs: seq<Event>)
    requires Proper(c, es) && es != [] && fs == es[..|es| - 1]
    ensures Proper(c, fs) && LastNumber(fs) <= LastNumber(es)
  {
  }

  /** The last step of a proper log. */
  lemma LastStep(c: Codec, es: seq<Event>, fs: seq<Event>, j: Core) returns (k: Core)
    requires Proper(c, es) && es != [] && fs == es[..|es| - 1] && Fold(c, fs) == Ok(j)
    ensures Next(c, j, es[|es| - 1], k) && Fold(c, es) == Ok(k) && Healthy(k, LastNumber(es))
  {
    ProperFolds(c, es);
    k := Fold(c, es).value;
  }

  /** The trace ends where replay ends, and every state on it is healthy. */
  ghost predicate Traces(c: Codec, es: seq<Event>, ks: seq<Core>) {
    Trace(c, es, ks) && Fold(c, es) == Ok(ks[|es|]) && AllHealthy(ks, LastNumber(es))
  }

  lemma NothingTraces(c: Codec)
    ensures Traces(c, [], [EMPTY])
  {
    EmptyIsHealthy();
  }

  lemma TracesOn(c: Codec, es: seq<Event>, fs: seq<Event>, js: seq<Core>, k: Core)
    requires es != [] && fs == es[..|es| - 1] && Traces(c, fs, js) && LastNumber(fs) <= LastNumber(es)
    requires Next(c, js[|fs|], es[|es| - 1], k) && Fold(c, es) == Ok(k) && Healthy(k, LastNumber(es))
    ensures Traces(c, es, js + [k])
  {
    assert fs + [es[|es| - 1]] == es;
    TraceSnoc(c, fs, js, es[|es| - 1], k);
    HealthySnoc(js, LastNumber(fs), k, LastNumber(es));
  }

  /** Every proper log has a trace. */
  lemma {:induction false} TraceOf(c: Codec, es: seq<Event>) returns (ks: seq<Core>)
    requires Proper(c, es)
    ensures Traces(c, es, ks)
  {
    if es == [] {
      NothingTraces(c);
      ks := [EMPTY];
    } else {
      var fs := es[..|es| - 1];
      ProperPrefix(c, es, fs);
      var js := TraceOf(c, fs);
      var k := LastStep(c, es, fs, js[|fs|]);
      TracesOn(c, es, fs, js, k);
      ks := js + [k];
    }
  }

  /** A proper log replays, to a healthy state. */
  lemma ProperFolds(c: Codec, es: seq<Event>)
    requires Proper(c, es)
    ensures Fold(c, es).Ok? && Healthy(Fold(c, es).value, LastNumber(es))
  {
    EmptyIsHealthy();
    LawfulReplays(c, EMPTY, es, 0, LastNumber(es));
  }

  // ---------------------------------------------------------------- replay protection

  ghost predicate SpentWithin(k: Core, k': Core) {
    k.seen <= k'.seen && k.nullifiers <= k'.nullifiers && k.nonces <= k'.nonces
  }

  lemma SpentNext(c: Codec, k: Core, e: Event, k': Core)
    requires Next(c, k, e, k')
    ensures SpentWithin(k, k')
  {
  }

  /** Spent keys stay spent. */
  lemma {:induction false} SpentForever(c: Codec, es: seq<Event>, ks: seq<Core>, i: nat, j: nat)
    requires Trace(c, es, ks) && i <= j <= |es|
    ensures SpentWithin(ks[i], ks[j])
    decreases j
  {
    if i < j {
      SpentForever(c, es, ks, i, j - 1);
      assert NextAt(c, es, ks, j - 1);
      SpentNext(c, ks[j - 1], es[j - 1], ks[j]);
    }
  }

  /** The replay keys of a placement event. */
  function KeysOf(c: Codec, e: Event): (Key, Key, Key)
    requires e.data.OrderPlaced? && Rebuild(c, e.data.orderId, e.data.commitment, e.data.ciphertext, e.number).Ok?
  {
    var p := Rebuild(c, e.data.orderId, e.data.commitment, e.data.ciphertext, e.number).value;
    (c.digest(e.data.ciphertext), p.nullifier, p.nonceDigest)
  }

  lemma PlacementSpends(c: Codec, k: Core, e: Event, k': Core)
    requires Next(c, k, e, k') && e.data.OrderPlaced?
    ensures Rebuild(c, e.data.orderId, e.data.commitment, e.data.ciphertext, e.number).Ok?
    ensures var x := KeysOf(c, e);
            && x.0 in k'.seen && x.1 in k'.nullifiers && x.2 in k'.nonces
            && x.0 !in k.seen && x.1 !in k.nullifiers && x.2 !in k.nonces
  {
  }

  lemma SpendAt(c: Codec, es: seq<Event>, ks: seq<Core>, i: nat)
    requires Trace(c, es, ks) && i < |es| && es[i].data.OrderPlaced?
    ensures Rebuild(c, es[i].data.orderId, es[i].data.commitment, es[i].data.ciphertext, es[i].number).Ok?
    ensures var x, k, k' := KeysOf(c, es[i]), ks[i], ks[i + 1];
            && x.0 in k'.seen && x.1 in k'.nullifiers && x.2 in k'.nonces
            && x.0 !in k.seen && x.1 !in k.nullifiers && x.2 !in k.nonces
  {
    assert NextAt(c, es, ks, i);
    PlacementSpends(c, ks[i], es[i], ks[i + 1]);
  }

  lemma PlacedKeysDiffer(c: Codec, es: seq<Event>, ks: seq<Core>, i: nat, j: nat)
    requires Trace(c, es, ks) && i < j < |es| && es[i].data.OrderPlaced? && es[j].data.OrderPlaced?
    ensures Rebuild(c, es[i].data.orderId, es[i].data.commitment, es[i].data.ciphertext, es[i].number).Ok?
    ensures Rebuild(c, es[j].data.orderId, es[j].data.commitment, es[j].data.ciphertext, es[j].number).Ok?
    ensures var a, b := KeysOf(c, es[i]), KeysOf(c, es[j]); a.0 != b.0 && a.1 != b.1 && a.2 != b.2
  {
    SpendAt(c, es, ks, i);
    SpendAt(c, es, ks, j);
    SpentForever(c, es, ks, i + 1, j);
  }

  /** No ciphertext, nullifier or trader nonce is ever admitted twice. */
  lemma NoReplayedPlacement(c: Codec, es: seq<Event>, i: nat, j: nat)
    requires Proper(c, es) && i < j < |es| && es[i].data.OrderPlaced? && es[j].data.OrderPlaced?
    ensures Rebuild(c, es[i].data.orderId, es[i].data.commitment, es[i].data.ciphertext, es[i].number).Ok?
    ensures Rebuild(c, es[j].data.orderId, es[j].data.commitment, es[j].data.ciphertext, es[j].number).Ok?
    ensures var a, b := KeysOf(c, es[i]), KeysOf(c, es[j]); a.0 != b.0 && a.1 != b.1 && a.2 != b.2
  {
    var ks := TraceOf(c, es);
    PlacedKeysDiffer(c, es, ks, i, j);
  }

  // ---------------------------------------------------------------- delisting

  lemma DelistedNext(c: Codec, k: Core, e: Event, k': Core, pair: string)
    requires Next(c, k, e, k') && IsDelisted(k, pair)
    ensures IsDelisted(k', pair)
  {
  }

  lemma {:induction false} DelistedStays(c: Codec, es: seq<Event>, ks: seq<Core>, i: nat, j: nat, pair: string)
    requires Trace(c, es, ks) && i <= j <= |es| && IsDelisted(ks[i], pair)
    ensures IsDelisted(ks[j], pair)
    decreases j
  {
    if i < j {
      DelistedStays(c, es, ks, i, j - 1, pair);
      assert NextAt(c, es, ks, j - 1);
      DelistedNext(c, ks[j - 1], es[j - 1], ks[j], pair);
    }
  }

  /** A delisted pair stays delisted, and no later state has an order resting on it. */
  lemma DelistedForever(c: Codec, es: seq<Event>, ks: seq<Core>, i: nat, j: nat, pair: string)
    requires Proper(c, es) && Trace(c, es, ks) && i <= j <= |es| && IsDelisted(ks[i], pair)
    ensures IsDelisted(ks[j], pair)
    ensures forall id :: id in ks[j].orders ==> ks[j].orders[id].pair != pair
  {
    DelistedStays(c, es, ks, i, j, pair);
    TraceIsUnique(c, es, ks);
    DelistedIsEmpty(ks[j], LastNumber(es), pair);
  }

  lemma TracePrefix(c: Codec, es: seq<Event>, ks: seq<Core>, n: nat)
    requires Trace(c, es, ks) && n <= |es|
    ensures Trace(c, es[..n], ks[..n + 1])
  {
    var fs, js := es[..n], ks[..n + 1];
    forall i | 0 <= i < n ensures NextAt(c, fs, js, i) {
      assert NextAt(c, es, ks, i);
    }
  }

  lemma NextIsUnique(c: Codec, k: Core, e: Event, k': Core, k'': Core)
    requires Next(c, k, e, k') && Next(c, k, e, k'')
    ensures k' == k''
  {
  }

  lemma {:induction false} SameTrace(c: Codec, es: seq<Event>, ks: seq<Core>, js: seq<Core>, n: nat)
    requires Trace(c, es, ks) && Trace(c, es, js) && n <= |es|
    ensures ks[n] == js[n]
  {
    if n > 0 {
      SameTrace(c, es, ks, js, n - 1);
      assert NextAt(c, es, ks, n - 1) && NextAt(c, es, js, n - 1);
      NextIsUnique(c, ks[n - 1], es[n - 1], ks[n], js[n]);
    }
  }

  lemma TraceIsUnique(c: Codec, es: seq<Event>, ks: seq<Core>)
    requires Proper(c, es) && Trace(c, es, ks)
    ensures Traces(c, es, ks)
  {
    var js := TraceOf(c, es);
    forall n | 0 <= n <= |es| ensures ks[n] == js[n] {
      SameTrace(c, es, ks, js, n);
    }
  }
}
