/**
  Booting from a log whose beginning was compacted away, without any envelope to stand in for it: nothing
  checks that the log is complete, and what is left replays without complaint.
 */
module Truncation {
  import opened Types
  import opened Events
  import opened BookSpec
  import opened Projection
  import opened Legality
  import opened History
  import opened Operations
  import opened Recovery
  import opened Checkpoint

  // ---------------------------------------------------------------- what is left always replays

  /** Whether an event has a meaning does not depend on the state it finds. */
  lemma StepsAnywhere(c: Codec, k: Core, j: Core, e: Event)
    requires Lawful(c, k, e)
    ensures Step(c, j, e).Ok?
  {
  }

  lemma {:induction false} FoldsAnywhere(c: Codec, k: Core, j: Core, es: seq<Event>)
    requires LawfulFrom(c, k, es)
    ensures FoldFrom(c, j, es).Ok?
  {
    if es != [] {
      var n := |es| - 1;
      FoldsAnywhere(c, k, j, es[..n]);
      StepsAnywhere(c, FoldFrom(c, k, es[..n]).value, FoldFrom(c, j, es[..n]).value, es[n]);
    }
  }

  lemma TailIsLawful(c: Codec, es: seq<Event>, n: nat, k: Core)
    requires LawfulLog(c, es) && n <= |es| && Fold(c, es[..n]) == Ok(k)
    ensures LawfulFrom(c, k, es[n..])
  {
    assert es == es[..n] + es[n..];
    LawfulSuffix(c, EMPTY, es[..n], es[n..]);
  }

  /** Everything above a standing envelope is lawful from its state, and numbered above it. */
  lemma StandingTail(c: Codec, es: seq<Event>, watermark: nat, s: EngineState)
    requires Proper(c, es) && Stands(c, es, watermark, s)
    ensures var tail, last := After(es, watermark), Max(watermark, LastNumber(es));
            LawfulFrom(c, CoreOf(s), tail) && Numbered(tail, s.book.applied, last) && s.book.applied <= last
  {
    var n: nat :| Cut(es, n, watermark) && Fold(c, es[..n]) == Ok(CoreOf(s));
    AfterIsTail(es, n, watermark);
    CutNumbers(es, n, watermark);
    TailIsLawful(c, es, n, CoreOf(s));
  }

  // ---------------------------------------------------------------- what cannot be missed

  /** How many events of a kind the log holds. */
  function Count(es: seq<Event>, kind: EventData -> bool): nat {
    if es == [] then 0
    else Count(es[..|es| - 1], kind) + if kind(es[|es| - 1].data) then 1 else 0
  }

  predicate IsPlacement(data: EventData) {
    data.OrderPlaced?
  }

  predicate IsAuction(data: EventData) {
    data.AuctionExecuted?
  }

  lemma {:induction false} CountConcat(es: seq<Event>, fs: seq<Event>, kind: EventData -> bool)
    ensures Count(es + fs, kind) == Count(es, kind) + Count(fs, kind)
  {
    if fs == [] {
      assert es + fs == es;
    } else {
      var n := |fs| - 1;
      CountConcat(es, fs[..n], kind);
      assert (es + fs)[..|es + fs| - 1] == es + fs[..n];
    }
  }

  lemma {:induction false} CountFinds(es: seq<Event>, kind: EventData -> bool, i: nat)
    requires i < |es| && kind(es[i].data)
    ensures Count(es, kind) > 0
  {
    if i < |es| - 1 {
      CountFinds(es[..|es| - 1], kind, i);
    }
  }

  lemma StepCounts(c: Codec, k: Core, e: Event, k': Core)
    requires Step(c, k, e) == Ok(k')
    ensures |k'.auctionLog| == |k.auctionLog| + if IsAuction(e.data) then 1 else 0
    ensures |k'.seen| <= |k.seen| + if IsPlacement(e.data) then 1 else 0
    ensures Lawful(c, k, e) ==> |k'.seen| == |k.seen| + if IsPlacement(e.data) then 1 else 0
  {
  }

  /** A log leaves one auction record an auction, and at most one spent ciphertext a placement: exactly one if it is lawful. */
  lemma {:induction false} FoldCounts(c: Codec, es: seq<Event>)
    requires Fold(c, es).Ok?
    ensures var k := Fold(c, es).value;
            && |k.auctionLog| == Count(es, IsAuction) && |k.seen| <= Count(es, IsPlacement)
            && (LawfulLog(c, es) ==> |k.seen| == Count(es, IsPlacement))
  {
    if es != [] {
      var n := |es| - 1;
      FoldCounts(c, es[..n]);
      StepCounts(c, Fold(c, es[..n]).value, es[n], Fold(c, es).value);
    }
  }

  /** Without a placement or an auction among the events, a log means something else. */
  lemma TailMeansLess(c: Codec, es: seq<Event>, n: nat, i: nat)
    requires LawfulLog(c, es) && i < n <= |es| && (IsPlacement(es[i].data) || IsAuction(es[i].data))
    requires Fold(c, es).Ok? && Fold(c, es[n..]).Ok?
    ensures Fold(c, es[n..]) != Fold(c, es)
  {
    FoldCounts(c, es);
    FoldCounts(c, es[n..]);
    assert es[..n] + es[n..] == es;
    CountConcat(es[..n], es[n..], IsAuction);
    CountConcat(es[..n], es[n..], IsPlacement);
    assert es[..n][i] == es[i];
    if IsPlacement(es[i].data) {
      CountFinds(es[..n], IsPlacement, i);
    } else {
      CountFinds(es[..n], IsAuction, i);
    }
  }

  // ---------------------------------------------------------------- what can be missed

  /** The event places an order on the pair. */
  predicate PlacesOn(c: Codec, e: Event, pair: string) {
    && e.data.OrderPlaced?
    && var p := Rebuild(c, e.data.orderId, e.data.commitment, e.data.ciphertext, e.number);
    p.Ok? && p.value.order.pair == pair
  }

  predicate PlacedIn(c: Codec, es: seq<Event>, pair: string) {
    exists i :: 0 <= i < |es| && PlacesOn(c, es[i], pair)
  }

  lemma PlacedInSnoc(c: Codec, es: seq<Event>, e: Event, pair: string)
    ensures PlacedIn(c, es + [e], pair) <==> PlacedIn(c, es, pair) || PlacesOn(c, e, pair)
  {
    if PlacedIn(c, es, pair) {
      var i :| 0 <= i < |es| && PlacesOn(c, es[i], pair);
      assert (es + [e])[i] == es[i];
    }
    assert (es + [e])[|es|] == e;
  }

  /** Nothing here leaves an order, an auction record or a spent key. */
  predicate Quiet(es: seq<Event>) {
    forall i :: 0 <= i < |es| ==> !IsPlacement(es[i].data) && !IsAuction(es[i].data)
  }

  /** The pair was registered by this event, with this configuration but for its status. */
  predicate RegisteredBy(e: Event, pair: string, cfg: PairConfig) {
    e.data.PairRegistered? && e.data.pair == pair && SameButStatus(cfg, RegisteredConfig(e.data))
  }

  predicate RegisteredIn(es: seq<Event>, pair: string, cfg: PairConfig) {
    exists i :: 0 <= i < |es| && RegisteredBy(es[i], pair, cfg)
  }

  /** These are exactly the pairs registered in the log, as they were registered but for their status. */
  predicate Registry(es: seq<Event>, pairs: map<string, PairConfig>) {
    && (forall x :: x in pairs ==> RegisteredIn(es, x, pairs[x]))
    && (forall i :: 0 <= i < |es| && es[i].data.PairRegistered? ==> Entered(es[i].data, pairs))
  }

  predicate Entered(data: EventData, pairs: map<string, PairConfig>)
    requires data.PairRegistered?
  {
    data.pair in pairs && SameButStatus(pairs[data.pair], RegisteredConfig(data))
  }

  lemma RegisteredInGrows(es: seq<Event>, e: Event, pair: string, was: PairConfig, cfg: PairConfig)
    requires RegisteredIn(es, pair, was) && SameButStatus(cfg, was)
    ensures RegisteredIn(es + [e], pair, cfg)
  {
    var i :| 0 <= i < |es| && RegisteredBy(es[i], pair, was);
    assert (es + [e])[i] == es[i];
    assert RegisteredBy((es + [e])[i], pair, cfg);
  }

  /** A lawful event changes of a registered pair at most the status, and registers no pair but its own. */
  lemma StepRegisters(c: Codec, k: Core, e: Event, k': Core)
    requires Lawful(c, k, e) && Step(c, k, e) == Ok(k')
    ensures forall x :: x in k.pairs ==> x in k'.pairs && SameButStatus(k'.pairs[x], k.pairs[x])
    ensures forall x :: x in k'.pairs && x !in k.pairs ==> RegisteredBy(e, x, k'.pairs[x])
    ensures e.data.PairRegistered? ==> Entered(e.data, k'.pairs)
  {
  }

  /** A quiet lawful event changes nothing else. */
  lemma QuietStep(c: Codec, k: Core, e: Event, k': Core)
    requires Lawful(c, k, e) && Step(c, k, e) == Ok(k') && k == EMPTY.(pairs := k.pairs)
    requires !IsPlacement(e.data) && !IsAuction(e.data)
    ensures k' == EMPTY.(pairs := k'.pairs)
  {
  }

  lemma RegistrySnoc(es: seq<Event>, e: Event, was: map<string, PairConfig>, now: map<string, PairConfig>)
    requires Registry(es, was)
    requires forall x :: x in was ==> x in now && SameButStatus(now[x], was[x])
    requires forall x :: x in now && x !in was ==> RegisteredBy(e, x, now[x])
    requires e.data.PairRegistered? ==> Entered(e.data, now)
    ensures Registry(es + [e], now)
  {
    forall x | x in now ensures RegisteredIn(es + [e], x, now[x]) {
      if x in was {
        RegisteredInGrows(es, e, x, was[x], now[x]);
      } else {
        assert RegisteredBy((es + [e])[|es|], x, now[x]);
      }
    }
    forall i | 0 <= i < |es + [e]| && (es + [e])[i].data.PairRegistered? ensures Entered((es + [e])[i].data, now) {
      if i < |es| {
        assert Entered(es[i].data, was);
      }
    }
  }

  /** Over every lawful log the registry holds exactly the registrations. */
  lemma {:induction false} LawfulRegistry(c: Codec, es: seq<Event>)
    requires LawfulLog(c, es)
    ensures Fold(c, es).Ok? && Registry(es, Fold(c, es).value.pairs)
  {
    FoldsAnywhere(c, EMPTY, EMPTY, es);
    if es != [] {
      var n := |es| - 1;
      var fs, e := es[..n], es[n];
      LawfulRegistry(c, fs);
      StepRegisters(c, Fold(c, fs).value, e, Fold(c, es).value);
      RegistrySnoc(fs, e, Fold(c, fs).value.pairs, Fold(c, es).value.pairs);
      assert fs + [e] == es;
    }
  }

  /** A quiet log leaves nothing but its registrations. */
  lemma {:induction false} QuietFold(c: Codec, es: seq<Event>)
    requires LawfulLog(c, es) && Quiet(es)
    ensures Fold(c, es).Ok? && Fold(c, es).value == EMPTY.(pairs := Fold(c, es).value.pairs)
  {
    FoldsAnywhere(c, EMPTY, EMPTY, es);
    if es != [] {
      var n := |es| - 1;
      QuietFold(c, es[..n]);
      QuietStep(c, Fold(c, es[..n]).value, es[n], Fold(c, es).value);
    }
  }

  // ---------------------------------------------------------------- replaying without the beginning

  /**
    How `b`, rebuilt without the pairs `lost`, compares with the true `a`: a lost pair is missing until its first
    placement, and from then on is the default pair with the true status; everything else agrees.
   */
  ghost predicate Shadows(c: Codec, a: Core, b: Core, lost: map<string, PairConfig>, tail: seq<Event>) {
    && b == a.(pairs := b.pairs)
    && forall x :: PairShadows(c, a.pairs, b.pairs, lost, tail, x)
  }

  ghost predicate PairShadows(c: Codec, a: map<string, PairConfig>, b: map<string, PairConfig>,
                              lost: map<string, PairConfig>, tail: seq<Event>, x: string) {
    if x in lost then
      && x in a && SameButStatus(a[x], lost[x])
      && (x in b <==> PlacedIn(c, tail, x)) && (x in b ==> b[x] == DEFAULT_PAIR.(status := a[x].status))
    else (x in a <==> x in b) && (x in a ==> a[x] == b[x])
  }

  lemma PlacementShadows(c: Codec, a: Core, b: Core, lost: map<string, PairConfig>, tail: seq<Event>, e: Event, a': Core, b': Core)
    requires Shadows(c, a, b, lost, tail) && Lawful(c, a, e) && IsPlacement(e.data)
    requires Step(c, a, e) == Ok(a') && Step(c, b, e) == Ok(b')
    ensures Shadows(c, a', b', lost, tail + [e])
  {
    forall x ensures PairShadows(c, a'.pairs, b'.pairs, lost, tail + [e], x) {
      assert PairShadows(c, a.pairs, b.pairs, lost, tail, x);
      PlacedInSnoc(c, tail, e, x);
    }
  }

  lemma OtherShadows(c: Codec, a: Core, b: Core, lost: map<string, PairConfig>, tail: seq<Event>, e: Event, a': Core, b': Core)
    requires Shadows(c, a, b, lost, tail) && Lawful(c, a, e) && !IsPlacement(e.data)
    requires Step(c, a, e) == Ok(a') && Step(c, b, e) == Ok(b')
    ensures Shadows(c, a', b', lost, tail + [e])
  {
    forall x ensures PairShadows(c, a'.pairs, b'.pairs, lost, tail + [e], x) {
      assert PairShadows(c, a.pairs, b.pairs, lost, tail, x);
      PlacedInSnoc(c, tail, e, x);
    }
  }

  lemma {:induction false} TailShadows(c: Codec, k: Core, tail: seq<Event>)
    requires k == EMPTY.(pairs := k.pairs) && LawfulFrom(c, k, tail)
    ensures FoldFrom(c, k, tail).Ok? && FoldFrom(c, EMPTY, tail).Ok?
    ensures Shadows(c, FoldFrom(c, k, tail).value, FoldFrom(c, EMPTY, tail).value, k.pairs, tail)
  {
    FoldsAnywhere(c, k, k, tail);
    FoldsAnywhere(c, k, EMPTY, tail);
    if tail != [] {
      var n := |tail| - 1;
      var init, e := tail[..n], tail[n];
      TailShadows(c, k, init);
      var a, b := FoldFrom(c, k, init).value, FoldFrom(c, EMPTY, init).value;
      if IsPlacement(e.data) {
        PlacementShadows(c, a, b, k.pairs, init, e, FoldFrom(c, k, tail).value, FoldFrom(c, EMPTY, tail).value);
      } else {
        OtherShadows(c, a, b, k.pairs, init, e, FoldFrom(c, k, tail).value, FoldFrom(c, EMPTY, tail).value);
      }
      assert init + [e] == tail;
    }
  }

  /** The lost pair comes back as it was: it had the default configuration, and an order is placed on it later. */
  predicate ComesBack(c: Codec, cfg: PairConfig, tail: seq<Event>, pair: string) {
    SameButStatus(cfg, DEFAULT_PAIR) && PlacedIn(c, tail, pair)
  }

  lemma ShadowsAgreeExactly(c: Codec, a: Core, b: Core, lost: map<string, PairConfig>, tail: seq<Event>)
    requires Shadows(c, a, b, lost, tail)
    ensures a == b <==> forall x :: x in lost ==> ComesBack(c, lost[x], tail, x)
  {
    forall x ensures PairShadows(c, a.pairs, b.pairs, lost, tail, x) {
    }
    if a == b {
      forall x | x in lost ensures ComesBack(c, lost[x], tail, x) {
        assert PairShadows(c, a.pairs, b.pairs, lost, tail, x);
      }
    }
    if forall x :: x in lost ==> ComesBack(c, lost[x], tail, x) {
      forall x ensures x in a.pairs <==> x in b.pairs {
        assert PairShadows(c, a.pairs, b.pairs, lost, tail, x);
      }
      forall x | x in a.pairs ensures a.pairs[x] == b.pairs[x] {
        assert PairShadows(c, a.pairs, b.pairs, lost, tail, x);
      }
      assert a.pairs == b.pairs;
    }
  }

  // ---------------------------------------------------------------- the exact condition

  /**
    The rest of the log makes up for the event. Placements and auctions cannot be made up for; a registration can, if it
    was of the default configuration and an order on the pair follows; nothing else is missed.
   */
  predicate MadeUpFor(c: Codec, data: EventData, rest: seq<Event>) {
    && !IsPlacement(data) && !IsAuction(data)
    && (data.PairRegistered? ==> RegisteredConfig(data) == DEFAULT_PAIR && PlacedIn(c, rest, data.pair))
  }

  predicate AllMadeUpFor(c: Codec, lost: seq<Event>, rest: seq<Event>) {
    forall i :: 0 <= i < |lost| ==> MadeUpFor(c, lost[i].data, rest)
  }

  lemma RegistrationsComeBackExactly(c: Codec, lost: seq<Event>, pairs: map<string, PairConfig>, rest: seq<Event>)
    requires Quiet(lost) && Registry(lost, pairs)
    ensures (forall x :: x in pairs ==> ComesBack(c, pairs[x], rest, x)) <==> AllMadeUpFor(c, lost, rest)
  {
    if forall x :: x in pairs ==> ComesBack(c, pairs[x], rest, x) {
      forall i | 0 <= i < |lost| ensures MadeUpFor(c, lost[i].data, rest) {
        if lost[i].data.PairRegistered? {
          assert Entered(lost[i].data, pairs);
          assert ComesBack(c, pairs[lost[i].data.pair], rest, lost[i].data.pair);
        }
      }
    }
    if AllMadeUpFor(c, lost, rest) {
      forall x | x in pairs ensures ComesBack(c, pairs[x], rest, x) {
        assert RegisteredIn(lost, x, pairs[x]);
        var i :| 0 <= i < |lost| && RegisteredBy(lost[i], x, pairs[x]);
        assert MadeUpFor(c, lost[i].data, rest);
      }
    }
  }

  lemma QuietTailExactly(c: Codec, lost: seq<Event>, tail: seq<Event>)
    requires LawfulLog(c, lost) && Quiet(lost) && Fold(c, lost).Ok? && LawfulFrom(c, Fold(c, lost).value, tail)
    ensures Fold(c, tail) == Fold(c, lost + tail) <==> AllMadeUpFor(c, lost, tail)
  {
    QuietFold(c, lost);
    LawfulRegistry(c, lost);
    var k := Fold(c, lost).value;
    FoldFromConcat(c, EMPTY, lost, tail);
    TailShadows(c, k, tail);
    ShadowsAgreeExactly(c, FoldFrom(c, k, tail).value, Fold(c, tail).value, k.pairs, tail);
    RegistrationsComeBackExactly(c, lost, k.pairs, tail);
  }

  /** The end of a lawful log means what the whole log means exactly when it makes up for all the rest. */
  lemma TailMeansAllExactly(c: Codec, lost: seq<Event>, tail: seq<Event>)
    requires LawfulLog(c, lost + tail) && Fold(c, lost + tail).Ok?
    ensures Fold(c, tail).Ok? && (Fold(c, tail) == Fold(c, lost + tail) <==> AllMadeUpFor(c, lost, tail))
  {
    var es, n := lost + tail, |lost|;
    assert es[..n] == lost && es[n..] == tail;
    LawfulPrefix(c, EMPTY, es, n);
    FoldsAnywhere(c, EMPTY, EMPTY, lost);
    LawfulSuffix(c, EMPTY, lost, tail);
    FoldsAnywhere(c, Fold(c, lost).value, EMPTY, tail);
    if Quiet(lost) {
      QuietTailExactly(c, lost, tail);
    } else {
      var i :| 0 <= i < |lost| && (IsPlacement(lost[i].data) || IsAuction(lost[i].data));
      assert es[i] == lost[i] && !MadeUpFor(c, lost[i].data, tail);
      TailMeansLess(c, es, n, i);
    }
  }

  /** What is kept makes up for everything below the floor. */
  predicate MakesUp(c: Codec, es: seq<Event>, floor: nat) {
    forall i :: 0 <= i < |es| && es[i].number < floor ==> MadeUpFor(c, es[i].data, Kept(es, floor))
  }

  lemma MakesUpByIndex(c: Codec, es: seq<Event>, floor: nat, n: nat)
    requires n <= |es| && forall i :: 0 <= i < |es| ==> (i < n <==> es[i].number < floor)
    ensures MakesUp(c, es, floor) <==> AllMadeUpFor(c, es[..n], Kept(es, floor))
  {
    var lost := es[..n];
    if AllMadeUpFor(c, lost, Kept(es, floor)) {
      forall i | 0 <= i < |es| && es[i].number < floor ensures MadeUpFor(c, es[i].data, Kept(es, floor)) {
        assert lost[i] == es[i];
      }
    }
  }

  /** The floor cuts the log in two. */
  lemma FloorCut(es: seq<Event>, floor: nat, last: nat) returns (n: nat)
    requires Numbered(es, 0, last)
    ensures n <= |es| && Kept(es, floor) == es[n..] && forall i :: 0 <= i < |es| ==> (i < n <==> es[i].number < floor)
  {
    n := 0;
    if floor > 0 {
      n := CutExists(es, floor - 1, last);
      AfterIsTail(es, n, floor - 1);
    }
  }

  lemma SplitAtFloor(c: Codec, es: seq<Event>, floor: nat, last: nat) returns (lost: seq<Event>)
    requires Numbered(es, 0, last)
    ensures es == lost + Kept(es, floor) && (MakesUp(c, es, floor) <==> AllMadeUpFor(c, lost, Kept(es, floor)))
    ensures Numbered(Kept(es, floor), 0, last)
  {
    var n := FloorCut(es, floor, last);
    lost := es[..n];
    assert es == lost + es[n..];
    NumberedTail(es, n, 0, last);
    MakesUpByIndex(c, es, floor, n);
  }

  lemma ReplayMeans(c: Codec, tail: seq<Event>, last: nat)
    requires Numbered(tail, 0, last) && Fold(c, tail).Ok?
    ensures var r := Replay(c, FRESH, tail); r.Ok? && Fold(c, tail) == Ok(CoreOf(r.value)) && r.value.book.applied <= last
  {
    assert CoreOf(FRESH) == EMPTY;
    ReplayFollowsFold(c, Begin(FRESH), tail, last);
  }

  /**
    A boot that is shown no envelope never fails. It rebuilds what the entire history means exactly when what is kept
    of the log makes up for everything compacted.
   */
  lemma BootUnaskedExactly(c: Codec, es: seq<Event>, floor: nat, envelopes: Envelopes, probe: Probe)
    requires Proper(c, es) && Unasked(envelopes, probe)
    ensures var r := Boot(c, Kept(es, floor), envelopes, probe);
            r.Ok? && (Faithful(c, es, r.value) <==> MakesUp(c, es, floor))
  {
    var tail, last := Kept(es, floor), LastNumber(es);
    var lost := SplitAtFloor(c, es, floor, last);
    ProperFolds(c, es);
    TailMeansAllExactly(c, lost, tail);
    ReplayMeans(c, tail, last);
  }

  // ---------------------------------------------------------------- a boot that lies

  lemma TwoRegistrations(c: Codec, d: EventData, e: EventData, log: seq<Event>)
    requires d.PairRegistered? && e.PairRegistered? && Canonical(c, d.pair) && Canonical(c, e.pair) && d.pair != e.pair
    requires log == [Event(1, d), Event(2, e)]
    ensures Proper(c, log) && Fold(c, log).Ok? && d.pair in Fold(c, log).value.pairs
  {
    var k1 := EMPTY.(pairs := map[d.pair := RegisteredConfig(d)]);
    var first := log[..1];
    assert first == [Event(1, d)] && first[..0] == [];
    assert FoldFrom(c, EMPTY, []) == Ok(EMPTY) && LawfulFrom(c, EMPTY, []);
    assert FoldFrom(c, EMPTY, first) == Ok(k1) && LawfulFrom(c, EMPTY, first);
    assert Fold(c, log) == Ok(k1.(pairs := k1.pairs[e.pair := RegisteredConfig(e)]));
  }

  lemma OneRegistration(c: Codec, e: EventData, log: seq<Event>)
    requires e.PairRegistered? && Canonical(c, e.pair) && log == [Event(2, e)]
    ensures var r := Replay(c, FRESH, log); r.Ok? && CoreOf(r.value).pairs.Keys == {e.pair}
  {
    assert log[..0] == [] && ReplayAll(c, Begin(FRESH), log[..0]) == Ok(Begin(FRESH));
    assert ReplayAll(c, Begin(FRESH), log) == ReplayEvent(c, Begin(FRESH), log[0]);
  }

  /** Without a snapshot store nothing checks that the log is complete: a compacted one boots to a wrong state. */
  lemma BootWithoutStoreCanLie(c: Codec, a: string, b: string)
    requires Canonical(c, a) && Canonical(c, b) && a != b
    ensures var log := Stamp([PairRegistered(a, 0, 0, 0, 0, None, 18, 18), PairRegistered(b, 0, 0, 0, 0, None, 18, 18)], 0);
            var r := Boot(c, Kept(log, 2), map[], NoStore);
            && Proper(c, log) && r.Ok? && Fold(c, log).Ok? && CoreOf(r.value) != Fold(c, log).value
  {
    var d, e := PairRegistered(a, 0, 0, 0, 0, None, 18, 18), PairRegistered(b, 0, 0, 0, 0, None, 18, 18);
    var log := Stamp([d, e], 0);
    assert log == [Event(1, d), Event(2, e)];
    TwoRegistrations(c, d, e, log);
    assert Cut(log, 1, 1);
    AfterIsTail(log, 1, 1);
    assert Kept(log, 2) == log[1..] == [Event(2, e)];
    OneRegistration(c, e, log[1..]);
  }

  // ---------------------------------------------------------------- placements stay fresh

  /** Whatever rests in the one rests in the other, unchanged. */
  predicate PartOf(a: Orders, b: Orders) {
    forall id :: id in a ==> id in b && a[id] == b[id]
  }

  lemma FillStaysWithin(a: Orders, b: Orders, f: Fill)
    requires PartOf(a, b)
    ensures PartOf(ApplyFill(a, f), ApplyFill(b, f))
  {
  }

  lemma EffectStaysWithin(a: Orders, b: Orders, data: EventData)
    requires PartOf(a, b)
    ensures PartOf(Effect(a, data), Effect(b, data))
  {
    if data.OrderMatched? {
      FillStaysWithin(a, b, data.m.bid);
      FillStaysWithin(ApplyFill(a, data.m.bid), ApplyFill(b, data.m.bid), data.m.ask);
    }
  }

  lemma StepStaysWithin(c: Codec, j: Core, k: Core, e: Event, j': Core, k': Core)
    requires PartOf(j.orders, k.orders) && Step(c, j, e) == Ok(j') && Step(c, k, e) == Ok(k')
    ensures PartOf(j'.orders, k'.orders)
  {
    EffectStaysWithin(j.orders, k.orders, e.data);
  }

  /** Replaying a tail from nothing never brings up an order that the whole log does not have resting. */
  lemma {:induction false} TailStaysWithin(c: Codec, k: Core, tail: seq<Event>)
    requires LawfulFrom(c, k, tail)
    ensures FoldFrom(c, EMPTY, tail).Ok? && FoldFrom(c, k, tail).Ok?
    ensures PartOf(FoldFrom(c, EMPTY, tail).value.orders, FoldFrom(c, k, tail).value.orders)
  {
    FoldsAnywhere(c, k, k, tail);
    FoldsAnywhere(c, k, EMPTY, tail);
    if tail != [] {
      var n := |tail| - 1;
      TailStaysWithin(c, k, tail[..n]);
      StepStaysWithin(c, FoldFrom(c, EMPTY, tail[..n]).value, FoldFrom(c, k, tail[..n]).value, tail[n],
                      FoldFrom(c, EMPTY, tail).value, FoldFrom(c, k, tail).value);
    }
  }
}
