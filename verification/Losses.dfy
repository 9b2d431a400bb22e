/**
  What a crash can lose. A crash is safe when no watermark ever written lies above the last number still
  stored; that is exactly when nothing can be lost afterwards.
 */
module Losses {
  import opened Types
  import opened Events
  import opened Projection
  import opened History
  import opened Operations
  import opened Refinement
  import opened Recovery
  import opened Checkpoint
  import opened System
  import opened SystemSafety
  import opened Runs

  // ---------------------------------------------------------------- putting runs together

  /** The moves lead from `y` to `z`. */
  ghost predicate Leads(c: Codec, y: System, ms: seq<Move>, z: System) {
    Possibly(c, y, ms) && End(c, y, ms) == z
  }

  /** They do, and every crash among them is safe. */
  ghost predicate LeadsSafely(c: Codec, y: System, ms: seq<Move>, z: System) {
    Leads(c, y, ms, z) && SafeCrashes(c, y, ms)
  }

  lemma LeadsByOne(c: Codec, y: System, m: Move, z: System)
    requires Enabled(c, y, m) && z == Do(c, y, m)
    ensures Leads(c, y, [m], z) && ((m.Crash? ==> CrashSafe(y)) ==> SafeCrashes(c, y, [m]))
  {
    assert [m][1..] == [];
    assert LeadsSafely(c, z, [], z);
  }

  lemma {:induction false} LeadsOn(c: Codec, y: System, ms: seq<Move>, z: System, ns: seq<Move>, x: System)
    requires Leads(c, y, ms, z) && Leads(c, z, ns, x)
    ensures Leads(c, y, ms + ns, x)
    ensures SafeCrashes(c, y, ms) && SafeCrashes(c, z, ns) ==> SafeCrashes(c, y, ms + ns)
    decreases |ms|
  {
    if ms == [] {
      assert ms + ns == ns;
    } else {
      assert (ms + ns)[1..] == ms[1..] + ns && (ms + ns)[0] == ms[0];
      LeadsOn(c, Do(c, y, ms[0]), ms[1..], z, ns, x);
    }
  }

  /** One more move at the end. */
  lemma LeadsThen(c: Codec, y: System, ms: seq<Move>, z: System, m: Move, x: System)
    requires Leads(c, y, ms, z) && Enabled(c, z, m) && x == Do(c, z, m)
    ensures Leads(c, y, ms + [m], x)
    ensures SafeCrashes(c, y, ms) && (m.Crash? ==> CrashSafe(z)) ==> SafeCrashes(c, y, ms + [m])
  {
    LeadsByOne(c, z, m, x);
    LeadsOn(c, y, ms, z, [m], x);
  }

  // ---------------------------------------------------------------- what losing means

  /** A process runs with a state that the history contradicts. */
  ghost predicate Contradicted(c: Codec, z: System) {
    z.process.Some? && Fold(c, z.history) != Ok(CoreOf(z.process.value.state))
  }

  /** After crashing here, some moves whose own crashes are safe end in a contradicted state. */
  ghost predicate LosesAfterCrash(c: Codec, y: System)
    requires Enabled(c, y, Crash)
  {
    exists ms, z :: LeadsSafely(c, Do(c, y, Crash), ms, z) && Contradicted(c, z)
  }

  lemma SafeCrashLosesNothing(c: Codec, y: System)
    requires ParsesCanonically(c) && Inv(c, y) && Enabled(c, y, Crash) && CrashSafe(y)
    ensures !LosesAfterCrash(c, y)
  {
    CrashKeepsInv(c, y);
    forall ms, z | LeadsSafely(c, Do(c, y, Crash), ms, z) ensures !Contradicted(c, z) {
      RunKeepsInv(c, Do(c, y, Crash), ms);
    }
  }

  // ---------------------------------------------------------------- the highest seal

  lemma {:induction false} HighestSeal(s: set<Envelope>) returns (e: Envelope)
    requires s != {} && forall x :: x in s ==> x.Sealed?
    ensures e in s && forall x :: x in s ==> x.watermark <= e.watermark
    decreases |s|
  {
    var x := Pick(s);
    if s == {x} {
      e := x;
    } else {
      assert s == {x} + (s - {x});
      e := HighestSeal(s - {x});
      if e.watermark < x.watermark {
        e := x;
      }
    }
  }

  /** The last event is kept unless its number is below the floor. */
  lemma LastIsKept(es: seq<Event>, floor: nat)
    requires es != [] && es[|es| - 1].number >= floor
    ensures LastNumber(Kept(es, floor)) == es[|es| - 1].number
  {
  }

  /** Every number in the history is at or below the watermark. */
  predicate Covers(watermark: nat, es: seq<Event>) {
    forall i :: 0 <= i < |es| ==> es[i].number <= watermark
  }

  /** A watermark above everything still stored, and at or above the floor, is above the whole history. */
  lemma AboveStoredIsAboveAll(es: seq<Event>, floor: nat, watermark: nat)
    requires Numbered(es, 0, LastNumber(es)) && floor <= watermark && LastNumber(Kept(es, floor)) < watermark
    ensures Covers(watermark, es)
  {
    if es != [] && es[|es| - 1].number >= floor {
      LastIsKept(es, floor);
    }
  }

  /** A seal above the whole history holds its meaning. */
  lemma SealAboveAll(c: Codec, es: seq<Event>, watermark: nat, state: EngineState)
    requires Stands(c, es, watermark, state) && Covers(watermark, es)
    ensures Fold(c, es) == Ok(CoreOf(state))
  {
    var n: nat :| Cut(es, n, watermark) && Fold(c, es[..n]) == Ok(CoreOf(state));
    AfterNone(es, watermark);
    AfterIsTail(es, n, watermark);
    assert es[..n] == es;
  }

  /** In an unsafe state the highest seal lies above the whole history and holds its meaning. */
  lemma UnsafeSeal(c: Codec, y: System) returns (e: Envelope)
    requires LogOk(c, y) && SealsOk(c, y) && FloorOk(y) && !CrashSafe(y)
    ensures e in y.sealed && e.Sealed? && forall x :: x in y.sealed ==> x.watermark <= e.watermark
    ensures LastNumber(Kept(y.history, y.floor)) < e.watermark && y.floor <= e.watermark
    ensures Covers(e.watermark, y.history) && Fold(c, y.history) == Ok(CoreOf(e.state))
  {
    e := HighestSeal(y.sealed);
    AboveStoredIsAboveAll(y.history, y.floor, e.watermark);
    SealAboveAll(c, y.history, e.watermark, e.state);
  }

  // ---------------------------------------------------------------- booting from a chosen envelope

  /** Only the envelope under `w` is read. */
  function Only(envelopes: Envelopes, w: nat): Probe {
    Listed(envelopes.Keys - {w}, true)
  }

  lemma {:induction false} AfterNone(es: seq<Event>, n: nat)
    requires Covers(n, es)
    ensures After(es, n) == []
  {
    if es != [] {
      AfterNone(es[..|es| - 1], n);
    }
  }

  lemma {:induction false} KeptIsCovered(es: seq<Event>, n: nat, bound: nat)
    requires Covers(bound, es)
    ensures Covers(bound, After(es, n))
  {
    if es != [] {
      KeptIsCovered(es[..|es| - 1], n, bound);
    }
  }

  /** When the chosen envelope lies above the whole history, booting from it just restores it. */
  lemma BootRestores(c: Codec, es: seq<Event>, floor: nat, envelopes: Envelopes, w: nat)
    requires w in envelopes && envelopes[w].Sealed? && envelopes[w].watermark == w && Covers(w, es)
    ensures Boot(c, Kept(es, floor), envelopes, Only(envelopes, w)) == Ok(envelopes[w].state)
  {
    assert Readable(envelopes, Only(envelopes, w).unreadable) == {w};
    if floor > 0 {
      KeptIsCovered(es, floor - 1, w);
    }
    AfterNone(Kept(es, floor), w);
    assert ReplayAll(c, Begin(envelopes[w].state), []) == Ok(Begin(envelopes[w].state));
  }

  lemma BootsUp(c: Codec, y: System, w: nat) returns (z: System)
    requires y.process.None? && w in y.envelopes && y.envelopes[w].Sealed? && y.envelopes[w].watermark == w
    requires Covers(w, y.history)
    ensures Enabled(c, y, BootUp(Only(y.envelopes, w))) && z == Do(c, y, BootUp(Only(y.envelopes, w)))
    ensures z == y.(process := Some(Up(y.envelopes[w].state)))
  {
    BootRestores(c, y.history, y.floor, y.envelopes, w);
    z := DoBoot(c, y, Only(y.envelopes, w));
  }

  // ---------------------------------------------------------------- appending below the watermark

  lemma RegistrationFolds(c: Codec, es: seq<Event>, k: Core, e: Event)
    requires Fold(c, es) == Ok(k) && e.data.PairRegistered? && Canonical(c, e.data.pair) && e.data.pair !in k.pairs
    ensures var r := Fold(c, es + [e]); r.Ok? && e.data.pair in r.value.pairs
  {
    SingleEvent(c, k, e);
    FoldFromConcat(c, EMPTY, es, [e]);
  }

  /** Registering a pair at the next number. */
  lemma Registers(c: Codec, y: System, s: EngineState, input: string, config: PairConfig) returns (z: System)
    requires ParsesCanonically(c) && c.parsePair(input).Ok? && config.status == Active && c.parsePair(input).value !in s.pairs
    requires y.process == Some(Up(s)) && Fold(c, y.history) == Ok(CoreOf(s))
    ensures Enabled(c, y, Operate(Register(input, config), Stored)) && z == Do(c, y, Operate(Register(input, config), Stored))
    ensures z.process.Some? && z.envelopes == y.envelopes && z.floor == y.floor && z.sealed == y.sealed
    ensures z.counter == y.counter + 1 && |z.history| == |y.history| + 1 && z.history[..|y.history|] == y.history
    ensures z.history[|y.history|].number == z.counter
    ensures Fold(c, z.history).Ok? && c.parsePair(input).value in Fold(c, z.history).value.pairs
  {
    var op := Register(input, config);
    var data := RegisteredData(c.parsePair(input).value, config);
    assert Plan(c, CoreOf(s), op) == Ok([data]);
    z := DoOperate(c, y, y.process.value, op, Stored);
    assert Stamp([data], y.counter) == [Event(y.counter + 1, data)];
    RegistrationFolds(c, y.history, CoreOf(s), Event(y.counter + 1, data));
  }

  /** An event that means nothing to the compared state. */
  const FILLER: EventData := BatchFolded(0, 0, "")

  lemma FillerFolds(c: Codec, es: seq<Event>, number: nat)
    requires Fold(c, es).Ok?
    ensures Fold(c, es + [Event(number, FILLER)]) == Fold(c, es)
  {
    var e := Event(number, FILLER);
    SingleEvent(c, Fold(c, es).value, e);
    FoldFromConcat(c, EMPTY, es, [e]);
  }

  /** What appending below a watermark leaves: the log's end is numbered by the counter and nothing was forgotten. */
  ghost predicate Below(c: Codec, y: System, w: nat, key: string) {
    && y.process.Some? && y.counter <= w && Covers(w, y.history)
    && y.history != [] && y.history[|y.history| - 1].number == y.counter
    && Fold(c, y.history).Ok? && key in Fold(c, y.history).value.pairs
  }

  lemma FillOnce(c: Codec, y: System, w: nat, key: string) returns (z: System)
    requires Below(c, y, w, key) && y.counter < w
    ensures Enabled(c, y, AppendOffLock(FILLER, Stored)) && z == Do(c, y, AppendOffLock(FILLER, Stored))
    ensures Below(c, z, w, key) && z.counter == y.counter + 1
    ensures z.envelopes == y.envelopes && z.floor == y.floor && z.sealed == y.sealed
  {
    FillerFolds(c, y.history, y.counter + 1);
    z := DoAppendOffLock(y, y.process.value, FILLER, Stored);
  }

  /** Appending until the counter reaches the watermark. */
  lemma {:induction false} FillUp(c: Codec, y: System, w: nat, key: string) returns (ms: seq<Move>, z: System)
    requires Below(c, y, w, key)
    ensures LeadsSafely(c, y, ms, z) && Below(c, z, w, key) && z.counter == w
    ensures z.envelopes == y.envelopes && z.floor == y.floor && z.sealed == y.sealed
    decreases w - y.counter
  {
    if y.counter == w {
      ms, z := [], y;
    } else {
      var next := FillOnce(c, y, w, key);
      LeadsByOne(c, y, AppendOffLock(FILLER, Stored), next);
      var rest;
      rest, z := FillUp(c, next, w, key);
      LeadsOn(c, y, [AppendOffLock(FILLER, Stored)], next, rest, z);
      ms := [AppendOffLock(FILLER, Stored)] + rest;
    }
  }

  // ---------------------------------------------------------------- the loss

  /** From a process down below the highest seal: put that envelope back and boot from it. */
  lemma BootBelowSeal(c: Codec, y: System, e: Envelope) returns (ms: seq<Move>, z: System)
    requires y.process.None? && e in y.sealed && e.Sealed? && Covers(e.watermark, y.history)
    ensures LeadsSafely(c, y, ms, z)
    ensures z == y.(envelopes := y.envelopes[e.watermark := e], process := Some(Up(e.state)))
  {
    var w := e.watermark;
    var put := Do(c, y, Tamper(w, e));
    LeadsByOne(c, y, Tamper(w, e), put);
    z := BootsUp(c, put, w);
    LeadsThen(c, y, [Tamper(w, e)], put, BootUp(Only(put.envelopes, w)), z);
    ms := [Tamper(w, e)] + [BootUp(Only(put.envelopes, w))];
  }

  /** Then register a pair. */
  lemma RegisterBelowSeal(c: Codec, y: System, e: Envelope, input: string, config: PairConfig) returns (ms: seq<Move>, z: System)
    requires ParsesCanonically(c) && y.process.None? && e in y.sealed && e.Sealed? && y.counter < e.watermark
    requires Covers(e.watermark, y.history) && Fold(c, y.history) == Ok(CoreOf(e.state))
    requires c.parsePair(input).Ok? && config.status == Active && c.parsePair(input).value !in e.state.pairs
    ensures LeadsSafely(c, y, ms, z) && Below(c, z, e.watermark, c.parsePair(input).value)
    ensures z.envelopes == y.envelopes[e.watermark := e] && z.floor == y.floor && z.sealed == y.sealed
  {
    var up;
    ms, up := BootBelowSeal(c, y, e);
    z := Registers(c, up, e.state, input, config);
    var op := Operate(Register(input, config), Stored);
    LeadsThen(c, y, ms, up, op, z);
    ms := ms + [op];
  }

  /** With the counter at the highest watermark the next crash is safe, and booting forgets what was appended below it. */
  lemma RestartForgets(c: Codec, y: System, e: Envelope, key: string) returns (ms: seq<Move>, z: System)
    requires e.Sealed? && Below(c, y, e.watermark, key) && y.counter == e.watermark && y.floor <= e.watermark
    requires e.watermark in y.envelopes && y.envelopes[e.watermark] == e && key !in e.state.pairs
    requires forall x :: x in y.sealed && x.Sealed? ==> x.watermark <= e.watermark
    ensures ms == [Crash] + [BootUp(Only(y.envelopes, e.watermark))]
    ensures LeadsSafely(c, y, ms, z) && Contradicted(c, z)
  {
    var w := e.watermark;
    LastIsKept(y.history, y.floor);
    var down := Do(c, y, Crash);
    LeadsByOne(c, y, Crash, down);
    z := BootsUp(c, down, w);
    LeadsThen(c, y, [Crash], down, BootUp(Only(down.envelopes, w)), z);
    ms := [Crash] + [BootUp(Only(down.envelopes, w))];
  }

  /**
    An unsafe crash loses events. The highest seal lies above every number still stored, so the store reopens
    below it and reuses numbers; what is appended there is skipped by the next boot from that envelope, which
    succeeds with a state the history contradicts, although every later crash was safe.
   */
  lemma UnsafeCrashLosesEvents(c: Codec, y: System, input: string, config: PairConfig)
    requires ParsesCanonically(c) && Inv(c, y) && y.process.Some? && !CrashSafe(y)
    requires c.parsePair(input).Ok? && config.status == Active && c.parsePair(input).value !in y.process.value.state.pairs
    ensures LosesAfterCrash(c, y)
  {
    var e := UnsafeSeal(c, y);
    LossFrom(c, Do(c, y, Crash), e, input, config);
  }

  lemma LossFrom(c: Codec, down: System, e: Envelope, input: string, config: PairConfig)
    requires ParsesCanonically(c) && down.process.None? && e in down.sealed && e.Sealed? && down.counter < e.watermark
    requires (forall x :: x in down.sealed && x.Sealed? ==> x.watermark <= e.watermark) && down.floor <= e.watermark
    requires Covers(e.watermark, down.history) && Fold(c, down.history) == Ok(CoreOf(e.state))
    requires c.parsePair(input).Ok? && config.status == Active && c.parsePair(input).value !in e.state.pairs
    ensures exists ms, z :: LeadsSafely(c, down, ms, z) && Contradicted(c, z)
  {
    var key := c.parsePair(input).value;
    var ms, y := RegisterBelowSeal(c, down, e, input, config);
    var ns, z := FillUp(c, y, e.watermark, key);
    LeadsOn(c, down, ms, y, ns, z);
    var ks, x := RestartForgets(c, z, e, key);
    LeadsOn(c, down, ms + ns, z, ks, x);
    assert LeadsSafely(c, down, ms + ns + ks, x);
  }

  /** A crash is safe exactly when no moves after it, their own crashes being safe, lose an event. */
  lemma CrashIsSafeExactly(c: Codec, y: System, input: string, config: PairConfig)
    requires ParsesCanonically(c) && Inv(c, y) && y.process.Some?
    requires c.parsePair(input).Ok? && config.status == Active && c.parsePair(input).value !in y.process.value.state.pairs
    ensures CrashSafe(y) <==> !LosesAfterCrash(c, y)
  {
    if CrashSafe(y) {
      SafeCrashLosesNothing(c, y);
    } else {
      UnsafeCrashLosesEvents(c, y, input, config);
    }
  }

  // ---------------------------------------------------------------- runs from the beginning

  /** Every envelope is read. */
  const INTACT: Probe := Listed({}, true)

  /** The first boot, with nothing stored. */
  lemma FirstBoot(c: Codec) returns (y: System)
    ensures y == INITIAL.(process := Some(Up(FRESH)))
    ensures Enabled(c, INITIAL, BootUp(INTACT)) && y == Do(c, INITIAL, BootUp(INTACT))
  {
    y := Do(c, INITIAL, BootUp(INTACT));
    assert ReplayAll(c, Begin(FRESH), []) == Ok(Begin(FRESH));
  }

  /** A registration whose append fails after its number was handed out. */
  lemma RegistrationBurns(c: Codec, y: System, input: string, config: PairConfig) returns (z: System)
    requires y.process == Some(Up(FRESH)) && c.parsePair(input).Ok? && config.status == Active
    ensures z == y.(counter := y.counter + 1)
    ensures var m := Operate(Register(input, config), Lost(1)); Enabled(c, y, m) && z == Do(c, y, m)
  {
    var op := Register(input, config);
    assert Plan(c, CoreOf(FRESH), op) == Ok([RegisteredData(c.parsePair(input).value, config)]);
    z := DoOperate(c, y, y.process.value, op, Lost(1));
  }

  /** Capturing and writing one snapshot, and being done with it. */
  function SnapshotAt(w: nat): seq<Move> {
    [Capture(w)] + [WriteEnvelope] + [EndSnapshot]
  }

  lemma SnapshotLeads(c: Codec, y: System, s: EngineState) returns (z: System)
    requires y.process == Some(Up(s)) && LastNumber(y.history) <= y.counter
    ensures LeadsSafely(c, y, SnapshotAt(y.counter), z)
    ensures z == y.(envelopes := y.envelopes[y.counter := Sealed(y.counter, s)], sealed := y.sealed + {Sealed(y.counter, s)})
  {
    var capture := Capture(y.counter);
    var y1 := Do(c, y, capture);
    LeadsByOne(c, y, capture, y1);
    var y2 := Do(c, y1, WriteEnvelope);
    LeadsThen(c, y, [capture], y1, WriteEnvelope, y2);
    z := Do(c, y2, EndSnapshot);
    LeadsThen(c, y, [capture] + [WriteEnvelope], y2, EndSnapshot, z);
  }

  /** Boot, lose the append of a registration and its number with it, take a snapshot. */
  function BurnThenSnapshot(input: string, config: PairConfig): seq<Move> {
    [BootUp(INTACT)] + [Operate(Register(input, config), Lost(1))] + SnapshotAt(1)
  }

  lemma BurnThenSnapshotLeads(c: Codec, input: string, config: PairConfig) returns (y: System)
    requires c.parsePair(input).Ok? && config.status == Active
    ensures LeadsSafely(c, INITIAL, BurnThenSnapshot(input, config), y)
    ensures y.process == Some(Up(FRESH)) && y.history == [] && y.floor == INITIAL.floor && y.counter == 1
    ensures y.envelopes == map[1 := Sealed(1, FRESH)] && y.sealed == {Sealed(1, FRESH)}
  {
    var y1 := FirstBoot(c);
    LeadsByOne(c, INITIAL, BootUp(INTACT), y1);
    var y2 := RegistrationBurns(c, y1, input, config);
    LeadsThen(c, INITIAL, [BootUp(INTACT)], y1, Operate(Register(input, config), Lost(1)), y2);
    y := SnapshotLeads(c, y2, FRESH);
    LeadsOn(c, INITIAL, [BootUp(INTACT)] + [Operate(Register(input, config), Lost(1))], y2, SnapshotAt(1), y);
  }

  /** One burned number before a snapshot is enough for an unsafe state. */
  lemma BurnedNumberIsUnsafe(c: Codec, input: string, config: PairConfig)
    requires c.parsePair(input).Ok? && config.status == Active
    ensures exists y :: LeadsSafely(c, INITIAL, BurnThenSnapshot(input, config), y) && y.process.Some? && !CrashSafe(y)
  {
    var y := BurnThenSnapshotLeads(c, input, config);
    assert Sealed(1, FRESH) in y.sealed;
  }

  /** A state that was captured but not yet written endangers nothing, whatever numbers were lost before. */
  lemma UnwrittenCaptureIsSafe(c: Codec, input: string, config: PairConfig)
    requires c.parsePair(input).Ok? && config.status == Active
    ensures exists y :: LeadsSafely(c, INITIAL, [BootUp(INTACT)] + [Operate(Register(input, config), Lost(1))] + [Capture(1)], y)
              && y.process.Some? && y.process.value.snapshotter == Captured(1, FRESH) && y.history == [] && CrashSafe(y)
  {
    var y1 := FirstBoot(c);
    LeadsByOne(c, INITIAL, BootUp(INTACT), y1);
    var y2 := RegistrationBurns(c, y1, input, config);
    var op := Operate(Register(input, config), Lost(1));
    LeadsThen(c, INITIAL, [BootUp(INTACT)], y1, op, y2);
    LeadsThen(c, INITIAL, [BootUp(INTACT)] + [op], y2, Capture(1), Do(c, y2, Capture(1)));
  }

  /** Crash, boot, register a pair, crash, boot. */
  function RegisterBetweenRestarts(input: string, config: PairConfig): seq<Move> {
    [Crash] + [BootUp(INTACT)] + [Operate(Register(input, config), Stored)] + ([Crash] + [BootUp(INTACT)])
  }

  /** The registration made between the two restarts is gone after the second. */
  lemma RegistrationIsLost(c: Codec, y: System, input: string, config: PairConfig) returns (z: System)
    requires ParsesCanonically(c) && c.parsePair(input).Ok? && config.status == Active
    requires y.process == Some(Up(FRESH)) && y.history == [] && y.floor == INITIAL.floor
    requires y.envelopes == map[1 := Sealed(1, FRESH)] && y.sealed == {Sealed(1, FRESH)}
    ensures Leads(c, y, RegisterBetweenRestarts(input, config), z) && Contradicted(c, z)
  {
    var w := 1;
    assert Only(y.envelopes, w) == INTACT;
    var y1 := Do(c, y, Crash);
    LeadsByOne(c, y, Crash, y1);
    var y2 := BootsUp(c, y1, w);
    LeadsThen(c, y, [Crash], y1, BootUp(INTACT), y2);
    var y3 := Registers(c, y2, FRESH, input, config);
    var op := Operate(Register(input, config), Stored);
    LeadsThen(c, y, [Crash] + [BootUp(INTACT)], y2, op, y3);
    var ms;
    ms, z := RestartForgets(c, y3, Sealed(1, FRESH), c.parsePair(input).value);
    LeadsOn(c, y, [Crash] + [BootUp(INTACT)] + [op], y3, ms, z);
  }

  /** A run from the beginning that loses a stored registration: nothing is tampered with, every boot reads every envelope. */
  lemma BurnedNumberLosesAnEvent(c: Codec, input: string, config: PairConfig)
    requires ParsesCanonically(c) && c.parsePair(input).Ok? && config.status == Active
    ensures exists z :: Leads(c, INITIAL, BurnThenSnapshot(input, config) + RegisterBetweenRestarts(input, config), z)
              && Contradicted(c, z)
  {
    var y := BurnThenSnapshotLeads(c, input, config);
    var z := RegistrationIsLost(c, y, input, config);
    LeadsOn(c, INITIAL, BurnThenSnapshot(input, config), y, RegisterBetweenRestarts(input, config), z);
  }

  // ---------------------------------------------------------------- a boot that refuses

  /** Boot, take a snapshot, lose one registration with its number, register, crash. */
  function SnapshotThenBurn(input: string, config: PairConfig): seq<Move> {
    var op := Register(input, config);
    [BootUp(INTACT)] + SnapshotAt(0) + [Operate(op, Lost(1))] + [Operate(op, Stored)] + [Crash]
  }

  /** The hole left just above the newest watermark is taken for a truncated log. */
  lemma HoleAboveWatermarkRefuses(c: Codec, y: System, e: Event)
    requires y.history == [e] && e.number == 2 && y.floor == INITIAL.floor && y.envelopes == map[0 := Sealed(0, FRESH)]
    ensures NewestIntact(y.envelopes, INTACT, 0)
    ensures Boot(c, Kept(y.history, y.floor), y.envelopes, INTACT) == Err(SnapshotsCorruptAndLogTruncated)
  {
    assert [e][..0] == [];
    assert Kept(y.history, y.floor) == [e];
    assert Readable(y.envelopes, INTACT.unreadable) == {0};
    assert After([e], 0) == [e];
    assert !ContinuousAfter([e], 0);
  }

  /** A run whose one crash is safe and whose newest envelope is intact can still end in a boot that refuses. */
  lemma IntactNewestCanRefuse(c: Codec, input: string, config: PairConfig)
    requires ParsesCanonically(c) && c.parsePair(input).Ok? && config.status == Active
    ensures exists z :: LeadsSafely(c, INITIAL, SnapshotThenBurn(input, config), z)
              && NewestIntact(z.envelopes, INTACT, 0)
              && Boot(c, Kept(z.history, z.floor), z.envelopes, INTACT) == Err(SnapshotsCorruptAndLogTruncated)
  {
    var op := Register(input, config);
    var y1 := FirstBoot(c);
    LeadsByOne(c, INITIAL, BootUp(INTACT), y1);
    var y2 := SnapshotLeads(c, y1, FRESH);
    LeadsOn(c, INITIAL, [BootUp(INTACT)], y1, SnapshotAt(0), y2);
    var y3 := RegistrationBurns(c, y2, input, config);
    LeadsThen(c, INITIAL, [BootUp(INTACT)] + SnapshotAt(0), y2, Operate(op, Lost(1)), y3);
    var y4 := Registers(c, y3, FRESH, input, config);
    LeadsThen(c, INITIAL, [BootUp(INTACT)] + SnapshotAt(0) + [Operate(op, Lost(1))], y3, Operate(op, Stored), y4);
    var z := Do(c, y4, Crash);
    LeadsThen(c, INITIAL, [BootUp(INTACT)] + SnapshotAt(0) + [Operate(op, Lost(1))] + [Operate(op, Stored)], y4, Crash, z);
    HoleAboveWatermarkRefuses(c, z, z.history[0]);
  }
}
