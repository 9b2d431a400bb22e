/** Booting from snapshots and whatever the event log still holds. */
module Checkpoint {
  import opened Types
  import opened Events
  import opened Projection
  import opened History
  import opened Clearing
  import opened Operations
  import opened Recovery

  /** What opening an envelope yields: the sealed watermark and state, or nothing usable. */
  datatype Envelope = Sealed(watermark: nat, state: EngineState) | Unreadable

  type Envelopes = map<nat, Envelope>

  /** How the snapshot store behaves during one boot. */
  datatype Probe =
    | NoStore
    | ListFails
    | Listed(unreadable: set<nat>, cipherPresent: bool)

  datatype BootError = SnapshotsCorruptAndLogTruncated | ReplayFailed(error: RecoverError)

  /** `read_from(n, ..)`: the events numbered above `n`. */
  function After(es: seq<Event>, n: nat): seq<Event> {
    if es == [] then []
    else
      var last := es[|es| - 1];
      After(es[..|es| - 1], n) + if last.number > n then [last] else []
  }

  /** What `compact_before(floor)` leaves of a log. */
  function Kept(es: seq<Event>, floor: nat): seq<Event> {
    if floor == 0 then es else After(es, floor - 1)
  }

  predicate CoversSeqOne(log: seq<Event>) {
    log != [] && log[0].number == 1
  }

  /** The event directly above the watermark exists, or none does. */
  predicate ContinuousAfter(log: seq<Event>, watermark: nat) {
    var tail := After(log, watermark);
    tail == [] || tail[0].number == watermark + 1
  }

  function Replay(c: Codec, s: EngineState, es: seq<Event>): Result<EngineState, BootError> {
    match ReplayAll(c, Begin(s), es)
    case Err(x) => Err(ReplayFailed(x))
    case Ok(r) => Ok(r.state)
  }

  /** The keys whose envelopes open. */
  function Readable(envelopes: Envelopes, unreadable: set<nat>): set<int> {
    set k | k in envelopes && k !in unreadable && envelopes[k].Sealed?
  }

  /** Where replay starts: a state, and the events still to replay. */
  datatype Start = Start(state: EngineState, rest: seq<Event>)

  function StartFromScratch(log: seq<Event>): Result<Start, BootError> {
    if CoversSeqOne(log) then Ok(Start(FRESH, log)) else Err(SnapshotsCorruptAndLogTruncated)
  }

  /** Restores an envelope, if nothing is missing right after it. */
  function StartFrom(log: seq<Event>, e: Envelope): Result<Start, BootError>
    requires e.Sealed?
  {
    if ContinuousAfter(log, e.watermark) then Ok(Start(e.state, After(log, e.watermark)))
    else Err(SnapshotsCorruptAndLogTruncated)
  }

  /** The newest envelope that opens, or else nothing. */
  ghost function StartOf(log: seq<Event>, envelopes: Envelopes, probe: Probe): Result<Start, BootError> {
    match probe
    case NoStore => Ok(Start(FRESH, log))
    case ListFails => StartFromScratch(log)
    case Listed(unreadable, cipherPresent) =>
      if envelopes == map[] then Ok(Start(FRESH, log))
      else if !cipherPresent || Readable(envelopes, unreadable) == {} then StartFromScratch(log)
      else StartFrom(log, envelopes[Greatest(Readable(envelopes, unreadable))])
  }

  /** `recover`, up to the re-aggregation of orphans, with what it hands on to that. */
  ghost function Recovered(c: Codec, log: seq<Event>, envelopes: Envelopes, probe: Probe): Result<Replaying, BootError> {
    match StartOf(log, envelopes, probe)
    case Err(x) => Err(x)
    case Ok(s) =>
      match ReplayAll(c, Begin(s.state), s.rest)
      case Err(x) => Err(ReplayFailed(x))
      case Ok(r) => Ok(r)
  }

  /** The state it rebuilds. */
  ghost function Boot(c: Codec, log: seq<Event>, envelopes: Envelopes, probe: Probe): Result<EngineState, BootError> {
    match Recovered(c, log, envelopes, probe)
    case Err(x) => Err(x)
    case Ok(r) => Ok(r.state)
  }

  // ---------------------------------------------------------------- reading the log

  /** `n` splits the log at the watermark. */
  predicate Cut(es: seq<Event>, n: nat, watermark: nat) {
    && n <= |es|
    && (forall i :: 0 <= i < n ==> es[i].number <= watermark)
    && (forall i :: n <= i < |es| ==> es[i].number > watermark)
  }

  lemma {:induction false} AfterIsTail(es: seq<Event>, n: nat, watermark: nat)
    requires Cut(es, n, watermark)
    ensures After(es, watermark) == es[n..]
  {
    if es != [] {
      var m := |es| - 1;
      if n <= m {
        AfterIsTail(es[..m], n, watermark);
        assert es[n..] == es[..m][n..] + [es[m]];
      } else {
        AfterIsTail(es[..m], m, watermark);
      }
    }
  }

  /** Events numbered higher are all read, after the others. */
  lemma {:induction false} AfterConcat(es: seq<Event>, fs: seq<Event>, n: nat)
    requires forall i :: 0 <= i < |fs| ==> fs[i].number > n
    ensures After(es + fs, n) == After(es, n) + fs
  {
    if fs == [] {
      assert es + fs == es;
    } else {
      var m := |fs| - 1;
      AfterConcat(es, fs[..m], n);
      assert (es + fs)[..|es + fs| - 1] == es + fs[..m];
    }
  }

  lemma {:induction false} CutExists(es: seq<Event>, watermark: nat, last: nat) returns (n: nat)
    requires Numbered(es, 0, last)
    ensures Cut(es, n, watermark)
  {
    n := |es|;
    while n > 0 && es[n - 1].number > watermark
      invariant 0 <= n <= |es|
      invariant forall i :: n <= i < |es| ==> es[i].number > watermark
    {
      n := n - 1;
    }
  }

  lemma CutsInOrder(es: seq<Event>, f: nat, a: nat, w: nat, b: nat)
    requires Cut(es, f, a) && Cut(es, w, b) && a <= b
    ensures f <= w
  {
    assert w < |es| ==> es[w].number > b;
  }

  lemma TailOfTail(es: seq<Event>, f: nat, w: nat, watermark: nat)
    requires Cut(es, w, watermark) && f <= w
    ensures After(es[f..], watermark) == es[w..]
  {
    assert Cut(es[f..], w - f, watermark);
    AfterIsTail(es[f..], w - f, watermark);
    assert es[f..][w - f..] == es[w..];
  }

  /** Reading a compacted log above a watermark, when nothing above the watermark was compacted. */
  lemma AfterKept(es: seq<Event>, floor: nat, watermark: nat, last: nat)
    requires Numbered(es, 0, last) && floor <= watermark + 1
    ensures After(Kept(es, floor), watermark) == After(es, watermark)
  {
    if floor > 0 {
      var f := CutExists(es, floor - 1, last);
      var w := CutExists(es, watermark, last);
      AfterIsTail(es, f, floor - 1);
      AfterIsTail(es, w, watermark);
      CutsInOrder(es, f, floor - 1, w, watermark);
      TailOfTail(es, f, w, watermark);
    }
  }

  lemma NumberedTail(es: seq<Event>, f: nat, after: nat, last: nat)
    requires Numbered(es, after, last) && f <= |es|
    ensures Numbered(es[f..], after, last)
  {
  }

  lemma LastOfTail(es: seq<Event>, f: nat, n: nat)
    requires Cut(es, f, n) && es != [] && LastNumber(es) > n
    ensures es[f..] != [] && LastNumber(es[f..]) == LastNumber(es)
  {
  }

  /** The lowest kept number is at least the floor. */
  lemma KeptIsHigh(es: seq<Event>, floor: nat, last: nat)
    requires Numbered(es, 0, last)
    ensures forall i :: 0 <= i < |Kept(es, floor)| ==> Kept(es, floor)[i].number >= floor
    ensures Numbered(Kept(es, floor), 0, last)
    ensures es != [] && floor <= LastNumber(es) ==> Kept(es, floor) != [] && LastNumber(Kept(es, floor)) == LastNumber(es)
  {
    if floor > 0 {
      var f := CutExists(es, floor - 1, last);
      AfterIsTail(es, f, floor - 1);
      NumberedTail(es, f, 0, last);
      if es != [] && floor <= LastNumber(es) {
        LastOfTail(es, f, floor - 1);
      }
    }
  }

  lemma AfterOf(es: seq<Event>, n: nat, last: nat)
    requires Numbered(es, 0, last)
    ensures forall i :: 0 <= i < |After(es, n)| ==> After(es, n)[i].number > n
    ensures LastNumber(es) > n ==> After(es, n) != []
    ensures Numbered(After(es, n), n, if n <= last then last else n)
  {
    var k := CutExists(es, n, last);
    AfterIsTail(es, k, n);
  }

  // ---------------------------------------------------------------- what a boot rebuilds

  /** `state` is what the log up to `watermark` means. */
  ghost predicate Stands(c: Codec, es: seq<Event>, watermark: nat, state: EngineState) {
    && state.book.applied <= watermark
    && exists n: nat :: Cut(es, n, watermark) && Fold(c, es[..n]) == Ok(CoreOf(state))
  }

  /** The state is what the whole log means. */
  ghost predicate Faithful(c: Codec, es: seq<Event>, s: EngineState) {
    Fold(c, es) == Ok(CoreOf(s)) && s.book.applied <= LastNumber(es)
  }

  lemma TailReplays(c: Codec, es: seq<Event>, n: nat, state: EngineState, last: nat)
    requires Fold(c, es).Ok? && n <= |es| && Fold(c, es[..n]) == Ok(CoreOf(state))
    requires Numbered(es[n..], state.book.applied, last) && state.book.applied <= last
    ensures var r := Replay(c, state, es[n..]);
            r.Ok? && Fold(c, es) == Ok(CoreOf(r.value)) && r.value.book.applied <= last
  {
    assert es == es[..n] + es[n..];
    FoldFromConcat(c, EMPTY, es[..n], es[n..]);
    ReplayFollowsFold(c, Begin(state), es[n..], last);
  }

  lemma CutNumbers(es: seq<Event>, n: nat, watermark: nat)
    requires Cut(es, n, watermark) && Numbered(es, 0, LastNumber(es))
    ensures Numbered(es[n..], watermark, Max(watermark, LastNumber(es)))
  {
  }

  /** Restoring a standing envelope and replaying everything above its watermark rebuilds the whole log's meaning. */
  lemma RestoreThenReplay(c: Codec, es: seq<Event>, watermark: nat, state: EngineState)
    requires Proper(c, es) && Stands(c, es, watermark, state)
    ensures var r := Replay(c, state, After(es, watermark));
            r.Ok? && Fold(c, es) == Ok(CoreOf(r.value)) && r.value.book.applied <= Max(watermark, LastNumber(es))
  {
    ProperFolds(c, es);
    var n: nat :| Cut(es, n, watermark) && Fold(c, es[..n]) == Ok(CoreOf(state));
    AfterIsTail(es, n, watermark);
    CutNumbers(es, n, watermark);
    TailReplays(c, es, n, state, Max(watermark, LastNumber(es)));
  }

  /** Replaying a whole log from nothing rebuilds its meaning. */
  lemma ReplayWholeLog(c: Codec, es: seq<Event>)
    requires Proper(c, es)
    ensures var r := Replay(c, FRESH, es); r.Ok? && Faithful(c, es, r.value)
  {
    ProperFolds(c, es);
    assert CoreOf(FRESH) == EMPTY;
    ReplayFollowsFold(c, Begin(FRESH), es, LastNumber(es));
  }

  /** If the kept log still starts at 1, nothing was compacted. */
  lemma KeptFromOne(es: seq<Event>, floor: nat, last: nat)
    requires Numbered(es, 0, last) && CoversSeqOne(Kept(es, floor))
    ensures Kept(es, floor) == es
  {
    if floor > 1 {
      KeptIsHigh(es, floor, last);
    } else if floor == 1 {
      assert Cut(es, 0, 0);
      AfterIsTail(es, 0, 0);
    }
  }

  lemma KeptAll(es: seq<Event>, floor: nat, last: nat)
    requires Numbered(es, 0, last) && floor <= 1
    ensures Kept(es, floor) == es
  {
    if floor == 1 {
      assert Cut(es, 0, 0);
      AfterIsTail(es, 0, 0);
    }
  }

  /** What the persistent stores guarantee between them whenever the process is down. */
  ghost predicate Consistent(c: Codec, es: seq<Event>, floor: nat, envelopes: Envelopes) {
    && Proper(c, es)
    && (floor <= 1 || floor <= LastNumber(es))
    && (forall k :: k in envelopes && envelopes[k].Sealed? ==>
                      && Stands(c, es, envelopes[k].watermark, envelopes[k].state)
                      && envelopes[k].watermark <= LastNumber(es))
  }

  lemma ContinuousIsComplete(es: seq<Event>, floor: nat, watermark: nat)
    requires Numbered(es, 0, LastNumber(es)) && (floor <= 1 || floor <= LastNumber(es))
    requires ContinuousAfter(Kept(es, floor), watermark)
    ensures After(Kept(es, floor), watermark) == After(es, watermark)
  {
    var log, last := Kept(es, floor), LastNumber(es);
    KeptIsHigh(es, floor, last);
    if floor <= watermark + 1 {
      AfterKept(es, floor, watermark, last);
    } else {
      AfterOf(log, watermark, last);
      var k := CutExists(log, watermark, last);
      AfterIsTail(log, k, watermark);
    }
  }

  /** Replaying from here rebuilds what the entire history means, or there is a refusal to start. */
  ghost predicate StartsWell(c: Codec, es: seq<Event>, start: Result<Start, BootError>) {
    match start
    case Err(x) => x == SnapshotsCorruptAndLogTruncated
    case Ok(s) => var r := Replay(c, s.state, s.rest); r.Ok? && Faithful(c, es, r.value)
  }

  lemma WholeLogStartsWell(c: Codec, es: seq<Event>)
    requires Proper(c, es)
    ensures StartsWell(c, es, Ok(Start(FRESH, es)))
  {
    ReplayWholeLog(c, es);
  }

  lemma ScratchStartsWell(c: Codec, es: seq<Event>, floor: nat)
    requires Proper(c, es)
    ensures StartsWell(c, es, StartFromScratch(Kept(es, floor)))
  {
    if CoversSeqOne(Kept(es, floor)) {
      KeptFromOne(es, floor, LastNumber(es));
      WholeLogStartsWell(c, es);
    }
  }

  lemma EnvelopeStartsWell(c: Codec, es: seq<Event>, floor: nat, e: Envelope)
    requires Proper(c, es) && (floor <= 1 || floor <= LastNumber(es))
    requires e.Sealed? && Stands(c, es, e.watermark, e.state) && e.watermark <= LastNumber(es)
    ensures StartsWell(c, es, StartFrom(Kept(es, floor), e))
  {
    if ContinuousAfter(Kept(es, floor), e.watermark) {
      ContinuousIsComplete(es, floor, e.watermark);
      RestoreThenReplay(c, es, e.watermark, e.state);
    }
  }

  /** Booting is replaying from where replay starts. */
  lemma BootByStart(c: Codec, log: seq<Event>, envelopes: Envelopes, probe: Probe)
    ensures Boot(c, log, envelopes, probe)
            == match StartOf(log, envelopes, probe) case Err(x) => Err(x) case Ok(s) => Replay(c, s.state, s.rest)
  {
  }

  /** There is no snapshot store, or it lists nothing: what is left of the log is replayed unasked. */
  predicate Unasked(envelopes: Envelopes, probe: Probe) {
    probe.NoStore? || (probe.Listed? && envelopes == map[])
  }

  /**
    Whatever was compacted and whichever envelopes no longer open, a boot either rebuilds what the
    entire history means or refuses; replay itself never fails. Only a boot that is not shown any
    envelope replays an incomplete log unasked.
   */
  lemma BootIsFaithfulOrRefuses(c: Codec, es: seq<Event>, floor: nat, envelopes: Envelopes, probe: Probe)
    requires Consistent(c, es, floor, envelopes)
    ensures var r := Boot(c, Kept(es, floor), envelopes, probe);
            if Unasked(envelopes, probe) && Kept(es, floor) != es then r == Replay(c, FRESH, Kept(es, floor))
            else if r.Ok? then Faithful(c, es, r.value) else r.error == SnapshotsCorruptAndLogTruncated
  {
    var log := Kept(es, floor);
    BootByStart(c, log, envelopes, probe);
    if Unasked(envelopes, probe) {
      WholeLogStartsWell(c, es);
    } else if probe.Listed? && probe.cipherPresent && Readable(envelopes, probe.unreadable) != {} {
      var k := Greatest(Readable(envelopes, probe.unreadable));
      assert k in Readable(envelopes, probe.unreadable);
      EnvelopeStartsWell(c, es, floor, envelopes[k]);
    } else {
      ScratchStartsWell(c, es, floor);
    }
  }

  /** The newest envelope opens, and is the one that was written under its key. */
  ghost predicate NewestIntact(envelopes: Envelopes, probe: Probe, k: nat) {
    && probe.Listed? && probe.cipherPresent
    && k in envelopes && (forall j :: j in envelopes ==> j <= k)
    && k !in probe.unreadable && envelopes[k].Sealed? && envelopes[k].watermark == k
  }

  /** Below the floor nothing continues an envelope that the kept log does not reach. */
  lemma UncoveredIsNotContinuous(es: seq<Event>, floor: nat, k: nat)
    requires Numbered(es, 0, LastNumber(es)) && k + 1 < floor <= LastNumber(es)
    ensures !ContinuousAfter(Kept(es, floor), k)
  {
    var log := Kept(es, floor);
    KeptIsHigh(es, floor, LastNumber(es));
    assert Cut(log, 0, k);
    AfterIsTail(log, 0, k);
  }

  /** `k` is the newest envelope that opens: those above it are unreadable, or hold nothing usable. */
  ghost predicate NewestOpening(envelopes: Envelopes, probe: Probe, k: nat) {
    && probe.Listed? && probe.cipherPresent
    && k in envelopes && k !in probe.unreadable && envelopes[k].Sealed?
    && forall j :: j in envelopes && k < j ==> j in probe.unreadable || envelopes[j].Unreadable?
  }

  /** There are envelopes, or they cannot be listed, and none of them opens. */
  ghost predicate NoneOpens(envelopes: Envelopes, probe: Probe) {
    || probe.ListFails?
    || (probe.Listed? && envelopes != map[] &&
        (probe.cipherPresent ==> forall j :: j in envelopes ==> j in probe.unreadable || envelopes[j].Unreadable?))
  }

  lemma OpeningIsChosen(envelopes: Envelopes, probe: Probe, k: nat)
    requires NewestOpening(envelopes, probe, k)
    ensures Readable(envelopes, probe.unreadable) != {} && Greatest(Readable(envelopes, probe.unreadable)) == k && envelopes != map[]
  {
    assert k in Readable(envelopes, probe.unreadable);
  }

  /**
    A boot from the newest envelope that opens, however many newer ones do not, succeeds exactly when the log still
    reaches down to it and the first event after it took the very next number.
   */
  lemma BootsFromOpeningExactly(c: Codec, es: seq<Event>, floor: nat, envelopes: Envelopes, probe: Probe, k: nat)
    requires Consistent(c, es, floor, envelopes) && NewestOpening(envelopes, probe, k)
    ensures var w := envelopes[k].watermark;
            Boot(c, Kept(es, floor), envelopes, probe).Ok? <==> floor <= w + 1 && ContinuousAfter(es, w)
  {
    var e := envelopes[k];
    OpeningIsChosen(envelopes, probe, k);
    BootByStart(c, Kept(es, floor), envelopes, probe);
    EnvelopeStartsWell(c, es, floor, e);
    if floor <= e.watermark + 1 {
      AfterKept(es, floor, e.watermark, LastNumber(es));
    } else {
      UncoveredIsNotContinuous(es, floor, e.watermark);
    }
  }

  lemma CoversExactly(es: seq<Event>, floor: nat)
    requires Numbered(es, 0, LastNumber(es))
    ensures CoversSeqOne(Kept(es, floor)) <==> floor <= 1 && es != [] && es[0].number == 1
  {
    if floor <= 1 {
      KeptAll(es, floor, LastNumber(es));
    } else {
      KeptIsHigh(es, floor, LastNumber(es));
    }
  }

  /** A boot for which no envelope opens succeeds exactly when the log still starts with its event number one. */
  lemma BootsFromScratchExactly(c: Codec, es: seq<Event>, floor: nat, envelopes: Envelopes, probe: Probe)
    requires Consistent(c, es, floor, envelopes) && NoneOpens(envelopes, probe)
    ensures Boot(c, Kept(es, floor), envelopes, probe).Ok? <==> floor <= 1 && es != [] && es[0].number == 1
  {
    BootByStart(c, Kept(es, floor), envelopes, probe);
    ScratchStartsWell(c, es, floor);
    CoversExactly(es, floor);
    if probe.Listed? && probe.cipherPresent {
      assert Readable(envelopes, probe.unreadable) == {};
    }
  }

  /** With the newest envelope intact: exactly when the log reaches down to it and the next number was not lost. */
  lemma BootsFromNewestExactly(c: Codec, es: seq<Event>, floor: nat, envelopes: Envelopes, probe: Probe, k: nat)
    requires Consistent(c, es, floor, envelopes) && NewestIntact(envelopes, probe, k)
    ensures Boot(c, Kept(es, floor), envelopes, probe).Ok? <==> floor <= k + 1 && ContinuousAfter(es, k)
  {
    BootsFromOpeningExactly(c, es, floor, envelopes, probe, k);
  }

  /** A store that numbers without gaps. */
  predicate Gapless(es: seq<Event>) {
    forall i :: 0 <= i < |es| ==> es[i].number == i + 1
  }

  /** On a gapless log the newest intact envelope always boots. */
  lemma GaplessHasNoGap(es: seq<Event>, watermark: nat)
    requires Gapless(es) && watermark <= |es|
    ensures ContinuousAfter(es, watermark)
  {
    assert Cut(es, watermark, watermark);
    AfterIsTail(es, watermark, watermark);
  }
}
