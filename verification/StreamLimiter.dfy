/**
  The per-key limit on event streams. A map holds one semaphore per key; entries are dropped when
  reference counts say nobody else holds them. Threads interleave between any two steps that touch
  shared state: taking or leaving the mutex, reading a permit count, reading a reference count,
  taking or returning a permit, and dropping a reference.
 */
module StreamLimiter {
  import opened Types

  type Key = string
  type Thread = nat
  type Semaphore = nat

  /** Where a thread is, from asking for a stream to having dropped its permit. */
  datatype Place =
    // in try_acquire, under the mutex
    | Retaining(key: Key, todo: set<Key>)
    | Recounting(key: Key, todo: set<Key>, entry: Key)
    // in try_acquire, after the mutex
    | Cloned(key: Key, sem: Semaphore)
    | Trying(key: Key, sem: Semaphore)
    | Denied(key: Key, sem: Semaphore)
    | Refused(key: Key, sem: Semaphore)
    // a live permit
    | Streaming(key: Key, sem: Semaphore)
    // in drop: permit returned, then its reference dropped, then the check under the mutex
    | Returned(key: Key, sem: Semaphore)
    | Waiting(key: Key, sem: Semaphore)
    | Checking(key: Key, sem: Semaphore)
    | Counting(key: Key, sem: Semaphore)
    // past the check, about to drop the last reference
    | Leaving(key: Key, sem: Semaphore)

  /** `next` is the next semaphore to be created, `mutex` the thread inside the critical section. */
  datatype State = State(semaphores: map<Key, Semaphore>, threads: map<Thread, Place>, mutex: Option<Thread>, next: Semaphore)

  const INITIAL: State := State(map[], map[], None, 0)

  /** References to a semaphore: the map's, a thread's own, and the one inside an owned permit or an attempt at one. */
  datatype Reference = InMap(key: Key) | Own(thread: Thread) | Permit(thread: Thread)

  predicate HasSemaphore(p: Place) {
    !p.Retaining? && !p.Recounting?
  }

  predicate HasPermitReference(p: Place) {
    p.Trying? || p.Denied? || p.Streaming? || p.Returned?
  }

  function References(y: State, s: Semaphore): set<Reference> {
    (set k | k in y.semaphores && y.semaphores[k] == s :: InMap(k)) +
    (set t | t in y.threads && HasSemaphore(y.threads[t]) && y.threads[t].sem == s :: Own(t)) +
    (set t | t in y.threads && HasPermitReference(y.threads[t]) && y.threads[t].sem == s :: Permit(t))
  }

  /** `Arc::strong_count`. */
  function StrongCount(y: State, s: Semaphore): nat {
    |References(y, s)|
  }

  /** The threads that hold one of the semaphore's permits. */
  function Holders(y: State, s: Semaphore): set<Thread> {
    set t | t in y.threads && y.threads[t].Streaming? && y.threads[t].sem == s
  }

  /** `available_permits`. */
  function Available(y: State, s: Semaphore, max: nat): int {
    max - |Holders(y, s)|
  }

  datatype Action =
    | Ask(key: Key)
    | ReadAvailable(entry: Key)
    | ReadCount
    | CloneEntry
    | CloneAgain
    | TryAcquire
    | DropAttempt
    | GiveUp
    | ReturnPermit
    | DropPermitReference
    | LockForDrop
    | CheckAvailable
    | CheckCount
    | DropOwnReference

  predicate Enabled(y: State, t: Thread, a: Action) {
    if a.Ask? then t !in y.threads && y.mutex == None
    else
      && t in y.threads
      && var p := y.threads[t];
      match a
      case Ask(_) => true
      case ReadAvailable(k) => p.Retaining? && k in p.todo && k in y.semaphores
      case ReadCount => p.Recounting? && p.entry in y.semaphores
      case CloneEntry => p.Retaining? && p.todo == {}
      case CloneAgain => p.Cloned?
      case TryAcquire => p.Trying?
      case DropAttempt => p.Denied?
      case GiveUp => p.Refused?
      case ReturnPermit => p.Streaming?
      case DropPermitReference => p.Returned?
      case LockForDrop => p.Waiting? && y.mutex == None
      case CheckAvailable => p.Checking?
      case CheckCount => p.Counting?
      case DropOwnReference => p.Leaving?
  }

  function Go(y: State, t: Thread, p: Place): State {
    y.(threads := y.threads[t := p])
  }

  function Gone(y: State, t: Thread): State {
    y.(threads := y.threads - {t})
  }

  function Do(y: State, t: Thread, a: Action, max: nat): State
    requires Enabled(y, t, a)
  {
    match a
    case Ask(key) => Go(y, t, Retaining(key, y.semaphores.Keys)).(mutex := Some(t))
    case ReadAvailable(k) =>
      var p := y.threads[t];
      if Available(y, y.semaphores[k], max) < max then Go(y, t, Retaining(p.key, p.todo - {k}))
      else Go(y, t, Recounting(p.key, p.todo - {k}, k))
    case ReadCount =>
      var p := y.threads[t];
      var kept := Go(y, t, Retaining(p.key, p.todo));
      if StrongCount(y, y.semaphores[p.entry]) > 1 then kept
      else kept.(semaphores := y.semaphores - {p.entry})
    case CloneEntry =>
      var key := y.threads[t].key;
      if key in y.semaphores then Go(y, t, Cloned(key, y.semaphores[key])).(mutex := None)
      else Go(y, t, Cloned(key, y.next)).(mutex := None, semaphores := y.semaphores[key := y.next], next := y.next + 1)
    case CloneAgain => Go(y, t, Trying(y.threads[t].key, y.threads[t].sem))
    case TryAcquire =>
      var p := y.threads[t];
      Go(y, t, if Available(y, p.sem, max) > 0 then Streaming(p.key, p.sem) else Denied(p.key, p.sem))
    case DropAttempt => Go(y, t, Refused(y.threads[t].key, y.threads[t].sem))
    case GiveUp => Gone(y, t)
    case ReturnPermit => Go(y, t, Returned(y.threads[t].key, y.threads[t].sem))
    case DropPermitReference => Go(y, t, Waiting(y.threads[t].key, y.threads[t].sem))
    case LockForDrop => Go(y, t, Checking(y.threads[t].key, y.threads[t].sem)).(mutex := Some(t))
    case CheckAvailable =>
      var p := y.threads[t];
      if Available(y, p.sem, max) == max then Go(y, t, Counting(p.key, p.sem))
      else Go(y, t, Leaving(p.key, p.sem)).(mutex := None)
    case CheckCount =>
      var p := y.threads[t];
      var left := Go(y, t, Leaving(p.key, p.sem)).(mutex := None);
      if StrongCount(y, p.sem) <= 2 then left.(semaphores := y.semaphores - {p.key}) else left
    case DropOwnReference => Gone(y, t)
  }

  // ---------------------------------------------------------------- the invariant

  /** The thread is inside the critical section. */
  predicate Inside(p: Place) {
    p.Retaining? || p.Recounting? || p.Checking? || p.Counting?
  }

  /** Whoever holds a semaphore and has not passed its drop check holds the one the map has for its key. */
  predicate Anchored(y: State, p: Place) {
    HasSemaphore(p) && !p.Leaving? ==> p.key in y.semaphores && y.semaphores[p.key] == p.sem
  }

  predicate Placed(y: State, t: Thread, p: Place) {
    && Anchored(y, p) && (HasSemaphore(p) ==> p.sem < y.next)
    && (Inside(p) <==> y.mutex == Some(t))
    && (p.Retaining? || p.Recounting? ==> p.todo <= y.semaphores.Keys)
    && (p.Recounting? ==> p.entry in y.semaphores && p.entry !in p.todo)
  }

  predicate OneKeyEach(semaphores: map<Key, Semaphore>, next: Semaphore) {
    && (forall k :: k in semaphores ==> semaphores[k] < next)
    && (forall j, k :: j in semaphores && k in semaphores && semaphores[j] == semaphores[k] ==> j == k)
  }

  ghost predicate Inv(y: State, max: nat) {
    && (forall t :: t in y.threads ==> Placed(y, t, y.threads[t]))
    && OneKeyEach(y.semaphores, y.next)
    && (forall s :: |Holders(y, s)| <= max)
  }

  lemma InitialInv(max: nat)
    ensures Inv(INITIAL, max)
  {
  }

  /** If the map's is the only reference, no thread holds the semaphore. */
  lemma OnlyTheMap(y: State, k: Key, t: Thread)
    requires k in y.semaphores && t in y.threads && HasSemaphore(y.threads[t]) && y.threads[t].sem == y.semaphores[k]
    ensures StrongCount(y, y.semaphores[k]) >= 2
  {
    var two := {InMap(k), Own(t)};
    SubsetSize(two, References(y, y.semaphores[k]));
  }

  /** If the map's and one thread's are the only references, no other thread holds the semaphore. */
  lemma OnlyTheMapAndOne(y: State, k: Key, t: Thread, u: Thread)
    requires k in y.semaphores && t in y.threads && u in y.threads && t != u
    requires HasSemaphore(y.threads[t]) && y.threads[t].sem == y.semaphores[k]
    requires HasSemaphore(y.threads[u]) && y.threads[u].sem == y.semaphores[k]
    ensures StrongCount(y, y.semaphores[k]) >= 3
  {
    var three := {InMap(k), Own(t), Own(u)};
    SubsetSize(three, References(y, y.semaphores[k]));
  }

  /** An entry is only removed when no other thread is anchored to it. */
  lemma RemovedEntryIsUnheld(y: State, t: Thread, a: Action, max: nat, u: Thread)
    requires Inv(y, max) && Enabled(y, t, a) && u != t && u in y.threads
    requires HasSemaphore(y.threads[u]) && !y.threads[u].Leaving?
    ensures y.threads[u].key in Do(y, t, a, max).semaphores
  {
    var p, q := y.threads[u], Do(y, t, a, max);
    assert Placed(y, u, p);
    if a.ReadCount? {
      if y.threads[t].entry == p.key {
        OnlyTheMap(y, p.key, u);
      }
    } else if a.CheckCount? {
      assert Placed(y, t, y.threads[t]);
      if y.threads[t].key == p.key {
        OnlyTheMapAndOne(y, p.key, t, u);
      }
    }
  }

  lemma OthersStayPlaced(y: State, t: Thread, a: Action, max: nat, u: Thread)
    requires Inv(y, max) && Enabled(y, t, a) && u != t && u in y.threads
    ensures Placed(Do(y, t, a, max), u, y.threads[u])
  {
    var p := y.threads[u];
    assert Placed(y, u, p);
    if HasSemaphore(p) && !p.Leaving? {
      RemovedEntryIsUnheld(y, t, a, max, u);
    }
    if !a.Ask? {
      assert Placed(y, t, y.threads[t]);
    }
  }

  lemma ActorIsPlacedInside(y: State, t: Thread, a: Action, max: nat)
    requires a.Ask? || a.ReadAvailable? || a.ReadCount? || a.CloneEntry?
    requires Enabled(y, t, a) && (!a.Ask? ==> Placed(y, t, y.threads[t])) && OneKeyEach(y.semaphores, y.next)
    ensures Placed(Do(y, t, a, max), t, Do(y, t, a, max).threads[t])
  {
    match a
    case Ask(_) =>
    case ReadAvailable(k) => assert y.threads[t].todo - {k} <= y.threads[t].todo;
    case ReadCount => EntryGone(y, t, max);
    case CloneEntry =>
  }

  lemma EntryGone(y: State, t: Thread, max: nat)
    requires Enabled(y, t, ReadCount) && Placed(y, t, y.threads[t])
    ensures Placed(Do(y, t, ReadCount, max), t, Do(y, t, ReadCount, max).threads[t])
  {
  }

  lemma ActorIsPlacedLater(y: State, t: Thread, a: Action, max: nat)
    requires !a.Ask? && !a.ReadAvailable? && !a.ReadCount? && !a.CloneEntry?
    requires Enabled(y, t, a) && Placed(y, t, y.threads[t]) && t in Do(y, t, a, max).threads
    ensures Placed(Do(y, t, a, max), t, Do(y, t, a, max).threads[t])
  {
  }

  lemma HoldersAfter(y: State, t: Thread, a: Action, max: nat, s: Semaphore)
    requires Enabled(y, t, a) && |Holders(y, s)| <= max
    ensures |Holders(Do(y, t, a, max), s)| <= max
  {
    var y' := Do(y, t, a, max);
    if a.TryAcquire? {
      AcquireIsBounded(y, t, max, s);
    } else {
      forall u | u in Holders(y', s) ensures u in Holders(y, s) {
        assert u != t;
      }
      SubsetSize(Holders(y', s), Holders(y, s));
    }
  }

  lemma AcquireIsBounded(y: State, t: Thread, max: nat, s: Semaphore)
    requires Enabled(y, t, TryAcquire) && |Holders(y, s)| <= max
    ensures |Holders(Do(y, t, TryAcquire, max), s)| <= max
  {
    var y' := Do(y, t, TryAcquire, max);
    if y'.threads[t].Streaming? && y'.threads[t].sem == s {
      assert Holders(y', s) == Holders(y, s) + {t};
    } else {
      assert Holders(y', s) == Holders(y, s);
    }
  }

  lemma StepKeepsInv(y: State, t: Thread, a: Action, max: nat)
    requires Inv(y, max) && Enabled(y, t, a)
    ensures Inv(Do(y, t, a, max), max)
  {
    var y' := Do(y, t, a, max);
    forall u | u in y'.threads ensures Placed(y', u, y'.threads[u]) {
      if u == t {
        if a.Ask? || a.ReadAvailable? || a.ReadCount? || a.CloneEntry? {
          ActorIsPlacedInside(y, t, a, max);
        } else {
          ActorIsPlacedLater(y, t, a, max);
        }
      } else {
        OthersStayPlaced(y, t, a, max, u);
      }
    }
    forall s ensures |Holders(y', s)| <= max {
      HoldersAfter(y, t, a, max, s);
    }
  }

  // ---------------------------------------------------------------- whole runs

  datatype Step = Step(t: Thread, a: Action)

  ghost predicate Possibly(y: State, run: seq<Step>, max: nat)
    decreases |run|
  {
    run == [] || (Enabled(y, run[0].t, run[0].a) && Possibly(Do(y, run[0].t, run[0].a, max), run[1..], max))
  }

  ghost function End(y: State, run: seq<Step>, max: nat): State
    requires Possibly(y, run, max)
    decreases |run|
  {
    if run == [] then y else End(Do(y, run[0].t, run[0].a, max), run[1..], max)
  }

  lemma {:induction false} RunKeepsInv(y: State, run: seq<Step>, max: nat)
    requires Inv(y, max) && Possibly(y, run, max)
    ensures Inv(End(y, run, max), max)
    decreases |run|
  {
    if run != [] {
      StepKeepsInv(y, run[0].t, run[0].a, max);
      RunKeepsInv(Do(y, run[0].t, run[0].a, max), run[1..], max);
    }
  }

  /** The live permits of a key. */
  function Streams(y: State, key: Key): set<Thread> {
    set t | t in y.threads && y.threads[t].Streaming? && y.threads[t].key == key
  }

  /** A key's live permits are exactly the permits taken from the semaphore the map has for it. */
  lemma StreamsAreHolders(y: State, max: nat, key: Key)
    requires Inv(y, max)
    ensures key in y.semaphores ==> Streams(y, key) == Holders(y, y.semaphores[key])
    ensures key !in y.semaphores ==> Streams(y, key) == {}
  {
  }

  /** In every interleaving, no key ever has more than `max` live permits. */
  lemma NeverTooManyStreams(run: seq<Step>, max: nat, key: Key)
    requires Possibly(INITIAL, run, max)
    ensures |Streams(End(INITIAL, run, max), key)| <= max
  {
    InitialInv(max);
    RunKeepsInv(INITIAL, run, max);
    StreamsAreHolders(End(INITIAL, run, max), max, key);
  }

  /** An attempt is denied exactly when its key has `max` live permits at that moment. */
  lemma DeniedExactlyWhenFull(run: seq<Step>, max: nat, t: Thread)
    requires Possibly(INITIAL, run, max) && Enabled(End(INITIAL, run, max), t, TryAcquire)
    ensures var y := End(INITIAL, run, max);
            Do(y, t, TryAcquire, max).threads[t].Denied? <==> |Streams(y, y.threads[t].key)| == max
  {
    InitialInv(max);
    RunKeepsInv(INITIAL, run, max);
    var y := End(INITIAL, run, max);
    assert Placed(y, t, y.threads[t]);
    StreamsAreHolders(y, max, y.threads[t].key);
  }

  /** Two threads that hold semaphores for one key and have not passed their drop checks hold the same one. */
  lemma OneSemaphorePerKey(run: seq<Step>, max: nat, t: Thread, u: Thread)
    requires Possibly(INITIAL, run, max)
    requires var y := End(INITIAL, run, max);
             && t in y.threads && HasSemaphore(y.threads[t]) && !y.threads[t].Leaving?
             && u in y.threads && HasSemaphore(y.threads[u]) && !y.threads[u].Leaving?
    ensures var y := End(INITIAL, run, max); y.threads[t].key == y.threads[u].key <==> y.threads[t].sem == y.threads[u].sem
  {
    InitialInv(max);
    RunKeepsInv(INITIAL, run, max);
    var y := End(INITIAL, run, max);
    assert Placed(y, t, y.threads[t]) && Placed(y, u, y.threads[u]);
  }

  /** Somebody other than `t` refers to the semaphore. */
  predicate HeldByAnother(y: State, s: Semaphore, t: Thread) {
    exists u :: u in y.threads && u != t && HasSemaphore(y.threads[u]) && y.threads[u].sem == s
  }

  lemma NoOtherReferences(y: State, k: Key, t: Thread)
    requires OneKeyEach(y.semaphores, y.next) && k in y.semaphores && t in y.threads
    requires y.threads[t].Counting? && y.threads[t].sem == y.semaphores[k] && !HeldByAnother(y, y.semaphores[k], t)
    ensures StrongCount(y, y.semaphores[k]) == 2
  {
    assert References(y, y.semaphores[k]) == {InMap(k), Own(t)};
  }

  /** Dropping a permit removes the key's entry exactly when nobody else refers to its semaphore. */
  lemma DropRemovesExactlyWhenLast(run: seq<Step>, max: nat, t: Thread)
    requires Possibly(INITIAL, run, max) && Enabled(End(INITIAL, run, max), t, CheckCount)
    ensures var y := End(INITIAL, run, max);
            y.threads[t].key !in Do(y, t, CheckCount, max).semaphores <==> !HeldByAnother(y, y.threads[t].sem, t)
  {
    InitialInv(max);
    RunKeepsInv(INITIAL, run, max);
    var y := End(INITIAL, run, max);
    var p := y.threads[t];
    assert Placed(y, t, p);
    if u :| u in y.threads && u != t && HasSemaphore(y.threads[u]) && y.threads[u].sem == p.sem {
      OnlyTheMapAndOne(y, p.key, t, u);
    } else {
      NoOtherReferences(y, p.key, t);
    }
  }

  /** Sweeping removes an entry exactly when no thread refers to its semaphore. */
  lemma SweepRemovesExactlyTheUnheld(run: seq<Step>, max: nat, t: Thread)
    requires Possibly(INITIAL, run, max) && Enabled(End(INITIAL, run, max), t, ReadCount)
    ensures var y := End(INITIAL, run, max);
            var k := y.threads[t].entry;
            k !in Do(y, t, ReadCount, max).semaphores <==> !HeldByAnother(y, y.semaphores[k], t)
  {
    InitialInv(max);
    RunKeepsInv(INITIAL, run, max);
    var y := End(INITIAL, run, max);
    var k := y.threads[t].entry;
    if u :| u in y.threads && u != t && HasSemaphore(y.threads[u]) && y.threads[u].sem == y.semaphores[k] {
      OnlyTheMap(y, k, u);
    } else {
      assert References(y, y.semaphores[k]) == {InMap(k)};
    }
  }
}
