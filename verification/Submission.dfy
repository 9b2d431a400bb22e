/**
  Submitting batches for settlement. Each submission is a task whose steps hold the state lock one at a
  time; between them other submissions, retries and settlement notices interleave freely.
 */
module Submission {
  import opened Types
  import opened Events

  /** The parts of a pending batch that submission reads or writes. */
  datatype Batch = Batch(hasPayload: bool, zeroInputs: bool, submitting: bool, attempts: nat)

  /** Where a call of `submit_batch` is, after it took the flag. */
  datatype Phase =
    | Holding
    | Calling
    | Accepted
    | Failing
    | Closing

  /** A running submission and the inputs it copied when it took the flag. */
  datatype Task = Task(batchId: Id, phase: Phase, hasPayload: bool, zeroInputs: bool)

  /**
    `log` holds the batch events in order, `settling` the notices whose event is stored but whose batch is
    not yet removed, `calls` every submitter call ever made, `poisoned` every batch a submission refused, and
    `revived` every batch this process started with although the log had closed it.
   */
  datatype State = State(
    pending: map<Id, Batch>,
    tasks: map<Id, Task>,
    settling: map<Id, Id>,
    log: seq<EventData>,
    calls: seq<Task>,
    poisoned: set<Id>,
    revived: set<Id>)

  datatype Move =
    | Finalize(batchId: Id, auctionId: Id, zeroInputs: bool)
    | AttachPayload(batchId: Id)
    | TakeFlag(task: Id, batchId: Id)
    | CheckInputs(task: Id)
    | Answer(task: Id, accepted: bool)
    | AppendConfirmed(task: Id, stored: bool)
    | NoteFailure(task: Id)
    | RemoveConfirmed(task: Id)
    | AppendSettled(notice: Id, batchId: Id)
    | RemoveSettled(notice: Id)

  predicate SubmittedIn(log: seq<EventData>, b: Id) {
    exists i :: 0 <= i < |log| && log[i].BatchSubmitted? && log[i].batchId == b
  }

  /** The log holds an event that closes the batch. */
  predicate ClosedIn(log: seq<EventData>, b: Id) {
    BatchConfirmed(b) in log || BatchSettled(b) in log
  }

  predicate Poisoned(t: Task) {
    !t.hasPayload && t.zeroInputs
  }

  predicate InPhase(y: State, task: Id, phase: Phase) {
    task in y.tasks && y.tasks[task].phase == phase
  }

  predicate Enabled(y: State, m: Move) {
    match m
    case Finalize(b, _, _) => !SubmittedIn(y.log, b)
    case AttachPayload(_) => true
    case TakeFlag(t, _) => t !in y.tasks
    case CheckInputs(t) => InPhase(y, t, Holding)
    case Answer(t, _) => InPhase(y, t, Calling)
    case AppendConfirmed(t, _) => InPhase(y, t, Accepted)
    case NoteFailure(t) => InPhase(y, t, Failing)
    case RemoveConfirmed(t) => InPhase(y, t, Closing)
    case AppendSettled(u, b) => u !in y.settling && SubmittedIn(y.log, b)
    case RemoveSettled(u) => u in y.settling
  }

  function Advance(y: State, task: Id, phase: Phase): State
    requires task in y.tasks
  {
    y.(tasks := y.tasks[task := y.tasks[task].(phase := phase)])
  }

  /** `submit_batch` gives up: the flag is cleared so that a retry can take it. */
  function GiveUp(y: State, task: Id): State
    requires task in y.tasks
  {
    var b := y.tasks[task].batchId;
    var done := y.(tasks := y.tasks - {task});
    if b in y.pending then
      done.(pending := y.pending[b := y.pending[b].(submitting := false, attempts := y.pending[b].attempts + 1)])
    else done
  }

  function Do(y: State, m: Move): State
    requires Enabled(y, m)
  {
    match m
    case Finalize(b, a, zeros) =>
      y.(log := y.log + [BatchSubmitted(b, a)], pending := y.pending[b := Batch(false, zeros, false, 0)])
    case AttachPayload(b) =>
      if b in y.pending then y.(pending := y.pending[b := y.pending[b].(hasPayload := true)]) else y
    case TakeFlag(t, b) =>
      if b in y.pending && !y.pending[b].submitting then
        y.(pending := y.pending[b := y.pending[b].(submitting := true)],
           tasks := y.tasks[t := Task(b, Holding, y.pending[b].hasPayload, y.pending[b].zeroInputs)])
      else y
    case CheckInputs(t) =>
      var task := y.tasks[t];
      if Poisoned(task) then y.(tasks := y.tasks - {t}, poisoned := y.poisoned + {task.batchId})
      else Advance(y, t, Calling).(calls := y.calls + [task])
    case Answer(t, accepted) => Advance(y, t, if accepted then Accepted else Failing)
    case AppendConfirmed(t, stored) =>
      if stored then Advance(y, t, Closing).(log := y.log + [BatchConfirmed(y.tasks[t].batchId)])
      else Advance(y, t, Failing)
    case NoteFailure(t) => GiveUp(y, t)
    case RemoveConfirmed(t) => y.(pending := y.pending - {y.tasks[t].batchId}, tasks := y.tasks - {t})
    case AppendSettled(u, b) => y.(log := y.log + [BatchSettled(b)], settling := y.settling[u := b])
    case RemoveSettled(u) => y.(pending := y.pending - {y.settling[u]}, settling := y.settling - {u})
  }

  // ---------------------------------------------------------------- the invariant

  /** Whoever works on a pending batch holds its flag, and no two tasks work on one batch. */
  predicate FlagsHeld(y: State) {
    && (forall t :: t in y.tasks && y.tasks[t].batchId in y.pending ==> y.pending[y.tasks[t].batchId].submitting)
    && (forall t, u :: t in y.tasks && u in y.tasks && y.tasks[t].batchId == y.tasks[u].batchId ==> t == u)
  }

  /** No poisoned inputs ever reached the submitter, nor can those still on the way. */
  predicate CallsSound(y: State) {
    && (forall i :: 0 <= i < |y.calls| ==> !Poisoned(y.calls[i]))
    && (forall t :: t in y.tasks && y.tasks[t].phase != Holding ==> !Poisoned(y.tasks[t]))
  }

  /** The window in which a batch is closed in the log but not yet removed. */
  predicate InWindow(y: State, b: Id) {
    || (exists t :: t in y.tasks && BeingClosed(y, t, b))
    || (exists u :: u in y.settling && BeingSettled(y, u, b))
  }

  predicate BeingClosed(y: State, t: Id, b: Id) {
    InPhase(y, t, Closing) && y.tasks[t].batchId == b
  }

  predicate BeingSettled(y: State, u: Id, b: Id) {
    u in y.settling && y.settling[u] == b
  }

  /**
    What left was closed; what is closed and has not left is in its window or was brought back by the restart;
    what is in a window or was brought back is closed.
   */
  predicate Tracked(y: State, b: Id) {
    && (SubmittedIn(y.log, b) && b !in y.pending ==> ClosedIn(y.log, b))
    && (b in y.pending && ClosedIn(y.log, b) ==> InWindow(y, b) || b in y.revived)
    && (InWindow(y, b) || b in y.revived ==> ClosedIn(y.log, b))
    && (ClosedIn(y.log, b) ==> SubmittedIn(y.log, b))
    && (b in y.pending ==> SubmittedIn(y.log, b))
    && (forall t :: t in y.tasks && y.tasks[t].batchId == b ==> SubmittedIn(y.log, b))
  }

  /** A refused batch keeps its flag with no task left to clear it. */
  predicate Blocked(y: State, b: Id) {
    && (b in y.pending ==> y.pending[b].submitting)
    && (forall t :: t in y.tasks ==> y.tasks[t].batchId != b)
    && SubmittedIn(y.log, b)
  }

  predicate WorksOn(y: State, t: Id, b: Id) {
    t in y.tasks && y.tasks[t].batchId == b
  }

  /** A flag is set because some submission works on the batch or because the batch was refused. */
  predicate Explained(y: State, b: Id) {
    b in y.pending && y.pending[b].submitting ==> b in y.poisoned || exists t :: t in y.tasks && WorksOn(y, t, b)
  }

  ghost predicate Inv(y: State) {
    && FlagsHeld(y) && CallsSound(y)
    && (forall b :: Tracked(y, b) && Explained(y, b))
    && (forall b :: b in y.poisoned ==> Blocked(y, b))
  }

  /**
    A process that has just recovered: nothing in flight, every open batch pending. A snapshot may also have
    brought back batches that the log had closed.
   */
  ghost predicate Started(y: State) {
    && y.tasks == map[] && y.settling == map[] && y.calls == [] && y.poisoned == {}
    && (forall b :: StartsRight(y, b))
  }

  predicate StartsRight(y: State, b: Id) {
    && (SubmittedIn(y.log, b) && !ClosedIn(y.log, b) ==> b in y.pending)
    && (b in y.pending || ClosedIn(y.log, b) ==> SubmittedIn(y.log, b))
    && (b in y.pending ==> !y.pending[b].submitting)
    && (b in y.revived <==> b in y.pending && ClosedIn(y.log, b))
  }

  lemma StartedInv(y: State)
    requires Started(y)
    ensures Inv(y)
  {
    forall b ensures Tracked(y, b) && Explained(y, b) {
      assert StartsRight(y, b);
    }
  }

  lemma LogGrows(log: seq<EventData>, e: EventData, b: Id)
    ensures SubmittedIn(log + [e], b) <==> SubmittedIn(log, b) || (e.BatchSubmitted? && e.batchId == b)
    ensures ClosedIn(log + [e], b) <==> ClosedIn(log, b) || e == BatchConfirmed(b) || e == BatchSettled(b)
  {
    var all := log + [e];
    assert all[|log|] == e;
    if SubmittedIn(log, b) {
      var i :| 0 <= i < |log| && log[i].BatchSubmitted? && log[i].batchId == b;
      assert all[i] == log[i];
    }
  }

  lemma FlagsKept(y: State, m: Move)
    requires FlagsHeld(y) && Enabled(y, m)
    requires m.Finalize? ==> Tracked(y, m.batchId)
    ensures FlagsHeld(Do(y, m))
  {
  }

  lemma CallsKept(y: State, m: Move)
    requires CallsSound(y) && Enabled(y, m)
    ensures CallsSound(Do(y, m))
  {
  }

  lemma MoveLog(y: State, m: Move, b: Id)
    requires Enabled(y, m)
    ensures var log := Do(y, m).log;
            && (SubmittedIn(log, b) <==> SubmittedIn(y.log, b) || (m.Finalize? && m.batchId == b))
            && (ClosedIn(log, b) <==> ClosedIn(y.log, b) || Opens(y, m, b))
  {
    match m
    case Finalize(x, a, _) => LogGrows(y.log, BatchSubmitted(x, a), b);
    case AppendConfirmed(t, stored) => LogGrows(y.log, BatchConfirmed(y.tasks[t].batchId), b);
    case AppendSettled(_, x) => LogGrows(y.log, BatchSettled(x), b);
    case _ =>
  }

  /** The move opens a window for the batch. */
  predicate Opens(y: State, m: Move, b: Id)
    requires Enabled(y, m)
  {
    || (m.AppendConfirmed? && m.stored && y.tasks[m.task].batchId == b)
    || (m.AppendSettled? && m.batchId == b)
  }

  lemma WindowOpens(y: State, m: Move, b: Id)
    requires Enabled(y, m) && Opens(y, m, b)
    ensures InWindow(Do(y, m), b)
  {
    if m.AppendConfirmed? {
      assert BeingClosed(Do(y, m), m.task, b);
    } else {
      assert BeingSettled(Do(y, m), m.notice, b);
    }
  }

  lemma WindowStays(y: State, m: Move, b: Id)
    requires Enabled(y, m) && InWindow(y, b) && b in Do(y, m).pending
    ensures InWindow(Do(y, m), b)
  {
    if t :| t in y.tasks && BeingClosed(y, t, b) {
      assert BeingClosed(Do(y, m), t, b);
    } else {
      var u :| u in y.settling && BeingSettled(y, u, b);
      assert BeingSettled(Do(y, m), u, b);
    }
  }

  lemma WindowsAreOpened(y: State, m: Move, b: Id)
    requires Enabled(y, m) && InWindow(Do(y, m), b)
    ensures InWindow(y, b) || Opens(y, m, b)
  {
  }

  lemma TrackedKept(y: State, m: Move, b: Id)
    requires FlagsHeld(y) && Tracked(y, b) && Enabled(y, m)
    requires forall x :: Tracked(y, x)
    ensures Tracked(Do(y, m), b)
  {
    MoveLog(y, m, b);
    if Opens(y, m, b) {
      WindowOpens(y, m, b);
    } else if InWindow(y, b) && b in Do(y, m).pending {
      WindowStays(y, m, b);
    }
    if InWindow(Do(y, m), b) {
      WindowsAreOpened(y, m, b);
    }
  }

  lemma BlockedKept(y: State, m: Move, b: Id)
    requires FlagsHeld(y) && Enabled(y, m)
    requires Blocked(y, b)
    ensures Blocked(Do(y, m), b)
  {
    MoveLog(y, m, b);
  }

  lemma PoisoningBlocks(y: State, m: Move)
    requires FlagsHeld(y) && Enabled(y, m) && m.CheckInputs? && Poisoned(y.tasks[m.task]) && Tracked(y, y.tasks[m.task].batchId)
    ensures Blocked(Do(y, m), y.tasks[m.task].batchId)
  {
  }

  lemma ExplainedKept(y: State, m: Move, b: Id)
    requires Explained(y, b) && Enabled(y, m)
    ensures Explained(Do(y, m), b)
  {
    var y' := Do(y, m);
    if t :| t in y.tasks && WorksOn(y, t, b) {
      assert WorksOn(y', t, b) || b in y'.poisoned || b !in y'.pending || !y'.pending[b].submitting;
    } else if m.TakeFlag? && m.batchId == b && b in y.pending && !y.pending[b].submitting {
      assert WorksOn(y', m.task, b);
    }
  }

  lemma MoveKeepsInv(y: State, m: Move)
    requires Inv(y) && Enabled(y, m)
    ensures Inv(Do(y, m))
  {
    FlagsKept(y, m);
    CallsKept(y, m);
    forall b ensures Tracked(Do(y, m), b) && Explained(Do(y, m), b) {
      TrackedKept(y, m, b);
      ExplainedKept(y, m, b);
    }
    forall b | b in Do(y, m).poisoned ensures Blocked(Do(y, m), b) {
      if b in y.poisoned {
        BlockedKept(y, m, b);
      } else {
        PoisoningBlocks(y, m);
      }
    }
  }

  // ---------------------------------------------------------------- whole runs

  ghost predicate Possibly(y: State, ms: seq<Move>)
    decreases |ms|
  {
    ms == [] || (Enabled(y, ms[0]) && Possibly(Do(y, ms[0]), ms[1..]))
  }

  ghost function End(y: State, ms: seq<Move>): State
    requires Possibly(y, ms)
    decreases |ms|
  {
    if ms == [] then y else End(Do(y, ms[0]), ms[1..])
  }

  lemma {:induction false} RunKeepsInv(y: State, ms: seq<Move>)
    requires Inv(y) && Possibly(y, ms)
    ensures Inv(End(y, ms))
    decreases |ms|
  {
    if ms != [] {
      MoveKeepsInv(y, ms[0]);
      RunKeepsInv(Do(y, ms[0]), ms[1..]);
    }
  }

  /** In every interleaving at most one submitter call per batch is in flight, and none was ever made with poisoned inputs. */
  lemma OneCallInFlight(start: State, ms: seq<Move>, t: Id, u: Id, b: Id)
    requires Started(start) && Possibly(start, ms)
    ensures var y := End(start, ms);
            && (InPhase(y, t, Calling) && InPhase(y, u, Calling) && y.tasks[t].batchId == y.tasks[u].batchId ==> t == u)
            && (forall i :: 0 <= i < |y.calls| ==> !Poisoned(y.calls[i]))
  {
    StartedInv(start);
    RunKeepsInv(start, ms);
  }

  /** In every interleaving a pending batch is flagged exactly while a submission works on it or once it was refused. */
  lemma FlaggedExactlyWhileWorkedOn(start: State, ms: seq<Move>, b: Id)
    requires Started(start) && Possibly(start, ms) && b in End(start, ms).pending
    ensures var y := End(start, ms);
            y.pending[b].submitting <==> b in y.poisoned || exists t :: t in y.tasks && WorksOn(y, t, b)
  {
    StartedInv(start);
    RunKeepsInv(start, ms);
    assert Explained(End(start, ms), b);
  }

  /** A batch leaves the pending ones only once an event closing it is in the log. */
  lemma LeavesOnlyWhenClosed(start: State, ms: seq<Move>, b: Id)
    requires Started(start) && Possibly(start, ms)
    requires SubmittedIn(End(start, ms).log, b) && b !in End(start, ms).pending
    ensures ClosedIn(End(start, ms).log, b)
  {
    StartedInv(start);
    RunKeepsInv(start, ms);
    assert Tracked(End(start, ms), b);
  }

  /**
    A snapshot taken between two moves agrees with the log about which batches are open exactly when no batch
    still pending is between the append and the removal of its closing, or was itself brought back closed.
   */
  lemma CaptureAgreesExactly(start: State, ms: seq<Move>)
    requires Started(start) && Possibly(start, ms)
    ensures var y := End(start, ms);
            (forall b :: b in y.pending <==> SubmittedIn(y.log, b) && !ClosedIn(y.log, b))
            <==> (forall b :: b in y.pending ==> !InWindow(y, b) && b !in y.revived)
  {
    StartedInv(start);
    RunKeepsInv(start, ms);
    var y := End(start, ms);
    forall b ensures b in y.pending && ClosedIn(y.log, b) <==> b in y.pending && (InWindow(y, b) || b in y.revived) {
      assert Tracked(y, b);
    }
    forall b ensures SubmittedIn(y.log, b) && !ClosedIn(y.log, b) ==> b in y.pending {
      assert Tracked(y, b);
    }
    forall b ensures b in y.pending ==> SubmittedIn(y.log, b) {
      assert Tracked(y, b);
    }
  }

  const NOTHING: State := State(map[], map[], map[], [], [], {}, {})

  lemma RunFirst(y: State, m: Move, rest: seq<Move>, z: State)
    requires Enabled(y, m) && Possibly(Do(y, m), rest) && End(Do(y, m), rest) == z
    ensures Possibly(y, [m] + rest) && End(y, [m] + rest) == z
  {
    assert ([m] + rest)[1..] == rest;
  }

  /** An accepted call whose closing event is stored. */
  lemma ClosesBeforeRemoval(y: State, b: Id, t: Id) returns (z: State)
    requires InPhase(y, t, Calling) && y.tasks[t].batchId == b && b in y.pending
    ensures var ms := [Answer(t, true)] + [AppendConfirmed(t, true)]; Possibly(y, ms) && End(y, ms) == z
    ensures b in z.pending && ClosedIn(z.log, b)
  {
    var accepted := Do(y, Answer(t, true));
    z := Do(accepted, AppendConfirmed(t, true));
    assert z.log[|y.log|] == BatchConfirmed(b);
    RunFirst(accepted, AppendConfirmed(t, true), [], z);
    RunFirst(y, Answer(t, true), [AppendConfirmed(t, true)], z);
  }

  /** Between the append and the removal a snapshot would keep a batch whose closing event it already covers. */
  lemma CaptureCanDisagree(b: Id, a: Id, t: Id)
    ensures Started(NOTHING)
    ensures var ms := [Finalize(b, a, false), TakeFlag(t, b), CheckInputs(t), Answer(t, true), AppendConfirmed(t, true)];
            Possibly(NOTHING, ms) && b in End(NOTHING, ms).pending && ClosedIn(End(NOTHING, ms).log, b)
  {
    var ms := [Finalize(b, a, false), TakeFlag(t, b), CheckInputs(t), Answer(t, true), AppendConfirmed(t, true)];
    var y1 := Do(NOTHING, ms[0]);
    var y2 := Do(y1, ms[1]);
    var y3 := Do(y2, ms[2]);
    var z := ClosesBeforeRemoval(y3, b, t);
    RunFirst(y2, ms[2], [ms[3]] + [ms[4]], z);
    RunFirst(y1, ms[1], [ms[2]] + ([ms[3]] + [ms[4]]), z);
    RunFirst(NOTHING, ms[0], [ms[1]] + ([ms[2]] + ([ms[3]] + [ms[4]])), z);
    assert ms == [ms[0]] + ([ms[1]] + ([ms[2]] + ([ms[3]] + [ms[4]])));
  }

  /** A batch can be refused for its inputs first and be given its payload afterwards; its flag then stays set. */
  lemma PayloadCanComeTooLate(b: Id, a: Id, t: Id)
    ensures Started(NOTHING)
    ensures var ms := [Finalize(b, a, true), TakeFlag(t, b), CheckInputs(t), AttachPayload(b)];
            && Possibly(NOTHING, ms)
            && var z := End(NOTHING, ms);
            b in z.poisoned && b in z.pending && z.pending[b].hasPayload && z.pending[b].submitting && z.tasks == map[]
  {
    var ms := [Finalize(b, a, true), TakeFlag(t, b), CheckInputs(t), AttachPayload(b)];
    var y1 := Do(NOTHING, ms[0]);
    var y2 := Do(y1, ms[1]);
    var y3 := Do(y2, ms[2]);
    var z := Do(y3, ms[3]);
    RunFirst(y3, ms[3], [], z);
    RunFirst(y2, ms[2], [ms[3]], z);
    RunFirst(y1, ms[1], [ms[2]] + [ms[3]], z);
    RunFirst(NOTHING, ms[0], [ms[1]] + ([ms[2]] + [ms[3]]), z);
    assert ms == [ms[0]] + ([ms[1]] + ([ms[2]] + [ms[3]]));
  }

  lemma BlockedIsNotCalled(y: State, m: Move, b: Id)
    requires Blocked(y, b) && Enabled(y, m)
    ensures var y' := Do(y, m);
            y'.calls == y.calls || (|y'.calls| == |y.calls| + 1 && y'.calls[..|y.calls|] == y.calls && y'.calls[|y.calls|].batchId != b)
  {
  }

  lemma {:induction false} BlockedIsNeverCalled(y: State, ms: seq<Move>, b: Id)
    requires Inv(y) && Blocked(y, b) && Possibly(y, ms)
    ensures y.calls <= End(y, ms).calls
    ensures forall i :: |y.calls| <= i < |End(y, ms).calls| ==> End(y, ms).calls[i].batchId != b
    decreases |ms|
  {
    if ms != [] {
      MoveKeepsInv(y, ms[0]);
      BlockedKept(y, ms[0], b);
      BlockedIsNotCalled(y, ms[0], b);
      BlockedIsNeverCalled(Do(y, ms[0]), ms[1..], b);
    }
  }

  /** A batch refused for its inputs is never sent afterwards, along any continuation, whatever payload arrives later. */
  lemma RefusedStaysRefused(start: State, ms: seq<Move>, more: seq<Move>, b: Id)
    requires Started(start) && Possibly(start, ms) && b in End(start, ms).poisoned && Possibly(End(start, ms), more)
    ensures var y := End(start, ms);
            var z := End(y, more);
            && y.calls <= z.calls && (forall i :: |y.calls| <= i < |z.calls| ==> z.calls[i].batchId != b)
            && (b in z.pending ==> z.pending[b].submitting)
  {
    StartedInv(start);
    RunKeepsInv(start, ms);
    var y := End(start, ms);
    BlockedIsNeverCalled(y, more, b);
    BlockedThroughout(y, more, b);
  }

  lemma {:induction false} BlockedThroughout(y: State, ms: seq<Move>, b: Id)
    requires Inv(y) && Blocked(y, b) && Possibly(y, ms)
    ensures Blocked(End(y, ms), b)
    decreases |ms|
  {
    if ms != [] {
      MoveKeepsInv(y, ms[0]);
      BlockedKept(y, ms[0], b);
      BlockedThroughout(Do(y, ms[0]), ms[1..], b);
    }
  }

  // ---------------------------------------------------------------- what a confirmation rests on

  /** A run is a shorter run and its last move. */
  lemma {:induction false} RunLast(start: State, ms: seq<Move>)
    requires ms != [] && Possibly(start, ms)
    ensures var n := |ms| - 1;
            && Possibly(start, ms[..n]) && Enabled(End(start, ms[..n]), ms[n])
            && End(start, ms) == Do(End(start, ms[..n]), ms[n])
    decreases |ms|
  {
    var n := |ms| - 1;
    if n > 0 {
      RunLast(Do(start, ms[0]), ms[1..]);
      assert ms[1..][..n - 1] == ms[..n][1..];
    } else {
      assert ms[..0] == [] && ms[1..] == [];
    }
  }

  /** The move at `i` has the task call the submitter for the batch. */
  ghost predicate CallsAt(start: State, ms: seq<Move>, i: nat, t: Id, b: Id) {
    && i < |ms| && ms[i] == CheckInputs(t) && Possibly(start, ms[..i + 1])
    && Possibly(start, ms[..i])
    && var y, y' := End(start, ms[..i]), End(start, ms[..i + 1]);
    && t in y.tasks && y.tasks[t].batchId == b && y'.calls == y.calls + [y.tasks[t]]
  }

  /** The submitter does not answer the task at or after `i`. */
  predicate NoAnswer(ms: seq<Move>, i: nat, t: Id) {
    forall k :: i <= k < |ms| ==> !(ms[k].Answer? && ms[k].task == t)
  }

  /** The task called for the batch at `i` and has not been answered since. */
  ghost predicate Unanswered(start: State, ms: seq<Move>, i: nat, t: Id, b: Id) {
    CallsAt(start, ms, i, t, b) && NoAnswer(ms, i, t)
  }

  /** The task called for the batch at `i`, was answered with acceptance at `j`, and not answered otherwise since the call. */
  ghost predicate AcceptedAt(start: State, ms: seq<Move>, i: nat, j: nat, t: Id, b: Id) {
    && i < j < |ms| && ms[j] == Answer(t, true)
    && Unanswered(start, ms[..j], i, t, b) && NoAnswer(ms, j + 1, t)
  }

  ghost predicate Awaiting(start: State, ms: seq<Move>, t: Id, b: Id) {
    exists i: nat :: Unanswered(start, ms, i, t, b)
  }

  ghost predicate AcceptedBy(start: State, ms: seq<Move>, t: Id, b: Id) {
    exists i: nat, j: nat :: AcceptedAt(start, ms, i, j, t, b)
  }

  lemma UnansweredOn(start: State, ms: seq<Move>, i: nat, t: Id, b: Id, m: Move)
    requires Unanswered(start, ms, i, t, b) && !(m.Answer? && m.task == t)
    ensures Unanswered(start, ms + [m], i, t, b)
  {
    var all := ms + [m];
    assert all[..i] == ms[..i] && all[..i + 1] == ms[..i + 1];
  }

  lemma AcceptedOn(start: State, ms: seq<Move>, i: nat, j: nat, t: Id, b: Id, m: Move)
    requires AcceptedAt(start, ms, i, j, t, b) && !(m.Answer? && m.task == t)
    ensures AcceptedAt(start, ms + [m], i, j, t, b)
  {
    var all := ms + [m];
    assert all[..j] == ms[..j];
  }

  /** What the phase of a task says about the run that led to it. */
  ghost predicate PhaseMeans(start: State, ms: seq<Move>, t: Id, task: Task) {
    && (task.phase == Calling ==> Awaiting(start, ms, t, task.batchId))
    && (task.phase == Accepted || task.phase == Closing ==> AcceptedBy(start, ms, t, task.batchId))
  }

  /** A task whose phase does not change keeps its explanation. */
  lemma PhaseStays(start: State, ms: seq<Move>, t: Id, task: Task, m: Move)
    requires PhaseMeans(start, ms, t, task) && !(m.Answer? && m.task == t)
    ensures PhaseMeans(start, ms + [m], t, task)
  {
    if task.phase == Calling {
      var i: nat :| Unanswered(start, ms, i, t, task.batchId);
      UnansweredOn(start, ms, i, t, task.batchId, m);
    } else if task.phase == Accepted || task.phase == Closing {
      var i: nat, j: nat :| AcceptedAt(start, ms, i, j, t, task.batchId);
      AcceptedOn(start, ms, i, j, t, task.batchId, m);
    }
  }

  lemma CallingMeans(start: State, ms: seq<Move>, t: Id)
    requires Possibly(start, ms + [CheckInputs(t)]) && Possibly(start, ms)
    requires var y := End(start, ms); InPhase(y, t, Holding) && !Poisoned(y.tasks[t])
    requires End(start, ms + [CheckInputs(t)]) == Do(End(start, ms), CheckInputs(t))
    ensures Awaiting(start, ms + [CheckInputs(t)], t, End(start, ms).tasks[t].batchId)
  {
    var all, b := ms + [CheckInputs(t)], End(start, ms).tasks[t].batchId;
    assert all[..|ms|] == ms && all[..|ms| + 1] == all;
    assert Unanswered(start, all, |ms|, t, b);
  }

  lemma AcceptanceMeans(start: State, ms: seq<Move>, t: Id, b: Id)
    requires Awaiting(start, ms, t, b)
    ensures AcceptedBy(start, ms + [Answer(t, true)], t, b)
  {
    var i: nat :| Unanswered(start, ms, i, t, b);
    var all := ms + [Answer(t, true)];
    assert all[..|ms|] == ms;
    assert AcceptedAt(start, all, i, |ms|, t, b);
  }

  /** One move, seen by one task. */
  lemma PhaseMoves(start: State, ms: seq<Move>, m: Move, t: Id)
    requires Possibly(start, ms) && Possibly(start, ms + [m]) && Enabled(End(start, ms), m)
    requires End(start, ms + [m]) == Do(End(start, ms), m) && t in End(start, ms + [m]).tasks
    requires t in End(start, ms).tasks ==> PhaseMeans(start, ms, t, End(start, ms).tasks[t])
    ensures PhaseMeans(start, ms + [m], t, End(start, ms + [m]).tasks[t])
  {
    var y := End(start, ms);
    if m.Answer? && m.task == t {
      if m.accepted {
        AcceptanceMeans(start, ms, t, y.tasks[t].batchId);
      }
    } else if m.CheckInputs? && m.task == t {
      CallingMeans(start, ms, t);
    } else if t in y.tasks {
      PhaseStays(start, ms, t, y.tasks[t], m);
      if m.AppendConfirmed? && m.task == t {
        assert AcceptedBy(start, ms + [m], t, y.tasks[t].batchId);
      }
    }
  }

  lemma {:induction false} PhasesMean(start: State, ms: seq<Move>, t: Id)
    requires start.tasks == map[] && Possibly(start, ms) && t in End(start, ms).tasks
    ensures PhaseMeans(start, ms, t, End(start, ms).tasks[t])
    decreases |ms|
  {
    if ms != [] {
      var n := |ms| - 1;
      RunLast(start, ms);
      assert ms == ms[..n] + [ms[n]];
      if t in End(start, ms[..n]).tasks {
        PhasesMean(start, ms[..n], t);
      }
      PhaseMoves(start, ms[..n], ms[n], t);
    }
  }

  /** Some move before the end stores the confirmation, of a task whose call for the batch was accepted and never answered otherwise. */
  ghost predicate Justified(start: State, ms: seq<Move>, k: nat, b: Id) {
    exists n: nat, t: Id :: JustifiedAt(start, ms, k, b, n, t)
  }

  ghost predicate JustifiedAt(start: State, ms: seq<Move>, k: nat, b: Id, n: nat, t: Id) {
    && n < |ms| && ms[n] == AppendConfirmed(t, true) && Possibly(start, ms[..n])
    && |End(start, ms[..n]).log| == k && AcceptedBy(start, ms[..n], t, b)
  }

  lemma JustifiedOn(start: State, ms: seq<Move>, k: nat, b: Id, m: Move)
    requires Justified(start, ms, k, b)
    ensures Justified(start, ms + [m], k, b)
  {
    var n: nat, t: Id :| JustifiedAt(start, ms, k, b, n, t);
    assert (ms + [m])[..n] == ms[..n];
    assert JustifiedAt(start, ms + [m], k, b, n, t);
  }

  lemma ConfirmsNow(start: State, ms: seq<Move>, m: Move, k: nat, b: Id)
    requires start.tasks == map[] && Possibly(start, ms) && Enabled(End(start, ms), m)
    requires k == |End(start, ms).log| < |Do(End(start, ms), m).log| && Do(End(start, ms), m).log[k] == BatchConfirmed(b)
    ensures Justified(start, ms + [m], k, b)
  {
    var t := m.task;
    PhasesMean(start, ms, t);
    assert (ms + [m])[..|ms|] == ms;
    assert JustifiedAt(start, ms + [m], k, b, |ms|, t);
  }

  /**
    Every confirmation a run adds to the log is stored by a task that had called the submitter for that very batch and
    was answered with acceptance, with no other answer to it in between.
   */
  lemma {:induction false} ConfirmedOnlyIfAccepted(start: State, ms: seq<Move>, k: nat, b: Id)
    requires Started(start) && Possibly(start, ms)
    requires |start.log| <= k < |End(start, ms).log| && End(start, ms).log[k] == BatchConfirmed(b)
    ensures Justified(start, ms, k, b)
    decreases |ms|
  {
    if ms != [] {
      var n := |ms| - 1;
      RunLast(start, ms);
      assert ms == ms[..n] + [ms[n]];
      if k < |End(start, ms[..n]).log| {
        ConfirmedOnlyIfAccepted(start, ms[..n], k, b);
        JustifiedOn(start, ms[..n], k, b, ms[n]);
      } else {
        ConfirmsNow(start, ms[..n], ms[n], k, b);
      }
    }
  }

  lemma FailingStays(y: State, t: Id, m: Move)
    requires InPhase(y, t, Failing) && Enabled(y, m) && m != NoteFailure(t)
    ensures InPhase(Do(y, m), t, Failing) && Do(y, m).tasks[t] == y.tasks[t]
  {
  }

  lemma {:induction false} FailingThroughout(y: State, t: Id, ms: seq<Move>)
    requires InPhase(y, t, Failing) && Possibly(y, ms) && forall i :: 0 <= i < |ms| ==> ms[i] != NoteFailure(t)
    ensures InPhase(End(y, ms), t, Failing) && End(y, ms).tasks[t] == y.tasks[t]
    decreases |ms|
  {
    if ms != [] {
      FailingStays(y, t, ms[0]);
      FailingThroughout(Do(y, ms[0]), t, ms[1..]);
    }
  }

  /**
    A call the submitter did not accept leads nowhere but to a retry: whatever happens in between, the task then clears
    the flag of its batch, if it is still pending, counts the attempt, and leaves the log and every other batch alone.
   */
  lemma FailedCallIsRetried(y: State, t: Id, ms: seq<Move>)
    requires InPhase(y, t, Calling) && Possibly(Do(y, Answer(t, false)), ms)
    requires forall i :: 0 <= i < |ms| ==> ms[i] != NoteFailure(t)
    ensures var b, z := y.tasks[t].batchId, End(Do(y, Answer(t, false)), ms);
            && Do(y, Answer(t, false)).log == y.log && Do(y, Answer(t, false)).pending == y.pending
            && Enabled(z, NoteFailure(t))
            && var w := Do(z, NoteFailure(t));
            && w.log == z.log && w.calls == z.calls && t !in w.tasks && w.pending.Keys == z.pending.Keys
            && (forall x :: x in z.pending && x != b ==> w.pending[x] == z.pending[x])
            && (b in z.pending ==> w.pending[b] == z.pending[b].(submitting := false, attempts := z.pending[b].attempts + 1))
  {
    FailingThroughout(Do(y, Answer(t, false)), t, ms);
  }

  // ---------------------------------------------------------------- what a call carries

  /** The batch was pending at the start, or finalized since, with inputs that are all zero or not. */
  predicate Declared(start: State, ms: seq<Move>, b: Id, zeros: bool) {
    || (b in start.pending && start.pending[b].zeroInputs == zeros)
    || exists i :: 0 <= i < |ms| && DeclaresAs(ms[i], b, zeros)
  }

  predicate DeclaresAs(m: Move, b: Id, zeros: bool) {
    m.Finalize? && m.batchId == b && m.zeroInputs == zeros
  }

  predicate PayloadGiven(start: State, ms: seq<Move>, b: Id) {
    (b in start.pending && start.pending[b].hasPayload) || AttachPayload(b) in ms
  }

  /** The inputs are ones the batch was really given. */
  predicate Real(start: State, ms: seq<Move>, b: Id, hasPayload: bool, zeroInputs: bool) {
    Declared(start, ms, b, zeroInputs) && (hasPayload ==> PayloadGiven(start, ms, b))
  }

  lemma RealOn(start: State, ms: seq<Move>, b: Id, hasPayload: bool, zeroInputs: bool, m: Move)
    requires Real(start, ms, b, hasPayload, zeroInputs)
    ensures Real(start, ms + [m], b, hasPayload, zeroInputs)
  {
    var all := ms + [m];
    if !(b in start.pending && start.pending[b].zeroInputs == zeroInputs) {
      var i :| 0 <= i < |ms| && DeclaresAs(ms[i], b, zeroInputs);
      assert all[i] == ms[i];
    }
  }

  ghost predicate AllReal(start: State, ms: seq<Move>, y: State) {
    && (forall b :: b in y.pending ==> Real(start, ms, b, y.pending[b].hasPayload, y.pending[b].zeroInputs))
    && (forall t :: t in y.tasks ==> TaskReal(start, ms, y.tasks[t]))
    && (forall i :: 0 <= i < |y.calls| ==> TaskReal(start, ms, y.calls[i]))
    && (forall b :: b in y.poisoned ==> Declared(start, ms, b, true))
  }

  predicate TaskReal(start: State, ms: seq<Move>, t: Task) {
    Real(start, ms, t.batchId, t.hasPayload, t.zeroInputs)
  }

  lemma PendingReal(start: State, ms: seq<Move>, y: State, m: Move, b: Id)
    requires AllReal(start, ms, y) && Enabled(y, m) && b in Do(y, m).pending
    ensures Real(start, ms + [m], b, Do(y, m).pending[b].hasPayload, Do(y, m).pending[b].zeroInputs)
  {
    var all := ms + [m];
    assert all[|ms|] == m;
    if m.Finalize? && m.batchId == b {
      assert DeclaresAs(all[|ms|], b, m.zeroInputs);
    } else {
      RealOn(start, ms, b, y.pending[b].hasPayload, y.pending[b].zeroInputs, m);
    }
  }

  lemma TasksReal(start: State, ms: seq<Move>, y: State, m: Move, t: Id)
    requires AllReal(start, ms, y) && Enabled(y, m) && t in Do(y, m).tasks
    ensures TaskReal(start, ms + [m], Do(y, m).tasks[t])
  {
    if t in y.tasks {
      RealOn(start, ms, y.tasks[t].batchId, y.tasks[t].hasPayload, y.tasks[t].zeroInputs, m);
    } else {
      RealOn(start, ms, m.batchId, y.pending[m.batchId].hasPayload, y.pending[m.batchId].zeroInputs, m);
    }
  }

  lemma CallsReal(start: State, ms: seq<Move>, y: State, m: Move, i: nat)
    requires AllReal(start, ms, y) && Enabled(y, m) && i < |Do(y, m).calls|
    ensures TaskReal(start, ms + [m], Do(y, m).calls[i])
  {
    var t := Do(y, m).calls[i];
    assert TaskReal(start, ms, t);
    RealOn(start, ms, t.batchId, t.hasPayload, t.zeroInputs, m);
  }

  lemma RefusedReal(start: State, ms: seq<Move>, y: State, m: Move, b: Id)
    requires AllReal(start, ms, y) && Enabled(y, m) && b in Do(y, m).poisoned
    ensures Declared(start, ms + [m], b, true)
  {
    assert Declared(start, ms, b, true);
    RealOn(start, ms, b, false, true, m);
  }

  lemma MoveStaysReal(start: State, ms: seq<Move>, y: State, m: Move)
    requires AllReal(start, ms, y) && Enabled(y, m)
    ensures AllReal(start, ms + [m], Do(y, m))
  {
    var y' := Do(y, m);
    forall b | b in y'.pending ensures Real(start, ms + [m], b, y'.pending[b].hasPayload, y'.pending[b].zeroInputs) {
      PendingReal(start, ms, y, m, b);
    }
    forall t | t in y'.tasks ensures TaskReal(start, ms + [m], y'.tasks[t]) {
      TasksReal(start, ms, y, m, t);
    }
    forall i | 0 <= i < |y'.calls| ensures TaskReal(start, ms + [m], y'.calls[i]) {
      CallsReal(start, ms, y, m, i);
    }
    forall b | b in y'.poisoned ensures Declared(start, ms + [m], b, true) {
      RefusedReal(start, ms, y, m, b);
    }
  }

  lemma {:induction false} RunStaysReal(start: State, ms: seq<Move>)
    requires Started(start) && Possibly(start, ms)
    ensures AllReal(start, ms, End(start, ms))
    decreases |ms|
  {
    if ms != [] {
      var n := |ms| - 1;
      RunLast(start, ms);
      RunStaysReal(start, ms[..n]);
      MoveStaysReal(start, ms[..n], End(start, ms[..n]), ms[n]);
      assert ms == ms[..n] + [ms[n]];
    }
  }

  /** Every batch ever sent had been given a payload or has inputs that are not all zero; every refused one was all zero. */
  lemma CallsCarryRealInputs(start: State, ms: seq<Move>, i: nat, b: Id)
    requires Started(start) && Possibly(start, ms)
    ensures i < |End(start, ms).calls| && End(start, ms).calls[i].batchId == b ==>
              PayloadGiven(start, ms, b) || Declared(start, ms, b, false)
    ensures b in End(start, ms).poisoned ==> Declared(start, ms, b, true)
  {
    RunStaysReal(start, ms);
    StartedInv(start);
    RunKeepsInv(start, ms);
    if i < |End(start, ms).calls| {
      assert TaskReal(start, ms, End(start, ms).calls[i]) && !Poisoned(End(start, ms).calls[i]);
    }
  }
}
