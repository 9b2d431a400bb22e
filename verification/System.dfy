/**
  The whole system as a state machine: a process whose operations hold the state lock, batch
  events appended off the lock, a snapshotter whose steps a crash can separate, envelopes that
  corrupt, and boots from whatever is left.
 */
module System {
  import opened Types
  import opened Events
  import opened BookSpec
  import opened Projection
  import opened History
  import opened Conservation
  import opened Operations
  import opened Refinement
  import opened Checkpoint
  import opened Truncation

  /** How far `take_snapshot` has come. */
  datatype Snapshotter = Idle | Captured(watermark: nat, state: EngineState) | Written(watermark: nat)

  /** A running engine. `own` are the orders it admitted itself; `drops` the secrets it is about to discard. */
  datatype Process = Process(
    state: EngineState,
    secrets: set<Id>,
    own: set<Id>,
    drops: set<Id>,
    inFlight: set<Event>,
    snapshotter: Snapshotter)

  /** A process that has just come up. */
  function Up(s: EngineState): Process {
    Process(s, {}, {}, {}, {}, Idle)
  }

  /**
    `history` is every event ever appended; the store keeps those numbered `floor` and above.
    `counter` is the last number handed out: `last_seq` reports it, or the last
    number stored if the store does not count what it lost. `sealed` is every envelope ever written.
   */
  datatype System = System(
    history: seq<Event>,
    counter: nat,
    floor: nat,
    envelopes: Envelopes,
    sealed: set<Envelope>,
    process: Option<Process>)

  const INITIAL: System := System([], 0, 0, map[], {}, None)

  /** An append stores all its events, or none and may use up numbers. */
  datatype Append = Stored | Lost(burned: nat)

  datatype Move =
    | Operate(op: Operation, outcome: Append)
    | AppendOffLock(data: EventData, outcome: Append)
    | ApplyOffLock(e: Event)
    | DropSecret(id: Id)
    | PruneSecrets
    | Capture(watermark: nat)
    | WriteEnvelope
    | CompactLog(retain: nat)
    | PruneEnvelopes(cutoff: nat)
    | EndSnapshot
    | Tamper(key: nat, envelope: Envelope)
    | Lose(key: nat)
    | Crash
    | BootUp(probe: Probe)

  predicate OffLock(data: EventData) {
    data.BatchConfirmed? || data.BatchSettled? || data.BatchFolded?
  }

  /** When a running process can make a move. */
  ghost predicate Ready(c: Codec, y: System, p: Process, m: Move) {
    match m
    case Operate(op, _) =>
      && Possible(c, CoreOf(p.state), op)
      && (op.Place? ==> !PlacedBefore(y.history, op.p.order.id, |y.history|))
    case AppendOffLock(data, _) => OffLock(data)
    case ApplyOffLock(e) => e in p.inFlight
    case DropSecret(id) => id in p.drops
    case Capture(w) => p.snapshotter.Idle? && LastNumber(y.history) <= w <= y.counter
    case WriteEnvelope => p.snapshotter.Captured?
    case CompactLog(_) => p.snapshotter.Written?
    case PruneEnvelopes(cutoff) => p.snapshotter.Written? && cutoff in y.envelopes
    case _ => true
  }

  /**
    When a move can happen. Tampering can put any envelope ever written under any key. A boot that is shown no envelope
    is attempted only if what is kept of the log makes up for what was compacted.
   */
  ghost predicate Enabled(c: Codec, y: System, m: Move) {
    if m.Tamper? then m.envelope.Unreadable? || m.envelope in y.sealed
    else if m.Lose? then true
    else if m.BootUp? then y.process.None? && (Unasked(y.envelopes, m.probe) ==> MakesUp(c, y.history, y.floor))
    else y.process.Some? && Ready(c, y, y.process.value, m)
  }

  /** An operation whose events were stored. */
  ghost function Committed(c: Codec, y: System, p: Process, op: Operation): System
    requires Plan(c, CoreOf(p.state), op).Ok?
  {
    var es := Stamp(Plan(c, CoreOf(p.state), op).value, y.counter);
    var p' := p.(state := Commit(c, p.state, op, es));
    var p'' := match op
      case Place(placement) => p'.(secrets := p.secrets + {placement.order.id}, own := p.own + {placement.order.id})
      case Cancel(id) => p'.(drops := p.drops + {id})
      case Delist(_, ids) => if es == [] then p' else p'.(drops := p.drops + Set(ids))
      case _ => p';
    y.(history := y.history + es, counter := y.counter + |es|, process := Some(p''))
  }

  ghost function DoOperate(c: Codec, y: System, p: Process, op: Operation, outcome: Append): System {
    match Plan(c, CoreOf(p.state), op)
    case Err(_) => y
    case Ok(data) =>
      match outcome
      case Stored => Committed(c, y, p, op)
      case Lost(burned) => if data == [] then y else y.(counter := y.counter + burned)
  }

  function DoAppendOffLock(y: System, p: Process, data: EventData, outcome: Append): System {
    match outcome
    case Stored =>
      var e := Event(y.counter + 1, data);
      y.(history := y.history + [e], counter := y.counter + 1,
         process := Some(if data.BatchFolded? then p else p.(inFlight := p.inFlight + {e})))
    case Lost(burned) => y.(counter := y.counter + burned)
  }

  ghost function DoBoot(c: Codec, y: System, probe: Probe): System {
    match Boot(c, Kept(y.history, y.floor), y.envelopes, probe)
    case Ok(s) => y.(process := Some(Up(s)))
    case Err(_) => y
  }

  function ApplyBatchEvent(s: EngineState, e: Event): EngineState
    requires e.data.BatchConfirmed? || e.data.BatchSettled?
  {
    s.(book := Apply(s.book, e), pending := s.pending - {e.data.batchId})
  }

  ghost function Do(c: Codec, y: System, m: Move): System
    requires Enabled(c, y, m)
  {
    match m
    case Tamper(key, e) => y.(envelopes := y.envelopes[key := e])
    case Lose(key) => y.(envelopes := y.envelopes - {key})
    case Crash => y.(process := None, counter := LastNumber(Kept(y.history, y.floor)))
    case BootUp(probe) => DoBoot(c, y, probe)
    case Operate(op, outcome) => DoOperate(c, y, y.process.value, op, outcome)
    case AppendOffLock(data, outcome) => DoAppendOffLock(y, y.process.value, data, outcome)
    case ApplyOffLock(e) =>
      var p := y.process.value;
      var s := if e.data.BatchConfirmed? || e.data.BatchSettled? then ApplyBatchEvent(p.state, e) else p.state;
      y.(process := Some(p.(state := s, inFlight := p.inFlight - {e})))
    case DropSecret(id) =>
      var p := y.process.value;
      y.(process := Some(p.(secrets := p.secrets - {id}, drops := p.drops - {id})))
    case PruneSecrets =>
      var p := y.process.value;
      y.(process := Some(p.(secrets := p.secrets * p.state.book.orders.Keys)))
    case Capture(w) =>
      var p := y.process.value;
      y.(process := Some(p.(snapshotter := Captured(w, p.state))))
    case WriteEnvelope =>
      var p := y.process.value;
      var w := p.snapshotter.watermark;
      var e := Sealed(w, p.snapshotter.state);
      y.(envelopes := y.envelopes[w := e], sealed := y.sealed + {e}, process := Some(p.(snapshotter := Written(w))))
    case CompactLog(retain) =>
      var w := y.process.value.snapshotter.watermark;
      y.(floor := if w > retain then Max(y.floor, w - retain) else y.floor)
    case PruneEnvelopes(cutoff) => y.(envelopes := map k | k in y.envelopes && k >= cutoff :: y.envelopes[k])
    case EndSnapshot => y.(process := Some(y.process.value.(snapshotter := Idle)))
  }

  // ---------------------------------------------------------------- the invariant

  ghost predicate SealedAtLeast(sealed: set<Envelope>, n: nat) {
    exists e :: e in sealed && e.Sealed? && n <= e.watermark
  }

  /** The log is lawful, numbered up to the counter, and identifiers are fresh. */
  ghost predicate LogOk(c: Codec, y: System) {
    Proper(c, y.history) && LastNumber(y.history) <= y.counter && FreshIds(y.history)
  }

  /** Every envelope ever written stands, and whatever opens was written. */
  ghost predicate SealsOk(c: Codec, y: System) {
    && (forall e :: e in y.sealed ==> e.Sealed? && e.watermark <= y.counter && Stands(c, y.history, e.watermark, e.state))
    && (forall k :: k in y.envelopes && y.envelopes[k].Sealed? ==> y.envelopes[k] in y.sealed)
  }

  /** What was compacted is covered by an envelope that was written. */
  ghost predicate FloorOk(y: System) {
    y.floor <= 1 || SealedAtLeast(y.sealed, y.floor)
  }

  /** The live state is what the whole history means. */
  ghost predicate Live(c: Codec, y: System, p: Process) {
    && Fold(c, y.history) == Ok(CoreOf(p.state)) && p.state.book.applied <= LastNumber(y.history)
    && (forall e :: e in p.inFlight ==> OffLock(e.data) && 0 < e.number <= LastNumber(y.history))
  }

  /** A captured state stands, although only memory holds it; a written one is covered. */
  ghost predicate SnapshotterOk(c: Codec, y: System, p: Process) {
    match p.snapshotter
    case Idle => true
    case Captured(w, s) => w <= y.counter && Stands(c, y.history, w, s)
    case Written(w) => SealedAtLeast(y.sealed, w)
  }

  /** Every resting order this process admitted has its secret; a secret about to be dropped belongs to no resting order. */
  ghost predicate SecretsOk(y: System, p: Process) {
    && (forall id :: id in p.own && id in p.state.book.orders ==> id in p.secrets)
    && (forall id :: id in p.drops ==> id !in p.state.book.orders && PlacedBefore(y.history, id, |y.history|))
  }

  ghost predicate Inv(c: Codec, y: System) {
    && LogOk(c, y) && SealsOk(c, y) && FloorOk(y)
    && match y.process
       case Some(p) => Live(c, y, p) && SnapshotterOk(c, y, p) && SecretsOk(y, p)
       case None => y.counter == LastNumber(y.history)
  }

  /** Every watermark ever written is at or below the last number the store still holds. */
  ghost predicate CrashSafe(y: System) {
    forall e :: e in y.sealed && e.Sealed? ==> e.watermark <= LastNumber(Kept(y.history, y.floor))
  }

  lemma InitialInv(c: Codec)
    ensures Inv(c, INITIAL)
  {
  }
}
