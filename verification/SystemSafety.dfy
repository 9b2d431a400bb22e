/** Every move of the system keeps its invariant. */
module SystemSafety {
  import opened Types
  import opened Events
  import opened BookSpec
  import opened Projection
  import opened Legality
  import opened History
  import opened Conservation
  import opened Operations
  import opened Refinement
  import opened Rounds
  import opened Checkpoint
  import opened Truncation
  import opened System

  // ---------------------------------------------------------------- appending

  lemma CutExtends(es: seq<Event>, fs: seq<Event>, n: nat, w: nat)
    requires Cut(es, n, w) && forall i :: 0 <= i < |fs| ==> fs[i].number > w
    ensures Cut(es + fs, n, w) && (es + fs)[..n] == es[..n]
  {
  }

  lemma StandsExtends(c: Codec, es: seq<Event>, fs: seq<Event>, w: nat, s: EngineState)
    requires Stands(c, es, w, s) && forall i :: 0 <= i < |fs| ==> fs[i].number > w
    ensures Stands(c, es + fs, w, s)
  {
    var n: nat :| Cut(es, n, w) && Fold(c, es[..n]) == Ok(CoreOf(s));
    CutExtends(es, fs, n, w);
  }

  lemma SealsExtend(c: Codec, y: System, y': System, fs: seq<Event>)
    requires SealsOk(c, y) && Numbered(fs, y.counter, y'.counter) && y.counter <= y'.counter
    requires y'.history == y.history + fs && y'.sealed == y.sealed && y'.envelopes == y.envelopes
    ensures SealsOk(c, y')
  {
    forall e | e in y.sealed ensures Stands(c, y'.history, e.watermark, e.state) {
      StandsExtends(c, y.history, fs, e.watermark, e.state);
    }
  }

  /** What was captured still stands, and what was written is still covered. */
  lemma SnapshotterExtends(c: Codec, y: System, y': System, p: Process, p': Process, fs: seq<Event>)
    requires SnapshotterOk(c, y, p) && p'.snapshotter == p.snapshotter
    requires Numbered(fs, y.counter, y'.counter) && y.counter <= y'.counter
    requires y'.history == y.history + fs && y'.sealed == y.sealed && y'.envelopes == y.envelopes
    ensures SnapshotterOk(c, y', p')
  {
    if p.snapshotter.Captured? {
      StandsExtends(c, y.history, fs, p.snapshotter.watermark, p.snapshotter.state);
    }
  }

  /** At most one placement, of a fresh order, and alone. */
  predicate AddsFresh(es: seq<Event>, fs: seq<Event>) {
    forall i :: 0 <= i < |fs| && fs[i].data.OrderPlaced? ==> |fs| == 1 && !PlacedBefore(es, fs[i].data.orderId, |es|)
  }

  lemma FreshExtends(es: seq<Event>, fs: seq<Event>)
    requires FreshIds(es) && AddsFresh(es, fs)
    ensures FreshIds(es + fs)
  {
  }

  lemma ProperExtends(c: Codec, es: seq<Event>, fs: seq<Event>, after: nat, last: nat)
    requires Proper(c, es) && LastNumber(es) <= after && Numbered(fs, after, last)
    requires Fold(c, es).Ok? && LawfulFrom(c, Fold(c, es).value, fs)
    ensures Proper(c, es + fs) && LastNumber(es + fs) <= Max(after, last)
    ensures Fold(c, es + fs) == FoldFrom(c, Fold(c, es).value, fs)
  {
    LawfulConcat(c, EMPTY, es, fs);
    FoldFromConcat(c, EMPTY, es, fs);
    NumbersConcat(es, fs, after, last);
  }

  lemma NumbersConcat(es: seq<Event>, fs: seq<Event>, after: nat, last: nat)
    requires Numbered(es, 0, LastNumber(es)) && LastNumber(es) <= after && Numbered(fs, after, last)
    ensures Numbered(es + fs, 0, LastNumber(es + fs)) && LastNumber(es + fs) <= Max(after, last)
  {
  }

  // ---------------------------------------------------------------- operations

  lemma {:induction false} EffectsShrink(orders: Orders, es: seq<Event>)
    ensures Effects(orders, es).Keys <= orders.Keys
  {
    if es != [] {
      EffectsShrink(orders, es[..|es| - 1]);
    }
  }

  lemma ApplyAllShrinks(b: Book, data: seq<EventData>, last: nat)
    requires b.applied <= last
    ensures ApplyAll(b, Stamp(data, last)).orders.Keys <= b.orders.Keys
  {
    StampNumbered(data, last);
    FreshEventsApply(b, Stamp(data, last), last + |data|);
    EffectsShrink(b.orders, Stamp(data, last));
  }

  /** Nothing but a placement adds an order. */
  lemma CommitAddsNothing(c: Codec, s: EngineState, op: Operation, last: nat)
    requires !op.Place? && Plan(c, CoreOf(s), op).Ok? && s.book.applied <= last
    ensures Commit(c, s, op, Stamp(Plan(c, CoreOf(s), op).value, last)).book.orders.Keys <= s.book.orders.Keys
  {
    ApplyAllShrinks(s.book, Plan(c, CoreOf(s), op).value, last);
  }

  /** A placement adds its own order. */
  lemma CommitPlaces(c: Codec, s: EngineState, op: Operation, last: nat)
    requires op.Place? && Plan(c, CoreOf(s), op).Ok? && s.book.applied <= last
    ensures Commit(c, s, op, Stamp(Plan(c, CoreOf(s), op).value, last)).book.orders.Keys
            == s.book.orders.Keys + {op.p.order.id}
  {
  }

  /** A cancel takes away its order. */
  lemma CancelTakes(c: Codec, s: EngineState, op: Operation, last: nat)
    requires op.Cancel? && Plan(c, CoreOf(s), op).Ok? && s.book.applied <= last
    ensures var es := Stamp(Plan(c, CoreOf(s), op).value, last);
            op.orderId in s.book.orders && op.orderId !in Commit(c, s, op, es).book.orders
  {
  }

  /** Cancels of the listed orders followed by the delisting event leave the others. */
  lemma CancelsTake(b: Book, ids: seq<Id>, key: string, last: nat)
    requires b.applied <= last
    ensures ApplyAll(b, Stamp(CancelAll(ids) + [PairDelisted(key)], last)).orders == b.orders - Set(ids)
  {
    var data, n := CancelAll(ids) + [PairDelisted(key)], |ids|;
    var es := Stamp(data, last);
    StampNumbered(data, last);
    FreshEventsApply(b, es, last + |es|);
    RemovalEffects(b.orders, es, ids, n);
    assert ids[..n] == ids && es[..|es| - 1] == es[..n];
  }

  /** A delisting takes away every order it names. */
  lemma DelistTakes(c: Codec, s: EngineState, op: Operation, last: nat)
    requires op.Delist? && Plan(c, CoreOf(s), op).Ok? && s.book.applied <= last && Possible(c, CoreOf(s), op)
    requires Plan(c, CoreOf(s), op).value != []
    ensures var es := Stamp(Plan(c, CoreOf(s), op).value, last);
            forall id :: id in Set(op.openIds) ==> id in s.book.orders && id !in Commit(c, s, op, es).book.orders
  {
    var key := c.parsePair(op.input).value;
    CancelsTake(s.book, op.openIds, key, last);
    EnumerationSet(op.openIds, OnPair(s.book.orders, key));
  }

  lemma PlansFresh(c: Codec, es: seq<Event>, k: Core, op: Operation, last: nat)
    requires Plan(c, k, op).Ok? && (op.Place? ==> !PlacedBefore(es, op.p.order.id, |es|))
    ensures AddsFresh(es, Stamp(Plan(c, k, op).value, last))
  {
  }

  lemma LiveIsHealthy(c: Codec, y: System, p: Process)
    requires LogOk(c, y) && Live(c, y, p)
    ensures Healthy(CoreOf(p.state), y.counter)
  {
    ProperFolds(c, y.history);
    LaterKeepsHealth(CoreOf(p.state), LastNumber(y.history), y.counter);
  }

  /** Appending lawful events keeps everything the stores guarantee. */
  lemma AppendKeepsStores(c: Codec, y: System, y': System, es: seq<Event>)
    requires LogOk(c, y) && SealsOk(c, y) && FloorOk(y) && Fold(c, y.history).Ok?
    requires LawfulFrom(c, Fold(c, y.history).value, es)
    requires Numbered(es, y.counter, y'.counter) && y.counter <= y'.counter && AddsFresh(y.history, es)
    requires y' == y.(history := y.history + es, counter := y'.counter, process := y'.process)
    ensures LogOk(c, y') && SealsOk(c, y') && FloorOk(y')
    ensures Fold(c, y'.history) == FoldFrom(c, Fold(c, y.history).value, es)
  {
    ProperExtends(c, y.history, es, y.counter, y'.counter);
    FreshExtends(y.history, es);
    SealsExtend(c, y, y', es);
  }

  lemma RestingWasPlaced(c: Codec, y: System, id: Id)
    requires LogOk(c, y) && Fold(c, y.history).Ok? && id in Fold(c, y.history).value.orders
    ensures PlacedBefore(y.history, id, |y.history|)
  {
    var ks := TraceOf(c, y.history);
    AccountedAt(c, y.history, ks, |y.history|, id);
  }

  /** The secrets bookkeeping, when orders only leave the book. */
  lemma SecretsAfterLeaving(y: System, y': System, p: Process, p': Process, gone: set<Id>)
    requires SecretsOk(y, p) && y.history <= y'.history
    requires p'.secrets == p.secrets && p'.own == p.own && p'.drops == p.drops + gone
    requires p'.state.book.orders.Keys <= p.state.book.orders.Keys
    requires forall id :: id in gone ==> id !in p'.state.book.orders && PlacedBefore(y.history, id, |y.history|)
    ensures SecretsOk(y', p')
  {
  }

  lemma SecretsAfterPlacing(y: System, y': System, p: Process, p': Process, id: Id)
    requires SecretsOk(y, p) && y.history <= y'.history && !PlacedBefore(y.history, id, |y.history|)
    requires p'.secrets == p.secrets + {id} && p'.own == p.own + {id} && p'.drops == p.drops
    requires p'.state.book.orders.Keys == p.state.book.orders.Keys + {id}
    ensures SecretsOk(y', p')
  {
  }

  lemma OperateSecrets(c: Codec, y: System, p: Process, op: Operation)
    requires LogOk(c, y) && Live(c, y, p) && SecretsOk(y, p)
    requires Ready(c, y, p, Operate(op, Stored)) && Plan(c, CoreOf(p.state), op).Ok?
    ensures var y' := Committed(c, y, p, op); SecretsOk(y', y'.process.value)
  {
    var y' := Committed(c, y, p, op);
    var p' := y'.process.value;
    if op.Place? {
      CommitPlaces(c, p.state, op, y.counter);
      SecretsAfterPlacing(y, y', p, p', op.p.order.id);
    } else {
      CommitAddsNothing(c, p.state, op, y.counter);
      var gone := p'.drops - p.drops;
      if op.Cancel? {
        CancelTakes(c, p.state, op, y.counter);
        RestingWasPlaced(c, y, op.orderId);
      } else if op.Delist? && Plan(c, CoreOf(p.state), op).value != [] {
        DelistTakes(c, p.state, op, y.counter);
        forall id | id in Set(op.openIds) ensures PlacedBefore(y.history, id, |y.history|) {
          RestingWasPlaced(c, y, id);
        }
      }
      SecretsAfterLeaving(y, y', p, p', gone);
    }
  }

  lemma NothingCommitted(c: Codec, s: EngineState, op: Operation)
    requires Plan(c, CoreOf(s), op) == Ok([])
    ensures Commit(c, s, op, []).book == s.book
  {
  }

  /** The book never runs ahead of the log. */
  lemma BookFollowsLog(c: Codec, y: System, p: Process, op: Operation)
    requires Numbered(y.history, 0, LastNumber(y.history)) && p.state.book.applied <= LastNumber(y.history) <= y.counter
    requires Plan(c, CoreOf(p.state), op).Ok?
    requires var es := Stamp(Plan(c, CoreOf(p.state), op).value, y.counter);
             Commit(c, p.state, op, es).book.applied <= y.counter + |es|
    ensures var y' := Committed(c, y, p, op);
            y'.process.value.state.book.applied <= LastNumber(y'.history) && LastNumber(y.history) <= LastNumber(y'.history)
  {
    var es := Stamp(Plan(c, CoreOf(p.state), op).value, y.counter);
    if es == [] {
      NothingCommitted(c, p.state, op);
    }
  }

  lemma OperateStored(c: Codec, y: System, p: Process, op: Operation)
    requires ParsesCanonically(c) && Inv(c, y) && y.process == Some(p)
    requires Ready(c, y, p, Operate(op, Stored)) && Plan(c, CoreOf(p.state), op).Ok?
    ensures Inv(c, Committed(c, y, p, op))
  {
    var y' := Committed(c, y, p, op);
    var data := Plan(c, CoreOf(p.state), op).value;
    var es := Stamp(data, y.counter);
    LiveIsHealthy(c, y, p);
    OperationRefines(c, p.state, op, y.counter);
    StampNumbered(data, y.counter);
    PlansFresh(c, y.history, CoreOf(p.state), op, y.counter);
    AppendKeepsStores(c, y, y', es);
    SnapshotterExtends(c, y, y', p, y'.process.value, es);
    BookFollowsLog(c, y, p, op);
    OperateSecrets(c, y, p, op);
  }

  lemma BurningKeepsInv(c: Codec, y: System, burned: nat)
    requires Inv(c, y) && y.process.Some?
    ensures Inv(c, y.(counter := y.counter + burned))
  {
  }

  lemma OperateKeepsInv(c: Codec, y: System, op: Operation, outcome: Append)
    requires ParsesCanonically(c) && Inv(c, y) && Enabled(c, y, Operate(op, outcome))
    ensures Inv(c, Do(c, y, Operate(op, outcome)))
  {
    var p := y.process.value;
    if Plan(c, CoreOf(p.state), op).Ok? {
      match outcome
      case Stored => OperateStored(c, y, p, op);
      case Lost(burned) => BurningKeepsInv(c, y, burned);
    }
  }

  // ---------------------------------------------------------------- off the lock

  /** A stored batch event leaves the compared state alone, so the live state still is what the history means. */
  lemma OffLockStaysLive(c: Codec, y: System, y': System, p: Process, p': Process, e: Event)
    requires Live(c, y, p) && LastNumber(y.history) <= y.counter && OffLock(e.data) && e.number == y.counter + 1
    requires y'.history == y.history + [e] && y'.counter == y.counter + 1
    requires p'.state == p.state && p'.inFlight <= p.inFlight + {e}
    ensures Live(c, y', p')
  {
    SingleEvent(c, CoreOf(p.state), e);
    FoldFromConcat(c, EMPTY, y.history, [e]);
  }

  /** It keeps what the stores guarantee. */
  lemma OffLockKeepsStores(c: Codec, y: System, y': System, k: Core, e: Event)
    requires LogOk(c, y) && SealsOk(c, y) && FloorOk(y) && Fold(c, y.history) == Ok(k)
    requires OffLock(e.data) && e.number == y.counter + 1
    requires y' == y.(history := y.history + [e], counter := y.counter + 1, process := y'.process)
    ensures LogOk(c, y') && SealsOk(c, y') && FloorOk(y')
  {
    SingleEvent(c, k, e);
    AppendKeepsStores(c, y, y', [e]);
  }

  /** It leaves the live process as it should be. */
  lemma OffLockKeepsProcess(c: Codec, y: System, y': System, p: Process, p': Process, e: Event)
    requires Live(c, y, p) && SnapshotterOk(c, y, p) && SecretsOk(y, p)
    requires LastNumber(y.history) <= y.counter && OffLock(e.data) && e.number == y.counter + 1
    requires p' == if e.data.BatchFolded? then p else p.(inFlight := p.inFlight + {e})
    requires y' == y.(history := y.history + [e], counter := y.counter + 1, process := y'.process)
    ensures Live(c, y', p') && SnapshotterOk(c, y', p') && SecretsOk(y', p')
  {
    OffLockStaysLive(c, y, y', p, p', e);
    SnapshotterExtends(c, y, y', p, p', [e]);
    SecretsAfterLeaving(y, y', p, p', {});
  }

  lemma StoredOffLockKeepsInv(c: Codec, y: System, p: Process, e: Event, y': System, p': Process)
    requires Inv(c, y) && y.process == Some(p) && OffLock(e.data) && e.number == y.counter + 1
    requires p' == if e.data.BatchFolded? then p else p.(inFlight := p.inFlight + {e})
    requires y' == y.(history := y.history + [e], counter := y.counter + 1, process := Some(p'))
    ensures Inv(c, y')
  {
    OffLockKeepsStores(c, y, y', CoreOf(p.state), e);
    OffLockKeepsProcess(c, y, y', p, p', e);
  }

  lemma AppendOffLockKeepsInv(c: Codec, y: System, p: Process, data: EventData, outcome: Append)
    requires Inv(c, y) && y.process == Some(p) && OffLock(data)
    ensures Inv(c, DoAppendOffLock(y, p, data, outcome))
  {
    match outcome
    case Lost(burned) => BurningKeepsInv(c, y, burned);
    case Stored =>
      var y' := DoAppendOffLock(y, p, data, outcome);
      StoredOffLockKeepsInv(c, y, p, Event(y.counter + 1, data), y', y'.process.value);
  }

  lemma ApplyOffLockKeepsInv(c: Codec, y: System, e: Event)
    requires Inv(c, y) && Enabled(c, y, ApplyOffLock(e))
    ensures Inv(c, Do(c, y, ApplyOffLock(e)))
  {
    var p := y.process.value;
    assert OffLock(e.data);
    assert Apply(p.state.book, e).orders == p.state.book.orders;
  }

  // ---------------------------------------------------------------- secrets

  lemma DropSecretKeepsInv(c: Codec, y: System, id: Id)
    requires Inv(c, y) && Enabled(c, y, DropSecret(id))
    ensures Inv(c, Do(c, y, DropSecret(id)))
  {
  }

  lemma PruneSecretsKeepsInv(c: Codec, y: System)
    requires Inv(c, y) && Enabled(c, y, PruneSecrets)
    ensures Inv(c, Do(c, y, PruneSecrets))
  {
  }

  // ---------------------------------------------------------------- snapshots

  /** A state captured with the counter stands: nothing it has not seen is numbered at or below the watermark. */
  lemma CaptureStands(c: Codec, y: System, p: Process, w: nat)
    requires LogOk(c, y) && Live(c, y, p) && LastNumber(y.history) <= w
    ensures Stands(c, y.history, w, p.state)
  {
    var n := |y.history|;
    assert y.history[..n] == y.history;
    assert Cut(y.history, n, w);
  }

  lemma CaptureKeepsInv(c: Codec, y: System, w: nat)
    requires Inv(c, y) && Enabled(c, y, Capture(w))
    ensures Inv(c, Do(c, y, Capture(w)))
  {
    CaptureStands(c, y, y.process.value, w);
  }

  lemma SealedAtLeastGrows(sealed: set<Envelope>, e: Envelope, n: nat)
    requires SealedAtLeast(sealed, n)
    ensures SealedAtLeast(sealed + {e}, n)
  {
    var x :| x in sealed && x.Sealed? && n <= x.watermark;
    assert x in sealed + {e};
  }

  lemma WriteEnvelopeKeepsInv(c: Codec, y: System)
    requires Inv(c, y) && Enabled(c, y, WriteEnvelope)
    ensures Inv(c, Do(c, y, WriteEnvelope))
  {
    var p := y.process.value;
    var y' := Do(c, y, WriteEnvelope);
    var e := Sealed(p.snapshotter.watermark, p.snapshotter.state);
    assert e in y'.sealed;
    assert SealedAtLeast(y'.sealed, e.watermark);
    if y.floor > 1 {
      SealedAtLeastGrows(y.sealed, e, y.floor);
    }
  }

  lemma CompactLogKeepsInv(c: Codec, y: System, retain: nat)
    requires Inv(c, y) && Enabled(c, y, CompactLog(retain))
    ensures Inv(c, Do(c, y, CompactLog(retain)))
  {
    var y' := Do(c, y, CompactLog(retain));
    if y'.floor != y.floor {
      var e :| e in y.sealed && e.Sealed? && y.process.value.snapshotter.watermark <= e.watermark;
      assert e in y'.sealed && y'.floor <= e.watermark;
    }
  }

  /** Which envelopes are there matters to nothing but what opens. */
  lemma StoresIgnoreEnvelopes(c: Codec, y: System, y': System)
    requires LogOk(c, y) && SealsOk(c, y) && FloorOk(y) && y' == y.(envelopes := y'.envelopes)
    requires forall k :: k in y'.envelopes && y'.envelopes[k].Sealed? ==> y'.envelopes[k] in y.sealed
    ensures LogOk(c, y') && SealsOk(c, y') && FloorOk(y')
  {
  }

  lemma ProcessIgnoresEnvelopes(c: Codec, y: System, y': System, p: Process)
    requires Live(c, y, p) && SnapshotterOk(c, y, p) && SecretsOk(y, p) && y' == y.(envelopes := y'.envelopes)
    ensures Live(c, y', p) && SnapshotterOk(c, y', p) && SecretsOk(y', p)
  {
  }

  lemma EnvelopesMayChange(c: Codec, y: System, y': System)
    requires Inv(c, y) && y' == y.(envelopes := y'.envelopes)
    requires forall k :: k in y'.envelopes && y'.envelopes[k].Sealed? ==> y'.envelopes[k] in y.sealed
    ensures Inv(c, y')
  {
    StoresIgnoreEnvelopes(c, y, y');
    if y.process.Some? {
      ProcessIgnoresEnvelopes(c, y, y', y.process.value);
    }
  }

  lemma PruneEnvelopesKeepsInv(c: Codec, y: System, cutoff: nat)
    requires Inv(c, y) && Enabled(c, y, PruneEnvelopes(cutoff))
    ensures Inv(c, Do(c, y, PruneEnvelopes(cutoff)))
  {
    EnvelopesMayChange(c, y, Do(c, y, PruneEnvelopes(cutoff)));
  }

  lemma TamperKeepsInv(c: Codec, y: System, key: nat, e: Envelope)
    requires Inv(c, y) && Enabled(c, y, Tamper(key, e))
    ensures Inv(c, Do(c, y, Tamper(key, e)))
  {
    EnvelopesMayChange(c, y, Do(c, y, Tamper(key, e)));
  }

  lemma LoseKeepsInv(c: Codec, y: System, key: nat)
    requires Inv(c, y)
    ensures Inv(c, Do(c, y, Lose(key)))
  {
    EnvelopesMayChange(c, y, Do(c, y, Lose(key)));
  }

  // ---------------------------------------------------------------- going down and coming up

  /** A safe crash finds the last event still in the store. */
  lemma SafeCrashKeepsLast(c: Codec, y: System)
    requires LogOk(c, y) && SealsOk(c, y) && FloorOk(y) && CrashSafe(y)
    ensures LastNumber(Kept(y.history, y.floor)) == LastNumber(y.history)
    ensures y.floor <= 1 || y.floor <= LastNumber(y.history)
  {
    var last := LastNumber(y.history);
    if y.floor <= 1 {
      KeptAll(y.history, y.floor, last);
    } else {
      var e :| e in y.sealed && e.Sealed? && y.floor <= e.watermark;
      KeptIsHigh(y.history, y.floor, last);
      KeptKeepsLast(y.history, y.floor, last);
    }
  }

  lemma KeptKeepsLast(es: seq<Event>, floor: nat, last: nat)
    requires Numbered(es, 0, last) && floor > 0
    ensures Kept(es, floor) != [] ==> es != [] && LastNumber(Kept(es, floor)) == LastNumber(es)
  {
    var f := CutExists(es, floor - 1, last);
    AfterIsTail(es, f, floor - 1);
  }

  lemma CrashKeepsInv(c: Codec, y: System)
    requires Inv(c, y) && Enabled(c, y, Crash) && CrashSafe(y)
    ensures Inv(c, Do(c, y, Crash))
  {
    SafeCrashKeepsLast(c, y);
  }

  /** What the stores hold while the process is down is consistent. */
  lemma DownIsConsistent(c: Codec, y: System)
    requires Inv(c, y) && y.process.None?
    ensures Consistent(c, y.history, y.floor, y.envelopes)
  {
  }

  /** A process that has just come up with a faithful state. */
  lemma FreshProcessKeepsInv(c: Codec, y: System, s: EngineState)
    requires Inv(c, y) && y.process.None? && Faithful(c, y.history, s)
    ensures Inv(c, y.(process := Some(Up(s))))
  {
  }

  lemma BootUpKeepsInv(c: Codec, y: System, probe: Probe)
    requires Inv(c, y) && y.process.None? && (Unasked(y.envelopes, probe) ==> MakesUp(c, y.history, y.floor))
    ensures Inv(c, DoBoot(c, y, probe))
  {
    DownIsConsistent(c, y);
    BootIsFaithfulOrRefuses(c, y.history, y.floor, y.envelopes, probe);
    if Unasked(y.envelopes, probe) {
      BootUnaskedExactly(c, y.history, y.floor, y.envelopes, probe);
    }
    var r := Boot(c, Kept(y.history, y.floor), y.envelopes, probe);
    if r.Ok? {
      FreshProcessKeepsInv(c, y, r.value);
    }
  }

  lemma IdleKeepsProcess(c: Codec, y: System, y': System, p: Process, p': Process)
    requires Live(c, y, p) && SecretsOk(y, p) && p' == p.(snapshotter := Idle) && y' == y.(process := Some(p'))
    ensures Live(c, y', p') && SnapshotterOk(c, y', p') && SecretsOk(y', p')
  {
  }

  lemma EndSnapshotKeepsInv(c: Codec, y: System)
    requires Inv(c, y) && Enabled(c, y, EndSnapshot)
    ensures Inv(c, Do(c, y, EndSnapshot))
  {
    var p := y.process.value;
    IdleKeepsProcess(c, y, y.(process := Some(p.(snapshotter := Idle))), p, p.(snapshotter := Idle));
  }

  /** Moves of the engine itself. */
  predicate EngineMove(m: Move) {
    m.Operate? || m.AppendOffLock? || m.ApplyOffLock? || m.DropSecret? || m.PruneSecrets?
  }

  lemma EngineMoveKeepsInv(c: Codec, y: System, m: Move)
    requires ParsesCanonically(c) && Inv(c, y) && Enabled(c, y, m) && EngineMove(m)
    ensures Inv(c, Do(c, y, m))
  {
    if m.Operate? {
      OperateKeepsInv(c, y, m.op, m.outcome);
    } else if m.AppendOffLock? {
      AppendOffLockKeepsInv(c, y, y.process.value, m.data, m.outcome);
    } else if m.ApplyOffLock? {
      ApplyOffLockKeepsInv(c, y, m.e);
    } else if m.DropSecret? {
      DropSecretKeepsInv(c, y, m.id);
    } else {
      PruneSecretsKeepsInv(c, y);
    }
  }

  lemma StoreMoveKeepsInv(c: Codec, y: System, m: Move)
    requires Inv(c, y) && Enabled(c, y, m) && !EngineMove(m) && (m.Crash? ==> CrashSafe(y))
    ensures Inv(c, Do(c, y, m))
  {
    if m.Capture? {
      CaptureKeepsInv(c, y, m.watermark);
    } else if m.WriteEnvelope? {
      WriteEnvelopeKeepsInv(c, y);
    } else if m.CompactLog? {
      CompactLogKeepsInv(c, y, m.retain);
    } else if m.PruneEnvelopes? {
      PruneEnvelopesKeepsInv(c, y, m.cutoff);
    } else if m.EndSnapshot? {
      EndSnapshotKeepsInv(c, y);
    } else if m.Tamper? {
      TamperKeepsInv(c, y, m.key, m.envelope);
    } else if m.Lose? {
      LoseKeepsInv(c, y, m.key);
    } else if m.Crash? {
      CrashKeepsInv(c, y);
    } else {
      BootUpKeepsInv(c, y, m.probe);
    }
  }

  /** Every move keeps the invariant, as long as crashes happen in safe states. */
  lemma MoveKeepsInv(c: Codec, y: System, m: Move)
    requires ParsesCanonically(c) && Inv(c, y) && Enabled(c, y, m) && (m.Crash? ==> CrashSafe(y))
    ensures Inv(c, Do(c, y, m))
  {
    if EngineMove(m) {
      EngineMoveKeepsInv(c, y, m);
    } else {
      StoreMoveKeepsInv(c, y, m);
    }
  }
}
