/** `recover` as it runs: restoring in place, reading the log in batches, and replaying event by event. */
module Replayer {
  import opened Types
  import opened Events
  import opened BookSpec
  import opened Projection
  import opened Legality
  import opened History
  import opened Clearing
  import opened Operations
  import opened Refinement
  import opened Recovery
  import opened Reaggregation
  import opened Checkpoint
  import opened Truncation
  import opened System
  import opened Engine

  const RECOVER_BATCH: nat := 1024

  /** The engine and the two local maps of a recovery stand at `r`. */
  ghost predicate At(e: Engine, orphans: map<Id, seq<Match>>, placed: map<Id, Order>, r: Replaying)
    reads e, e.book, e.store
  {
    e.Valid() && r == Replaying(e.View(), orphans, placed)
  }

  /** A placement is replayed before anything else with its identifier rests. */
  ghost predicate PlacesFresh(r: Replaying, e: Event) {
    e.data.OrderPlaced? ==> e.data.orderId !in r.state.book.orders
  }

  /** Rebuilds one placed order in place. */
  method ReplayPlacement(e: Engine, ev: Event, p: Placed)
    requires e.Valid() && ev.data.OrderPlaced? && ev.data.orderId !in e.book.orders && p.order.id == ev.data.orderId
    modifies e, e.book
    ensures e.Valid() && e.secrets == old(e.secrets)
    ensures var s := old(e.View());
            var b := Apply(s.book, ev);
            e.View() == s.(book := b.(orders := b.orders[ev.data.orderId := p.order]),
                           pairs := if p.order.pair in s.pairs then s.pairs else s.pairs[p.order.pair := DEFAULT_PAIR],
                           seen := s.seen + {e.codec.digest(ev.data.ciphertext)},
                           nullifiers := s.nullifiers + {p.nullifier},
                           nonces := s.nonces + {p.nonceDigest})
  {
    e.book.Apply(ev);
    if p.order.pair !in e.pairs {
      e.pairs := e.pairs[p.order.pair := DEFAULT_PAIR];
    }
    e.book.InsertOrder(p.order);
    e.seen := e.seen + {e.codec.digest(ev.data.ciphertext)};
    e.nullifiers := e.nullifiers + {p.nullifier};
    e.nonces := e.nonces + {p.nonceDigest};
  }

  /** Rebuilds a submitted batch from the matches waiting for it, unless a snapshot already had it. */
  method ReplaySubmission(e: Engine, ev: Event, orphans: map<Id, seq<Match>>, placed: map<Id, Order>)
    returns (orphans': map<Id, seq<Match>>)
    requires e.Valid() && ev.data.BatchSubmitted?
    modifies e, e.book
    ensures e.Valid() && e.secrets == old(e.secrets)
    ensures ReplayEvent(e.codec, Replaying(old(e.View()), orphans, placed), ev) == Ok(Replaying(e.View(), orphans', placed))
  {
    var batchId, auctionId := ev.data.batchId, ev.data.auctionId;
    var claimed := if auctionId in orphans then orphans[auctionId] else [];
    orphans' := orphans - {auctionId};
    e.book.Apply(ev);
    if batchId !in e.pending {
      var rows := RecoveredRows(claimed, placed, e.pairs);
      e.pending := e.pending[batchId := PendingBatch(auctionId, claimed, rows)];
    }
  }

  /** Replays an event that concerns the engine's state alone. */
  method ReplaySimple(e: Engine, ev: Event, ghost orphans: map<Id, seq<Match>>, ghost placed: map<Id, Order>)
    requires e.Valid() && !ev.data.OrderPlaced? && !ev.data.OrderMatched? && !ev.data.BatchSubmitted?
    modifies e, e.book
    ensures e.Valid() && e.secrets == old(e.secrets)
    ensures ReplayEvent(e.codec, Replaying(old(e.View()), orphans, placed), ev) == Ok(Replaying(e.View(), orphans, placed))
  {
    if ev.data.BatchFolded? {
      return;
    }
    e.book.Apply(ev);
    if ev.data.AuctionExecuted? {
      e.auctionLog := e.auctionLog + [RecordOf(ev.data)];
    } else if ev.data.BatchConfirmed? || ev.data.BatchSettled? {
      e.pending := e.pending - {ev.data.batchId};
    } else {
      e.pairs := PairEffect(e.codec, e.pairs, ev.data);
    }
  }

  /** Replays one event into the engine and the recovery's local maps. */
  method ReplayOne(e: Engine, ev: Event, orphans: map<Id, seq<Match>>, placed: map<Id, Order>)
    returns (error: Option<RecoverError>, orphans': map<Id, seq<Match>>, placed': map<Id, Order>)
    requires e.Valid() && PlacesFresh(Replaying(e.View(), orphans, placed), ev)
    modifies e, e.book
    ensures e.Valid() && e.secrets == old(e.secrets)
    ensures match ReplayEvent(e.codec, Replaying(old(e.View()), orphans, placed), ev)
            case Ok(r) => error == None && At(e, orphans', placed', r)
            case Err(x) => error == Some(x)
  {
    orphans', placed', error := orphans, placed, None;
    match ev.data {
      case OrderPlaced(id, commitment, ciphertext) =>
        var rebuilt := Rebuild(e.codec, id, commitment, ciphertext, ev.number);
        if rebuilt.Err? {
          return Some(rebuilt.error), orphans, placed;
        }
        ReplayPlacement(e, ev, rebuilt.value);
        placed' := placed[id := rebuilt.value.order];
      case OrderMatched(auctionId, m) =>
        e.book.Apply(ev);
        var waiting := if auctionId in orphans then orphans[auctionId] else [];
        orphans' := orphans[auctionId := waiting + [m]];
      case BatchSubmitted(_, _) => orphans' := ReplaySubmission(e, ev, orphans, placed);
      case _ => ReplaySimple(e, ev, orphans, placed);
    }
  }

  /** The settlement rows of the matches that resolve. */
  method RecoveredRows(ms: seq<Match>, placed: map<Id, Order>, pairs: map<string, PairConfig>) returns (rows: seq<SettlementRow>)
    ensures rows == RowsOf(ms, placed, pairs)
  {
    rows := [];
    for i := 0 to |ms|
      invariant rows == RowsOf(ms[..i], placed, pairs)
    {
      var row := SettlementRowOf(ms[i], placed, pairs);
      if row.Some? {
        rows := rows + [row.value];
      }
      assert ms[..i + 1][..i] == ms[..i];
    }
    assert ms[..|ms|] == ms;
  }

  // ---------------------------------------------------------------- reading the log in batches

  /** No placement of the tail meets an order of its own identifier still resting. */
  ghost predicate AllFresh(c: Codec, r: Replaying, es: seq<Event>) {
    forall i :: 0 <= i < |es| ==> FreshAt(c, r, es, i)
  }

  ghost predicate FreshAt(c: Codec, r: Replaying, es: seq<Event>, i: nat)
    requires i < |es|
  {
    ReplayAll(c, r, es[..i]).Ok? ==> PlacesFresh(ReplayAll(c, r, es[..i]).value, es[i])
  }

  /** Reading on after the last event of a batch skips exactly what was read. */
  lemma NextBatch(log: seq<Event>, after: nat, k: nat, last: nat)
    requires Numbered(log, 0, last) && 0 < k <= |After(log, after)|
    ensures After(log, After(log, after)[k - 1].number) == After(log, after)[k..]
  {
    var n := CutExists(log, after, last);
    AfterIsTail(log, n, after);
    var w := After(log, after)[k - 1].number;
    assert log[n..][k - 1] == log[n + k - 1];
    assert Cut(log, n + k, w);
    AfterIsTail(log, n + k, w);
    assert log[n..][k..] == log[n + k..];
  }

  /** One batch, event by event. */
  method ReplayBatch(e: Engine, batch: seq<Event>, orphans: map<Id, seq<Match>>, placed: map<Id, Order>)
    returns (error: Option<RecoverError>, orphans': map<Id, seq<Match>>, placed': map<Id, Order>)
    requires e.Valid() && AllFresh(e.codec, Replaying(e.View(), orphans, placed), batch)
    modifies e, e.book
    ensures e.Valid() && e.secrets == old(e.secrets)
    ensures match ReplayAll(e.codec, Replaying(old(e.View()), orphans, placed), batch)
            case Ok(r) => error == None && At(e, orphans', placed', r)
            case Err(x) => error == Some(x)
  {
    orphans', placed', error := orphans, placed, None;
    ghost var r := Replaying(e.View(), orphans, placed);
    for i := 0 to |batch|
      invariant e.Valid() && e.secrets == old(e.secrets) && error == None
      invariant ReplayAll(e.codec, r, batch[..i]) == Ok(Replaying(e.View(), orphans', placed'))
    {
      assert FreshAt(e.codec, r, batch, i);
      error, orphans', placed' := ReplayOne(e, batch[i], orphans', placed');
      assert batch[..i + 1][..i] == batch[..i];
      if error.Some? {
        ErrorStays(e.codec, r, batch, i + 1);
        return;
      }
    }
    assert batch[..|batch|] == batch;
  }

  /** Once a replay fails, the rest of the log does not change the error. */
  lemma {:induction false} ErrorStays(c: Codec, r: Replaying, es: seq<Event>, n: nat)
    requires n <= |es| && ReplayAll(c, r, es[..n]).Err?
    ensures ReplayAll(c, r, es) == ReplayAll(c, r, es[..n])
  {
    if n < |es| {
      var m := |es| - 1;
      assert es[..m][..n] == es[..n];
      ErrorStays(c, r, es[..m], n);
    } else {
      assert es[..n] == es;
    }
  }

  lemma FreshPart(c: Codec, r: Replaying, es: seq<Event>, a: nat, b: nat, at: Replaying)
    requires AllFresh(c, r, es) && a <= b <= |es| && ReplayAll(c, r, es[..a]) == Ok(at)
    ensures AllFresh(c, at, es[a..b])
  {
    forall i | 0 <= i < |es[a..b]| ensures FreshAt(c, at, es[a..b], i) {
      FreshInPart(c, r, es, a, b, at, i);
    }
  }

  lemma FreshInPart(c: Codec, r: Replaying, es: seq<Event>, a: nat, b: nat, at: Replaying, i: nat)
    requires a + i < b <= |es| && FreshAt(c, r, es, a + i) && ReplayAll(c, r, es[..a]) == Ok(at)
    ensures FreshAt(c, at, es[a..b], i)
  {
    assert es[..a] + es[a..b][..i] == es[..a + i];
    ReplayAllConcat(c, r, es[..a], es[a..b][..i]);
  }

  /** What reading and replaying the batch from `k` to `m` does, given what was replayed so far. */
  lemma BatchFollows(c: Codec, r: Replaying, log: seq<Event>, after: nat, k: nat, m: nat, last: nat, at: Replaying)
    requires Numbered(log, 0, last) && k < m <= |After(log, after)|
    requires AllFresh(c, r, After(log, after)) && ReplayAll(c, r, After(log, after)[..k]) == Ok(at)
    ensures var tail := After(log, after);
            && After(log, tail[k..m][m - k - 1].number) == tail[m..] && AllFresh(c, at, tail[k..m])
            && ReplayAll(c, r, tail[..m]) == ReplayAll(c, at, tail[k..m])
  {
    var tail := After(log, after);
    assert tail[k..m][m - k - 1] == tail[m - 1];
    NextBatch(log, after, m, last);
    FreshPart(c, r, tail, k, m, at);
    ReplayAllConcat(c, r, tail[..k], tail[k..m]);
    assert tail[..k] + tail[k..m] == tail[..m];
  }

  /** Replays everything the store holds above a number, a batch at a time. */
  method ReplayTail(e: Engine, after: nat, placed: map<Id, Order>)
    returns (error: Option<RecoverError>, orphans: map<Id, seq<Match>>, placed': map<Id, Order>)
    requires e.Valid() && AllFresh(e.codec, Replaying(e.View(), map[], placed), After(e.store.events, after))
    modifies e, e.book
    ensures e.Valid() && e.secrets == old(e.secrets)
    ensures match ReplayAll(e.codec, Replaying(old(e.View()), map[], placed), After(e.store.events, after))
            case Ok(r) => error == None && At(e, orphans, placed', r)
            case Err(x) => error == Some(x)
  {
    orphans, placed', error := map[], placed, None;
    ghost var r, tail := Replaying(e.View(), map[], placed), After(e.store.events, after);
    var afterSeq := after;
    ghost var k := 0;
    while true
      invariant 0 <= k <= |tail| && After(e.store.events, afterSeq) == tail[k..]
      invariant e.Valid() && e.secrets == old(e.secrets) && error == None
      invariant ReplayAll(e.codec, r, tail[..k]) == Ok(Replaying(e.View(), orphans, placed'))
      decreases |tail| - k
    {
      var batch := e.store.ReadFrom(afterSeq, RECOVER_BATCH);
      if batch == [] {
        assert k == |tail| && tail[..k] == tail;
        break;
      }
      ghost var m := k + |batch|;
      assert batch == tail[k..][..|batch|] == tail[k..m];
      BatchFollows(e.codec, r, e.store.events, after, k, m, e.store.counter, Replaying(e.View(), orphans, placed'));
      afterSeq := batch[|batch| - 1].number;
      error, orphans, placed' := ReplayBatch(e, batch, orphans, placed');
      if error.Some? {
        ErrorStays(e.codec, r, tail, m);
        return;
      }
      k := m;
    }
  }

  // ---------------------------------------------------------------- choosing where to start

  /** An envelope as it decodes: its sealed number and the serialized state. */
  datatype Reading = Reading(watermark: nat, snap: SerializableState)

  /** What opening each listed envelope gives. */
  type Opened = map<nat, Option<Reading>>

  datatype SnapshotSource = NoSnapshotStore | ListingFails | Listing(readings: Opened, cipherPresent: bool)

  /** Opening gives exactly the readable envelopes. */
  ghost predicate Opens(readings: Opened, envelopes: Envelopes, unreadable: set<nat>) {
    && readings.Keys == envelopes.Keys
    && (forall k :: k in readings ==> (readings[k].Some? <==> k in Readable(envelopes, unreadable)))
    && (forall k :: k in readings && readings[k].Some? ==> Decodes(readings[k].value, envelopes[k]))
  }

  ghost predicate Decodes(r: Reading, e: Envelope) {
    e.Sealed? && r.watermark == e.watermark && Serializes(r.snap, e.state)
  }

  ghost predicate Presents(source: SnapshotSource, envelopes: Envelopes, probe: Probe) {
    match source
    case NoSnapshotStore => probe == NoStore
    case ListingFails => probe == ListFails
    case Listing(readings, cipherPresent) =>
      probe.Listed? && probe.cipherPresent == cipherPresent && Opens(readings, envelopes, probe.unreadable)
  }

  /** Tries the envelopes from the newest down until one opens. */
  method NewestReadable(readings: Opened, ghost envelopes: Envelopes, ghost unreadable: set<nat>) returns (found: Option<Reading>)
    requires Opens(readings, envelopes, unreadable)
    ensures found.None? <==> Readable(envelopes, unreadable) == {}
    ensures found.Some? ==> Decodes(found.value, envelopes[Greatest(Readable(envelopes, unreadable))])
  {
    var todo: set<int> := readings.Keys;
    while todo != {}
      invariant todo <= readings.Keys
      invariant forall k :: k in readings && k !in todo ==> k !in Readable(envelopes, unreadable)
    {
      assert Greatest(todo) in todo;
      var k :| k in todo && forall j :: j in todo ==> j <= k;
      if readings[k].Some? {
        assert Greatest(Readable(envelopes, unreadable)) == k;
        return readings[k];
      }
      todo := todo - {k};
    }
    found := None;
  }

  /** A lawful tail replays its placements fresh. */
  lemma LawfulTailIsFresh(c: Codec, s: EngineState, tail: seq<Event>, last: nat)
    requires LawfulFrom(c, CoreOf(s), tail) && Numbered(tail, s.book.applied, last) && s.book.applied <= last
    ensures AllFresh(c, Begin(s), tail)
  {
    forall i | 0 <= i < |tail| ensures FreshAt(c, Begin(s), tail, i) {
      LawfulPrefix(c, CoreOf(s), tail, i);
      ReplayFollowsFold(c, Begin(s), tail[..i], last);
      LawfulIsNotResting(c, FoldFrom(c, CoreOf(s), tail[..i]).value, FoldFrom(c, CoreOf(s), tail[..i]).value, tail[i]);
      NotRestingIsFresh(c, Begin(s), tail, i, FoldFrom(c, CoreOf(s), tail[..i]).value);
    }
  }

  lemma {:induction false} AfterZero(log: seq<Event>, last: nat)
    requires Numbered(log, 0, last)
    ensures After(log, 0) == log
  {
    assert Cut(log, 0, 0);
    AfterIsTail(log, 0, 0);
  }

  /** The log can be replayed from nothing. */
  ghost predicate FreshLog(c: Codec, log: seq<Event>) {
    After(log, 0) == log && AllFresh(c, Begin(FRESH), log)
  }

  lemma NotRestingIsFresh(c: Codec, r: Replaying, es: seq<Event>, i: nat, k: Core)
    requires i < |es| && (es[i].data.OrderPlaced? ==> es[i].data.orderId !in k.orders)
    requires ReplayAll(c, r, es[..i]).Ok? ==> CoreOf(ReplayAll(c, r, es[..i]).value.state) == k
    ensures FreshAt(c, r, es, i)
  {
  }

  lemma LawfulIsNotResting(c: Codec, k: Core, j: Core, e: Event)
    requires Lawful(c, k, e) && PartOf(j.orders, k.orders)
    ensures e.data.OrderPlaced? ==> e.data.orderId !in j.orders
  {
  }

  lemma AboveIsFresh(c: Codec, k: Core, tail: seq<Event>, i: nat, last: nat)
    requires LawfulFrom(c, k, tail) && Numbered(tail, 0, last) && i < |tail|
    ensures FreshAt(c, Begin(FRESH), tail, i)
  {
    LawfulPrefix(c, k, tail, i);
    var init := tail[..i];
    TailStaysWithin(c, k, init);
    LawfulIsNotResting(c, FoldFrom(c, k, init).value, FoldFrom(c, EMPTY, init).value, tail[i]);
    assert CoreOf(FRESH) == EMPTY;
    ReplayFollowsFold(c, Begin(FRESH), init, last);
    NotRestingIsFresh(c, Begin(FRESH), tail, i, FoldFrom(c, EMPTY, init).value);
  }

  /** Whatever end of a proper log is kept, replaying it from nothing meets every placement fresh. */
  lemma KeptIsFresh(c: Codec, es: seq<Event>, floor: nat, last: nat)
    requires Proper(c, es) && Numbered(es, 0, last)
    ensures FreshLog(c, Kept(es, floor))
  {
    var tail := Kept(es, floor);
    var n := FloorCut(es, floor, last);
    NumberedTail(es, n, 0, last);
    AfterZero(tail, last);
    LawfulPrefix(c, EMPTY, es, n);
    FoldsAnywhere(c, EMPTY, EMPTY, es[..n]);
    TailIsLawful(c, es, n, Fold(c, es[..n]).value);
    forall i | 0 <= i < |tail| ensures FreshAt(c, Begin(FRESH), tail, i) {
      AboveIsFresh(c, Fold(c, es[..n]).value, tail, i, last);
    }
  }

  lemma RestoredTailIsFresh(c: Codec, es: seq<Event>, floor: nat, e: Envelope)
    requires Proper(c, es) && (floor <= 1 || floor <= LastNumber(es))
    requires e.Sealed? && Stands(c, es, e.watermark, e.state) && ContinuousAfter(Kept(es, floor), e.watermark)
    ensures AllFresh(c, Begin(e.state), After(Kept(es, floor), e.watermark))
  {
    ContinuousIsComplete(es, floor, e.watermark);
    StandingTail(c, es, e.watermark, e.state);
    LawfulTailIsFresh(c, e.state, After(es, e.watermark), Max(e.watermark, LastNumber(es)));
  }

  method EventLogCoversSeqOne(e: Engine) returns (covers: bool)
    requires e.Valid()
    ensures covers == CoversSeqOne(e.store.events)
  {
    AfterZero(e.store.events, e.store.counter);
    var first := e.store.ReadFrom(0, 1);
    covers := first != [] && first[0].number == 1;
  }

  method EventLogContinuousAfter(e: Engine, after: nat) returns (continuous: bool)
    requires e.Valid()
    ensures continuous == ContinuousAfter(e.store.events, after)
  {
    var next := e.store.ReadFrom(after, 1);
    continuous := next == [] || next[0].number == after + 1;
  }

  /** The stores are as they are whenever the process is down. */
  ghost predicate StoresReady(e: Engine, source: SnapshotSource, envelopes: Envelopes, probe: Probe)
    reads e, e.book, e.store
  {
    && e.Valid() && e.store.Whole() && Presents(source, envelopes, probe)
    && Consistent(e.codec, e.store.history, e.store.floor, envelopes)
  }

  /** Replay can begin: at this state, after this number. */
  ghost predicate Begun(e: Engine, after: nat, placed: map<Id, Order>)
    reads e, e.book, e.store
  {
    e.Valid() && placed == e.book.orders && AllFresh(e.codec, Begin(e.View()), After(e.store.events, after))
  }

  /** The engine is where replay is specified to start, or refused as specified. */
  ghost predicate Agrees(e: Engine, error: Option<BootError>, after: nat, placed: map<Id, Order>, start: Result<Start, BootError>)
    reads e, e.book, e.store
  {
    if error.Some? then start == Err(error.value)
    else Begun(e, after, placed) && start == Ok(Start(e.View(), After(e.store.events, after)))
  }

  /** Starts from nothing, without asking how far back the log reaches. */
  method BeginAnew(e: Engine)
    requires e.Valid() && FreshLog(e.codec, e.store.events)
    modifies e, e.book
    ensures e.Valid() && e.secrets == old(e.secrets)
    ensures Agrees(e, None, 0, map[], Ok(Start(FRESH, e.store.events)))
  {
    e.ResetProjection();
  }

  /** Starts from nothing, if the log still reaches back to its first event. */
  method BeginFromScratch(e: Engine) returns (error: Option<BootError>)
    requires e.Valid() && FreshLog(e.codec, e.store.events)
    modifies e, e.book
    ensures e.Valid() && e.secrets == old(e.secrets)
    ensures Agrees(e, error, 0, map[], StartFromScratch(e.store.events))
  {
    var covers := EventLogCoversSeqOne(e);
    if !covers {
      return Some(SnapshotsCorruptAndLogTruncated);
    }
    BeginAnew(e);
    error := None;
  }

  /** Starts from a decoded envelope, if nothing is missing right after it. */
  method BeginFrom(e: Engine, found: Reading, ghost envelope: Envelope) returns (error: Option<BootError>, placed: map<Id, Order>)
    requires e.Valid() && e.store.Whole() && Proper(e.codec, e.store.history) && Decodes(found, envelope)
    requires e.store.floor <= 1 || e.store.floor <= LastNumber(e.store.history)
    requires Stands(e.codec, e.store.history, envelope.watermark, envelope.state)
    modifies e, e.book
    ensures e.Valid() && e.secrets == old(e.secrets)
    ensures Agrees(e, error, found.watermark, placed, StartFrom(e.store.events, envelope))
  {
    e.RestoreFromSerializable(found.snap, envelope.state);
    placed := e.book.AllOrders();
    var continuous := EventLogContinuousAfter(e, found.watermark);
    if !continuous {
      return Some(SnapshotsCorruptAndLogTruncated), placed;
    }
    RestoredTailIsFresh(e.codec, e.store.history, e.store.floor, envelope);
    error := None;
  }

  /** Where replay starts once it is known what the snapshot store answers. */
  lemma StartByAnswer(log: seq<Event>, source: SnapshotSource, envelopes: Envelopes, probe: Probe)
    requires Presents(source, envelopes, probe)
    ensures source.NoSnapshotStore? || (source.Listing? && source.readings == map[]) ==>
              StartOf(log, envelopes, probe) == Ok(Start(FRESH, log))
    ensures source.ListingFails? || (source.Listing? && source.readings != map[] && !source.cipherPresent) ==>
              StartOf(log, envelopes, probe) == StartFromScratch(log)
  {
    if source.Listing? {
      assert envelopes == map[] <==> envelopes.Keys == {};
      assert source.readings == map[] <==> source.readings.Keys == {};
    }
  }

  lemma StartByEnvelope(log: seq<Event>, readings: Opened, envelopes: Envelopes, unreadable: set<nat>)
    requires readings != map[] && Opens(readings, envelopes, unreadable)
    ensures StartOf(log, envelopes, Listed(unreadable, true))
            == if Readable(envelopes, unreadable) == {} then StartFromScratch(log)
               else StartFrom(log, envelopes[Greatest(Readable(envelopes, unreadable))])
  {
    assert readings == map[] <==> readings.Keys == {};
  }

  /** Starts from the newest envelope that opens, or else from nothing. */
  method BeginFromNewest(e: Engine, readings: Opened, ghost envelopes: Envelopes, ghost unreadable: set<nat>)
    returns (error: Option<BootError>, after: nat, placed: map<Id, Order>)
    requires e.Valid() && e.store.Whole() && Consistent(e.codec, e.store.history, e.store.floor, envelopes)
    requires FreshLog(e.codec, e.store.events)
    requires readings != map[] && Opens(readings, envelopes, unreadable)
    modifies e, e.book
    ensures e.Valid() && e.secrets == old(e.secrets)
    ensures Agrees(e, error, after, placed, StartOf(e.store.events, envelopes, Listed(unreadable, true)))
  {
    after, placed := 0, map[];
    StartByEnvelope(e.store.events, readings, envelopes, unreadable);
    var found := NewestReadable(readings, envelopes, unreadable);
    if found.None? {
      error := BeginFromScratch(e);
    } else {
      after := found.value.watermark;
      error, placed := BeginFrom(e, found.value, envelopes[Greatest(Readable(envelopes, unreadable))]);
    }
  }

  /** Chooses where replay starts. */
  method ChooseStart(e: Engine, source: SnapshotSource, ghost envelopes: Envelopes, ghost probe: Probe)
    returns (error: Option<BootError>, after: nat, placed: map<Id, Order>)
    requires StoresReady(e, source, envelopes, probe)
    modifies e, e.book
    ensures e.Valid() && e.secrets == old(e.secrets)
    ensures Agrees(e, error, after, placed, StartOf(e.store.events, envelopes, probe))
  {
    after, placed, error := 0, map[], None;
    StartByAnswer(e.store.events, source, envelopes, probe);
    KeptIsFresh(e.codec, e.store.history, e.store.floor, e.store.counter);
    if source.NoSnapshotStore? || (source.Listing? && source.readings == map[]) {
      BeginAnew(e);
    } else if source.ListingFails? || !source.cipherPresent {
      error := BeginFromScratch(e);
    } else {
      error, after, placed := BeginFromNewest(e, source.readings, envelopes, probe.unreadable);
    }
  }

  /** `recover`, up to the re-aggregation of orphans: the state, the orphans and the placed orders it is specified to rebuild. */
  method Recover(e: Engine, source: SnapshotSource, ghost envelopes: Envelopes, ghost probe: Probe)
    returns (error: Option<BootError>, orphans: map<Id, seq<Match>>, placed: map<Id, Order>)
    requires StoresReady(e, source, envelopes, probe)
    modifies e, e.book
    ensures e.Valid() && e.secrets == old(e.secrets)
    ensures match Recovered(e.codec, e.store.events, envelopes, probe)
            case Ok(r) => error == None && At(e, orphans, placed, r)
            case Err(x) => error == Some(x)
  {
    orphans := map[];
    var after;
    error, after, placed := ChooseStart(e, source, envelopes, probe);
    if error.Some? {
      return;
    }
    var failed;
    failed, orphans, placed := ReplayTail(e, after, placed);
    if failed.Some? {
      error := Some(ReplayFailed(failed.value));
    }
  }

  // ---------------------------------------------------------------- the second pass

  /** Batch identifiers are new and differ from each other. */
  ghost predicate FreshBatches(aggregated: Id -> Option<Id>, auctions: set<Id>, pending: map<Id, PendingBatch>) {
    && (forall a :: a in auctions && aggregated(a).Some? ==> aggregated(a).value !in pending)
    && (forall a, b :: a in auctions && b in auctions && a != b && aggregated(a).Some? && aggregated(b).Some? ==>
                         aggregated(a).value != aggregated(b).value)
  }

  method LeastId(s: set<Id>) returns (a: Id)
    requires s != {}
    ensures a in s && forall b :: b in s ==> a <= b
  {
    assert Least(s) in s;
    a :| a in s && forall b :: b in s ==> a <= b;
  }

  /** Sorts a set of identifiers. */
  method SortedIds(s: set<Id>) returns (ids: seq<Id>)
    ensures Ordered(ids, s)
  {
    var todo := s;
    ids := [];
    while todo != {}
      invariant todo <= s && Ordered(ids, s - todo) && forall a, b :: a in ids && b in todo ==> a < b
    {
      var a := LeastId(todo);
      OrderedSnoc(ids, s - todo, a);
      assert s - (todo - {a}) == s - todo + {a};
      ids := ids + [a];
      todo := todo - {a};
    }
    assert s - todo == s;
  }

  lemma OrderedSnoc(ids: seq<Id>, s: set<Id>, a: Id)
    requires Ordered(ids, s) && forall b :: b in ids ==> b < a
    ensures Ordered(ids + [a], s + {a})
  {
    forall i, j | 0 <= i < j < |ids + [a]| ensures (ids + [a])[i] < (ids + [a])[j] {
      assert (ids + [a])[i] in ids;
    }
  }

  /** The verdicts so far are those of the first auctions, in order. */
  ghost predicate Taken(vs: seq<Verdict>, aggregated: Id -> Option<Id>, outcome: Id -> Append, order: seq<Id>) {
    |vs| <= |order| && forall i :: 0 <= i < |vs| ==> Decided(vs[i], aggregated, outcome, order[i])
  }

  /** What aggregated was adopted, which takes a store that accepts it; what did not aggregate was left. */
  predicate Decided(v: Verdict, aggregated: Id -> Option<Id>, outcome: Id -> Append, auctionId: Id) {
    && v.auctionId == auctionId
    && match aggregated(auctionId)
       case None => v.NotAggregated?
       case Some(b) => v.Adopted? && v.batchId == b && outcome(auctionId).Stored?
  }

  /** The store refuses the batch of the next auction. */
  predicate StuckAt(aggregated: Id -> Option<Id>, outcome: Id -> Append, order: seq<Id>, n: nat) {
    n < |order| && aggregated(order[n]).Some? && outcome(order[n]).Lost?
  }

  lemma TakenSnoc(vs: seq<Verdict>, aggregated: Id -> Option<Id>, outcome: Id -> Append, order: seq<Id>, v: Verdict)
    requires Taken(vs, aggregated, outcome, order) && |vs| < |order| && Decided(v, aggregated, outcome, order[|vs|])
    ensures Taken(vs + [v], aggregated, outcome, order)
  {
  }

  lemma TakenAreVerdicts(r: Replaying, vs: seq<Verdict>, aggregated: Id -> Option<Id>, outcome: Id -> Append, order: seq<Id>,
                         auctions: set<Id>)
    requires Taken(vs, aggregated, outcome, order) && Ordered(order, auctions) && FreshBatches(aggregated, auctions, r.state.pending)
    ensures Verdicts(r, vs)
  {
  }

  lemma TakenAreAnswers(vs: seq<Verdict>, aggregated: Id -> Option<Id>, outcome: Id -> Append, order: seq<Id>)
    requires Taken(vs, aggregated, outcome, order) && |vs| == |order|
    ensures Auctions(vs) == order
  {
  }

  /** The orphans of each auction that aggregated are pending under its batch, and nothing else was added. */
  ghost predicate AllAdopted(orphans: map<Id, seq<Match>>, aggregated: Id -> Option<Id>, was: map<Id, PendingBatch>,
                             now: map<Id, PendingBatch>) {
    && (forall a :: a in orphans && aggregated(a).Some? ==> AdoptedAs(a, orphans[a], aggregated(a).value, now))
    && (forall b :: b in was ==> b in now && now[b] == was[b])
    && (forall b :: b in now && b !in was ==> exists a :: a in orphans && aggregated(a) == Some(b))
  }

  predicate AdoptedAs(a: Id, ms: seq<Match>, b: Id, now: map<Id, PendingBatch>) {
    b in now && now[b].auctionId == a && now[b].matches == ms
  }

  lemma TakenAreAdopted(r: Replaying, vs: seq<Verdict>, aggregated: Id -> Option<Id>, outcome: Id -> Append, order: seq<Id>)
    requires Taken(vs, aggregated, outcome, order) && |vs| == |order| && Ordered(order, r.orphans.Keys) && Verdicts(r, vs)
    ensures AllAdopted(r.orphans, aggregated, r.state.pending, Adopt(r, vs).pending)
    ensures forall a :: a in r.orphans && aggregated(a).Some? ==> outcome(a).Stored?
  {
    var now := Adopt(r, vs).pending;
    AdoptedPending(r, vs);
    forall a | a in r.orphans && aggregated(a).Some?
      ensures AdoptedAs(a, r.orphans[a], aggregated(a).value, now) && outcome(a).Stored?
    {
      var i :| 0 <= i < |order| && order[i] == a;
      assert Decided(vs[i], aggregated, outcome, order[i]);
      AdoptHolds(r, vs, i);
    }
    forall b | b in r.state.pending ensures b in now && now[b] == r.state.pending[b] {
      AdoptKeeps(r, vs, b);
    }
    forall b | b in now && b !in r.state.pending ensures exists a :: a in r.orphans && aggregated(a) == Some(b) {
      var v :| v in vs && v.Adopted? && v.batchId == b;
      var i :| 0 <= i < |vs| && vs[i] == v;
      assert Decided(vs[i], aggregated, outcome, order[i]) && order[i] in r.orphans;
    }
  }

  /** What one verdict appends. */
  function Appends(v: Verdict): seq<Event> {
    if v.Adopted? then [SubmittedEvent(v)] else []
  }

  lemma AdoptSnoc(r: Replaying, vs: seq<Verdict>, v: Verdict, s: EngineState)
    requires s == Adopt(r, vs)
    ensures v.NotAggregated? ==> Adopt(r, vs + [v]) == s
    ensures v.Adopted? ==>
              var ms := Unclaimed(r, v.auctionId);
              Adopt(r, vs + [v])
              == s.(book := Apply(s.book, SubmittedEvent(v)),
                    pending := s.pending[v.batchId := PendingBatch(v.auctionId, ms, RowsOf(ms, r.placed, s.pairs))])
  {
  }

  lemma AppendedSnoc(vs: seq<Verdict>, v: Verdict)
    ensures AppendedBy(vs + [v]) == AppendedBy(vs) + Appends(v)
  {
  }

  /** Deals with one auction's orphans: nothing if they did not aggregate, a new batch if they did. */
  method AdoptOne(e: Engine, auctionId: Id, batchId: Option<Id>, ms: seq<Match>, placed: map<Id, Order>, outcome: Append,
                  ghost r: Replaying, ghost vs: seq<Verdict>)
    returns (ok: bool, ghost v: Verdict)
    requires e.Valid() && e.View() == Adopt(r, vs) && ms == Unclaimed(r, auctionId) && placed == r.placed
    modifies e, e.book, e.store
    ensures e.Valid() && e.secrets == old(e.secrets)
    ensures ok <==> batchId.None? || outcome.Stored?
    ensures !ok ==> e.View() == old(e.View()) && e.store.history == old(e.store.history) && e.store.events == old(e.store.events)
    ensures ok ==>
              && v.auctionId == auctionId && (match batchId case None => v.NotAggregated? case Some(b) => v.Adopted? && v.batchId == b)
              && e.View() == Adopt(r, vs + [v]) && e.store.history == old(e.store.history) + Appends(v)
              && e.store.events == old(e.store.events) + Appends(v)
  {
    v := NotAggregated(auctionId);
    AdoptSnoc(r, vs, v, e.View());
    if batchId.None? {
      return true, v;
    }
    var stored := e.store.Append([BatchSubmitted(batchId.value, auctionId)], outcome);
    if stored.None? {
      return false, v;
    }
    var ev := stored.value[0];
    v := Adopted(auctionId, batchId.value, ev.number);
    AdoptSnoc(r, vs, v, e.View());
    e.book.Apply(ev);
    var rows := RecoveredRows(ms, placed, e.pairs);
    e.pending := e.pending[batchId.value := PendingBatch(auctionId, ms, rows)];
    ok := true;
  }

  /** Deals with the auctions' orphans one by one, in the order given; stops if the store fails. */
  method AdoptInOrder(e: Engine, order: seq<Id>, orphans: map<Id, seq<Match>>, placed: map<Id, Order>,
                      aggregated: Id -> Option<Id>, outcome: Id -> Append)
    returns (reply: Reply, ghost vs: seq<Verdict>)
    requires e.Valid() && forall i :: 0 <= i < |order| ==> order[i] in orphans
    modifies e, e.book, e.store
    ensures e.Valid() && e.secrets == old(e.secrets)
    ensures Taken(vs, aggregated, outcome, order) && !reply.Refused?
    ensures if reply.Done? then |vs| == |order| else StuckAt(aggregated, outcome, order, |vs|)
    ensures e.View() == Adopt(Replaying(old(e.View()), orphans, placed), vs)
    ensures e.store.history == old(e.store.history) + AppendedBy(vs) && e.store.events == old(e.store.events) + AppendedBy(vs)
  {
    ghost var r := Replaying(e.View(), orphans, placed);
    vs := [];
    for i := 0 to |order|
      invariant |vs| == i && Taken(vs, aggregated, outcome, order)
      invariant e.Valid() && e.secrets == old(e.secrets)
      invariant e.View() == Adopt(r, vs)
      invariant e.store.history == old(e.store.history) + AppendedBy(vs) && e.store.events == old(e.store.events) + AppendedBy(vs)
    {
      var a := order[i];
      var ok;
      ghost var v;
      ok, v := AdoptOne(e, a, aggregated(a), orphans[a], placed, outcome(a), r, vs);
      if !ok {
        return StoreFailed, vs;
      }
      AppendedSnoc(vs, v);
      TakenSnoc(vs, aggregated, outcome, order, v);
      vs := vs + [v];
    }
    reply := Done;
  }

  /** Batches the orphans auction by auction, lowest identifier first; stops if the store fails. */
  method AdoptOrphans(e: Engine, orphans: map<Id, seq<Match>>, placed: map<Id, Order>,
                      aggregated: Id -> Option<Id>, outcome: Id -> Append)
    returns (reply: Reply, ghost vs: seq<Verdict>)
    requires e.Valid() && FreshBatches(aggregated, orphans.Keys, e.pending)
    modifies e, e.book, e.store
    ensures e.Valid() && e.secrets == old(e.secrets)
    ensures var r := Replaying(old(e.View()), orphans, placed); Verdicts(r, vs) && e.View() == Adopt(r, vs)
    ensures e.store.history == old(e.store.history) + AppendedBy(vs) && e.store.events == old(e.store.events) + AppendedBy(vs)
    ensures reply.Done? ==> Answers(vs, orphans)
    ensures reply.Done? <==> forall a :: a in orphans && aggregated(a).Some? ==> outcome(a).Stored?
    ensures reply.Done? ==> AllAdopted(orphans, aggregated, old(e.pending), e.pending)
  {
    ghost var r := Replaying(e.View(), orphans, placed);
    var order := SortedIds(orphans.Keys);
    reply, vs := AdoptInOrder(e, order, orphans, placed, aggregated, outcome);
    TakenAreVerdicts(r, vs, aggregated, outcome, order, orphans.Keys);
    if reply.Done? {
      TakenAreAnswers(vs, aggregated, outcome, order);
      TakenAreAdopted(r, vs, aggregated, outcome, order);
    } else {
      assert order[|vs|] in orphans;
    }
  }

  /** The whole of `recover`: both passes, the second over what the first one rebuilt. */
  method RecoverAndAdopt(e: Engine, source: SnapshotSource, ghost envelopes: Envelopes, ghost probe: Probe,
                         aggregated: Id -> Option<Id>, outcome: Id -> Append)
    returns (error: Option<BootError>, reply: Reply, ghost vs: seq<Verdict>)
    requires StoresReady(e, source, envelopes, probe)
    requires var r := Recovered(e.codec, e.store.events, envelopes, probe);
             r.Ok? ==> FreshBatches(aggregated, r.value.orphans.Keys, r.value.state.pending)
    modifies e, e.book, e.store
    ensures e.Valid() && e.secrets == old(e.secrets)
    ensures match Recovered(e.codec, old(e.store.events), envelopes, probe)
            case Err(x) => error == Some(x) && e.store.events == old(e.store.events)
            case Ok(r) =>
              && error == None && Verdicts(r, vs) && e.View() == Adopt(r, vs)
              && e.store.events == old(e.store.events) + AppendedBy(vs) && (reply.Done? ==> Answers(vs, r.orphans))
  {
    vs, reply := [], Done;
    var orphans, placed;
    error, orphans, placed := Recover(e, source, envelopes, probe);
    if error.None? {
      reply, vs := AdoptOrphans(e, orphans, placed, aggregated, outcome);
    }
  }
}
