/** The engine as an object: its operations update the state in place, and each is one move of the state machine. */
module Engine {
  import opened Types
  import opened Events
  import opened BookSpec
  import opened Projection
  import opened Legality
  import opened Operations
  import opened Refinement
  import opened System
  import OrderBook
  import EventStore

  datatype Reply = Done | Refused(refusal: Refusal) | StoreFailed

  /** The events ever appended and the last number used, as the store has them. */
  datatype Log = Log(history: seq<Event>, counter: nat)

  /** From `was` and `log`, the operation led to `now` and `log'` and was answered with `reply`. */
  ghost predicate Performed(c: Codec, op: Operation, outcome: Append, was: EngineState, log: Log,
                            now: EngineState, log': Log, reply: Reply) {
    match Plan(c, CoreOf(was), op)
    case Err(e) => reply == Refused(e) && now == was && log' == log
    case Ok(data) =>
      if data == [] then reply == Done && now == was && log' == log
      else
        match outcome
        case Stored =>
          var es := Stamp(data, log.counter);
          reply == Done && now == Commit(c, was, op, es) && log' == Log(log.history + es, log.counter + |es|)
        case Lost(burned) => reply == StoreFailed && now == was && log' == log.(counter := log.counter + burned)
  }

  lemma NothingToCommit(c: Codec, s: EngineState, op: Operation)
    requires Plan(c, CoreOf(s), op) == Ok([])
    ensures Commit(c, s, op, []) == s
  {
  }

  /** What an operation performs is the move of the state machine that bears its name. */
  lemma PerformedIsTheMove(c: Codec, y: System, p: Process, op: Operation, outcome: Append,
                           now: EngineState, log': Log, reply: Reply)
    requires Performed(c, op, outcome, p.state, Log(y.history, y.counter), now, log', reply)
    requires y.process == Some(p)
    ensures var y' := DoOperate(c, y, p, op, outcome);
            y'.process.Some? && y'.process.value.state == now && Log(y'.history, y'.counter) == log'
  {
    if Plan(c, CoreOf(p.state), op) == Ok([]) {
      NothingToCommit(c, p.state, op);
      assert Stamp([], y.counter) == [];
    }
  }

  /** The projection as it is written into an envelope. */
  datatype SerializableState = SerializableState(
    book: OrderBook.BookSnapshot,
    pairs: map<string, PairConfig>,
    auctionLog: seq<AuctionRecord>,
    pending: map<Id, PendingBatch>,
    seen: set<Key>,
    nullifiers: set<Key>,
    nonces: set<Key>)

  ghost predicate Serializes(snap: SerializableState, s: EngineState) {
    && OrderBook.Nested(snap.book.books, s.book.orders) && snap.book.applied == s.book.applied
    && s == EngineState(s.book, snap.pairs, snap.auctionLog, snap.pending, snap.seen, snap.nullifiers, snap.nonces)
  }

  /** The state once a placement's event is stored and entered. */
  function Placing(c: Codec, s: EngineState, p: Placement, e: Event): EngineState {
    var b := Apply(s.book, e);
    s.(book := b.(orders := b.orders[p.order.id := p.order.(placedSeq := e.number)]),
       seen := s.seen + {c.digest(p.ciphertext)},
       nullifiers := s.nullifiers + {p.nullifier},
       nonces := s.nonces + {p.nonceDigest})
  }

  lemma PlacingCommits(c: Codec, s: EngineState, p: Placement, es: seq<Event>)
    requires |es| == 1 && PlanPlacement(c, CoreOf(s), p).Ok?
    ensures Commit(c, s, Place(p), es) == Placing(c, s, p, es[0])
  {
  }

  lemma DelistCommits(c: Codec, s: EngineState, input: string, ids: seq<Id>, es: seq<Event>)
    requires c.parsePair(input).Ok? && c.parsePair(input).value in s.pairs
    requires s.pairs[c.parsePair(input).value].status != Delisted && |es| == |ids| + 1
    ensures var key := c.parsePair(input).value;
            && Plan(c, CoreOf(s), Delist(input, ids)) == Ok(CancelAll(ids) + [PairDelisted(key)])
            && Commit(c, s, Delist(input, ids), es)
               == s.(book := ApplyAll(s.book, es), pairs := s.pairs[key := s.pairs[key].(status := Delisted)])
  {
  }

  class Engine {
    const codec: Codec
    const book: OrderBook.OrderBook
    const store: EventStore.EventStore
    var pairs: map<string, PairConfig>
    var auctionLog: seq<AuctionRecord>
    var pending: map<Id, PendingBatch>
    var seen: set<Key>
    var nullifiers: set<Key>
    var nonces: set<Key>
    var secrets: set<Id>

    ghost predicate Valid()
      reads this, book, store
    {
      book.Valid() && store.Valid()
    }

    ghost function View(): EngineState
      reads this, book
    {
      EngineState(book.View(), pairs, auctionLog, pending, seen, nullifiers, nonces)
    }

    ghost function TheLog(): Log
      reads store
    {
      Log(store.history, store.counter)
    }

    /** This call performed the operation. */
    twostate predicate Did(op: Operation, outcome: Append, reply: Reply)
      reads this, book, store
    {
      Performed(codec, op, outcome, old(View()), old(TheLog()), View(), TheLog(), reply)
    }

    constructor (c: Codec)
      ensures Valid() && View() == FRESH && TheLog() == Log([], 0) && secrets == {} && codec == c
    {
      codec := c;
      book := new OrderBook.OrderBook();
      store := new EventStore.EventStore();
      pairs, auctionLog, pending, seen, nullifiers, nonces, secrets := map[], [], map[], {}, {}, {}, {};
    }

    method RegisterPair(input: string, config: PairConfig, outcome: Append) returns (reply: Reply)
      requires Valid()
      modifies this, book, store
      ensures Valid() && secrets == old(secrets)
      ensures Did(Register(input, config), outcome, reply)
    {
      var parsed := codec.parsePair(input);
      if parsed.Err? {
        return Refused(PairInvalid(parsed.error));
      }
      var key := parsed.value;
      if key in pairs {
        return Refused(PairAlreadyRegistered);
      }
      var stored := store.Append([RegisteredData(key, config)], outcome);
      if stored.None? {
        return StoreFailed;
      }
      pairs := pairs[key := config];
      reply := Done;
    }

    method SuspendPair(input: string, outcome: Append) returns (reply: Reply)
      requires Valid()
      modifies this, book, store
      ensures Valid() && secrets == old(secrets)
      ensures Did(Suspend(input), outcome, reply)
      ensures reply.Done? ==>
                && codec.parsePair(input).Ok? && codec.parsePair(input).value in pairs
                && pairs[codec.parsePair(input).value].status == Suspended
                && (store.history == old(store.history) ==> pairs == old(pairs))
                && (store.history != old(store.history) ==>
                      store.history == old(store.history) + [Event(old(store.counter) + 1, PairSuspended(codec.parsePair(input).value))])
    {
      var parsed := codec.parsePair(input);
      if parsed.Err? {
        return Refused(PairInvalid(parsed.error));
      }
      var key := parsed.value;
      if key !in pairs {
        return Refused(PairNotRegistered);
      }
      match pairs[key].status {
        case Suspended => return Done;
        case Delisted => return Refused(CannotSuspendDelistedPair);
        case Active =>
      }
      var stored := store.Append([PairSuspended(key)], outcome);
      if stored.None? {
        return StoreFailed;
      }
      pairs := pairs[key := pairs[key].(status := Suspended)];
      reply := Done;
    }

    /** Applies stored events to the book one after the other. */
    method ApplyEvents(es: seq<Event>)
      requires Valid()
      modifies book
      ensures Valid() && book.View() == ApplyAll(old(book.View()), es)
    {
      for i := 0 to |es|
        invariant Valid() && book.View() == ApplyAll(old(book.View()), es[..i])
      {
        book.Apply(es[i]);
        assert es[..i + 1][..i] == es[..i];
      }
      assert es[..|es|] == es;
    }

    method DropSecrets(ids: seq<Id>)
      modifies this`secrets
      ensures secrets == old(secrets) - Set(ids)
    {
      for i := 0 to |ids|
        invariant secrets == old(secrets) - Set(ids[..i])
      {
        secrets := secrets - {ids[i]};
        assert ids[..i + 1] == ids[..i] + [ids[i]];
      }
      assert ids[..|ids|] == ids;
    }

    /** Cancels every open order of a pair and marks it delisted. */
    method CancelAndDelist(input: string, key: string, outcome: Append) returns (reply: Reply, ghost ids: seq<Id>)
      requires Valid() && codec.parsePair(input) == Ok(key) && key in pairs && pairs[key].status != Delisted
      modifies this, book, store
      ensures Valid() && Did(Delist(input, ids), outcome, reply)
      ensures Enumerates(ids, OnPair(old(book.orders), key))
      ensures secrets == if reply.Done? then old(secrets) - Set(ids) else old(secrets)
    {
      var openIds := book.OrderIdsFor(key);
      ids := openIds;
      var stored := store.Append(CancelAll(openIds) + [PairDelisted(key)], outcome);
      if stored.None? {
        return StoreFailed, ids;
      }
      DelistCommits(codec, View(), input, openIds, stored.value);
      ApplyEvents(stored.value);
      pairs := pairs[key := pairs[key].(status := Delisted)];
      DropSecrets(openIds);
      reply := Done;
    }

    method DelistPair(input: string, outcome: Append) returns (reply: Reply, ghost ids: seq<Id>)
      requires Valid()
      modifies this, book, store
      ensures Valid() && Did(Delist(input, ids), outcome, reply)
      ensures store.history != old(store.history) ==>
                Possible(codec, CoreOf(old(View())), Delist(input, ids)) && secrets == old(secrets) - Set(ids)
    {
      var parsed := codec.parsePair(input);
      if parsed.Err? {
        return Refused(PairInvalid(parsed.error)), [];
      }
      var key := parsed.value;
      if key !in pairs {
        return Refused(PairNotRegistered), [];
      }
      if pairs[key].status == Delisted {
        return Done, [];
      }
      reply, ids := CancelAndDelist(input, key, outcome);
    }

    method CancelOrder(id: Id, outcome: Append) returns (reply: Reply)
      requires Valid()
      modifies this, book, store
      ensures Valid() && Did(Cancel(id), outcome, reply)
      ensures secrets == if reply.Done? then old(secrets) - {id} else old(secrets)
    {
      var found := book.HasOrder(id);
      if !found {
        return Refused(OrderNotFound);
      }
      var stored := store.Append([OrderCancelled(id)], outcome);
      if stored.None? {
        return StoreFailed;
      }
      book.Apply(stored.value[0]);
      secrets := secrets - {id};
      reply := Done;
    }

    /** Whether the book has room for one more order, and for one more of this trader's. */
    method EnsureOrderCapacity(trader: Address) returns (refusal: Option<Refusal>)
      requires Valid()
      ensures refusal == if |book.orders| >= MAX_ACTIVE_ORDERS then Some(OrderBookCapacityExceeded)
                         else if |OrdersOf(book.orders, trader)| >= MAX_ACTIVE_ORDERS_PER_TRADER then Some(TooManyRestingOrdersForTrader)
                         else None
    {
      var all := book.ActiveOrderCount();
      if all >= MAX_ACTIVE_ORDERS {
        return Some(OrderBookCapacityExceeded);
      }
      var own := book.ActiveOrderCountForTrader(trader);
      if own >= MAX_ACTIVE_ORDERS_PER_TRADER {
        return Some(TooManyRestingOrdersForTrader);
      }
      refusal := None;
    }

    /** The checks made under the same lock as the append. */
    method CheckPlacement(p: Placement) returns (refusal: Option<Refusal>)
      requires Valid()
      ensures PlanPlacement(codec, CoreOf(View()), p)
              == if refusal.Some? then Err(refusal.value) else Ok([OrderPlaced(p.order.id, p.commitment, p.ciphertext)])
    {
      if p.order.pair !in pairs {
        return Some(PairNotRegistered);
      }
      if pairs[p.order.pair].status != Active {
        return Some(PairNotAccepting);
      }
      if codec.digest(p.ciphertext) in seen {
        return Some(DuplicateOrder);
      }
      if p.nullifier in nullifiers {
        return Some(DuplicateOrder);
      }
      if p.nonceDigest in nonces {
        return Some(DuplicateOrder);
      }
      refusal := EnsureOrderCapacity(p.order.trader);
    }

    /** Enters a stored placement: the book, its secret and its replay keys. */
    method EnterPlacement(p: Placement, e: Event)
      requires Valid() && p.order.id !in book.orders && e.data.OrderPlaced?
      modifies this, book
      ensures Valid() && secrets == old(secrets) + {p.order.id}
      ensures View() == Placing(codec, old(View()), p, e)
    {
      book.Apply(e);
      book.InsertOrder(p.order.(placedSeq := e.number));
      secrets := secrets + {p.order.id};
      seen := seen + {codec.digest(p.ciphertext)};
      nullifiers := nullifiers + {p.nullifier};
      nonces := nonces + {p.nonceDigest};
    }

    method PersistOrderPlaced(p: Placement, outcome: Append) returns (reply: Reply)
      requires Valid() && p.order.id !in book.orders
      modifies this, book, store
      ensures Valid() && Did(Place(p), outcome, reply)
      ensures secrets == if reply.Done? then old(secrets) + {p.order.id} else old(secrets)
    {
      var refusal := CheckPlacement(p);
      if refusal.Some? {
        return Refused(refusal.value);
      }
      var stored := store.Append([OrderPlaced(p.order.id, p.commitment, p.ciphertext)], outcome);
      if stored.None? {
        return StoreFailed;
      }
      EnterPlacement(p, stored.value[0]);
      PlacingCommits(codec, old(View()), p, stored.value);
      reply := Done;
    }

    /** Keeps only the secrets of orders that still rest. */
    method PruneDeadSecrets()
      requires Valid()
      modifies this`secrets
      ensures secrets == old(secrets) * book.orders.Keys
    {
      var ids := OrderBook.ListKeys(secrets);
      EnumerationSet(ids, secrets);
      var kept: set<Id> := {};
      for i := 0 to |ids|
        invariant kept == Set(ids[..i]) * book.orders.Keys
      {
        var alive := book.HasOrder(ids[i]);
        if alive {
          kept := kept + {ids[i]};
        }
        assert ids[..i + 1] == ids[..i] + [ids[i]];
      }
      assert ids[..|ids|] == ids;
      secrets := kept;
    }

    /** Records a proven batch as submitted. */
    method FinalizePendingBatch(batchId: Id, batch: PendingBatch, outcome: Append) returns (reply: Reply)
      requires Valid()
      modifies this, book, store
      ensures Valid() && secrets == old(secrets)
      ensures Did(Finalize(batchId, batch), outcome, reply)
    {
      var stored := store.Append([BatchSubmitted(batchId, batch.auctionId)], outcome);
      if stored.None? {
        return StoreFailed;
      }
      book.Apply(stored.value[0]);
      pending := pending[batchId := batch];
      reply := Done;
    }

    /** The projection and the store's last number, read under one lock. */
    method CaptureSnapshotState() returns (snap: SerializableState, watermark: nat)
      requires Valid()
      ensures Serializes(snap, View()) && watermark == store.counter
    {
      var b := book.ToSnapshot();
      snap := SerializableState(b, pairs, auctionLog, pending, seen, nullifiers, nonces);
      watermark := store.counter;
    }

    /** Replaces the whole projection by a serialized one. */
    method RestoreFromSerializable(snap: SerializableState, ghost s: EngineState)
      requires Valid() && Serializes(snap, s)
      modifies this, book
      ensures Valid() && View() == s && secrets == old(secrets)
    {
      book.RestoreFrom(snap.book, s.book.orders);
      pairs, auctionLog, pending := snap.pairs, snap.auctionLog, snap.pending;
      seen, nullifiers, nonces := snap.seen, snap.nullifiers, snap.nonces;
    }

    method ResetProjection()
      requires Valid()
      modifies this, book
      ensures Valid() && View() == FRESH && secrets == old(secrets)
    {
      book.RestoreFrom(OrderBook.BookSnapshot(map[], 0), map[]);
      pairs, auctionLog, pending, seen, nullifiers, nonces := map[], [], map[], {}, {}, {};
    }
  }
}
