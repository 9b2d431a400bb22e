/** Rebuilding the engine's state from the event log: `replay_event` and the loop around it. */
module Recovery {
  import opened Types
  import opened Encoding
  import opened Events
  import opened BookSpec
  import opened Projection
  import opened Operations

  /** The state being rebuilt, matches not yet claimed by a batch, and every order seen placed. */
  datatype Replaying = Replaying(state: EngineState, orphans: map<Id, seq<Match>>, placed: map<Id, Order>)

  // ---------------------------------------------------------------- which placements replay

  /** What can be wrong with a stored placement, each fault on its own. */
  predicate Unrecoverable(c: Codec, commitment: Key, ciphertext: Bytes, e: RecoverError) {
    match e
    case RecoverDecrypt => c.decrypt(ciphertext) == None
    case _ => c.decrypt(ciphertext).Some? && UnrecoverableOrder(c, commitment, c.decrypt(ciphertext).value, e)
  }

  predicate UnrecoverableOrder(c: Codec, commitment: Key, d: Decrypted, e: RecoverError) {
    match e
    case RecoverSaltInvalid => c.salt(d.salt) == None
    case CommitmentEncoding => !Encodable(d.price) || !Encodable(d.size)
    case RecoverCommitmentMismatch =>
      c.salt(d.salt).Some? && commitment != c.commit(d.trader, d.side, d.price, d.size, c.salt(d.salt).value)
    case OrderNonceInvalid => c.nonce(d.nonce) == None
    case OrderExpiryInvalid => d.expiresAt <= 0
    case BadPair(x) => c.parsePair(d.pair) == Err(x)
    case RecoverDecrypt => false
  }

  function Noticed(e: RecoverError): nat {
    match e
    case RecoverDecrypt => 0
    case RecoverSaltInvalid => 1
    case CommitmentEncoding => 2
    case RecoverCommitmentMismatch => 3
    case OrderNonceInvalid => 4
    case OrderExpiryInvalid => 5
    case BadPair(_) => 6
  }

  /** A stored placement fails to replay exactly when something is wrong with it, and for what is noticed first. */
  lemma RebuildFailsExactly(c: Codec, id: Id, commitment: Key, ciphertext: Bytes, number: nat, f: RecoverError)
    ensures var r := Rebuild(c, id, commitment, ciphertext, number);
            && (Unrecoverable(c, commitment, ciphertext, f) ==> r.Err? && Noticed(r.error) <= Noticed(f))
            && (r.Err? ==> Unrecoverable(c, commitment, ciphertext, r.error))
  {
  }

  /** One settlement row, if both orders and the pair are known. */
  function SettlementRowOf(m: Match, orders: map<Id, Order>, pairs: map<string, PairConfig>): Option<SettlementRow> {
    if m.bid.orderId !in orders || m.ask.orderId !in orders then None
    else
      var bid, ask := orders[m.bid.orderId], orders[m.ask.orderId];
      if bid.pair !in pairs then None
      else
        var cfg := pairs[bid.pair];
        Some(SettlementRow(m.bid.orderId, m.ask.orderId, bid.trader, ask.trader, cfg.baseToken, cfg.quoteToken,
                           m.price, m.size))
  }

  /** Recovery skips matches it cannot resolve. */
  function RowsOf(ms: seq<Match>, orders: map<Id, Order>, pairs: map<string, PairConfig>): seq<SettlementRow> {
    if ms == [] then []
    else
      RowsOf(ms[..|ms| - 1], orders, pairs) +
      match SettlementRowOf(ms[|ms| - 1], orders, pairs) case Some(row) => [row] case None => []
  }

  function Unclaimed(r: Replaying, auctionId: Id): seq<Match> {
    if auctionId in r.orphans then r.orphans[auctionId] else []
  }

  function ReplayEvent(c: Codec, r: Replaying, e: Event): Result<Replaying, RecoverError> {
    var s := r.state;
    match e.data
    case OrderPlaced(id, commitment, ciphertext) =>
      (match Rebuild(c, id, commitment, ciphertext, e.number)
       case Err(x) => Err(x)
       case Ok(p) =>
         var b := Apply(s.book, e);
         var s' := s.(book := b.(orders := b.orders[id := p.order]),
                      pairs := if p.order.pair in s.pairs then s.pairs else s.pairs[p.order.pair := DEFAULT_PAIR],
                      seen := s.seen + {c.digest(ciphertext)},
                      nullifiers := s.nullifiers + {p.nullifier},
                      nonces := s.nonces + {p.nonceDigest});
         Ok(r.(state := s', placed := r.placed[id := p.order])))
    case AuctionExecuted(auctionId, pair, price, volume, count, at) =>
      Ok(r.(state := s.(book := Apply(s.book, e),
                        auctionLog := s.auctionLog + [AuctionRecord(auctionId, pair, price, volume, count, at)])))
    case OrderMatched(auctionId, m) =>
      Ok(r.(state := s.(book := Apply(s.book, e)), orphans := r.orphans[auctionId := Unclaimed(r, auctionId) + [m]]))
    case BatchSubmitted(batchId, auctionId) =>
      var ms := Unclaimed(r, auctionId);
      var s' := s.(book := Apply(s.book, e));
      var pending := if batchId in s.pending then s.pending
                     else s.pending[batchId := PendingBatch(auctionId, ms, RowsOf(ms, r.placed, s.pairs))];
      Ok(Replaying(s'.(pending := pending), r.orphans - {auctionId}, r.placed))
    case BatchConfirmed(batchId) => Ok(r.(state := s.(book := Apply(s.book, e), pending := s.pending - {batchId})))
    case BatchSettled(batchId) => Ok(r.(state := s.(book := Apply(s.book, e), pending := s.pending - {batchId})))
    case BatchFolded(_, _, _) => Ok(r)
    case _ => Ok(r.(state := s.(book := Apply(s.book, e), pairs := PairEffect(c, s.pairs, e.data))))
  }

  function ReplayAll(c: Codec, r: Replaying, es: seq<Event>): Result<Replaying, RecoverError> {
    if es == [] then Ok(r)
    else
      match ReplayAll(c, r, es[..|es| - 1])
      case Err(x) => Err(x)
      case Ok(r') => ReplayEvent(c, r', es[|es| - 1])
  }

  /** Where replay starts: from a state, knowing only its resting orders. */
  function Begin(s: EngineState): Replaying {
    Replaying(s, map[], s.book.orders)
  }

  /** Replaying the event gives what the event means, or the same failure to rebuild. */
  ghost predicate Follows(c: Codec, r: Replaying, e: Event) {
    match ReplayEvent(c, r, e)
    case Err(_) => Step(c, CoreOf(r.state), e).Err?
    case Ok(r') => Step(c, CoreOf(r.state), e) == Ok(CoreOf(r'.state)) && r'.state.book.applied <= e.number
  }

  lemma PlacementFollows(c: Codec, r: Replaying, e: Event)
    requires e.number > r.state.book.applied && e.data.OrderPlaced?
    ensures Follows(c, r, e)
  {
  }

  predicate OfRound(data: EventData) {
    data.AuctionExecuted? || data.OrderMatched? || data.BatchSubmitted? || data.BatchConfirmed? || data.BatchSettled?
  }

  lemma RoundFollows(c: Codec, r: Replaying, e: Event)
    requires e.number > r.state.book.applied && OfRound(e.data)
    ensures Follows(c, r, e)
  {
  }

  lemma OtherFollows(c: Codec, r: Replaying, e: Event)
    requires e.number > r.state.book.applied && !e.data.OrderPlaced? && !OfRound(e.data)
    ensures Follows(c, r, e)
  {
  }

  lemma ReplayEventFollowsStep(c: Codec, r: Replaying, e: Event)
    requires e.number > r.state.book.applied
    ensures Follows(c, r, e)
  {
    if e.data.OrderPlaced? {
      PlacementFollows(c, r, e);
    } else if OfRound(e.data) {
      RoundFollows(c, r, e);
    } else {
      OtherFollows(c, r, e);
    }
  }

  /** Replaying events numbered above the book's computes what the log means: the dedupe guard discards none. */
  lemma {:induction false} ReplayFollowsFold(c: Codec, r: Replaying, es: seq<Event>, last: nat)
    requires Numbered(es, r.state.book.applied, last) && r.state.book.applied <= last
    ensures ReplayAll(c, r, es).Ok? <==> FoldFrom(c, CoreOf(r.state), es).Ok?
    ensures ReplayAll(c, r, es).Ok? ==>
              && CoreOf(ReplayAll(c, r, es).value.state) == FoldFrom(c, CoreOf(r.state), es).value
              && ReplayAll(c, r, es).value.state.book.applied <= last
  {
    if es != [] {
      var n := |es| - 1;
      ReplayFollowsFold(c, r, es[..n], es[n].number - 1);
      if ReplayAll(c, r, es[..n]).Ok? {
        ReplayEventFollowsStep(c, ReplayAll(c, r, es[..n]).value, es[n]);
      }
    }
  }
}
