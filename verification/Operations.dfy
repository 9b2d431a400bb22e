/**
  The engine's operations. Each one holds the state lock while it plans events, appends them,
  and, if the append succeeded, updates the state.
 */
module Operations {
  import opened Types
  import opened Encoding
  import opened PairName
  import opened Events
  import opened BookSpec
  import opened Projection
  import opened Legality
  import opened Auction

  datatype SettlementRow = SettlementRow(
    bidOrderId: Id, askOrderId: Id, bidTrader: Address, askTrader: Address,
    baseToken: Address, quoteToken: Address, price: Decimal, size: Decimal)

  datatype PendingBatch = PendingBatch(auctionId: Id, matches: seq<Match>, rows: seq<SettlementRow>)

  datatype EngineState = EngineState(
    book: Book,
    pairs: map<string, PairConfig>,
    auctionLog: seq<AuctionRecord>,
    pending: map<Id, PendingBatch>,
    seen: set<Key>,
    nullifiers: set<Key>,
    nonces: set<Key>)

  const FRESH: EngineState := EngineState(Book(map[], 0), map[], [], map[], {}, {}, {})

  function CoreOf(s: EngineState): Core {
    Core(s.book.orders, s.pairs, s.auctionLog, s.seen, s.nullifiers, s.nonces)
  }

  /** What `place_encrypted_order` hands to `persist_order_placed`. */
  datatype Placement = Placement(order: Order, commitment: Key, ciphertext: Bytes, nullifier: Key, nonceDigest: Key)

  datatype Operation =
    | Register(input: string, config: PairConfig)
    | Suspend(input: string)
    | Delist(input: string, openIds: seq<Id>)
    | Place(p: Placement)
    | Cancel(orderId: Id)
    | Expire(now: int, expiredIds: seq<Id>)
    | RunRound(pair: string, auctionId: Id, now: int)
    | Finalize(batchId: Id, batch: PendingBatch)

  datatype Refusal =
    | PairInvalid(error: PairError)
    | PairAlreadyRegistered
    | PairNotRegistered
    | CannotSuspendDelistedPair
    | PairNotAccepting
    | DuplicateOrder
    | OrderBookCapacityExceeded
    | TooManyRestingOrdersForTrader
    | OrderNotFound
    | NothingToClear
    | PriceNotEncodable

  /** A list of identifiers in the arbitrary order a hash map yields them. */
  ghost predicate Enumerates(ids: seq<Id>, s: set<Id>) {
    && (forall i, j :: 0 <= i < j < |ids| ==> ids[i] != ids[j])
    && (forall id :: id in ids <==> id in s)
  }

  function OnPair(orders: Orders, pair: string): set<Id> {
    set id | id in orders && orders[id].pair == pair
  }

  function ExpiredBy(orders: Orders, now: int): set<Id> {
    set id | id in orders && orders[id].expiresAt != 0 && orders[id].expiresAt <= now
  }

  function OnSide(orders: Orders, pair: string, side: Side): set<Order> {
    set id | id in orders && orders[id].pair == pair && orders[id].side == side :: orders[id]
  }

  /** A set of orders as a list, in some fixed order. */
  ghost function AsList(s: set<Order>): seq<Order> {
    if s == {} then [] else var o := Pick(s); [o] + AsList(s - {o})
  }

  /** The auction of one pair over the resting orders. */
  ghost function Round(orders: Orders, pair: string, auctionId: Id): Option<AuctionResult> {
    Run(auctionId, pair, AsList(OnSide(orders, pair, Buy)), AsList(OnSide(orders, pair, Sell)))
  }

  function RegisteredData(key: string, cfg: PairConfig): EventData {
    PairRegistered(key, cfg.baseToken, cfg.quoteToken, cfg.minOrderSize, cfg.tickSize, cfg.interval,
                   cfg.baseDecimals, cfg.quoteDecimals)
  }

  function CancelAll(ids: seq<Id>): seq<EventData> {
    seq(|ids|, i requires 0 <= i < |ids| => OrderCancelled(ids[i]))
  }

  function ExpireAll(ids: seq<Id>): seq<EventData> {
    seq(|ids|, i requires 0 <= i < |ids| => OrderExpired(ids[i]))
  }

  function ExecutedData(r: AuctionResult, now: int): EventData {
    AuctionExecuted(r.auctionId, r.pair, r.clearingPrice, r.matchedVolume, |r.matches|, now)
  }

  function RoundData(r: AuctionResult, now: int): seq<EventData> {
    [ExecutedData(r, now)] + seq(|r.matches|, i requires 0 <= i < |r.matches| => OrderMatched(r.auctionId, r.matches[i]))
  }

  /** Admission under the lock: status, replay keys and capacity, in that order. */
  function PlanPlacement(c: Codec, k: Core, p: Placement): Result<seq<EventData>, Refusal> {
    if p.order.pair !in k.pairs then Err(PairNotRegistered)
    else if k.pairs[p.order.pair].status != Active then Err(PairNotAccepting)
    else if c.digest(p.ciphertext) in k.seen || p.nullifier in k.nullifiers || p.nonceDigest in k.nonces then Err(DuplicateOrder)
    else if |k.orders| >= MAX_ACTIVE_ORDERS then Err(OrderBookCapacityExceeded)
    else if |OrdersOf(k.orders, p.order.trader)| >= MAX_ACTIVE_ORDERS_PER_TRADER then Err(TooManyRestingOrdersForTrader)
    else Ok([OrderPlaced(p.order.id, p.commitment, p.ciphertext)])
  }

  /** The events an operation appends, `Ok([])` if it succeeds without appending any. */
  ghost function Plan(c: Codec, k: Core, op: Operation): Result<seq<EventData>, Refusal> {
    match op
    case Register(input, cfg) =>
      (match c.parsePair(input)
       case Err(e) => Err(PairInvalid(e))
       case Ok(key) => if key in k.pairs then Err(PairAlreadyRegistered) else Ok([RegisteredData(key, cfg)]))
    case Suspend(input) =>
      (match c.parsePair(input)
       case Err(e) => Err(PairInvalid(e))
       case Ok(key) =>
         if key !in k.pairs then Err(PairNotRegistered)
         else match k.pairs[key].status
           case Suspended => Ok([])
           case Delisted => Err(CannotSuspendDelistedPair)
           case Active => Ok([PairSuspended(key)]))
    case Delist(input, ids) =>
      (match c.parsePair(input)
       case Err(e) => Err(PairInvalid(e))
       case Ok(key) =>
         if key !in k.pairs then Err(PairNotRegistered)
         else if k.pairs[key].status == Delisted then Ok([])
         else Ok(CancelAll(ids) + [PairDelisted(key)]))
    case Place(p) => PlanPlacement(c, k, p)
    case Cancel(id) => if id in k.orders then Ok([OrderCancelled(id)]) else Err(OrderNotFound)
    case Expire(_, ids) => Ok(ExpireAll(ids))
    case RunRound(pair, auctionId, now) =>
      (match Round(k.orders, pair, auctionId)
       case None => Err(NothingToClear)
       case Some(r) => if Encodable(r.clearingPrice) then Ok(RoundData(r, now)) else Err(PriceNotEncodable))
    case Finalize(batchId, batch) => Ok([BatchSubmitted(batchId, batch.auctionId)])
  }

  /** The state after the planned events were appended as `es`. */
  ghost function Commit(c: Codec, s: EngineState, op: Operation, es: seq<Event>): EngineState
    requires Plan(c, CoreOf(s), op).Ok? && |es| == |Plan(c, CoreOf(s), op).value|
  {
    match op
    case Register(input, cfg) => s.(pairs := s.pairs[c.parsePair(input).value := cfg])
    case Suspend(input) =>
      if es == [] then s else s.(pairs := WithStatus(s.pairs, c.parsePair(input).value, Suspended))
    case Delist(input, ids) =>
      if es == [] then s
      else s.(book := ApplyAll(s.book, es), pairs := WithStatus(s.pairs, c.parsePair(input).value, Delisted))
    case Place(p) =>
      var o := p.order.(placedSeq := es[0].number);
      var b := Apply(s.book, es[0]);
      s.(book := b.(orders := b.orders[o.id := o]),
         seen := s.seen + {c.digest(p.ciphertext)},
         nullifiers := s.nullifiers + {p.nullifier},
         nonces := s.nonces + {p.nonceDigest})
    case Cancel(_) => s.(book := Apply(s.book, es[0]))
    case Expire(_, _) => s.(book := ApplyAll(s.book, es))
    case RunRound(pair, auctionId, now) =>
      var r := Round(s.book.orders, pair, auctionId).value;
      s.(auctionLog := s.auctionLog +
         [AuctionRecord(r.auctionId, r.pair, r.clearingPrice, r.matchedVolume, |r.matches|, now)],
         book := ApplyAll(s.book, es))
    case Finalize(batchId, batch) => s.(book := Apply(s.book, es[0]), pending := s.pending[batchId := batch])
  }

  /** A placement carries exactly what its ciphertext determines, and is positive. */
  predicate Prepared(c: Codec, p: Placement) {
    && Rebuild(c, p.order.id, p.commitment, p.ciphertext, p.order.placedSeq)
       == Ok(Placed(p.order, p.nullifier, p.nonceDigest))
    && 0 < p.order.price && 0 < p.order.size
  }

  /** The choices an operation carries are ones its caller can have made in the state `k`. */
  ghost predicate Possible(c: Codec, k: Core, op: Operation) {
    match op
    case Register(_, cfg) => cfg.status == Active
    case Delist(input, ids) => c.parsePair(input).Ok? ==> Enumerates(ids, OnPair(k.orders, c.parsePair(input).value))
    case Place(p) => Prepared(c, p) && p.order.id !in k.orders
    case Expire(now, ids) => Enumerates(ids, ExpiredBy(k.orders, now))
    case RunRound(pair, _, _) => IsActive(k, pair)
    case _ => true
  }
}
