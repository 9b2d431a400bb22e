/** The state an event log stands for: what every replay must rebuild. */
module Projection {
  import opened Types
  import opened Encoding
  import opened PairName
  import opened Events
  import opened BookSpec

  const MAX_ACTIVE_ORDERS: nat := 16384
  const MAX_ACTIVE_ORDERS_PER_TRADER: nat := 128

  datatype PairStatus = Active | Suspended | Delisted

  datatype PairConfig = PairConfig(
    baseToken: Address,
    quoteToken: Address,
    baseDecimals: nat,
    quoteDecimals: nat,
    minOrderSize: Decimal,
    tickSize: Decimal,
    interval: Option<nat>,
    status: PairStatus)

  /** Two configurations that differ at most in their status. */
  predicate SameButStatus(a: PairConfig, b: PairConfig) {
    a == b.(status := a.status)
  }

  const DEFAULT_PAIR: PairConfig := PairConfig(0, 0, 18, 18, 0, 0, None, Active)

  datatype AuctionRecord = AuctionRecord(
    auctionId: Id, pair: string, clearingPrice: Decimal, matchedVolume: Decimal, matchCount: nat, timestamp: int)

  datatype Decrypted = Decrypted(
    trader: Address,
    pair: string,
    side: Side,
    price: Decimal,
    size: Decimal,
    commitmentKey: string,
    salt: string,
    nonce: string,
    expiresAt: int)

  /** Decryption, parsing and hashing, as fixed but arbitrary functions. */
  datatype Codec = Codec(
    parsePair: string -> Result<string, PairError>,
    decrypt: Bytes -> Option<Decrypted>,
    digest: Bytes -> Key,
    salt: string -> Option<Key>,
    nonce: string -> Option<Key>,
    commit: (Address, Side, Decimal, Decimal, Key) -> Key,
    nullifier: (Key, Key) -> Key,
    nonceDigest: (Address, Key) -> Key)

  datatype RecoverError =
    | RecoverDecrypt
    | RecoverSaltInvalid
    | CommitmentEncoding
    | RecoverCommitmentMismatch
    | OrderNonceInvalid
    | OrderExpiryInvalid
    | BadPair(error: PairError)

  /** An order and its replay keys, as a ciphertext determines them. */
  datatype Placed = Placed(order: Order, nullifier: Key, nonceDigest: Key)

  /** What replay makes of an `OrderPlaced` event. */
  function Rebuild(c: Codec, id: Id, commitment: Key, ciphertext: Bytes, number: nat): Result<Placed, RecoverError> {
    match c.decrypt(ciphertext)
    case None => Err(RecoverDecrypt)
    case Some(d) =>
      match c.salt(d.salt)
      case None => Err(RecoverSaltInvalid)
      case Some(salt) =>
        if !Encodable(d.price) || !Encodable(d.size) then Err(CommitmentEncoding)
        else if c.commit(d.trader, d.side, d.price, d.size, salt) != commitment then Err(RecoverCommitmentMismatch)
        else
          match c.nonce(d.nonce)
          case None => Err(OrderNonceInvalid)
          case Some(nonce) =>
            if d.expiresAt <= 0 then Err(OrderExpiryInvalid)
            else
              match c.parsePair(d.pair)
              case Err(e) => Err(BadPair(e))
              case Ok(pair) =>
                Ok(Placed(
                     Order(id, d.trader, pair, d.side, d.price, d.size, d.size, d.commitmentKey, ciphertext,
                           d.expiresAt, number),
                     c.nullifier(commitment, salt), c.nonceDigest(d.trader, nonce)))
  }

  /** The parts of the engine's state that the log alone determines. */
  datatype Core = Core(
    orders: Orders,
    pairs: map<string, PairConfig>,
    auctionLog: seq<AuctionRecord>,
    seen: set<Key>,
    nullifiers: set<Key>,
    nonces: set<Key>)

  const EMPTY: Core := Core(map[], map[], [], {}, {}, {})

  /** A pair name that parsing leaves alone. */
  predicate Canonical(c: Codec, pair: string) {
    c.parsePair(pair) == Ok(pair)
  }

  /** Parsing yields canonical names, as `PairName.ParseIdempotent` shows of the actual parser. */
  ghost predicate ParsesCanonically(c: Codec) {
    forall s :: c.parsePair(s).Ok? ==> Canonical(c, c.parsePair(s).value)
  }

  /** Unparseable names in the log fall back to themselves. */
  function CanonicalOr(c: Codec, pair: string): string {
    match c.parsePair(pair) case Ok(p) => p case Err(_) => pair
  }

  function WithStatus(pairs: map<string, PairConfig>, key: string, status: PairStatus): map<string, PairConfig> {
    if key in pairs then pairs[key := pairs[key].(status := status)] else pairs
  }

  function RegisteredConfig(d: EventData): PairConfig
    requires d.PairRegistered?
  {
    PairConfig(d.baseToken, d.quoteToken, d.baseDecimals, d.quoteDecimals, d.minOrderSize, d.tickSize, d.interval, Active)
  }

  /** The effect of an event on the pair registry. */
  function PairEffect(c: Codec, pairs: map<string, PairConfig>, data: EventData): map<string, PairConfig> {
    match data
    case PairRegistered(pair, _, _, _, _, _, _, _) => pairs[CanonicalOr(c, pair) := RegisteredConfig(data)]
    case PairSuspended(pair) => WithStatus(pairs, CanonicalOr(c, pair), Suspended)
    case PairDelisted(pair) => WithStatus(pairs, CanonicalOr(c, pair), Delisted)
    case _ => pairs
  }

  function Admitted(c: Codec, k: Core, p: Placed, ciphertext: Bytes): Core {
    var o := p.order;
    k.(orders := k.orders[o.id := o],
       pairs := if o.pair in k.pairs then k.pairs else k.pairs[o.pair := DEFAULT_PAIR],
       seen := k.seen + {c.digest(ciphertext)},
       nullifiers := k.nullifiers + {p.nullifier},
       nonces := k.nonces + {p.nonceDigest})
  }

  /** What one event of the log means. */
  function Step(c: Codec, k: Core, e: Event): Result<Core, RecoverError> {
    match e.data
    case OrderPlaced(id, commitment, ciphertext) =>
      (match Rebuild(c, id, commitment, ciphertext, e.number)
       case Err(x) => Err(x)
       case Ok(p) => Ok(Admitted(c, k, p, ciphertext)))
    case AuctionExecuted(auctionId, pair, price, volume, count, at) =>
      Ok(k.(auctionLog := k.auctionLog + [AuctionRecord(auctionId, pair, price, volume, count, at)]))
    case _ => Ok(k.(orders := Effect(k.orders, e.data), pairs := PairEffect(c, k.pairs, e.data)))
  }

  /** What a stretch of the log means, from `k` on. */
  function FoldFrom(c: Codec, k: Core, es: seq<Event>): Result<Core, RecoverError> {
    if es == [] then Ok(k)
    else
      match FoldFrom(c, k, es[..|es| - 1])
      case Err(x) => Err(x)
      case Ok(k') => Step(c, k', es[|es| - 1])
  }

  /** What a whole log means. */
  function Fold(c: Codec, es: seq<Event>): Result<Core, RecoverError> {
    FoldFrom(c, EMPTY, es)
  }

  lemma {:induction false} FoldFromConcat(c: Codec, k: Core, es: seq<Event>, fs: seq<Event>)
    requires FoldFrom(c, k, es).Ok?
    ensures FoldFrom(c, k, es + fs) == FoldFrom(c, FoldFrom(c, k, es).value, fs)
  {
    if fs == [] {
      assert es + fs == es;
    } else {
      var n := |fs| - 1;
      FoldFromConcat(c, k, es, fs[..n]);
      assert (es + fs)[..|es + fs| - 1] == es + fs[..n];
    }
  }
}
