/**
  What a submitted ciphertext goes through before the state lock is taken to append it, and why
  the checks made under the first lock still hold under the second.
 */
module Admission {
  import opened Types
  import opened Encoding
  import opened PairName
  import opened Events
  import opened Projection
  import opened Legality
  import opened History
  import opened Operations

  const MAX_ENCRYPTED_PAYLOAD_BYTES: nat := 131072
  const MAX_TTL: int := 86_400_000_000_000

  /**
    A submission, with the clock, the fresh identifier, the oracle's answers by trader, token and decimals, and the
    proof verifier's by commitment and nullifier.
   */
  datatype Submission = Submission(
    ciphertext: Bytes,
    caller: Address,
    now: int,
    id: Id,
    balanceKnown: (Address, Address, nat) -> bool,
    proofAccepted: (Key, Key) -> bool)

  datatype AdmissionError =
    | PayloadTooLarge
    | AlreadySeen
    | Undecryptable
    | TraderAddressMismatch
    | BadPairName(error: PairError)
    | PriceMustBePositive
    | SizeMustBePositive
    | CommitmentKeyRequired
    | UnknownPair
    | ClosedPair
    | OrderSizeBelowMinimum
    | OrderPriceNotOnTick
    | ExpiryInvalid
    | PastExpiry
    | ExpiryTooFar
    | SaltInvalid
    | NonceInvalid
    | BalanceLookupFailed
    | NotEncodable
    | InvalidOrderProof

  /** The size and price fit the pair's minimum and tick, where it sets them. */
  predicate OnGrid(cfg: PairConfig, size: Decimal, price: Decimal) {
    && (cfg.minOrderSize > 0 ==> size >= cfg.minOrderSize)
    && (cfg.tickSize > 0 ==> price % cfg.tickSize == 0)
  }

  /** The plaintext checks that need no state. */
  function CheckPlaintext(c: Codec, d: Decrypted, caller: Address): Result<string, AdmissionError> {
    if d.trader != caller then Err(TraderAddressMismatch)
    else if d.pair == "" then Err(BadPairName(PairRequired))
    else
      match c.parsePair(d.pair)
      case Err(e) => Err(BadPairName(e))
      case Ok(pair) =>
        if d.price <= 0 then Err(PriceMustBePositive)
        else if d.size <= 0 then Err(SizeMustBePositive)
        else if d.commitmentKey == "" then Err(CommitmentKeyRequired)
        else Ok(pair)
  }

  /** The registry checks, under the first lock. */
  function CheckPair(k: Core, pair: string, d: Decrypted): Option<AdmissionError> {
    if pair !in k.pairs then Some(UnknownPair)
    else
      var cfg := k.pairs[pair];
      if cfg.status != Active then Some(ClosedPair)
      else if cfg.minOrderSize > 0 && d.size < cfg.minOrderSize then Some(OrderSizeBelowMinimum)
      else if cfg.tickSize > 0 && d.price % cfg.tickSize != 0 then Some(OrderPriceNotOnTick)
      else None
  }

  function CheckFreshness(expiresAt: int, now: int): Option<AdmissionError> {
    if expiresAt <= 0 then Some(ExpiryInvalid)
    else if expiresAt <= now then Some(PastExpiry)
    else if expiresAt > now + MAX_TTL then Some(ExpiryTooFar)
    else None
  }

  /** Whether the oracle knows the trader's balance of the asset this leg spends: quote for a bid, base for an ask. */
  predicate BalanceKnown(u: Submission, d: Decrypted, cfg: PairConfig) {
    match d.side
    case Buy => u.balanceKnown(d.trader, cfg.quoteToken, cfg.quoteDecimals)
    case Sell => u.balanceKnown(d.trader, cfg.baseToken, cfg.baseDecimals)
  }

  /** Salt, nonce, balance, commitment and proof, and the placement they make. */
  function Assemble(c: Codec, u: Submission, d: Decrypted, pair: string, cfg: PairConfig): Result<Placement, AdmissionError> {
    match c.salt(d.salt)
    case None => Err(SaltInvalid)
    case Some(salt) =>
      match c.nonce(d.nonce)
      case None => Err(NonceInvalid)
      case Some(nonce) =>
        if !BalanceKnown(u, d, cfg) then Err(BalanceLookupFailed)
        else if !Encodable(d.price) || !Encodable(d.size) then Err(NotEncodable)
        else
          var commitment := c.commit(d.trader, d.side, d.price, d.size, salt);
          var nullifier := c.nullifier(commitment, salt);
          if !u.proofAccepted(commitment, nullifier) then Err(InvalidOrderProof)
          else
            var order := Order(u.id, d.trader, pair, d.side, d.price, d.size, d.size, d.commitmentKey, u.ciphertext,
                               d.expiresAt, 0);
            Ok(Placement(order, commitment, u.ciphertext, nullifier, c.nonceDigest(d.trader, nonce)))
  }

  /** What becomes of a decrypted submission. */
  function PrepareOrder(c: Codec, k: Core, u: Submission, d: Decrypted): Result<Placement, AdmissionError> {
    match CheckPlaintext(c, d, u.caller)
    case Err(e) => Err(e)
    case Ok(pair) =>
      match CheckPair(k, pair, d)
      case Some(e) => Err(e)
      case None =>
        match CheckFreshness(d.expiresAt, u.now)
        case Some(e) => Err(e)
        case None => Assemble(c, u, d, pair, k.pairs[pair])
  }

  /** `place_encrypted_order`, up to the call that appends; `k` is the state its first lock saw. */
  function Prepare(c: Codec, k: Core, u: Submission): Result<Placement, AdmissionError> {
    if |u.ciphertext| > MAX_ENCRYPTED_PAYLOAD_BYTES then Err(PayloadTooLarge)
    else if c.digest(u.ciphertext) in k.seen then Err(AlreadySeen)
    else
      match c.decrypt(u.ciphertext)
      case None => Err(Undecryptable)
      case Some(d) => PrepareOrder(c, k, u, d)
  }

  // ---------------------------------------------------------------- who is admitted, and why not

  /** The trader, the pair and the amounts of the plaintext are in order, in the state `k`. */
  predicate OrderFits(c: Codec, k: Core, caller: Address, d: Decrypted) {
    && d.trader == caller && d.pair != "" && c.parsePair(d.pair).Ok?
    && 0 < d.price && 0 < d.size && Encodable(d.price) && Encodable(d.size) && d.commitmentKey != ""
    && var pair := c.parsePair(d.pair).value;
    && pair in k.pairs && k.pairs[pair].status == Active
    && (k.pairs[pair].minOrderSize > 0 ==> k.pairs[pair].minOrderSize <= d.size)
    && (k.pairs[pair].tickSize > 0 ==> d.price % k.pairs[pair].tickSize == 0)
  }

  /** The plaintext's secrets parse, the balance it spends is known and its proof was accepted for exactly its own commitment. */
  predicate OrderProven(c: Codec, k: Core, u: Submission, d: Decrypted)
    requires c.parsePair(d.pair).Ok? && c.parsePair(d.pair).value in k.pairs
  {
    && c.salt(d.salt).Some? && c.nonce(d.nonce).Some?
    && var cfg, salt := k.pairs[c.parsePair(d.pair).value], c.salt(d.salt).value;
    && u.balanceKnown(d.trader, if d.side == Buy then cfg.quoteToken else cfg.baseToken,
                      if d.side == Buy then cfg.quoteDecimals else cfg.baseDecimals)
    && var commitment := c.commit(d.trader, d.side, d.price, d.size, salt);
    u.proofAccepted(commitment, c.nullifier(commitment, salt))
  }

  /** A submission is admitted exactly when nothing is wrong with it. */
  lemma AdmittedExactly(c: Codec, k: Core, u: Submission)
    ensures Prepare(c, k, u).Ok? <==>
            && |u.ciphertext| <= MAX_ENCRYPTED_PAYLOAD_BYTES && c.digest(u.ciphertext) !in k.seen
            && c.decrypt(u.ciphertext).Some?
            && var d := c.decrypt(u.ciphertext).value;
            && OrderFits(c, k, u.caller, d)
            && 0 < d.expiresAt && u.now < d.expiresAt <= u.now + MAX_TTL
            && OrderProven(c, k, u, d)
  {
  }

  /** What can be wrong with a submission, each fault on its own. */
  predicate Faulty(c: Codec, k: Core, u: Submission, e: AdmissionError) {
    match e
    case PayloadTooLarge => |u.ciphertext| > MAX_ENCRYPTED_PAYLOAD_BYTES
    case AlreadySeen => c.digest(u.ciphertext) in k.seen
    case Undecryptable => c.decrypt(u.ciphertext) == None
    case _ => c.decrypt(u.ciphertext).Some? && FaultyOrder(c, k, u, c.decrypt(u.ciphertext).value, e)
  }

  predicate FaultyOrder(c: Codec, k: Core, u: Submission, d: Decrypted, e: AdmissionError) {
    match e
    case TraderAddressMismatch => d.trader != u.caller
    case BadPairName(x) => if d.pair == "" then x == PairRequired else c.parsePair(d.pair) == Err(x)
    case PriceMustBePositive => d.price <= 0
    case SizeMustBePositive => d.size <= 0
    case CommitmentKeyRequired => d.commitmentKey == ""
    case UnknownPair => c.parsePair(d.pair).Ok? && c.parsePair(d.pair).value !in k.pairs
    case ExpiryInvalid => d.expiresAt <= 0
    case PastExpiry => d.expiresAt <= u.now
    case ExpiryTooFar => d.expiresAt > u.now + MAX_TTL
    case SaltInvalid => c.salt(d.salt) == None
    case NonceInvalid => c.nonce(d.nonce) == None
    case NotEncodable => !Encodable(d.price) || !Encodable(d.size)
    case InvalidOrderProof =>
      && c.salt(d.salt).Some?
      && var commitment := c.commit(d.trader, d.side, d.price, d.size, c.salt(d.salt).value);
      !u.proofAccepted(commitment, c.nullifier(commitment, c.salt(d.salt).value))
    case _ =>
      && c.parsePair(d.pair).Ok? && c.parsePair(d.pair).value in k.pairs
      && FaultyOnPair(u, d, k.pairs[c.parsePair(d.pair).value], e)
  }

  predicate FaultyOnPair(u: Submission, d: Decrypted, cfg: PairConfig, e: AdmissionError) {
    match e
    case ClosedPair => cfg.status == Suspended || cfg.status == Delisted
    case OrderSizeBelowMinimum => 0 < cfg.minOrderSize && d.size < cfg.minOrderSize
    case OrderPriceNotOnTick => 0 < cfg.tickSize && d.price % cfg.tickSize != 0
    case BalanceLookupFailed =>
      if d.side == Buy then !u.balanceKnown(d.trader, cfg.quoteToken, cfg.quoteDecimals)
      else !u.balanceKnown(d.trader, cfg.baseToken, cfg.baseDecimals)
    case _ => false
  }

  /** The order in which faults are reported. */
  function Rank(e: AdmissionError): nat {
    match e
    case PayloadTooLarge => 0
    case AlreadySeen => 1
    case Undecryptable => 2
    case TraderAddressMismatch => 3
    case BadPairName(_) => 4
    case PriceMustBePositive => 5
    case SizeMustBePositive => 6
    case CommitmentKeyRequired => 7
    case UnknownPair => 8
    case ClosedPair => 9
    case OrderSizeBelowMinimum => 10
    case OrderPriceNotOnTick => 11
    case ExpiryInvalid => 12
    case PastExpiry => 13
    case ExpiryTooFar => 14
    case SaltInvalid => 15
    case NonceInvalid => 16
    case BalanceLookupFailed => 17
    case NotEncodable => 18
    case InvalidOrderProof => 19
  }

  lemma OrderFaultIsRefused(c: Codec, k: Core, u: Submission, d: Decrypted, f: AdmissionError)
    requires FaultyOrder(c, k, u, d, f)
    ensures PrepareOrder(c, k, u, d).Err? && Rank(PrepareOrder(c, k, u, d).error) <= Rank(f)
  {
  }

  lemma OrderRefusalIsFault(c: Codec, k: Core, u: Submission, d: Decrypted)
    requires PrepareOrder(c, k, u, d).Err?
    ensures FaultyOrder(c, k, u, d, PrepareOrder(c, k, u, d).error) && Rank(PrepareOrder(c, k, u, d).error) >= 3
  {
  }

  /** A refusal names a fault the submission has. */
  lemma RefusalIsFault(c: Codec, k: Core, u: Submission)
    requires Prepare(c, k, u).Err?
    ensures Faulty(c, k, u, Prepare(c, k, u).error)
  {
    if c.decrypt(u.ciphertext).Some? && PrepareOrder(c, k, u, c.decrypt(u.ciphertext).value).Err? {
      OrderRefusalIsFault(c, k, u, c.decrypt(u.ciphertext).value);
    }
  }

  /** Whatever is wrong with a submission, it is refused, and for that or for what is checked earlier. */
  lemma FaultIsRefused(c: Codec, k: Core, u: Submission, f: AdmissionError)
    requires Faulty(c, k, u, f)
    ensures Prepare(c, k, u).Err? && Rank(Prepare(c, k, u).error) <= Rank(f)
  {
    if c.decrypt(u.ciphertext).Some? && FaultyOrder(c, k, u, c.decrypt(u.ciphertext).value, f) {
      OrderFaultIsRefused(c, k, u, c.decrypt(u.ciphertext).value, f);
    }
  }

  /** The order that enters is the one that was encrypted, filed under its canonical pair with nothing filled yet. */
  lemma AdmittedOrderIsPlaintext(c: Codec, k: Core, u: Submission)
    requires Prepare(c, k, u).Ok?
    ensures c.decrypt(u.ciphertext).Some? && c.parsePair(c.decrypt(u.ciphertext).value.pair).Ok?
    ensures var o, d := Prepare(c, k, u).value.order, c.decrypt(u.ciphertext).value;
            && o.id == u.id && o.trader == d.trader == u.caller && o.side == d.side && o.price == d.price
            && o.size == o.remaining == d.size && o.expiresAt == d.expiresAt && Ok(o.pair) == c.parsePair(d.pair)
            && o.commitmentKey == d.commitmentKey && o.payload == u.ciphertext
  {
  }

  /** Whatever passes admission is rebuilt from its event exactly, under whichever number the store gives it. */
  lemma AdmittedOrderReplays(c: Codec, k: Core, u: Submission, number: nat)
    requires Prepare(c, k, u).Ok?
    ensures var p := Prepare(c, k, u).value;
            && Rebuild(c, p.order.id, p.commitment, p.ciphertext, number)
               == Ok(Placed(p.order.(placedSeq := number), p.nullifier, p.nonceDigest))
            && Prepared(c, p)
            && p.order.trader == u.caller && u.now < p.order.expiresAt <= u.now + MAX_TTL
            && p.order.remaining == p.order.size && IsActive(k, p.order.pair)
            && OnGrid(k.pairs[p.order.pair], p.order.size, p.order.price)
  {
  }

  /** Only the status of a registered pair ever changes. */
  lemma StepKeepsConfigs(c: Codec, k: Core, e: Event, pair: string)
    requires Lawful(c, k, e) && Step(c, k, e).Ok? && pair in k.pairs
    ensures var k' := Step(c, k, e).value; pair in k'.pairs && SameButStatus(k.pairs[pair], k'.pairs[pair])
  {
  }

  lemma {:induction false} ConfigIsForever(c: Codec, k: Core, es: seq<Event>, pair: string)
    requires LawfulFrom(c, k, es) && FoldFrom(c, k, es).Ok? && pair in k.pairs
    ensures var k' := FoldFrom(c, k, es).value; pair in k'.pairs && SameButStatus(k.pairs[pair], k'.pairs[pair])
  {
    if es != [] {
      var n := |es| - 1;
      ConfigIsForever(c, k, es[..n], pair);
      StepKeepsConfigs(c, FoldFrom(c, k, es[..n]).value, es[n], pair);
    }
  }

  /**
    Checks made under the first lock survive to the second. Whatever other operations appended in
    between, an order that is finally placed fits the grid of a pair that is active at that moment.
   */
  lemma AdmissionSurvivesRaces(c: Codec, k: Core, u: Submission, es: seq<Event>)
    requires Prepare(c, k, u).Ok? && LawfulFrom(c, k, es) && FoldFrom(c, k, es).Ok?
    requires PlanPlacement(c, FoldFrom(c, k, es).value, Prepare(c, k, u).value).Ok?
    ensures var p, k' := Prepare(c, k, u).value, FoldFrom(c, k, es).value;
            IsActive(k', p.order.pair) && OnGrid(k'.pairs[p.order.pair], p.order.size, p.order.price)
  {
    AdmittedOrderReplays(c, k, u, 0);
    ConfigIsForever(c, k, es, Prepare(c, k, u).value.order.pair);
  }

  /** The parser the engine uses yields canonical names, as every theorem about replay asks of a codec. */
  lemma ParserIsCanonical(c: Codec)
    requires forall s :: c.parsePair(s) == Parse(s)
    ensures ParsesCanonically(c)
  {
    forall s | c.parsePair(s).Ok? ensures Canonical(c, c.parsePair(s).value) {
      ParseIdempotent(s);
    }
  }
}
