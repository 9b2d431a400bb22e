/** Which events may follow a state, and what every such event preserves. */
module Legality {
  import opened Types
  import opened Encoding
  import opened Events
  import opened BookSpec
  import opened Projection

  function OrdersOf(orders: Orders, trader: Address): set<Id> {
    set id | id in orders && orders[id].trader == trader
  }

  predicate IsActive(k: Core, pair: string) {
    pair in k.pairs && k.pairs[pair].status == Active
  }

  /** A resting order is positive, encodable, not overfilled, and on a pair that is not delisted. */
  predicate RestsWell(k: Core, last: nat, id: Id)
    requires id in k.orders
  {
    var o := k.orders[id];
    && o.id == id && 0 < o.remaining <= o.size && 0 < o.price && Encodable(o.price) && Encodable(o.size)
    && o.pair in k.pairs && k.pairs[o.pair].status != Delisted
    && 1 <= o.placedSeq <= last
  }

  predicate DistinctPlacements(orders: Orders) {
    forall i, j :: i in orders && j in orders && orders[i].placedSeq == orders[j].placedSeq ==> i == j
  }

  ghost predicate WithinCaps(orders: Orders) {
    && |orders| <= MAX_ACTIVE_ORDERS
    && forall t :: |OrdersOf(orders, t)| <= MAX_ACTIVE_ORDERS_PER_TRADER
  }

  /** What holds of every reachable state, with event numbers up to `last` in use. */
  ghost predicate Healthy(k: Core, last: nat) {
    && (forall id :: id in k.orders ==> RestsWell(k, last, id))
    && DistinctPlacements(k.orders)
    && WithinCaps(k.orders)
  }

  /** A fill of two resting orders: within limits and sizes, between different traders, on an active pair. */
  predicate LawfulMatch(k: Core, m: Match) {
    && m.bid.orderId in k.orders && m.ask.orderId in k.orders
    && var b, a := k.orders[m.bid.orderId], k.orders[m.ask.orderId];
    && b.side == Buy && a.side == Sell && b.trader != a.trader
    && b.pair == a.pair && IsActive(k, b.pair)
    && m.bid.size == m.ask.size == m.size && 0 < m.size <= b.remaining && m.size <= a.remaining
    && a.price <= m.price <= b.price
  }

  /** A placement of a new order: replay keys unspent, pair active, capacity available. */
  predicate LawfulPlacement(c: Codec, k: Core, e: Event)
    requires e.data.OrderPlaced?
  {
    var p := Rebuild(c, e.data.orderId, e.data.commitment, e.data.ciphertext, e.number);
    && p.Ok?
    && var o := p.value.order;
    && o.id !in k.orders && IsActive(k, o.pair) && 0 < o.price && 0 < o.size
    && c.digest(e.data.ciphertext) !in k.seen
    && p.value.nullifier !in k.nullifiers && p.value.nonceDigest !in k.nonces
    && |k.orders| < MAX_ACTIVE_ORDERS
    && |OrdersOf(k.orders, o.trader)| < MAX_ACTIVE_ORDERS_PER_TRADER
  }

  /** Whether an event may follow the state `k`. */
  predicate Lawful(c: Codec, k: Core, e: Event) {
    match e.data
    case OrderPlaced(_, _, _) => LawfulPlacement(c, k, e)
    case OrderCancelled(id) => id in k.orders
    case OrderExpired(id) => id in k.orders
    case AuctionExecuted(_, pair, price, volume, count, _) =>
      IsActive(k, pair) && 0 < price && Encodable(price) && 0 < volume && 0 < count
    case OrderMatched(_, m) => LawfulMatch(k, m)
    case PairRegistered(pair, _, _, _, _, _, _, _) => pair !in k.pairs && Canonical(c, pair)
    case PairSuspended(pair) => IsActive(k, pair) && Canonical(c, pair)
    case PairDelisted(pair) =>
      && pair in k.pairs && k.pairs[pair].status != Delisted && Canonical(c, pair)
      && (forall id :: id in k.orders ==> k.orders[id].pair != pair)
    case _ => true
  }

  /** Orders left the book or shrank; none grew, moved or appeared. */
  predicate Shrunk(was: Orders, now: Orders) {
    forall id :: id in now ==>
                   && id in was && 0 < now[id].remaining <= was[id].remaining
                   && now[id] == was[id].(remaining := now[id].remaining)
  }

  lemma ShrinkingKeepsCaps(was: Orders, now: Orders)
    requires WithinCaps(was) && Shrunk(was, now)
    ensures WithinCaps(now)
  {
    assert now.Keys <= was.Keys;
    SubsetSize(now.Keys, was.Keys);
    forall t ensures |OrdersOf(now, t)| <= MAX_ACTIVE_ORDERS_PER_TRADER {
      assert OrdersOf(now, t) <= OrdersOf(was, t);
      SubsetSize(OrdersOf(now, t), OrdersOf(was, t));
    }
  }

  lemma ShrinkingKeepsHealth(k: Core, now: Orders, last: nat, last': nat)
    requires Healthy(k, last) && Shrunk(k.orders, now) && last <= last'
    ensures Healthy(k.(orders := now), last')
  {
    ShrinkingKeepsCaps(k.orders, now);
    forall id | id in now ensures RestsWell(k.(orders := now), last', id) {
      assert RestsWell(k, last, id);
    }
    forall i, j | i in now && j in now && now[i].placedSeq == now[j].placedSeq ensures i == j {
      assert i in k.orders && j in k.orders;
    }
  }

  lemma MatchShrinks(orders: Orders, m: Match)
    requires m.bid.size > 0 && m.ask.size > 0 && forall id :: id in orders ==> orders[id].remaining > 0
    ensures Shrunk(orders, ApplyMatch(orders, m))
  {
  }

  lemma AdmissionKeepsCaps(orders: Orders, o: Order)
    requires WithinCaps(orders) && o.id !in orders
    requires |orders| < MAX_ACTIVE_ORDERS && |OrdersOf(orders, o.trader)| < MAX_ACTIVE_ORDERS_PER_TRADER
    ensures WithinCaps(orders[o.id := o])
  {
    var now := orders[o.id := o];
    forall t ensures |OrdersOf(now, t)| <= MAX_ACTIVE_ORDERS_PER_TRADER {
      if t == o.trader {
        assert OrdersOf(now, t) == OrdersOf(orders, t) + {o.id};
      } else {
        assert OrdersOf(now, t) == OrdersOf(orders, t);
      }
    }
  }

  /** What replay guarantees of the order it rebuilds. */
  lemma RebuiltOrder(c: Codec, id: Id, commitment: Key, ciphertext: Bytes, number: nat)
    requires Rebuild(c, id, commitment, ciphertext, number).Ok?
    ensures var o := Rebuild(c, id, commitment, ciphertext, number).value.order;
            && o.id == id && o.placedSeq == number && o.remaining == o.size
            && Encodable(o.price) && Encodable(o.size)
  {
  }

  /** An order that may join the book. */
  predicate Welcome(k: Core, o: Order, last: nat) {
    && o.id !in k.orders && IsActive(k, o.pair) && 0 < o.price && 0 < o.remaining == o.size
    && Encodable(o.price) && Encodable(o.size) && o.placedSeq > last
    && |k.orders| < MAX_ACTIVE_ORDERS
    && |OrdersOf(k.orders, o.trader)| < MAX_ACTIVE_ORDERS_PER_TRADER
  }

  lemma JoiningRestsWell(k: Core, o: Order, last: nat, id: Id)
    requires Healthy(k, last) && Welcome(k, o, last) && id in k.orders[o.id := o]
    ensures RestsWell(k.(orders := k.orders[o.id := o]), o.placedSeq, id)
    ensures id != o.id ==> k.orders[id].placedSeq < o.placedSeq
  {
  }

  lemma JoiningStaysDistinct(orders: Orders, o: Order)
    requires DistinctPlacements(orders) && forall id :: id in orders && id != o.id ==> orders[id].placedSeq < o.placedSeq
    ensures DistinctPlacements(orders[o.id := o])
  {
  }

  lemma JoiningKeepsHealth(k: Core, o: Order, last: nat)
    requires Healthy(k, last) && Welcome(k, o, last)
    ensures Healthy(k.(orders := k.orders[o.id := o]), o.placedSeq)
  {
    var now := k.orders[o.id := o];
    AdmissionKeepsCaps(k.orders, o);
    forall id | id in now
      ensures RestsWell(k.(orders := now), o.placedSeq, id)
      ensures id != o.id ==> k.orders[id].placedSeq < o.placedSeq
    {
      JoiningRestsWell(k, o, last, id);
    }
    JoiningStaysDistinct(k.orders, o);
  }

  lemma AdmissionKeepsHealth(c: Codec, k: Core, e: Event, last: nat)
    requires Healthy(k, last) && e.number > last && e.data.OrderPlaced? && LawfulPlacement(c, k, e)
    ensures Step(c, k, e).Ok? && Healthy(Step(c, k, e).value, e.number)
  {
    var OrderPlaced(id, commitment, ciphertext) := e.data;
    var o := Rebuild(c, id, commitment, ciphertext, e.number).value.order;
    RebuiltOrder(c, id, commitment, ciphertext, e.number);
    JoiningKeepsHealth(k, o, last);
    SameBookSameHealth(k.(orders := k.orders[o.id := o]), Step(c, k, e).value, e.number);
  }

  /** Health is a matter of the orders and the pairs only. */
  lemma SameBookSameHealth(k: Core, k': Core, last: nat)
    requires Healthy(k, last) && k'.orders == k.orders && k'.pairs == k.pairs
    ensures Healthy(k', last)
  {
  }

  lemma PairsKeepHealth(k: Core, pairs: map<string, PairConfig>, last: nat, last': nat)
    requires Healthy(k, last) && last <= last'
    requires forall id :: id in k.orders ==> k.orders[id].pair in pairs && pairs[k.orders[id].pair].status != Delisted
    ensures Healthy(k.(pairs := pairs), last')
  {
  }

  lemma PairEventKeepsPairs(c: Codec, k: Core, e: Event, last: nat)
    requires Healthy(k, last) && Lawful(c, k, e)
    requires e.data.PairRegistered? || e.data.PairSuspended? || e.data.PairDelisted?
    ensures var pairs := PairEffect(c, k.pairs, e.data);
            forall id :: id in k.orders ==> k.orders[id].pair in pairs && pairs[k.orders[id].pair].status != Delisted
  {
  }

  lemma PairEventKeepsHealth(c: Codec, k: Core, e: Event, last: nat)
    requires Healthy(k, last) && e.number > last && Lawful(c, k, e)
    requires e.data.PairRegistered? || e.data.PairSuspended? || e.data.PairDelisted?
    ensures Step(c, k, e).Ok? && Healthy(Step(c, k, e).value, e.number)
  {
    PairEventKeepsPairs(c, k, e, last);
    PairsKeepHealth(k, PairEffect(c, k.pairs, e.data), last, e.number);
  }

  lemma OrderEventKeepsHealth(c: Codec, k: Core, e: Event, last: nat)
    requires Healthy(k, last) && e.number > last && Lawful(c, k, e)
    requires e.data.OrderCancelled? || e.data.OrderExpired? || e.data.OrderMatched?
    ensures Step(c, k, e).Ok? && Healthy(Step(c, k, e).value, e.number)
  {
    forall id | id in k.orders ensures k.orders[id].remaining > 0 {
      assert RestsWell(k, last, id);
    }
    if e.data.OrderMatched? {
      MatchShrinks(k.orders, e.data.m);
    }
    ShrinkingKeepsHealth(k, Effect(k.orders, e.data), last, e.number);
  }

  lemma LaterKeepsHealth(k: Core, last: nat, last': nat)
    requires Healthy(k, last) && last <= last'
    ensures Healthy(k, last')
  {
  }

  /** Every lawful event is understood by replay and keeps the state healthy. */
  lemma LawfulStep(c: Codec, k: Core, e: Event, last: nat)
    requires Healthy(k, last) && e.number > last && Lawful(c, k, e)
    ensures Step(c, k, e).Ok? && Healthy(Step(c, k, e).value, e.number)
  {
    if e.data.OrderPlaced? {
      AdmissionKeepsHealth(c, k, e, last);
    } else if e.data.OrderCancelled? || e.data.OrderExpired? || e.data.OrderMatched? {
      OrderEventKeepsHealth(c, k, e, last);
    } else if e.data.PairRegistered? || e.data.PairSuspended? || e.data.PairDelisted? {
      PairEventKeepsHealth(c, k, e, last);
    } else {
      LaterKeepsHealth(k, last, e.number);
      SameBookSameHealth(k, Step(c, k, e).value, e.number);
    }
  }

  predicate IsDelisted(k: Core, pair: string) {
    pair in k.pairs && k.pairs[pair].status == Delisted
  }

  lemma DelistedIsEmpty(k: Core, last: nat, pair: string)
    requires Healthy(k, last) && IsDelisted(k, pair)
    ensures forall id :: id in k.orders ==> k.orders[id].pair != pair
  {
  }
}
