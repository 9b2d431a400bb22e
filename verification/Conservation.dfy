/** Size is conserved over every log: what an order has left is what it was placed with minus its recorded fills. */
module Conservation {
  import opened Types
  import opened Events
  import opened BookSpec
  import opened Projection
  import opened Legality
  import opened History

  /** What a match takes from an order. */
  function Taken(data: EventData, id: Id): Decimal {
    match data
    case OrderMatched(_, m) =>
      (if m.bid.orderId == id then m.bid.size else 0) + (if m.ask.orderId == id then m.ask.size else 0)
    case _ => 0
  }

  /** What the first `n` events of a log record as filled of an order. */
  function Recorded(es: seq<Event>, id: Id, n: nat): Decimal
    requires n <= |es|
  {
    if n == 0 then 0 else Recorded(es, id, n - 1) + Taken(es[n - 1].data, id)
  }

  predicate PlacedBefore(es: seq<Event>, id: Id, n: nat)
    requires n <= |es|
  {
    exists i :: 0 <= i < n && es[i].data.OrderPlaced? && es[i].data.orderId == id
  }

  /** Order identifiers are minted fresh for every placement. */
  predicate FreshIds(es: seq<Event>) {
    forall n :: 0 <= n < |es| && es[n].data.OrderPlaced? ==> !PlacedBefore(es, es[n].data.orderId, n)
  }

  predicate Accounted(es: seq<Event>, k: Core, n: nat, id: Id)
    requires n <= |es|
  {
    && (id in k.orders ==> k.orders[id].remaining == k.orders[id].size - Recorded(es, id, n))
    && (!PlacedBefore(es, id, n) ==> id !in k.orders && Recorded(es, id, n) == 0)
  }

  lemma PlacementAccounts(c: Codec, es: seq<Event>, k: Core, k': Core, n: nat, id: Id)
    requires n < |es| && Next(c, k, es[n], k') && Accounted(es, k, n, id) && FreshIds(es)
    requires es[n].data.OrderPlaced?
    ensures Accounted(es, k', n + 1, id)
  {
  }

  lemma OtherAccounts(c: Codec, es: seq<Event>, k: Core, k': Core, n: nat, id: Id)
    requires n < |es| && Next(c, k, es[n], k') && Accounted(es, k, n, id)
    requires !es[n].data.OrderPlaced?
    ensures Accounted(es, k', n + 1, id)
  {
  }

  lemma NextAccounts(c: Codec, es: seq<Event>, k: Core, k': Core, n: nat, id: Id)
    requires n < |es| && Next(c, k, es[n], k') && Accounted(es, k, n, id) && FreshIds(es)
    ensures Accounted(es, k', n + 1, id)
  {
    if es[n].data.OrderPlaced? {
      PlacementAccounts(c, es, k, k', n, id);
    } else {
      OtherAccounts(c, es, k, k', n, id);
    }
  }

  lemma {:induction false} AccountedAt(c: Codec, es: seq<Event>, ks: seq<Core>, n: nat, id: Id)
    requires Trace(c, es, ks) && FreshIds(es) && n <= |es|
    ensures Accounted(es, ks[n], n, id)
  {
    if n > 0 {
      AccountedAt(c, es, ks, n - 1, id);
      assert NextAt(c, es, ks, n - 1);
      NextAccounts(c, es, ks[n - 1], ks[n], n - 1, id);
    }
  }

  /** In every state of every log, each resting order has left exactly its size minus its recorded fills, and something. */
  lemma {:induction false} SizeIsConserved(c: Codec, es: seq<Event>, ks: seq<Core>, n: nat, id: Id)
    requires Proper(c, es) && Trace(c, es, ks) && FreshIds(es) && n <= |es| && id in ks[n].orders
    ensures 0 < ks[n].orders[id].remaining == ks[n].orders[id].size - Recorded(es, id, n)
  {
    TraceIsUnique(c, es, ks);
    AccountedAt(c, es, ks, n, id);
    assert RestsWell(ks[n], LastNumber(es), id);
  }

  /** No fill ever exceeds what its order had left: the overfill branch is unreachable. */
  lemma NothingOverfills(c: Codec, es: seq<Event>, ks: seq<Core>, n: nat)
    requires Proper(c, es) && Trace(c, es, ks) && n < |es| && es[n].data.OrderMatched?
    ensures var m := es[n].data.m;
            && m.bid.orderId in ks[n].orders && m.bid.size <= ks[n].orders[m.bid.orderId].remaining
            && var mid := ApplyFill(ks[n].orders, m.bid);
            && m.ask.orderId in mid && m.ask.size <= mid[m.ask.orderId].remaining
  {
    assert NextAt(c, es, ks, n);
  }

  /** Everything the first `n` events record as filled on one side. */
  function Filled(side: Side, es: seq<Event>, n: nat): Decimal
    requires n <= |es|
  {
    if n == 0 then 0
    else
      var d := es[n - 1].data;
      Filled(side, es, n - 1) + if !d.OrderMatched? then 0 else if side.Buy? then d.m.bid.size else d.m.ask.size
  }

  /** Over every log, as much is bought as is sold. */
  lemma {:induction false} FillsBalance(c: Codec, es: seq<Event>, ks: seq<Core>, n: nat)
    requires Trace(c, es, ks) && n <= |es|
    ensures Filled(Buy, es, n) == Filled(Sell, es, n)
  {
    if n > 0 {
      FillsBalance(c, es, ks, n - 1);
      assert NextAt(c, es, ks, n - 1);
    }
  }
}
