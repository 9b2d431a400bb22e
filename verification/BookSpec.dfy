/** What the order book's operations mean, on a flat map from identifiers to resting orders. */
module BookSpec {
  import opened Types
  import opened Events

  type Orders = map<Id, Order>

  /** The resting orders and the highest event number applied. */
  datatype Book = Book(orders: Orders, applied: nat)

  /** A fill larger than what is left is refused; one that leaves nothing removes the order. */
  function ApplyFill(orders: Orders, f: Fill): Orders {
    if f.orderId !in orders || f.size > orders[f.orderId].remaining then orders
    else
      var left := orders[f.orderId].remaining - f.size;
      if left <= 0 then orders - {f.orderId}
      else orders[f.orderId := orders[f.orderId].(remaining := left)]
  }

  function ApplyMatch(orders: Orders, m: Match): Orders {
    ApplyFill(ApplyFill(orders, m.bid), m.ask)
  }

  /** The effect of an event on the resting orders, numbers aside. */
  function Effect(orders: Orders, data: EventData): Orders {
    match data
    case OrderCancelled(id) => orders - {id}
    case OrderExpired(id) => orders - {id}
    case OrderMatched(_, m) => ApplyMatch(orders, m)
    case _ => orders
  }

  /** `apply`: events numbered at or below the highest one applied are skipped. */
  function Apply(b: Book, e: Event): Book {
    if e.number != 0 && e.number <= b.applied then b
    else Book(Effect(b.orders, e.data), if e.number > b.applied then e.number else b.applied)
  }

  function ApplyAll(b: Book, es: seq<Event>): Book {
    if es == [] then b else Apply(ApplyAll(b, es[..|es| - 1]), es[|es| - 1])
  }

  /** A run of events numbered above the book's takes effect in full: the guard discards none. */
  lemma {:induction false} FreshEventsApply(b: Book, es: seq<Event>, last: nat)
    requires Numbered(es, b.applied, last)
    ensures var b' := ApplyAll(b, es);
            && b'.orders == Effects(b.orders, es)
            && b'.applied == if es == [] then b.applied else es[|es| - 1].number
  {
    if es != [] {
      var n := |es| - 1;
      FreshEventsApply(b, es[..n], last);
    }
  }

  /** Applying any already-applied events again, in any order, changes nothing. */
  lemma {:induction false} ReapplyingChangesNothing(b: Book, es: seq<Event>)
    requires forall i :: 0 <= i < |es| ==> 0 < es[i].number <= b.applied
    ensures ApplyAll(b, es) == b
  {
    if es != [] {
      ReapplyingChangesNothing(b, es[..|es| - 1]);
    }
  }

  function Effects(orders: Orders, es: seq<Event>): Orders {
    if es == [] then orders else Effect(Effects(orders, es[..|es| - 1]), es[|es| - 1].data)
  }
}
