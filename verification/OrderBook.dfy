/** The order book as it is kept: one sub-book per pair, two maps in each, updated in place. */
module OrderBook {
  import opened Types
  import opened Events
  import opened BookSpec
  import opened Priority
  import opened Legality
  import opened Operations

  datatype PerPairBook = PerPairBook(bids: Orders, asks: Orders)

  type Books = map<string, PerPairBook>

  datatype BookSnapshot = BookSnapshot(books: Books, applied: nat)

  predicate IsEmpty(book: PerPairBook) {
    book.bids == map[] && book.asks == map[]
  }

  function SideOf(book: PerPairBook, side: Side): Orders {
    if side.Buy? then book.bids else book.asks
  }

  function WithSide(book: PerPairBook, side: Side, orders: Orders): PerPairBook {
    if side.Buy? then book.(bids := orders) else book.(asks := orders)
  }

  /** What a sub-book files under an identifier is the resting order of that identifier. */
  predicate FiledRests(book: PerPairBook, p: string, orders: Orders, id: Id) {
    && (id in book.bids ==> id in orders && orders[id] == book.bids[id] && orders[id].pair == p && orders[id].side == Buy)
    && (id in book.asks ==> id in orders && orders[id] == book.asks[id] && orders[id].pair == p && orders[id].side == Sell)
  }

  predicate IsFiled(books: Books, o: Order, id: Id) {
    o.id == id && o.pair in books && id in SideOf(books[o.pair], o.side)
  }

  /** The nested maps hold exactly the given orders, and no sub-book is empty. */
  ghost predicate Nested(books: Books, orders: Orders) {
    && (forall p, id :: p in books ==> FiledRests(books[p], p, orders, id))
    && (forall id :: id in orders ==> IsFiled(books, orders[id], id))
    && (forall p :: p in books ==> !IsEmpty(books[p]))
  }

  /** A sub-book put back, or dropped if it became empty. */
  function Put(books: Books, pair: string, book: PerPairBook): Books {
    if IsEmpty(book) then books - {pair} else books[pair := book]
  }

  lemma NestedRemove(books: Books, orders: Orders, id: Id)
    requires Nested(books, orders) && id in orders
    ensures var o := orders[id];
            && o.pair in books
            && var book := books[o.pair];
            Nested(Put(books, o.pair, WithSide(book, o.side, SideOf(book, o.side) - {id})), orders - {id})
  {
    var o := orders[id];
    assert IsFiled(books, o, id);
    var book := books[o.pair];
    var book' := WithSide(book, o.side, SideOf(book, o.side) - {id});
    var books', orders' := Put(books, o.pair, book'), orders - {id};
    forall p, x | p in books' ensures FiledRests(books'[p], p, orders', x) {
      assert FiledRests(books[p], p, orders, x) && FiledRests(books[p], p, orders, id);
    }
    forall x | x in orders' ensures IsFiled(books', orders'[x], x) {
      assert IsFiled(books, orders[x], x);
      assert orders[x].pair == o.pair ==> x in SideOf(book', orders[x].side);
    }
  }

  lemma NestedPut(books: Books, orders: Orders, o: Order, book: PerPairBook)
    requires Nested(books, orders)
    requires o.id in orders ==> orders[o.id].pair == o.pair && orders[o.id].side == o.side
    requires book == if o.pair in books then books[o.pair] else PerPairBook(map[], map[])
    ensures Nested(books[o.pair := WithSide(book, o.side, SideOf(book, o.side)[o.id := o])], orders[o.id := o])
  {
    var book' := WithSide(book, o.side, SideOf(book, o.side)[o.id := o]);
    var books', orders' := books[o.pair := book'], orders[o.id := o];
    forall p, x | p in books' ensures FiledRests(books'[p], p, orders', x) {
      assert p in books ==> FiledRests(books[p], p, orders, x);
    }
    forall x | x in orders' ensures IsFiled(books', orders'[x], x) {
      assert x in orders ==> IsFiled(books, orders[x], x);
    }
    assert o.id in SideOf(book', o.side);
  }

  /** An order found under a pair is the resting one; an order found nowhere does not rest. */
  lemma FoundRests(books: Books, orders: Orders, pair: string, id: Id)
    requires Nested(books, orders) && pair in books && (id in books[pair].bids || id in books[pair].asks)
    ensures id in orders && orders[id].pair == pair
    ensures (id in books[pair].bids <==> orders[id].side == Buy) && (id in books[pair].asks <==> orders[id].side == Sell)
    ensures orders[id] == SideOf(books[pair], orders[id].side)[id]
  {
    assert FiledRests(books[pair], pair, orders, id);
  }

  /** Whether a sub-book holds the order, on either side. */
  predicate Holds(book: PerPairBook, id: Id) {
    id in book.bids || id in book.asks
  }

  lemma NotFound(books: Books, orders: Orders, id: Id)
    requires Nested(books, orders) && forall p :: p in books ==> !Holds(books[p], id)
    ensures id !in orders
  {
  }

  class OrderBook {
    var books: Books
    var applied: nat
    ghost var orders: Orders

    ghost predicate Valid()
      reads this
    {
      Nested(books, orders)
    }

    ghost function View(): Book
      reads this
    {
      Book(orders, applied)
    }

    constructor ()
      ensures Valid() && View() == Book(map[], 0)
    {
      books, applied, orders := map[], 0, map[];
    }

    method ToSnapshot() returns (snap: BookSnapshot)
      requires Valid()
      ensures Nested(snap.books, orders) && snap.applied == applied
    {
      snap := BookSnapshot(books, applied);
    }

    /** The book becomes whatever the snapshot held. */
    method RestoreFrom(snap: BookSnapshot, ghost held: Orders)
      requires Nested(snap.books, held)
      modifies this
      ensures Valid() && View() == Book(held, snap.applied)
    {
      books, applied, orders := snap.books, snap.applied, held;
    }

    method InsertOrder(order: Order)
      requires Valid()
      requires order.id in orders ==> orders[order.id].pair == order.pair && orders[order.id].side == order.side
      modifies this
      ensures Valid() && View() == Book(old(orders)[order.id := order], old(applied))
    {
      var book := if order.pair in books then books[order.pair] else PerPairBook(map[], map[]);
      NestedPut(books, orders, order, book);
      match order.side {
        case Buy => book := book.(bids := book.bids[order.id := order]);
        case Sell => book := book.(asks := book.asks[order.id := order]);
      }
      books := books[order.pair := book];
      orders := orders[order.id := order];
    }

    /** Takes an order out of whichever sub-book has it, and the sub-book too if that empties it. */
    method RemoveOrder(id: Id)
      requires Valid()
      modifies this
      ensures Valid() && View() == Book(old(orders) - {id}, old(applied))
    {
      var todo := books.Keys;
      while todo != {}
        invariant todo <= books.Keys && Valid()
        invariant forall p :: p in books && p !in todo ==> !Holds(books[p], id)
        invariant books == old(books) && View() == old(View())
      {
        var pair :| pair in todo;
        var book := books[pair];
        if Holds(book, id) {
          FoundRests(books, orders, pair, id);
          NestedRemove(books, orders, id);
          if id in book.bids {
            book := book.(bids := book.bids - {id});
          } else {
            book := book.(asks := book.asks - {id});
          }
          books, orders := Put(books, pair, book), orders - {id};
          return;
        }
        todo := todo - {pair};
      }
      NotFound(books, orders, id);
      assert orders - {id} == orders;
    }

    /** Takes a fill out of an order found on one side of one sub-book. */
    method FillAt(pair: string, side: Side, f: Fill)
      requires Valid() && pair in books && f.orderId in SideOf(books[pair], side)
      modifies this
      ensures Valid() && View() == Book(BookSpec.ApplyFill(old(orders), f), old(applied))
    {
      FoundRests(books, orders, pair, f.orderId);
      var book := books[pair];
      var order := SideOf(book, side)[f.orderId];
      if f.size > order.remaining {
        return;
      }
      order := order.(remaining := order.remaining - f.size);
      if order.remaining <= 0 {
        NestedRemove(books, orders, f.orderId);
        books := Put(books, pair, WithSide(book, side, SideOf(book, side) - {f.orderId}));
        orders := orders - {f.orderId};
      } else {
        NestedPut(books, orders, order, book);
        books := books[pair := WithSide(book, side, SideOf(book, side)[f.orderId := order])];
        orders := orders[f.orderId := order];
      }
    }

    /** Takes a fill out of whichever order it names; a fill larger than what is left is refused. */
    method ApplyFill(f: Fill)
      requires Valid()
      modifies this
      ensures Valid() && View() == Book(BookSpec.ApplyFill(old(orders), f), old(applied))
    {
      var todo := books.Keys;
      while todo != {}
        invariant todo <= books.Keys && Valid()
        invariant forall p :: p in books && p !in todo ==> !Holds(books[p], f.orderId)
        invariant books == old(books) && View() == old(View())
      {
        var pair :| pair in todo;
        if f.orderId in books[pair].bids {
          FillAt(pair, Buy, f);
          return;
        }
        if f.orderId in books[pair].asks {
          FillAt(pair, Sell, f);
          return;
        }
        todo := todo - {pair};
      }
      NotFound(books, orders, f.orderId);
    }

    /** Applies one event unless its number shows it was applied before. */
    method Apply(e: Event)
      requires Valid()
      modifies this
      ensures Valid() && View() == BookSpec.Apply(old(View()), e)
    {
      if e.number != 0 && e.number <= applied {
        return;
      }
      if e.number > applied {
        applied := e.number;
      }
      match e.data {
        case OrderCancelled(id) => RemoveOrder(id);
        case OrderExpired(id) => RemoveOrder(id);
        case OrderMatched(_, m) =>
          ApplyFill(m.bid);
          ApplyFill(m.ask);
        case _ =>
      }
    }

    method FindOrder(id: Id) returns (found: Option<Order>)
      requires Valid()
      ensures found == if id in orders then Some(orders[id]) else None
    {
      var todo := books.Keys;
      while todo != {}
        invariant todo <= books.Keys
        invariant forall p :: p in books && p !in todo ==> !Holds(books[p], id)
      {
        var pair :| pair in todo;
        var book := books[pair];
        if Holds(book, id) {
          FoundRests(books, orders, pair, id);
          return Some(if id in book.bids then book.bids[id] else book.asks[id]);
        }
        todo := todo - {pair};
      }
      NotFound(books, orders, id);
      found := None;
    }

    method HasOrder(id: Id) returns (found: bool)
      requires Valid()
      ensures found <==> id in orders
    {
      var o := FindOrder(id);
      found := o.Some?;
    }

    /** How many orders rest, summed over the sub-books. */
    method ActiveOrderCount() returns (n: nat)
      requires Valid()
      ensures n == |orders|
    {
      var todo := books.Keys;
      n := 0;
      while todo != {}
        invariant todo <= books.Keys
        invariant n == |OnPairs(orders, books.Keys - todo)|
      {
        var pair :| pair in todo;
        OnePairMore(books, orders, books.Keys - todo, pair);
        assert books.Keys - (todo - {pair}) == books.Keys - todo + {pair};
        n := n + |books[pair].bids| + |books[pair].asks|;
        todo := todo - {pair};
      }
      AllPairs(books, orders);
      assert books.Keys - todo == books.Keys;
    }

    /** How many of a trader's orders rest. */
    method ActiveOrderCountForTrader(trader: Address) returns (n: nat)
      requires Valid()
      ensures n == |OrdersOf(orders, trader)|
    {
      var todo := books.Keys;
      n := 0;
      while todo != {}
        invariant todo <= books.Keys
        invariant n == |OnPairs(orders, books.Keys - todo) * OrdersOf(orders, trader)|
      {
        var pair :| pair in todo;
        OnePairMoreOf(books, orders, books.Keys - todo, pair, trader);
        assert books.Keys - (todo - {pair}) == books.Keys - todo + {pair};
        n := n + |OrdersOf(books[pair].bids, trader)| + |OrdersOf(books[pair].asks, trader)|;
        todo := todo - {pair};
      }
      AllPairs(books, orders);
      assert OnPairs(orders, books.Keys) * OrdersOf(orders, trader) == OrdersOf(orders, trader);
      assert books.Keys - todo == books.Keys;
    }

    /** The identifiers of a pair's orders, bids then asks. */
    method OrderIdsFor(pair: string) returns (ids: seq<Id>)
      requires Valid()
      ensures Enumerates(ids, OnPair(orders, pair))
    {
      PairHolds(books, orders, pair);
      if pair !in books {
        return [];
      }
      var bids := ListKeys(books[pair].bids.Keys);
      var asks := ListKeys(books[pair].asks.Keys);
      EnumeratesBoth(bids, books[pair].bids.Keys, asks, books[pair].asks.Keys);
      ids := bids + asks;
    }

    /** The orders whose time is up, as identifiers in the order the maps yield them. */
    method CollectExpired(now: int) returns (ids: seq<Id>)
      requires Valid()
      ensures Enumerates(ids, ExpiredBy(orders, now))
    {
      var todo := books.Keys;
      ids := [];
      while todo != {}
        invariant todo <= books.Keys
        invariant Enumerates(ids, OnPairs(orders, books.Keys - todo) * ExpiredBy(orders, now))
      {
        var pair :| pair in todo;
        var book := books[pair];
        var bids := ListKeys(ExpiredBy(book.bids, now));
        var asks := ListKeys(ExpiredBy(book.asks, now));
        ExpiredSplit(books, orders, books.Keys - todo, pair, now);
        EnumeratesBoth(bids, ExpiredBy(book.bids, now), asks, ExpiredBy(book.asks, now));
        EnumeratesBoth(ids, OnPairs(orders, books.Keys - todo) * ExpiredBy(orders, now), bids + asks,
                       ExpiredBy(book.bids, now) + ExpiredBy(book.asks, now));
        assert books.Keys - (todo - {pair}) == books.Keys - todo + {pair};
        ids := ids + (bids + asks);
        todo := todo - {pair};
      }
      AllPairs(books, orders);
      assert books.Keys - todo == books.Keys;
      assert OnPairs(orders, books.Keys) * ExpiredBy(orders, now) == ExpiredBy(orders, now);
    }

    /** Every resting order, by identifier. */
    method AllOrders() returns (all: Orders)
      requires Valid()
      ensures all == orders
    {
      var todo := books.Keys;
      all := map[];
      while todo != {}
        invariant todo <= books.Keys && Gathered(all, orders, books.Keys - todo)
      {
        var pair :| pair in todo;
        GatherPair(books, orders, books.Keys - todo, pair, all);
        assert books.Keys - (todo - {pair}) == books.Keys - todo + {pair};
        all := all + books[pair].bids + books[pair].asks;
        todo := todo - {pair};
      }
      AllPairs(books, orders);
      assert books.Keys - todo == books.Keys;
    }

    /** One side of a pair's orders, best first. */
    method SideOrders(pair: string, side: Side) returns (out: seq<Order>)
      requires Valid()
      ensures Sorted(side, out) && multiset(out) == multiset(OnSide(orders, pair, side))
    {
      SideHolds(books, orders, pair, side);
      if pair !in books {
        return [];
      }
      var values := ListValues(SideOf(books[pair], side));
      out := Sort(side, values);
      SortSorts(side, values);
    }
  }

  // ---------------------------------------------------------------- iterating over the maps

  /** The elements of a set of identifiers, in some order. */
  method ListKeys(s: set<Id>) returns (ids: seq<Id>)
    ensures Enumerates(ids, s)
  {
    var todo := s;
    ids := [];
    while todo != {}
      invariant todo <= s && Enumerates(ids, s - todo)
    {
      var id :| id in todo;
      ids := ids + [id];
      todo := todo - {id};
    }
    assert s - todo == s;
  }

  /** The values of a map, in some order. */
  method ListValues(orders: Orders) returns (out: seq<Order>)
    requires forall id :: id in orders ==> orders[id].id == id
    ensures multiset(out) == multiset(set id | id in orders :: orders[id])
  {
    var todo := orders.Keys;
    out := [];
    while todo != {}
      invariant todo <= orders.Keys
      invariant multiset(out) == multiset(set id | id in orders && id !in todo :: orders[id])
    {
      var id :| id in todo;
      ghost var was := set x | x in orders && x !in todo :: orders[x];
      ghost var now := set x | x in orders && x !in todo - {id} :: orders[x];
      assert now == was + {orders[id]} && orders[id] !in was;
      out := out + [orders[id]];
      todo := todo - {id};
    }
    assert (set id | id in orders && id !in todo :: orders[id]) == (set id | id in orders :: orders[id]);
  }

  /** The resting orders of several pairs. */
  function OnPairs(orders: Orders, pairs: set<string>): set<Id> {
    set id | id in orders && orders[id].pair in pairs
  }

  lemma PairsSplit(orders: Orders, pairs: set<string>, pair: string)
    requires pair !in pairs
    ensures OnPairs(orders, pairs + {pair}) == OnPairs(orders, pairs) + OnPair(orders, pair)
    ensures OnPairs(orders, pairs) !! OnPair(orders, pair)
  {
  }

  lemma AllPairs(books: Books, orders: Orders)
    requires Nested(books, orders)
    ensures OnPairs(orders, books.Keys) == orders.Keys && |orders.Keys| == |orders|
  {
  }

  /** A sub-book's two sides are disjoint and hold exactly the pair's orders. */
  lemma PairHolds(books: Books, orders: Orders, pair: string)
    requires Nested(books, orders)
    ensures pair !in books ==> OnPair(orders, pair) == {}
    ensures pair in books ==>
              && OnPair(orders, pair) == books[pair].bids.Keys + books[pair].asks.Keys
              && books[pair].bids.Keys !! books[pair].asks.Keys
  {
    forall id | id in orders ensures IsFiled(books, orders[id], id) {
    }
    if pair in books {
      var book := books[pair];
      forall id ensures id in OnPair(orders, pair) <==> id in book.bids.Keys + book.asks.Keys {
        assert FiledRests(book, pair, orders, id);
        assert id in orders ==> IsFiled(books, orders[id], id);
      }
      forall id | id in book.bids.Keys ensures id !in book.asks.Keys {
        assert FiledRests(book, pair, orders, id);
      }
    }
  }

  lemma SideHolds(books: Books, orders: Orders, pair: string, side: Side)
    requires Nested(books, orders)
    ensures pair !in books ==> OnSide(orders, pair, side) == {}
    ensures pair in books ==>
              && OnSide(orders, pair, side) == (set id | id in SideOf(books[pair], side) :: SideOf(books[pair], side)[id])
              && forall id :: id in SideOf(books[pair], side) ==> SideOf(books[pair], side)[id].id == id
  {
    forall id | id in orders ensures IsFiled(books, orders[id], id) {
    }
    if pair in books {
      var filed := SideOf(books[pair], side);
      forall id | id in filed ensures id in orders && orders[id] == filed[id] && orders[id].pair == pair && orders[id].side == side {
        assert FiledRests(books[pair], pair, orders, id);
      }
      forall id | id in orders && orders[id].pair == pair && orders[id].side == side ensures id in filed {
        assert IsFiled(books, orders[id], id);
      }
    }
  }

  /** These are exactly the orders of some pairs. */
  ghost predicate Gathered(some: Orders, orders: Orders, pairs: set<string>) {
    && (forall id :: id in some <==> id in OnPairs(orders, pairs))
    && (forall id :: id in some ==> id in orders && some[id] == orders[id])
  }

  lemma GatherPair(books: Books, orders: Orders, pairs: set<string>, pair: string, some: Orders)
    requires Nested(books, orders) && pair in books && pair !in pairs && Gathered(some, orders, pairs)
    ensures Gathered(some + books[pair].bids + books[pair].asks, orders, pairs + {pair})
  {
    PairHolds(books, orders, pair);
    PairsSplit(orders, pairs, pair);
    var now := some + books[pair].bids + books[pair].asks;
    forall id | id in now ensures id in orders && now[id] == orders[id] {
      assert FiledRests(books[pair], pair, orders, id);
    }
    forall id ensures id in now <==> id in OnPairs(orders, pairs + {pair}) {
    }
  }

  lemma OnePairMore(books: Books, orders: Orders, pairs: set<string>, pair: string)
    requires Nested(books, orders) && pair in books && pair !in pairs
    ensures |OnPairs(orders, pairs + {pair})| == |OnPairs(orders, pairs)| + |books[pair].bids| + |books[pair].asks|
  {
    PairsSplit(orders, pairs, pair);
    PairHolds(books, orders, pair);
    assert |books[pair].bids| == |books[pair].bids.Keys| && |books[pair].asks| == |books[pair].asks.Keys|;
  }

  lemma OnePairMoreOf(books: Books, orders: Orders, pairs: set<string>, pair: string, trader: Address)
    requires Nested(books, orders) && pair in books && pair !in pairs
    ensures |OnPairs(orders, pairs + {pair}) * OrdersOf(orders, trader)|
            == |OnPairs(orders, pairs) * OrdersOf(orders, trader)|
               + |OrdersOf(books[pair].bids, trader)| + |OrdersOf(books[pair].asks, trader)|
  {
    PairsSplit(orders, pairs, pair);
    PairHolds(books, orders, pair);
    var bids, asks, mine := OrdersOf(books[pair].bids, trader), OrdersOf(books[pair].asks, trader), OrdersOf(orders, trader);
    forall id ensures id in OnPair(orders, pair) * mine <==> id in bids + asks {
      assert FiledRests(books[pair], pair, orders, id);
    }
    assert OnPair(orders, pair) * mine == bids + asks;
    assert OnPairs(orders, pairs + {pair}) * mine == OnPairs(orders, pairs) * mine + (bids + asks);
  }

  lemma ExpiredSplit(books: Books, orders: Orders, pairs: set<string>, pair: string, now: int)
    requires Nested(books, orders) && pair in books && pair !in pairs
    ensures var was, bids, asks := OnPairs(orders, pairs) * ExpiredBy(orders, now),
                                   ExpiredBy(books[pair].bids, now), ExpiredBy(books[pair].asks, now);
            && bids !! asks && was !! bids + asks
            && OnPairs(orders, pairs + {pair}) * ExpiredBy(orders, now) == was + (bids + asks)
  {
    PairsSplit(orders, pairs, pair);
    PairHolds(books, orders, pair);
    var bids, asks := ExpiredBy(books[pair].bids, now), ExpiredBy(books[pair].asks, now);
    forall id ensures id in OnPair(orders, pair) * ExpiredBy(orders, now) <==> id in bids + asks {
      assert FiledRests(books[pair], pair, orders, id);
    }
    assert OnPair(orders, pair) * ExpiredBy(orders, now) == bids + asks;
  }

  lemma EnumeratesBoth(a: seq<Id>, s: set<Id>, b: seq<Id>, t: set<Id>)
    requires Enumerates(a, s) && Enumerates(b, t) && s !! t
    ensures Enumerates(a + b, s + t)
  {
    forall i, j | 0 <= i < j < |a + b| ensures (a + b)[i] != (a + b)[j] {
      if i < |a| <= j {
        assert a[i] in s && b[j - |a|] in t;
      }
    }
  }
}
