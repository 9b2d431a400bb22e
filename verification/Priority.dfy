/** Strict price-time priority, and the sort that establishes it. */
module Priority {
  import opened Types

  /** The comparator: best price first, ties broken by the placement sequence. */
  predicate Before(side: Side, a: Order, b: Order) {
    || (if side.Buy? then a.price > b.price else a.price < b.price)
    || (a.price == b.price && a.placedSeq <= b.placedSeq)
  }

  predicate Sorted(side: Side, s: seq<Order>) {
    forall i, j :: 0 <= i < j < |s| ==> Before(side, s[i], s[j])
  }

  /** No two orders share a placement sequence. */
  predicate DistinctSeqs(s: seq<Order>) {
    forall i, j :: 0 <= i < j < |s| ==> s[i].placedSeq != s[j].placedSeq
  }

  function Insert(side: Side, o: Order, s: seq<Order>): seq<Order> {
    if s == [] || Before(side, o, s[0]) then [o] + s
    else [s[0]] + Insert(side, o, s[1..])
  }

  /** The stable sort that `run` applies to each side. */
  function Sort(side: Side, s: seq<Order>): seq<Order> {
    if s == [] then [] else Insert(side, s[0], Sort(side, s[1..]))
  }

  lemma ConsSorted(side: Side, o: Order, s: seq<Order>)
    requires Sorted(side, s)
    requires forall x :: x in s ==> Before(side, o, x)
    ensures Sorted(side, [o] + s)
  {
  }

  lemma {:induction false} InsertKeeps(side: Side, o: Order, s: seq<Order>)
    ensures multiset(Insert(side, o, s)) == multiset([o] + s)
    ensures forall x :: x in Insert(side, o, s) <==> x == o || x in s
  {
    if s != [] && !Before(side, o, s[0]) {
      InsertKeeps(side, o, s[1..]);
      assert s == [s[0]] + s[1..];
    }
  }

  lemma {:induction false} InsertSorted(side: Side, o: Order, s: seq<Order>)
    requires Sorted(side, s)
    ensures Sorted(side, Insert(side, o, s))
  {
    if s == [] {
    } else if Before(side, o, s[0]) {
      forall x | x in s ensures Before(side, o, x) {
        var k :| 0 <= k < |s| && s[k] == x;
      }
      ConsSorted(side, o, s);
    } else {
      InsertSorted(side, o, s[1..]);
      InsertKeeps(side, o, s[1..]);
      ConsSorted(side, s[0], Insert(side, o, s[1..]));
    }
  }

  lemma {:induction false} SortSorts(side: Side, s: seq<Order>)
    ensures Sorted(side, Sort(side, s))
    ensures multiset(Sort(side, s)) == multiset(s)
  {
    if s != [] {
      SortSorts(side, s[1..]);
      InsertSorted(side, s[0], Sort(side, s[1..]));
      InsertKeeps(side, s[0], Sort(side, s[1..]));
      assert s == [s[0]] + s[1..];
    }
  }

  lemma DistinctSeqsPermute(s: seq<Order>, t: seq<Order>)
    requires multiset(s) == multiset(t) && DistinctSeqs(s)
    ensures DistinctSeqs(t)
  {
    forall i, j | 0 <= i < j < |t| ensures t[i].placedSeq != t[j].placedSeq {
      if t[i] == t[j] {
        assert t == t[..i] + [t[i]] + t[i + 1..j] + [t[j]] + t[j + 1..];
        assert multiset(s)[t[i]] >= 2;
        Duplicate(s, t[i]);
        assert false;
      }
      assert t[i] in multiset(s) && t[j] in multiset(s);
      var a, b :| 0 <= a < |s| && 0 <= b < |s| && s[a] == t[i] && s[b] == t[j];
      assert a < b || b < a;
    }
  }

  lemma {:induction false} Duplicate(s: seq<Order>, o: Order)
    requires multiset(s)[o] >= 2
    ensures exists i, j :: 0 <= i < j < |s| && s[i] == s[j] == o
  {
    assert o in s;
    var i :| 0 <= i < |s| && s[i] == o;
    assert s == s[..i] + [s[i]] + s[i + 1..];
    assert o in s[..i] || o in s[i + 1..];
    if o in s[..i] {
      var k :| 0 <= k < i && s[..i][k] == o;
      assert s[k] == o;
    } else {
      var k :| 0 <= k < |s[i + 1..]| && s[i + 1..][k] == o;
      assert s[i + 1 + k] == o;
    }
  }

  lemma SameHead(side: Side, s: seq<Order>, t: seq<Order>)
    requires Sorted(side, s) && Sorted(side, t) && DistinctSeqs(s)
    requires s != [] && t != [] && s[0] in t && t[0] in s
    ensures s[0] == t[0]
  {
  }

  lemma TailMultiset(s: seq<Order>)
    requires s != []
    ensures multiset(s[1..]) == multiset(s) - multiset{s[0]}
  {
    assert s == [s[0]] + s[1..];
  }

  /** Distinct sequences make priority a strict total order: only one sorted arrangement exists. */
  lemma {:induction false} SortedUnique(side: Side, s: seq<Order>, t: seq<Order>)
    requires Sorted(side, s) && Sorted(side, t) && DistinctSeqs(s)
    requires multiset(s) == multiset(t)
    ensures s == t
  {
    assert |s| == |multiset(s)| == |multiset(t)| == |t|;
    if s != [] {
      assert s[0] in multiset(t) && t[0] in multiset(s);
      SameHead(side, s, t);
      TailMultiset(s);
      TailMultiset(t);
      SortedUnique(side, s[1..], t[1..]);
      assert s == [s[0]] + s[1..] && t == [t[0]] + t[1..];
    }
  }

  /** The arrangement handed in does not matter. */
  lemma SortIgnoresArrangement(side: Side, s: seq<Order>, t: seq<Order>)
    requires multiset(s) == multiset(t) && DistinctSeqs(s)
    ensures Sort(side, s) == Sort(side, t)
  {
    SortSorts(side, s);
    SortSorts(side, t);
    DistinctSeqsPermute(s, Sort(side, s));
    SortedUnique(side, Sort(side, s), Sort(side, t));
  }
}
