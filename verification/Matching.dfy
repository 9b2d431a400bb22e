/** Greedy filling of the eligible orders at the clearing price. */
module Matching {
  import opened Types
  import opened Clearing

  /** One fill: `bid` and `ask` are positions in the eligible orders. */
  datatype Trade = Trade(bid: nat, ask: nat, size: Decimal)

  /** The two vectors of eligible orders as filling mutates them, and the fills so far. */
  datatype Sweep = Sweep(bids: seq<Order>, asks: seq<Order>, trades: seq<Trade>)

  function Less(o: Order, size: Decimal): Order {
    o.(remaining := o.remaining - size)
  }

  function Cross(s: Sweep, i: nat, j: nat): (t: Sweep)
    requires i < |s.bids| && j < |s.asks|
    ensures |t.bids| == |s.bids| && |t.asks| == |s.asks|
  {
    var size := Min(s.bids[i].remaining, s.asks[j].remaining);
    Sweep(s.bids[i := Less(s.bids[i], size)], s.asks[j := Less(s.asks[j], size)],
          s.trades + [Trade(i, j, size)])
  }

  /** Where the nested loops are: about to look at bid `i`, ask `j`. */
  datatype Cursor = Cursor(s: Sweep, i: nat, j: nat)

  /** One turn of the inner loop, or the end of it. */
  function Turn(c: Cursor): (d: Cursor)
    requires c.i < |c.s.bids|
    ensures |d.s.bids| == |c.s.bids| && |d.s.asks| == |c.s.asks|
    ensures d.i == c.i + 1 || (d.i == c.i && c.j < d.j <= |c.s.asks|)
  {
    var Cursor(s, i, j) := c;
    if j >= |s.asks| || s.bids[i].remaining <= 0 then Cursor(s, i + 1, 0)
    else if s.asks[j].remaining <= 0 || s.bids[i].trader == s.asks[j].trader then Cursor(s, i, j + 1)
    else Cursor(Cross(s, i, j), i, j + 1)
  }

  /** The nested loops from `c` to their end. */
  function MatchFrom(c: Cursor): Sweep
    decreases |c.s.bids| - c.i, |c.s.asks| - c.j
  {
    if c.i >= |c.s.bids| then c.s else MatchFrom(Turn(c))
  }

  /** What is left of `now` after filling, order by order, out of `was`. */
  predicate Filling(was: seq<Order>, now: seq<Order>) {
    && |was| == |now|
    && forall k :: 0 <= k < |was| ==>
                     && now[k] == was[k].(remaining := now[k].remaining)
                     && 0 <= now[k].remaining <= was[k].remaining
  }

  function Filled(side: Side, trades: seq<Trade>, k: nat): Decimal {
    if trades == [] then 0
    else
      var t := trades[|trades| - 1];
      Filled(side, trades[..|trades| - 1], k) +
      if (if side.Buy? then t.bid else t.ask) == k then t.size else 0
  }

  function Traded(trades: seq<Trade>): Decimal {
    if trades == [] then 0
    else Traded(trades[..|trades| - 1]) + trades[|trades| - 1].size
  }

  function Left(orders: seq<Order>): Decimal {
    if orders == [] then 0 else Left(orders[..|orders| - 1]) + orders[|orders| - 1].remaining
  }

  /** One side has given up exactly what its fills say, order by order and in total. */
  predicate Balanced(side: Side, was: seq<Order>, now: seq<Order>, trades: seq<Trade>) {
    && Filling(was, now)
    && (forall k :: 0 <= k < |now| ==> now[k].remaining == was[k].remaining - Filled(side, trades, k))
    && Left(now) == Left(was) - Traded(trades)
  }

  /** This bid and this ask have nothing more to do with one another. */
  predicate Done(bid: Order, ask: Order) {
    bid.remaining == 0 || ask.remaining == 0 || bid.trader == ask.trader
  }

  /** Every pair the loops have passed is done with. */
  predicate Exhausted(s: Sweep, i: nat, j: nat) {
    forall k, l :: 0 <= k < |s.bids| && 0 <= l < |s.asks| && (k < i || (k == i && l < j)) ==>
                     Done(s.bids[k], s.asks[l])
  }

  predicate Genuine(s: Sweep) {
    forall n :: 0 <= n < |s.trades| ==>
                  var t := s.trades[n];
                  && t.bid < |s.bids| && t.ask < |s.asks| && t.size > 0
                  && s.bids[t.bid].trader != s.asks[t.ask].trader
  }

  /** Every bid ahead of this fill's bid is exhausted or belongs to its counterparty's trader. */
  predicate BidFirst(s: Sweep, t: Trade)
    requires t.ask < |s.asks|
  {
    forall k :: 0 <= k < t.bid && k < |s.bids| ==> s.bids[k].remaining == 0 || s.bids[k].trader == s.asks[t.ask].trader
  }

  /** Every ask ahead of this fill's ask is exhausted or belongs to its counterparty's trader. */
  predicate AskFirst(s: Sweep, t: Trade)
    requires t.bid < |s.bids|
  {
    forall l :: 0 <= l < t.ask && l < |s.asks| ==> s.asks[l].remaining == 0 || s.asks[l].trader == s.bids[t.bid].trader
  }

  /** Strict price-time priority on both sides of every fill. */
  predicate Prioritised(s: Sweep)
    requires Genuine(s)
  {
    forall n :: 0 <= n < |s.trades| ==> BidFirst(s, s.trades[n]) && AskFirst(s, s.trades[n])
  }

  /** What the loops maintain at bid `i`, ask `j`. */
  predicate Sound(was: Sweep, s: Sweep, i: nat, j: nat) {
    && Balanced(Buy, was.bids, s.bids, s.trades)
    && Balanced(Sell, was.asks, s.asks, s.trades)
    && Exhausted(s, i, j) && Genuine(s) && Prioritised(s)
  }

  lemma {:induction false} LeftUpdate(orders: seq<Order>, k: nat, o: Order)
    requires k < |orders|
    ensures Left(orders[k := o]) == Left(orders) - orders[k].remaining + o.remaining
  {
    var n := |orders| - 1;
    if k < n {
      LeftUpdate(orders[..n], k, o);
      assert orders[k := o][..n] == orders[..n][k := o];
    } else {
      assert orders[k := o][..n] == orders[..n];
    }
  }

  lemma TakeBalances(side: Side, was: seq<Order>, now: seq<Order>, trades: seq<Trade>, t: Trade)
    requires Balanced(side, was, now, trades)
    requires var k := if side.Buy? then t.bid else t.ask; k < |now| && 0 <= t.size <= now[k].remaining
    ensures var k := if side.Buy? then t.bid else t.ask;
            Balanced(side, was, now[k := Less(now[k], t.size)], trades + [t])
  {
    var k := if side.Buy? then t.bid else t.ask;
    assert (trades + [t])[..|trades + [t]| - 1] == trades;
    LeftUpdate(now, k, Less(now[k], t.size));
  }

  lemma CrossPrioritised(s: Sweep, i: nat, j: nat)
    requires Exhausted(s, i, j) && Genuine(s) && Prioritised(s)
    requires i < |s.bids| && j < |s.asks|
    requires s.bids[i].remaining > 0 && s.asks[j].remaining > 0
    requires s.bids[i].trader != s.asks[j].trader
    ensures Genuine(Cross(s, i, j)) && Prioritised(Cross(s, i, j))
  {
  }

  lemma CrossExhausts(s: Sweep, i: nat, j: nat)
    requires Exhausted(s, i, j) && i < |s.bids| && j < |s.asks|
    requires s.bids[i].remaining > 0 && s.asks[j].remaining > 0
    ensures Exhausted(Cross(s, i, j), i, j + 1)
  {
  }

  lemma CrossSound(was: Sweep, s: Sweep, i: nat, j: nat)
    requires Sound(was, s, i, j) && i < |s.bids| && j < |s.asks|
    requires s.bids[i].remaining > 0 && s.asks[j].remaining > 0
    requires s.bids[i].trader != s.asks[j].trader
    ensures Sound(was, Cross(s, i, j), i, j + 1)
  {
    var t := Trade(i, j, Min(s.bids[i].remaining, s.asks[j].remaining));
    TakeBalances(Buy, was.bids, s.bids, s.trades, t);
    TakeBalances(Sell, was.asks, s.asks, s.trades, t);
    CrossPrioritised(s, i, j);
    CrossExhausts(s, i, j);
  }

  lemma NextBidExhausts(s: Sweep, i: nat, j: nat)
    requires Exhausted(s, i, j) && i < |s.bids|
    requires j >= |s.asks| || s.bids[i].remaining == 0
    ensures Exhausted(s, i + 1, 0)
  {
  }

  lemma NextAskExhausts(s: Sweep, i: nat, j: nat)
    requires Exhausted(s, i, j) && i < |s.bids| && j < |s.asks| && Done(s.bids[i], s.asks[j])
    ensures Exhausted(s, i, j + 1)
  {
  }

  lemma TurnSound(was: Sweep, c: Cursor)
    requires c.i < |c.s.bids| && Sound(was, c.s, c.i, c.j)
    ensures var d := Turn(c); Sound(was, d.s, d.i, d.j)
  {
    var Cursor(s, i, j) := c;
    if j >= |s.asks| || s.bids[i].remaining <= 0 {
      NextBidExhausts(s, i, j);
    } else if s.asks[j].remaining <= 0 || s.bids[i].trader == s.asks[j].trader {
      NextAskExhausts(s, i, j);
    } else {
      CrossSound(was, s, i, j);
    }
  }

  lemma {:induction false} MatchFromSound(was: Sweep, c: Cursor)
    requires c.i <= |c.s.bids| && Sound(was, c.s, c.i, c.j)
    ensures var r := MatchFrom(c); Sound(was, r, |r.bids|, 0)
    decreases |c.s.bids| - c.i, |c.s.asks| - c.j
  {
    if c.i < |c.s.bids| {
      TurnSound(was, c);
      MatchFromSound(was, Turn(c));
    } else {
      assert Exhausted(c.s, |c.s.bids|, 0);
    }
  }

  /** The orders that may trade at `p`, in the order given. */
  function Eligible(side: Side, orders: seq<Order>, p: Decimal): seq<Order> {
    if orders == [] then []
    else (if Reaches(side, orders[0], p) && orders[0].remaining > 0 then [orders[0]] else [])
         + Eligible(side, orders[1..], p)
  }

  /** The filled state of the eligible orders at `p`. */
  function MatchAll(bids: seq<Order>, asks: seq<Order>, p: Decimal): Sweep {
    MatchFrom(Cursor(Sweep(Eligible(Buy, bids, p), Eligible(Sell, asks, p), []), 0, 0))
  }

  lemma {:induction false} EligibleWhat(side: Side, orders: seq<Order>, p: Decimal)
    ensures forall o :: o in Eligible(side, orders, p) <==>
                        o in orders && Reaches(side, o, p) && o.remaining > 0
  {
    if orders != [] {
      EligibleWhat(side, orders[1..], p);
      assert orders == [orders[0]] + orders[1..];
    }
  }

  lemma {:induction false} LeftConcat(a: seq<Order>, b: seq<Order>)
    ensures Left(a + b) == Left(a) + Left(b)
  {
    if b == [] {
      assert a + b == a;
    } else {
      assert (a + b)[..|a + b| - 1] == a + b[..|b| - 1];
      LeftConcat(a, b[..|b| - 1]);
    }
  }

  lemma {:induction false} EligibleLeft(side: Side, orders: seq<Order>, p: Decimal)
    requires Resting(orders)
    ensures Left(Eligible(side, orders, p)) == Volume(side, orders, p)
  {
    if orders != [] {
      EligibleLeft(side, orders[1..], p);
      var rest := Eligible(side, orders[1..], p);
      if Reaches(side, orders[0], p) {
        LeftConcat([orders[0]], rest);
        assert Left([orders[0]]) == Left([]) + orders[0].remaining;
      } else {
        assert [] + rest == rest;
      }
    }
  }

  /** Everything the loops guarantee about the final state. */
  lemma MatchAllSound(bids: seq<Order>, asks: seq<Order>, p: Decimal)
    ensures var was := Sweep(Eligible(Buy, bids, p), Eligible(Sell, asks, p), []);
            var s := MatchAll(bids, asks, p);
            Sound(was, s, |s.bids|, 0)
  {
    var was := Sweep(Eligible(Buy, bids, p), Eligible(Sell, asks, p), []);
    EligibleWhat(Buy, bids, p);
    EligibleWhat(Sell, asks, p);
    assert forall k :: 0 <= k < |was.bids| ==> was.bids[k] in was.bids;
    assert forall k :: 0 <= k < |was.asks| ==> was.asks[k] in was.asks;
    MatchFromSound(was, Cursor(was, 0, 0));
  }
}
