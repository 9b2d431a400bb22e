/** The uniform clearing price: which price it is, and why it maximises volume. */
module Clearing {
  import opened Types
  import opened Encoding

  /** Whether an order is willing to trade at `p`. */
  predicate Reaches(side: Side, o: Order, p: Decimal) {
    if side.Buy? then o.price >= p else o.price <= p
  }

  /** The cumulative size of the orders on one side that reach `p`. */
  function Volume(side: Side, orders: seq<Order>, p: Decimal): Decimal {
    if orders == [] then 0
    else (if Reaches(side, orders[0], p) then orders[0].remaining else 0) + Volume(side, orders[1..], p)
  }

  /** What the two sides can exchange at `p`. */
  function Matched(bids: seq<Order>, asks: seq<Order>, p: Decimal): Decimal {
    Min(Volume(Buy, bids, p), Volume(Sell, asks, p))
  }

  function Prices(orders: seq<Order>): set<Decimal> {
    set i | 0 <= i < |orders| :: orders[i].price
  }

  function Candidates(bids: seq<Order>, asks: seq<Order>): set<Decimal> {
    Prices(bids) + Prices(asks)
  }

  /** The candidates that trade the most, if anything trades at all. */
  function Tied(bids: seq<Order>, asks: seq<Order>): set<Decimal> {
    set p | p in Candidates(bids, asks) && Matched(bids, asks, p) > 0 &&
            forall c :: c in Candidates(bids, asks) ==> Matched(bids, asks, c) <= Matched(bids, asks, p)
  }

  ghost function Least(s: set<int>): (m: int)
    requires s != {}
    ensures m in s && forall x :: x in s ==> m <= x
  {
    var x := Pick(s);
    if s == {x} then x else assert s == {x} + (s - {x}); Min(x, Least(s - {x}))
  }

  ghost function Greatest(s: set<int>): (m: int)
    requires s != {}
    ensures m in s && forall x :: x in s ==> x <= m
  {
    var x := Pick(s);
    if s == {x} then x else assert s == {x} + (s - {x}); Max(x, Greatest(s - {x}))
  }

  /** Midway between the lowest and highest volume-maximising candidates; 0 if nothing trades. */
  ghost function ClearingPrice(bids: seq<Order>, asks: seq<Order>): Decimal {
    var tied := Tied(bids, asks);
    if tied == {} then 0 else Midpoint(Least(tied), Greatest(tied))
  }

  /** Orders as the book holds them: something left to fill, at a positive price. */
  predicate Resting(orders: seq<Order>) {
    forall i :: 0 <= i < |orders| ==> orders[i].remaining > 0 && orders[i].price > 0
  }

  /** Every price passed the encoder at admission. */
  predicate PricesEncode(orders: seq<Order>) {
    forall i :: 0 <= i < |orders| ==> Encodable(orders[i].price)
  }

  lemma {:induction false} VolumeMonotone(side: Side, orders: seq<Order>, p: Decimal, q: Decimal)
    requires Resting(orders)
    requires if side.Buy? then p <= q else q <= p
    ensures Volume(side, orders, q) <= Volume(side, orders, p)
    ensures 0 <= Volume(side, orders, q)
  {
    if orders != [] {
      VolumeMonotone(side, orders[1..], p, q);
    }
  }

  lemma {:induction false} VolumeIncludes(side: Side, orders: seq<Order>, p: Decimal, i: nat)
    requires Resting(orders) && i < |orders| && Reaches(side, orders[i], p)
    ensures Volume(side, orders, p) >= orders[i].remaining
  {
    if i == 0 {
      VolumeMonotone(side, orders[1..], p, p);
    } else {
      VolumeIncludes(side, orders[1..], p, i - 1);
    }
  }

  lemma {:induction false} VolumeEmpty(side: Side, orders: seq<Order>, p: Decimal)
    requires forall i :: 0 <= i < |orders| ==> !Reaches(side, orders[i], p)
    ensures Volume(side, orders, p) == 0
  {
    if orders != [] {
      VolumeEmpty(side, orders[1..], p);
    }
  }

  /** Volume only changes at order prices. */
  lemma {:induction false} VolumeFlat(side: Side, orders: seq<Order>, p: Decimal, q: Decimal)
    requires forall i :: 0 <= i < |orders| ==> (Reaches(side, orders[i], p) <==> Reaches(side, orders[i], q))
    ensures Volume(side, orders, p) == Volume(side, orders, q)
  {
    if orders != [] {
      VolumeFlat(side, orders[1..], p, q);
    }
  }

  /** Demand at any price equals demand at the next bid price up. */
  lemma NextBidPrice(bids: seq<Order>, p: Decimal) returns (c: Decimal)
    requires Resting(bids) && Volume(Buy, bids, p) > 0
    ensures c in Prices(bids) && p <= c
    ensures Volume(Buy, bids, c) == Volume(Buy, bids, p)
  {
    var above := set x | x in Prices(bids) && p <= x;
    if above == {} {
      forall i | 0 <= i < |bids| ensures !Reaches(Buy, bids[i], p) {
        assert bids[i].price in Prices(bids);
        assert bids[i].price !in above;
      }
      VolumeEmpty(Buy, bids, p);
    }
    c := Least(above);
    forall i | 0 <= i < |bids| ensures Reaches(Buy, bids[i], p) <==> Reaches(Buy, bids[i], c) {
      assert bids[i].price in Prices(bids);
      if bids[i].price >= p {
        assert bids[i].price in above;
      }
    }
    VolumeFlat(Buy, bids, p, c);
  }

  /** No price at all, candidate or not, trades more than the best candidate. */
  lemma NoPriceTradesMore(bids: seq<Order>, asks: seq<Order>, p: Decimal, best: Decimal)
    requires Resting(bids) && Resting(asks) && best >= 0
    requires forall c :: c in Candidates(bids, asks) ==> Matched(bids, asks, c) <= best
    ensures Matched(bids, asks, p) <= best
  {
    if Matched(bids, asks, p) > 0 {
      var c := NextBidPrice(bids, p);
      VolumeMonotone(Sell, asks, c, p);
      assert c in Candidates(bids, asks);
    }
  }

  lemma {:induction false} Maximiser(bids: seq<Order>, asks: seq<Order>, prices: set<Decimal>) returns (m: Decimal)
    requires prices != {}
    ensures m in prices
    ensures forall c :: c in prices ==> Matched(bids, asks, c) <= Matched(bids, asks, m)
    decreases prices
  {
    m := Pick(prices);
    if prices != {m} {
      assert prices == {m} + (prices - {m});
      var n := Maximiser(bids, asks, prices - {m});
      if Matched(bids, asks, m) < Matched(bids, asks, n) {
        m := n;
      }
    }
  }

  /** Some price trades exactly when some candidate ties for the best volume. */
  lemma TiedWhenTradable(bids: seq<Order>, asks: seq<Order>, p: Decimal)
    requires Resting(bids) && Resting(asks) && Matched(bids, asks, p) > 0
    ensures Tied(bids, asks) != {}
  {
    var c := NextBidPrice(bids, p);
    var m := Maximiser(bids, asks, Candidates(bids, asks));
    VolumeMonotone(Sell, asks, c, p);
    assert c in Candidates(bids, asks);
    assert m in Tied(bids, asks);
  }

  /**
    The clearing price maximises traded volume over every price, is positive and
    itself passes the encoder.
   */
  lemma ClearingPriceIsBest(bids: seq<Order>, asks: seq<Order>)
    requires Resting(bids) && Resting(asks) && PricesEncode(bids) && PricesEncode(asks)
    requires Tied(bids, asks) != {}
    ensures var p := ClearingPrice(bids, asks);
            && p > 0 && Encodable(p) && Matched(bids, asks, p) > 0
            && forall q :: Matched(bids, asks, q) <= Matched(bids, asks, p)
  {
    var tied := Tied(bids, asks);
    var lo, hi, p := Least(tied), Greatest(tied), ClearingPrice(bids, asks);
    var best := Matched(bids, asks, lo);
    CandidateEncodes(bids, asks, lo);
    CandidateEncodes(bids, asks, hi);
    MidpointEncodes(lo, hi);
    VolumeMonotone(Buy, bids, p, hi);
    VolumeMonotone(Sell, asks, p, lo);
    forall q ensures Matched(bids, asks, q) <= best {
      NoPriceTradesMore(bids, asks, q, best);
    }
  }

  lemma CandidateEncodes(bids: seq<Order>, asks: seq<Order>, p: Decimal)
    requires Resting(bids) && Resting(asks) && PricesEncode(bids) && PricesEncode(asks)
    requires p in Candidates(bids, asks)
    ensures Encodable(p) && p > 0
  {
  }

  // ---------------------------------------------------------------- which price it is

  /** Some order, bid or ask, is priced at `p`. */
  predicate Quoted(bids: seq<Order>, asks: seq<Order>, p: Decimal) {
    || (exists i :: 0 <= i < |bids| && bids[i].price == p)
    || (exists j :: 0 <= j < |asks| && asks[j].price == p)
  }

  /** Something trades at `p`, and at no price more. */
  ghost predicate TradesMost(bids: seq<Order>, asks: seq<Order>, p: Decimal) {
    Matched(bids, asks, p) > 0 && forall q :: Matched(bids, asks, q) <= Matched(bids, asks, p)
  }

  /** The lowest and the highest price of any order, bid or ask, at which the most trades. */
  ghost predicate Outermost(bids: seq<Order>, asks: seq<Order>, lo: Decimal, hi: Decimal) {
    && Quoted(bids, asks, lo) && TradesMost(bids, asks, lo)
    && Quoted(bids, asks, hi) && TradesMost(bids, asks, hi)
    && forall p :: Quoted(bids, asks, p) && TradesMost(bids, asks, p) ==> lo <= p <= hi
  }

  lemma CandidatesAreQuoted(bids: seq<Order>, asks: seq<Order>, p: Decimal)
    ensures p in Candidates(bids, asks) <==> Quoted(bids, asks, p)
  {
  }

  /** The tied candidates are all the quoted prices at which the most trades. */
  lemma TiedExactly(bids: seq<Order>, asks: seq<Order>, p: Decimal)
    requires Resting(bids) && Resting(asks)
    ensures p in Tied(bids, asks) <==> Quoted(bids, asks, p) && TradesMost(bids, asks, p)
  {
    CandidatesAreQuoted(bids, asks, p);
    if p in Tied(bids, asks) {
      forall q ensures Matched(bids, asks, q) <= Matched(bids, asks, p) {
        NoPriceTradesMore(bids, asks, q, Matched(bids, asks, p));
      }
    }
  }

  lemma OutermostExist(bids: seq<Order>, asks: seq<Order>) returns (lo: Decimal, hi: Decimal)
    requires Resting(bids) && Resting(asks) && Tied(bids, asks) != {}
    ensures Outermost(bids, asks, lo, hi)
  {
    lo, hi := Least(Tied(bids, asks)), Greatest(Tied(bids, asks));
    forall p ensures p in Tied(bids, asks) <==> Quoted(bids, asks, p) && TradesMost(bids, asks, p) {
      TiedExactly(bids, asks, p);
    }
  }

  lemma SoleTiedPrice(bids: seq<Order>, asks: seq<Order>, p: Decimal)
    requires Tied(bids, asks) == {p}
    ensures ClearingPrice(bids, asks) == Midpoint(p, p)
  {
    assert Least(Tied(bids, asks)) == Greatest(Tied(bids, asks)) == p;
  }

  lemma ClearingPriceIsMidpoint(bids: seq<Order>, asks: seq<Order>, lo: Decimal, hi: Decimal)
    requires Resting(bids) && Resting(asks) && Outermost(bids, asks, lo, hi)
    ensures ClearingPrice(bids, asks) == Midpoint(lo, hi)
  {
    var tied := Tied(bids, asks);
    forall p ensures p in tied <==> Quoted(bids, asks, p) && TradesMost(bids, asks, p) {
      TiedExactly(bids, asks, p);
    }
    assert lo in tied && hi in tied;
    assert Least(tied) == lo && Greatest(tied) == hi;
  }

  /**
    The clearing price is an 8-decimal amount midway between the lowest and the highest price of any order at which the
    most trades, to within half a unit of 1e-8 if they are themselves 8-decimal amounts, and half a step more if not.
   */
  lemma ClearingPriceIsCentral(bids: seq<Order>, asks: seq<Order>, lo: Decimal, hi: Decimal) returns (k: int)
    requires Resting(bids) && Resting(asks) && Outermost(bids, asks, lo, hi)
    ensures var p, slack := ClearingPrice(bids, asks), QUANTUM + (lo + hi) % 2;
            && p == k * QUANTUM && -slack <= 2 * p - (lo + hi) <= slack
            && (Encodable(lo) && Encodable(hi) ==> slack == QUANTUM)
  {
    ClearingPriceIsMidpoint(bids, asks, lo, hi);
    k := MidpointIsNearest(lo, hi);
    if Encodable(lo) && Encodable(hi) {
      GridSumIsEven(DecimalToScalar(lo).value, DecimalToScalar(hi).value);
    }
  }

  /** Something trades exactly when the best bid meets the best ask. */
  lemma TradableIffCrossed(bids: seq<Order>, asks: seq<Order>)
    requires Resting(bids) && Resting(asks)
    ensures Tied(bids, asks) != {} <==>
            exists i, j :: 0 <= i < |bids| && 0 <= j < |asks| && bids[i].price >= asks[j].price
  {
    if i, j :| 0 <= i < |bids| && 0 <= j < |asks| && bids[i].price >= asks[j].price {
      VolumeIncludes(Buy, bids, bids[i].price, i);
      VolumeIncludes(Sell, asks, bids[i].price, j);
      TiedWhenTradable(bids, asks, bids[i].price);
    }
    if Tied(bids, asks) != {} {
      var p :| p in Tied(bids, asks);
      if forall i :: 0 <= i < |bids| ==> !Reaches(Buy, bids[i], p) {
        VolumeEmpty(Buy, bids, p);
      }
      if forall j :: 0 <= j < |asks| ==> !Reaches(Sell, asks[j], p) {
        VolumeEmpty(Sell, asks, p);
      }
    }
  }

  /** Sums over a capacity-bounded book fit the 96-bit mantissa of a decimal. */
  lemma {:induction false} VolumeFits(side: Side, orders: seq<Order>, p: Decimal)
    requires Resting(orders)
    requires forall i :: 0 <= i < |orders| ==> Encodable(orders[i].size) && orders[i].remaining <= orders[i].size
    ensures 0 <= Volume(side, orders, p) <= |orders| * MAX_ENCODED * QUANTUM
    ensures |orders| <= 16384 ==> Volume(side, orders, p) < MANTISSA_LIMIT * QUANTUM
  {
    if orders != [] {
      VolumeFits(side, orders[1..], p);
      assert orders[0].remaining <= MAX_ENCODED * QUANTUM;
    }
  }
}
