/** The 8-decimal, 60-bit scalar encoding that admission and settlement share. */
module Encoding {
  import opened Types

  /** 1e-8, the precision of the scalar encoding, counted in units of 1e-28. */
  const QUANTUM: int := 100_000_000_000_000_000_000

  /** Exclusive bound on an encoded scalar: 2^60. */
  const MAX_ENCODED: int := 0x1000_0000_0000_0000

  /** Exclusive bound on the 96-bit mantissa of a decimal: 2^96. */
  const MANTISSA_LIMIT: int := 0x1_0000_0000_0000_0000_0000_0000

  datatype EncodingError = Negative | Precision | Overflow

  function DecimalToScalar(d: Decimal): (r: Result<nat, EncodingError>)
    ensures r.Ok? ==> d == r.value * QUANTUM && r.value < MAX_ENCODED
    ensures (exists k: nat :: k < MAX_ENCODED && d == k * QUANTUM) ==> r.Ok?
  {
    if d < 0 then Err(Negative)
    else if d >= MANTISSA_LIMIT * QUANTUM then Err(Overflow)
    else if d % QUANTUM != 0 then Err(Precision)
    else if d / QUANTUM >= MAX_ENCODED then Err(Overflow)
    else Ok(d / QUANTUM)
  }

  predicate Encodable(d: Decimal) {
    DecimalToScalar(d).Ok?
  }

  /** The integer nearest to `n / d`, the even one if two are equally near: how decimals round by default. */
  function NearestEven(n: int, d: int): int
    requires d > 0
  {
    var q, r := n / d, n % d;
    if 2 * r < d || (2 * r == d && q % 2 == 0) then q else q + 1
  }

  /**
    The clearing price for tied prices from `lo` to `hi`. Halving their sum rounds once, to the finest
    step of a decimal; rounding to 8 decimal places rounds again.
   */
  function Midpoint(lo: Decimal, hi: Decimal): Decimal {
    NearestEven(NearestEven(lo + hi, 2), QUANTUM) * QUANTUM
  }

  /** The 8-decimal amount at or below `d`. */
  function GridFloor(d: Decimal): Decimal {
    d - d % QUANTUM
  }

  /**
    The two prices are one step short of an 8-decimal unit apart, and the one 8-decimal amount between
    them is an odd multiple at one end: their sum then rounds onto a tie that goes the other way.
   */
  predicate RoundsAway(lo: Decimal, hi: Decimal) {
    hi - lo == QUANTUM - 1 && ((hi % QUANTUM == 0 && hi / QUANTUM % 2 == 1) || (lo % QUANTUM == 0 && lo / QUANTUM % 2 == 1))
  }

  lemma NearestEvenIs(n: int, d: int, k: int)
    requires d > 0 && k == NearestEven(n, d)
    ensures -d <= 2 * (k * d - n) <= d
    ensures 2 * (k * d - n) == d || 2 * (k * d - n) == -d ==> k % 2 == 0
  {
    assert n == (n / d) * d + n % d;
    assert (n / d + 1) * d == (n / d) * d + d;
  }

  /**
    The claim that rounding keeps the midpoint between the two tied prices holds exactly when some
    8-decimal amount lies between them and the first rounding does not tip the second one away from it.
   */
  lemma MidpointStaysInRange(lo: Decimal, hi: Decimal)
    requires lo <= hi
    ensures lo <= Midpoint(lo, hi) <= hi <==> lo <= GridFloor(hi) && !RoundsAway(lo, hi)
  {
    var half := NearestEven(lo + hi, 2);
    var k := NearestEven(half, QUANTUM);
    NearestEvenIs(lo + hi, 2, half);
    NearestEvenIs(half, QUANTUM, k);
    var j, f := hi / QUANTUM, hi % QUANTUM;
    assert hi == j * QUANTUM + f;
  }

  /**
    The midpoint is an 8-decimal amount within half a unit of 1e-8 of the true middle, plus the half step
    of a decimal that an odd sum loses; it is the even one of two equally near the halved sum.
   */
  lemma MidpointIsNearest(lo: Decimal, hi: Decimal) returns (k: int)
    ensures var m, sum := Midpoint(lo, hi), lo + hi;
            && m == k * QUANTUM && -QUANTUM - sum % 2 <= 2 * m - sum <= QUANTUM + sum % 2
            && (sum % 2 == 0 && (2 * m - sum == QUANTUM || 2 * m - sum == -QUANTUM) ==> k % 2 == 0)
  {
    var half := NearestEven(lo + hi, 2);
    k := NearestEven(half, QUANTUM);
    NearestEvenIs(lo + hi, 2, half);
    NearestEvenIs(half, QUANTUM, k);
  }

  lemma DoubleIsEven(n: int, half: int)
    requires n == 2 * half
    ensures n % 2 == 0
  {
  }

  lemma GridSumIsEven(a: int, b: int)
    ensures (a * QUANTUM + b * QUANTUM) % 2 == 0
  {
    DoubleIsEven(a * QUANTUM + b * QUANTUM, a * 50_000_000_000_000_000_000 + b * 50_000_000_000_000_000_000);
  }

  /**
    Unconditionally the claim is false: both prices can be 0.000000014, and even with an 8-decimal amount
    between them they can be one step above zero and 0.00000001.
   */
  lemma MidpointCanLeaveRange()
    ensures var p := 14 * (QUANTUM / 10); Midpoint(p, p) < p
    ensures Midpoint(1, QUANTUM) == 0
  {
  }

  /** On encodable prices nothing rounds away: the midpoint is between them and itself encodable. */
  lemma MidpointEncodes(lo: Decimal, hi: Decimal)
    requires lo <= hi && Encodable(lo) && Encodable(hi)
    ensures lo <= Midpoint(lo, hi) <= hi
    ensures Encodable(Midpoint(lo, hi))
  {
    MidpointStaysInRange(lo, hi);
    var m := Midpoint(lo, hi);
    var k :| m == k * QUANTUM;
    assert 0 <= k < MAX_ENCODED;
  }
}
