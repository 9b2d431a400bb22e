/** Values shared by every module: identifiers, orders, fills and matches. */
module Types {

  /** A `Uuid`: the model only ever compares identifiers. */
  type Id = nat

  /** A trader's or a token's on-chain address. */
  type Address = nat

  /**
    A `rust_decimal::Decimal`, as a count of its finest representable step:
    the type carries at most 28 decimal places, so one unit is 1e-28.
   */
  type Decimal = int

  datatype Option<+T> = None | Some(value: T)

  datatype Result<+T, +E> = Ok(value: T) | Err(error: E)

  datatype Side = Buy | Sell

  datatype Order = Order(
    id: Id,
    trader: Address,
    pair: string,
    side: Side,
    price: Decimal,
    size: Decimal,
    remaining: Decimal,
    commitmentKey: string,
    payload: seq<nat>,
    expiresAt: int,
    placedSeq: nat)

  datatype Fill = Fill(orderId: Id, size: Decimal)

  datatype Match = Match(bid: Fill, ask: Fill, price: Decimal, size: Decimal)

  ghost function Pick<T>(s: set<T>): (x: T)
    requires s != {}
    ensures x in s
  {
    var x :| x in s;
    x
  }

  lemma {:induction false} SubsetSize<T>(a: set<T>, b: set<T>)
    requires a <= b
    ensures |a| <= |b|
  {
    assert b == a + (b - a);
  }

  function Min(a: int, b: int): (m: int)
    ensures m <= a && m <= b && (m == a || m == b)
  {
    if a <= b then a else b
  }

  function Max(a: int, b: int): (m: int)
    ensures m >= a && m >= b && (m == a || m == b)
  {
    if a >= b then a else b
  }
}
