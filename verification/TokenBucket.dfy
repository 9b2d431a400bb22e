/** One client's token bucket, and the sliding window it amounts to. */
module TokenBucket {
  import opened Types

  /** How many tokens a time span brings, the bucket's capacity, and how long an idle bucket is kept. */
  datatype Config = Config(gain: real -> real, burst: real, stale: real)

  datatype Bucket = Bucket(tokens: real, lastFill: real)

  /** A limiter that refills at a rate, in tokens per second. */
  function AtRate(rate: real, burst: real, stale: real): Config {
    Config((span: real) => span * rate, burst, stale)
  }

  /** Refill is proportional to time; capacity and patience are not negative. */
  ghost predicate Steady(c: Config) {
    && c.burst >= 0.0 && c.stale >= 0.0
    && (forall x, y :: Adds(c, x, y))
    && (forall x :: NeverDrains(c, x))
  }

  predicate Adds(c: Config, x: real, y: real) {
    c.gain(x + y) == c.gain(x) + c.gain(y)
  }

  predicate NeverDrains(c: Config, x: real) {
    x >= 0.0 ==> c.gain(x) >= 0.0
  }

  lemma RatesAreSteady(rate: real, burst: real, stale: real)
    requires rate >= 0.0 && burst >= 0.0 && stale >= 0.0
    ensures Steady(AtRate(rate, burst, stale))
  {
  }

  function Least(a: real, b: real): real {
    if a <= b then a else b
  }

  /** What a request finds in the bucket at `now`; a missing bucket is a full one. */
  function Level(c: Config, b: Option<Bucket>, now: real): real {
    match b
    case None => c.burst
    case Some(Bucket(tokens, last)) =>
      var elapsed := if now >= last then now - last else 0.0;
      Least(tokens + c.gain(elapsed), c.burst)
  }

  /** The tokens left of a level once a request took its token, if there was one. */
  function Spend(level: real): real {
    if level >= 1.0 then level - 1.0 else level
  }

  /** The bucket after a request, allowed or not. */
  function Served(c: Config, b: Option<Bucket>, now: real): Bucket {
    Bucket(Spend(Level(c, b, now)), now)
  }

  predicate Ascending(ts: seq<real>) {
    forall i, j :: 0 <= i < j < |ts| ==> ts[i] <= ts[j]
  }

  /** The bucket after requests at the given times. */
  function After(c: Config, ts: seq<real>): Option<Bucket> {
    if ts == [] then None else Some(Served(c, After(c, ts[..|ts| - 1]), ts[|ts| - 1]))
  }

  /** Whether request `n` is allowed. */
  predicate Allowed(c: Config, ts: seq<real>, n: nat)
    requires n < |ts|
  {
    Level(c, After(c, ts[..n]), ts[n]) >= 1.0
  }

  /** How many of the requests from `i` up to but not including `n` are allowed. */
  function Count(c: Config, ts: seq<real>, i: nat, n: nat): nat
    requires i <= n <= |ts|
  {
    if i == n then 0 else Count(c, ts, i, n - 1) + if Allowed(c, ts, n - 1) then 1 else 0
  }

  // ---------------------------------------------------------------- the same, with time measured in tokens

  /** The tokens accrued since time zero at each request. */
  function Accrued(c: Config, ts: seq<real>): seq<real> {
    seq(|ts|, i requires 0 <= i < |ts| => c.gain(ts[i]))
  }

  /** The level request `n` finds, if `xs` are the tokens accrued at each request. */
  function LevelAt(burst: real, xs: seq<real>, n: nat): real
    requires n < |xs|
  {
    if n == 0 then burst else Least(Spend(LevelAt(burst, xs, n - 1)) + (xs[n] - xs[n - 1]), burst)
  }

  function CountAt(burst: real, xs: seq<real>, i: nat, n: nat): nat
    requires i <= n <= |xs|
  {
    if i == n then 0 else CountAt(burst, xs, i, n - 1) + if LevelAt(burst, xs, n - 1) >= 1.0 then 1 else 0
  }

  /** What the window from request `i` to request `n` still admits. */
  function Room(burst: real, xs: seq<real>, i: nat, n: nat): real
    requires i <= n < |xs|
  {
    burst + (xs[n] - xs[i]) - CountAt(burst, xs, i, n) as real
  }

  lemma RoomLater(burst: real, xs: seq<real>, i: nat, n: nat)
    requires i < n < |xs|
    ensures Room(burst, xs, i, n)
            == Room(burst, xs, i, n - 1) + (xs[n] - xs[n - 1])
               - if LevelAt(burst, xs, n - 1) >= 1.0 then 1.0 else 0.0
  {
  }

  /** The level never exceeds what any window admits, and some window admits exactly the level. */
  lemma {:induction false} LevelIsTightestWindow(burst: real, xs: seq<real>, n: nat) returns (tight: nat)
    requires n < |xs|
    ensures forall i :: 0 <= i <= n ==> LevelAt(burst, xs, n) <= Room(burst, xs, i, n)
    ensures tight <= n && LevelAt(burst, xs, n) == Room(burst, xs, tight, n)
  {
    assert Room(burst, xs, n, n) == burst;
    if n == 0 {
      tight := 0;
    } else {
      var before := LevelIsTightestWindow(burst, xs, n - 1);
      RoomLater(burst, xs, before, n);
      tight := if LevelAt(burst, xs, n) == burst then n else before;
      forall i | 0 <= i <= n ensures LevelAt(burst, xs, n) <= Room(burst, xs, i, n) {
        if i < n {
          RoomLater(burst, xs, i, n);
        }
      }
    }
  }

  lemma AllowedByWindows(burst: real, xs: seq<real>, n: nat)
    requires n < |xs|
    ensures LevelAt(burst, xs, n) >= 1.0 <==> forall i :: 0 <= i <= n ==> Room(burst, xs, i, n) >= 1.0
  {
    var tight := LevelIsTightestWindow(burst, xs, n);
  }

  lemma {:induction false} CountBounded(burst: real, xs: seq<real>, i: nat, n: nat)
    requires burst >= 0.0 && Ascending(xs) && i < n <= |xs|
    ensures CountAt(burst, xs, i, n) as real <= burst + (xs[n - 1] - xs[i])
    decreases n
  {
    if LevelAt(burst, xs, n - 1) >= 1.0 {
      AllowedByWindows(burst, xs, n - 1);
      assert Room(burst, xs, i, n - 1) >= 1.0;
    } else if i < n - 1 {
      CountBounded(burst, xs, i, n - 1);
    }
  }

  // ---------------------------------------------------------------- and back

  /** The gain between two times is the difference of what had accrued. */
  lemma GainBetween(c: Config, from: real, to: real)
    requires Steady(c)
    ensures c.gain(to - from) == c.gain(to) - c.gain(from)
    ensures from <= to ==> c.gain(from) <= c.gain(to)
  {
    assert Adds(c, to - from, from) && NeverDrains(c, to - from);
    assert (to - from) + from == to;
  }

  lemma {:induction false} LevelsAgree(c: Config, ts: seq<real>, n: nat)
    requires Steady(c) && Ascending(ts) && n < |ts|
    ensures Level(c, After(c, ts[..n]), ts[n]) == LevelAt(c.burst, Accrued(c, ts), n)
  {
    if n > 0 {
      LevelsAgree(c, ts, n - 1);
      assert ts[..n][..n - 1] == ts[..n - 1];
      GainBetween(c, ts[n - 1], ts[n]);
    }
  }

  lemma {:induction false} CountsAgree(c: Config, ts: seq<real>, i: nat, n: nat)
    requires Steady(c) && Ascending(ts) && i <= n <= |ts|
    ensures Count(c, ts, i, n) == CountAt(c.burst, Accrued(c, ts), i, n)
    decreases n
  {
    if i < n {
      CountsAgree(c, ts, i, n - 1);
      LevelsAgree(c, ts, n - 1);
    }
  }

  /** The window from request `i` to request `n` can take request `n` too. */
  predicate Fits(c: Config, ts: seq<real>, i: nat, n: nat)
    requires i <= n < |ts|
  {
    (Count(c, ts, i, n) + 1) as real <= c.burst + c.gain(ts[n] - ts[i])
  }

  lemma FitsIsRoom(c: Config, ts: seq<real>, i: nat, n: nat)
    requires Steady(c) && Ascending(ts) && i <= n < |ts|
    ensures Fits(c, ts, i, n) <==> Room(c.burst, Accrued(c, ts), i, n) >= 1.0
  {
    CountsAgree(c, ts, i, n);
    GainBetween(c, ts[i], ts[n]);
  }

  /**
    The bucket is a sliding window over every past request at once: a request is allowed exactly when, for
    each earlier request and for itself, allowing it keeps the window starting there within burst plus refill.
   */
  lemma AllowedExactlyWithinWindows(c: Config, ts: seq<real>, n: nat)
    requires Steady(c) && Ascending(ts) && n < |ts|
    ensures Allowed(c, ts, n) <==> forall i :: 0 <= i <= n ==> Fits(c, ts, i, n)
  {
    LevelsAgree(c, ts, n);
    AllowedByWindows(c.burst, Accrued(c, ts), n);
    forall i | 0 <= i <= n ensures Fits(c, ts, i, n) <==> Room(c.burst, Accrued(c, ts), i, n) >= 1.0 {
      FitsIsRoom(c, ts, i, n);
    }
  }

  lemma AccruedAscends(c: Config, ts: seq<real>)
    requires Steady(c) && Ascending(ts)
    ensures Ascending(Accrued(c, ts))
  {
    forall i, j | 0 <= i < j < |ts| ensures c.gain(ts[i]) <= c.gain(ts[j]) {
      GainBetween(c, ts[i], ts[j]);
    }
  }

  /** In any stretch of time, at most the burst plus what the stretch brings is allowed. */
  lemma WindowBound(c: Config, ts: seq<real>, i: nat, n: nat, from: real, to: real)
    requires Steady(c) && Ascending(ts) && i <= n <= |ts| && from <= to
    requires forall k :: i <= k < n ==> from <= ts[k] <= to
    ensures Count(c, ts, i, n) as real <= c.burst + c.gain(to - from)
  {
    GainBetween(c, from, to);
    if i < n {
      AccruedAscends(c, ts);
      CountsAgree(c, ts, i, n);
      CountBounded(c.burst, Accrued(c, ts), i, n);
      GainBetween(c, from, ts[i]);
      GainBetween(c, ts[n - 1], to);
    }
  }
}
