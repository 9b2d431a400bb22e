/** When eviction is noticed: if an idle bucket can be evicted before it has refilled, some run tells the difference. */
module Eviction {
  import opened Types
  import opened TokenBucket
  import opened RateLimiter

  /** Every amount of tokens is gained in some time. */
  ghost predicate Refills(c: Config) {
    forall x :: x >= 0.0 ==> GainedIn(c, x)
  }

  ghost predicate GainedIn(c: Config, x: real) {
    exists w :: w >= 0.0 && c.gain(w) == x
  }

  /** Nothing is ever gained. */
  ghost predicate NeverRefills(c: Config) {
    forall w :: c.gain(w) == 0.0
  }

  lemma RatesRefillOrNot(rate: real, burst: real, stale: real)
    requires rate >= 0.0
    ensures var c := AtRate(rate, burst, stale); Refills(c) || NeverRefills(c)
  {
    var c := AtRate(rate, burst, stale);
    if rate > 0.0 {
      forall x | x >= 0.0 ensures GainedIn(c, x) {
        var w := x / rate;
        assert w >= 0.0 && w * rate == x;
        assert c.gain(w) == x;
      }
    } else {
      forall w ensures c.gain(w) == 0.0 {
        assert w * rate == 0.0;
      }
    }
  }

  // ---------------------------------------------------------------- one bucket, request by request

  function Serves(c: Config, b: Option<Bucket>, ts: seq<real>): Option<Bucket>
    decreases |ts|
  {
    if ts == [] then b else Serves(c, Some(Served(c, b, ts[0])), ts[1..])
  }

  /** Some request of the list is decided differently from the two buckets. */
  predicate Differ(c: Config, a: Option<Bucket>, b: Option<Bucket>, ts: seq<real>)
    decreases |ts|
  {
    && ts != []
    && ((Level(c, a, ts[0]) >= 1.0) != (Level(c, b, ts[0]) >= 1.0)
        || Differ(c, Some(Served(c, a, ts[0])), Some(Served(c, b, ts[0])), ts[1..]))
  }

  predicate From(ts: seq<real>, start: real) {
    Ascending(ts) && forall i :: 0 <= i < |ts| ==> start <= ts[i]
  }

  lemma LevelNow(c: Config, b: Bucket)
    requires Steady(c) && b.tokens <= c.burst
    ensures Level(c, Some(b), b.lastFill) == b.tokens
  {
    GainBetween(c, b.lastFill, b.lastFill);
  }

  lemma ConsFrom(t: real, ts: seq<real>, start: real)
    requires start <= t && From(ts, t)
    ensures From([t] + ts, start)
  {
  }

  /** Requests that empty a bucket: exactly, if it refills at all. */
  lemma {:induction false} Drain(c: Config, b: Bucket) returns (ts: seq<real>, z: Bucket)
    requires Steady(c) && c.burst >= 1.0 && 0.0 <= b.tokens <= c.burst && (Refills(c) || NeverRefills(c))
    ensures Serves(c, Some(b), ts) == Some(z) && From(ts, b.lastFill)
    ensures b.lastFill <= z.lastFill && (forall i :: 0 <= i < |ts| ==> ts[i] <= z.lastFill)
    ensures 0.0 <= z.tokens < 1.0 && (Refills(c) ==> z.tokens == 0.0)
    decreases b.tokens.Floor
  {
    if b.tokens >= 1.0 {
      LevelNow(c, b);
      var rest;
      rest, z := Drain(c, Bucket(b.tokens - 1.0, b.lastFill));
      ts := [b.lastFill] + rest;
      assert ts[1..] == rest;
      ConsFrom(b.lastFill, rest, b.lastFill);
    } else if b.tokens == 0.0 || !Refills(c) {
      ts, z := [], b;
    } else {
      assert GainedIn(c, 1.0 - b.tokens);
      var w :| w >= 0.0 && c.gain(w) == 1.0 - b.tokens;
      var t := b.lastFill + w;
      assert t - b.lastFill == w;
      ts, z := [t], Bucket(0.0, t);
      assert ts[1..] == [];
    }
  }

  /** Requests that tell a fuller bucket from an emptier one. */
  lemma {:induction false} Distinguish(c: Config, a: Bucket, b: Bucket) returns (ts: seq<real>)
    requires Steady(c) && c.burst >= 1.0 && a.lastFill == b.lastFill && 0.0 <= b.tokens < a.tokens <= c.burst
    requires Refills(c) || a.tokens >= 1.0 > b.tokens
    ensures Differ(c, Some(a), Some(b), ts) && From(ts, a.lastFill)
    decreases b.tokens.Floor
  {
    LevelNow(c, a);
    LevelNow(c, b);
    if b.tokens >= 1.0 {
      var now := a.lastFill;
      var rest := Distinguish(c, Bucket(a.tokens - 1.0, now), Bucket(b.tokens - 1.0, now));
      ts := [now] + rest;
      assert ts[1..] == rest;
      ConsFrom(now, rest, now);
    } else if a.tokens >= 1.0 {
      ts := [a.lastFill];
    } else {
      assert GainedIn(c, 1.0 - a.tokens);
      var w :| w >= 0.0 && c.gain(w) == 1.0 - a.tokens;
      var t := a.lastFill + w;
      assert t - a.lastFill == w;
      ts := [t];
    }
  }

  lemma SameLevelsDiffer(c: Config, a: Option<Bucket>, b: Option<Bucket>, a': Option<Bucket>, b': Option<Bucket>, ts: seq<real>)
    requires Differ(c, a, b, ts) && Level(c, a, ts[0]) == Level(c, a', ts[0]) && Level(c, b, ts[0]) == Level(c, b', ts[0])
    ensures Differ(c, a', b', ts)
  {
  }

  // ---------------------------------------------------------------- as a run of the limiter

  function Requests(key: string, ts: seq<real>): seq<Event> {
    seq(|ts|, i requires 0 <= i < |ts| => Request(key, ts[i]))
  }

  lemma {:induction false} RunSnoc(c: Config, es: seq<Event>, e: Event, evicting: bool)
    ensures Run(c, es + [e], evicting) == React(c, Run(c, es, evicting), e, evicting)
  {
    assert (es + [e])[..|es|] == es;
  }

  lemma RequestsCons(key: string, ts: seq<real>, es: seq<Event>)
    requires ts != []
    ensures es + Requests(key, ts) == (es + [Request(key, ts[0])]) + Requests(key, ts[1..])
  {
  }

  /** After more requests of one client its bucket is what those requests make of it. */
  lemma {:induction false} RunServes(c: Config, es: seq<Event>, key: string, ts: seq<real>, evicting: bool)
    ensures Get(Run(c, es + Requests(key, ts), evicting), key) == Serves(c, Get(Run(c, es, evicting), key), ts)
    decreases |ts|
  {
    if ts == [] {
      assert es + Requests(key, ts) == es;
    } else {
      var e := Request(key, ts[0]);
      RunSnoc(c, es, e, evicting);
      RunServes(c, es + [e], key, ts[1..], evicting);
      RequestsCons(key, ts, es);
    }
  }

  /** The two limiters decide some request of the run differently. */
  ghost predicate Noticed(c: Config, es: seq<Event>) {
    exists n :: 0 <= n < |es| && es[n].Request? && Verdict(c, es, n, true) != Verdict(c, es, n, false)
  }

  lemma VerdictOfPrefix(c: Config, es: seq<Event>, e: Event, more: seq<Event>, evicting: bool)
    requires e.Request?
    ensures var all := es + [e] + more;
            Verdict(c, all, |es|, evicting) <==> Level(c, Get(Run(c, es, evicting), e.key), e.at) >= 1.0
  {
    assert (es + [e] + more)[..|es|] == es;
  }

  lemma {:induction false} DifferIsNoticed(c: Config, es: seq<Event>, key: string, ts: seq<real>)
    requires Differ(c, Get(Run(c, es, true), key), Get(Run(c, es, false), key), ts)
    ensures Noticed(c, es + Requests(key, ts))
    decreases |ts|
  {
    var e := Request(key, ts[0]);
    RequestsCons(key, ts, es);
    var more, all := Requests(key, ts[1..]), es + Requests(key, ts);
    VerdictOfPrefix(c, es, e, more, true);
    VerdictOfPrefix(c, es, e, more, false);
    if Verdict(c, all, |es|, true) == Verdict(c, all, |es|, false) {
      RunSnoc(c, es, e, true);
      RunSnoc(c, es, e, false);
      DifferIsNoticed(c, es + [e], key, ts[1..]);
    }
  }

  // ---------------------------------------------------------------- the run that notices

  const CLIENT := "client"

  /** A run of requests after which the client's bucket is drained. */
  lemma DrainedRun(c: Config) returns (ts: seq<real>, z: Bucket)
    requires Steady(c) && c.burst >= 1.0 && (Refills(c) || NeverRefills(c))
    ensures Ascending(ts) && (forall i :: 0 <= i < |ts| ==> ts[i] <= z.lastFill)
    ensures forall evicting :: Get(Run(c, Requests(CLIENT, ts), evicting), CLIENT) == Some(z)
    ensures 0.0 <= z.tokens < 1.0 && (Refills(c) ==> z.tokens == 0.0)
  {
    var first := Served(c, None, 0.0);
    var rest;
    rest, z := Drain(c, first);
    ts := [0.0] + rest;
    assert ts[1..] == rest;
    ConsFrom(0.0, rest, 0.0);
    forall evicting ensures Get(Run(c, Requests(CLIENT, ts), evicting), CLIENT) == Some(z) {
      RunServes(c, [], CLIENT, ts, evicting);
      assert [] + Requests(CLIENT, ts) == Requests(CLIENT, ts);
    }
  }

  /** A span long enough for eviction and too short for the drained bucket to refill. */
  lemma TooShort(c: Config, tokens: real) returns (span: real)
    requires Steady(c) && c.burst >= 1.0 && c.gain(c.stale) < c.burst && 0.0 <= tokens < 1.0
    requires (Refills(c) && tokens == 0.0) || NeverRefills(c)
    ensures span > c.stale && 0.0 <= tokens + c.gain(span) < c.burst && (Refills(c) || tokens + c.gain(span) < 1.0)
  {
    if Refills(c) {
      var x := (c.burst - c.gain(c.stale)) / 2.0;
      assert GainedIn(c, x);
      var w :| w >= 0.0 && c.gain(w) == x;
      GainBetween(c, 0.0, 0.0);
      span := c.stale + w;
      assert Adds(c, c.stale, w) && NeverDrains(c, span);
    } else {
      span := c.stale + 1.0;
    }
  }

  lemma LevelsFrom(c: Config, z: Bucket, at: real, t: real)
    requires Steady(c) && z.lastFill <= at <= t && 0.0 <= z.tokens + c.gain(at - z.lastFill) < c.burst
    ensures Level(c, Some(z), t) == Level(c, Some(Bucket(z.tokens + c.gain(at - z.lastFill), at)), t)
    ensures Level(c, None, t) == Level(c, Some(Bucket(c.burst, at)), t)
  {
    assert Adds(c, t - at, at - z.lastFill) && NeverDrains(c, t - at);
    assert (t - at) + (at - z.lastFill) == t - z.lastFill;
  }

  /** Evicting a drained bucket and forgetting it differs from keeping it. */
  lemma EvictedDiffers(c: Config, z: Bucket, span: real) returns (ts: seq<real>)
    requires Steady(c) && c.burst >= 1.0 && span > 0.0 && 0.0 <= z.tokens + c.gain(span) < c.burst
    requires Refills(c) || z.tokens + c.gain(span) < 1.0
    ensures Differ(c, None, Some(z), ts) && From(ts, z.lastFill + span)
  {
    var at := z.lastFill + span;
    assert at - z.lastFill == span;
    var full, low := Bucket(c.burst, at), Bucket(z.tokens + c.gain(span), at);
    ts := Distinguish(c, full, low);
    LevelsFrom(c, z, at, ts[0]);
    SameLevelsDiffer(c, Some(full), Some(low), None, Some(z), ts);
  }

  lemma TimelyWitness(ts: seq<real>, at: real, more: seq<real>)
    requires Ascending(ts) && (forall i :: 0 <= i < |ts| ==> ts[i] <= at) && From(more, at)
    ensures Timely(Requests(CLIENT, ts) + [Evict(at)] + Requests(CLIENT, more))
  {
  }

  lemma EvictionIsNoticed(c: Config)
    requires Steady(c) && c.burst >= 1.0 && c.gain(c.stale) < c.burst && (Refills(c) || NeverRefills(c))
    ensures exists es :: Timely(es) && Noticed(c, es)
  {
    var ts, z := DrainedRun(c);
    var span := TooShort(c, z.tokens);
    var at := z.lastFill + span;
    var more := EvictedDiffers(c, z, span);
    var es := Requests(CLIENT, ts) + [Evict(at)];
    RunSnoc(c, Requests(CLIENT, ts), Evict(at), true);
    RunSnoc(c, Requests(CLIENT, ts), Evict(at), false);
    assert Idle(z, at) > c.stale;
    DifferIsNoticed(c, es, CLIENT, more);
    TimelyWitness(ts, at, more);
  }

  /**
    Eviction is invisible in every run exactly when an idle bucket has refilled by the time it may be
    evicted, or when the bucket is too small ever to allow anything.
   */
  lemma EvictionIsInvisibleExactly(c: Config)
    requires Steady(c) && (Refills(c) || NeverRefills(c))
    ensures (forall es :: Timely(es) ==> !Noticed(c, es)) <==> c.burst < 1.0 || c.gain(c.stale) >= c.burst
  {
    if c.burst < 1.0 {
      forall es: seq<Event> ensures !Noticed(c, es) {
      }
    } else if c.gain(c.stale) >= c.burst {
      forall es: seq<Event> | Timely(es) ensures !Noticed(c, es) {
        forall n | 0 <= n < |es| && es[n].Request? ensures Verdict(c, es, n, true) == Verdict(c, es, n, false) {
          EvictionChangesNothing(c, es, n);
        }
      }
    } else {
      EvictionIsNoticed(c);
    }
  }

  /** In terms of a rate: eviction is invisible exactly when the rate refills a bucket within the patience. */
  lemma EvictionIsInvisibleAtRate(rate: real, burst: real, stale: real)
    requires rate >= 0.0 && burst >= 1.0 && stale >= 0.0
    ensures (forall es :: Timely(es) ==> !Noticed(AtRate(rate, burst, stale), es)) <==> rate * stale >= burst
  {
    RatesAreSteady(rate, burst, stale);
    RatesRefillOrNot(rate, burst, stale);
    GainAtRate(rate, burst, stale, stale);
    EvictionIsInvisibleExactly(AtRate(rate, burst, stale));
  }

  lemma GainAtRate(rate: real, burst: real, stale: real, span: real)
    ensures AtRate(rate, burst, stale).gain(span) == rate * span
  {
  }
}
