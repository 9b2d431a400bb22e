/** The rate limiter: one bucket per client, with idle buckets evicted now and then. */
module RateLimiter {
  import opened Types
  import opened TokenBucket

  type Buckets = map<string, Bucket>

  function Get(m: Buckets, key: string): Option<Bucket> {
    if key in m then Some(m[key]) else None
  }

  function Idle(b: Bucket, now: real): real {
    if now >= b.lastFill then now - b.lastFill else 0.0
  }

  /** The buckets that have not been idle for too long. */
  function Survivors(c: Config, m: Buckets, now: real): Buckets {
    map k | k in m && Idle(m[k], now) <= c.stale :: m[k]
  }

  class RateLimiter {
    const config: Config
    var buckets: Buckets

    constructor (config: Config)
      ensures buckets == map[] && this.config == config
    {
      this.config := config;
      buckets := map[];
    }

    /** Refills the client's bucket, then takes a token if there is one. */
    method Allow(key: string, now: real) returns (ok: bool)
      requires Steady(config)
      modifies this
      ensures ok <==> Level(config, Get(old(buckets), key), now) >= 1.0
      ensures buckets == old(buckets)[key := Served(config, Get(old(buckets), key), now)]
    {
      var bucket := if key in buckets then buckets[key] else Bucket(config.burst, now);
      var elapsed := if now >= bucket.lastFill then now - bucket.lastFill else 0.0;
      var tokens := bucket.tokens + config.gain(elapsed);
      GainBetween(config, now, now);
      if tokens > config.burst {
        tokens := config.burst;
      }
      ok := tokens >= 1.0;
      if ok {
        tokens := tokens - 1.0;
      }
      buckets := buckets[key := Bucket(tokens, now)];
    }

    /** Drops the buckets that have been idle for longer than the limit. */
    method EvictStale(now: real)
      modifies this
      ensures buckets == Survivors(config, old(buckets), now)
      ensures forall key :: key in buckets <==>
                key in old(buckets) && (if now < old(buckets)[key].lastFill then 0.0 else now - old(buckets)[key].lastFill) <= config.stale
      ensures forall key :: key in buckets ==> buckets[key] == old(buckets)[key]
    {
      var todo := buckets.Keys;
      var kept: Buckets := map[];
      while todo != {}
        invariant todo <= buckets.Keys && buckets == old(buckets)
        invariant kept == map k | k in buckets && k !in todo && Idle(buckets[k], now) <= config.stale :: buckets[k]
      {
        var key :| key in todo;
        if Idle(buckets[key], now) <= config.stale {
          kept := kept[key := buckets[key]];
        }
        todo := todo - {key};
      }
      buckets := kept;
    }
  }

  // ---------------------------------------------------------------- runs, with and without eviction

  datatype Event = Request(key: string, at: real) | Evict(at: real)

  function React(c: Config, m: Buckets, e: Event, evicting: bool): Buckets {
    match e
    case Request(key, at) => m[key := Served(c, Get(m, key), at)]
    case Evict(at) => if evicting then Survivors(c, m, at) else m
  }

  function Run(c: Config, es: seq<Event>, evicting: bool): Buckets {
    if es == [] then map[] else React(c, Run(c, es[..|es| - 1], evicting), es[|es| - 1], evicting)
  }

  /** Whether request `n` of the run is allowed. */
  predicate Verdict(c: Config, es: seq<Event>, n: nat, evicting: bool)
    requires n < |es| && es[n].Request?
  {
    Level(c, Get(Run(c, es[..n], evicting), es[n].key), es[n].at) >= 1.0
  }

  predicate Timely(es: seq<Event>) {
    forall i, j :: 0 <= i < j < |es| ==> es[i].at <= es[j].at
  }

  // ---------------------------------------------------------------- eviction that nobody notices

  /** By `clock` the bucket has refilled. */
  predicate Refilled(c: Config, b: Bucket, clock: real) {
    b.tokens + c.gain(clock - b.lastFill) >= c.burst
  }

  /** With eviction the bucket is the same as without, or is missing and would be full anyway. */
  predicate Agree(c: Config, kept: Option<Bucket>, never: Option<Bucket>, clock: real) {
    && (never.Some? ==> 0.0 <= never.value.tokens && never.value.lastFill <= clock)
    && (kept == never || (kept == None && never.Some? && Refilled(c, never.value, clock)))
  }

  lemma RefilledStays(c: Config, b: Bucket, clock: real, later: real)
    requires Steady(c) && Refilled(c, b, clock) && clock <= later
    ensures Refilled(c, b, later)
  {
    GainBetween(c, clock - b.lastFill, later - b.lastFill);
  }

  lemma AgreeingLevels(c: Config, kept: Option<Bucket>, never: Option<Bucket>, clock: real, now: real)
    requires Steady(c) && Agree(c, kept, never, clock) && clock <= now
    ensures Level(c, kept, now) == Level(c, never, now) && Level(c, never, now) >= 0.0
  {
    if never.Some? {
      assert NeverDrains(c, now - never.value.lastFill);
      if kept == None {
        RefilledStays(c, never.value, clock, now);
      }
    }
  }

  lemma AgreeLater(c: Config, kept: Option<Bucket>, never: Option<Bucket>, clock: real, later: real)
    requires Steady(c) && Agree(c, kept, never, clock) && clock <= later
    ensures Agree(c, kept, never, later)
  {
    if kept != never {
      RefilledStays(c, never.value, clock, later);
    }
  }

  lemma AgreeEvicted(c: Config, kept: Option<Bucket>, never: Option<Bucket>, now: real)
    requires Steady(c) && c.gain(c.stale) >= c.burst && Agree(c, kept, never, now)
    requires kept.Some? ==> Idle(kept.value, now) > c.stale
    ensures Agree(c, None, never, now)
  {
    if kept.Some? {
      GainBetween(c, c.stale, now - kept.value.lastFill);
    }
  }

  lemma StepAgrees(c: Config, kept: Buckets, never: Buckets, clock: real, e: Event, key: string)
    requires Steady(c) && c.gain(c.stale) >= c.burst && clock <= e.at
    requires Agree(c, Get(kept, key), Get(never, key), clock)
    requires e.Request? ==> Agree(c, Get(kept, e.key), Get(never, e.key), clock)
    ensures Agree(c, Get(React(c, kept, e, true), key), Get(React(c, never, e, false), key), e.at)
  {
    AgreeLater(c, Get(kept, key), Get(never, key), clock, e.at);
    match e
    case Request(k, at) => AgreeingLevels(c, Get(kept, k), Get(never, k), clock, at);
    case Evict(at) =>
      if key !in Survivors(c, kept, at) {
        AgreeEvicted(c, Get(kept, key), Get(never, key), at);
      }
  }

  lemma {:induction false} RunsAgree(c: Config, es: seq<Event>, clock: real, key: string)
    requires Steady(c) && c.gain(c.stale) >= c.burst && Timely(es) && (es != [] ==> clock == es[|es| - 1].at)
    ensures Agree(c, Get(Run(c, es, true), key), Get(Run(c, es, false), key), clock)
  {
    if es != [] {
      var n := |es| - 1;
      var e := es[n];
      var before := if n == 0 then e.at else es[n - 1].at;
      RunsAgree(c, es[..n], before, key);
      if e.Request? {
        RunsAgree(c, es[..n], before, e.key);
      }
      StepAgrees(c, Run(c, es[..n], true), Run(c, es[..n], false), before, e, key);
    }
  }

  /** If an idle bucket refills before it may be evicted, eviction changes no decision in any run. */
  lemma EvictionChangesNothing(c: Config, es: seq<Event>, n: nat)
    requires Steady(c) && c.gain(c.stale) >= c.burst && Timely(es) && n < |es| && es[n].Request?
    ensures Verdict(c, es, n, true) == Verdict(c, es, n, false)
  {
    var clock := if n == 0 then es[n].at else es[n - 1].at;
    RunsAgree(c, es[..n], clock, es[n].key);
    AgreeingLevels(c, Get(Run(c, es[..n], true), es[n].key), Get(Run(c, es[..n], false), es[n].key), clock, es[n].at);
  }

  // ---------------------------------------------------------------- the limiter as a sliding window

  /** When a client's requests were made. */
  function Times(es: seq<Event>, key: string): seq<real> {
    if es == [] then []
    else
      var e := es[|es| - 1];
      Times(es[..|es| - 1], key) + if e.Request? && e.key == key then [e.at] else []
  }

  lemma {:induction false} BucketOfTimes(c: Config, es: seq<Event>, key: string)
    ensures Get(Run(c, es, false), key) == After(c, Times(es, key))
  {
    if es != [] {
      var n := |es| - 1;
      BucketOfTimes(c, es[..n], key);
      var ts := Times(es[..n], key);
      if es[n].Request? && es[n].key == key {
        assert Times(es, key) == ts + [es[n].at] && (ts + [es[n].at])[..|ts|] == ts;
      } else {
        assert Times(es, key) == ts;
      }
    }
  }

  lemma {:induction false} TimesAscend(es: seq<Event>, key: string)
    requires Timely(es)
    ensures Ascending(Times(es, key))
    ensures forall i :: 0 <= i < |Times(es, key)| ==> es != [] && Times(es, key)[i] <= es[|es| - 1].at
  {
    if es != [] {
      TimesAscend(es[..|es| - 1], key);
    }
  }

  /**
    A limiter that evicts at arbitrary moments allows a request exactly when, for every earlier request of the
    same client and for itself, the window starting there stays within burst plus refill.
   */
  lemma LimiterIsSlidingWindow(c: Config, es: seq<Event>, n: nat)
    requires Steady(c) && c.gain(c.stale) >= c.burst && Timely(es) && n < |es| && es[n].Request?
    ensures var ts := Times(es[..n + 1], es[n].key);
            && ts != []
            && var m := |ts| - 1;
            ts[m] == es[n].at && (Verdict(c, es, n, true) <==> forall i :: 0 <= i <= m ==> Fits(c, ts, i, m))
  {
    EvictionChangesNothing(c, es, n);
    var key, up := es[n].key, es[..n + 1];
    assert up[..n] == es[..n];
    var ts, m := Times(up, key), |Times(up, key)| - 1;
    assert ts[..m] == Times(es[..n], key);
    BucketOfTimes(c, es[..n], key);
    TimesAscend(up, key);
    AllowedExactlyWithinWindows(c, ts, m);
  }
}
