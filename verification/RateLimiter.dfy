/**
 The per-source token bucket in front of the DNS listener, with eviction of idle buckets.
 Tokens are counted in thousandths, so one elapsed millisecond adds exactly `rps` of them.
 */
module RateLimiter {

  datatype Bucket = Bucket(tokens: int, lastRefill: int, lastSeen: int)

  datatype Config = Config(rps: int, burst: int, ttlMs: int) {
    predicate Valid() { rps >= 1 && burst >= 1 }
    function Full(): int { 1000 * burst }
    function NeverEvicting(): Config { this.(ttlMs := 0) }

    /** A bucket that has been idle long enough to be evicted would have refilled anyway. */
    predicate EvictsOnlyFull() { ttlMs <= 0 || rps * (ttlMs + 1) >= Full() }
  }

  /** The limits in force for the configured ones. */
  function Limits(rps: int, burst: int, ttlMs: int): (c: Config)
    ensures c.Valid() && (rps > 0 ==> c.rps == rps) && (burst > 0 ==> c.burst == burst) && c.ttlMs == ttlMs
    ensures (rps <= 0 ==> c.rps == 1) && (burst <= 0 ==> c.burst == 1)
  {
    Config(if rps <= 0 then 1 else rps, if burst <= 0 then 1 else burst, ttlMs)
  }

  predicate Idle(c: Config, b: Bucket, now: int) {
    c.ttlMs > 0 && now - b.lastSeen > c.ttlMs
  }

  function Cleaned(c: Config, buckets: map<string, Bucket>, now: int): map<string, Bucket> {
    map k | k in buckets && !Idle(c, buckets[k], now) :: buckets[k]
  }

  function Min(a: int, b: int): int { if a <= b then a else b }

  function Refilled(c: Config, b: Bucket, now: int): Bucket {
    if now - b.lastRefill > 0 then
      b.(tokens := Min(b.tokens + (now - b.lastRefill) * c.rps, c.Full()), lastRefill := now)
    else b
  }

  /** The bucket after one call, and whether the call passes. */
  function Charged(c: Config, b: Bucket, now: int): (Bucket, bool) {
    var r := Refilled(c, b, now).(lastSeen := now);
    if r.tokens < 1000 then (r, false) else (r.(tokens := r.tokens - 1000), true)
  }

  function Current(c: Config, buckets: map<string, Bucket>, source: string, now: int): Bucket {
    if source in buckets && !Idle(c, buckets[source], now) then buckets[source] else Bucket(c.Full(), now, now)
  }

  function AfterCall(c: Config, buckets: map<string, Bucket>, source: string, now: int): map<string, Bucket> {
    Cleaned(c, buckets, now)[source := Charged(c, Current(c, buckets, source, now), now).0]
  }

  function Passes(c: Config, buckets: map<string, Bucket>, source: string, now: int): bool {
    Charged(c, Current(c, buckets, source, now), now).1
  }

  /** A call passes exactly when its source is new, was forgotten after more than the time to live, or has
      a token of a thousand thousandths after the refill; it then costs one token. */
  lemma CallIs(c: Config, buckets: map<string, Bucket>, source: string, now: int)
    requires c.Valid()
    ensures var known := source in buckets && !(c.ttlMs > 0 && now - buckets[source].lastSeen > c.ttlMs);
            var gained := if known && now > buckets[source].lastRefill
                          then buckets[source].tokens + (now - buckets[source].lastRefill) * c.rps
                          else if known then buckets[source].tokens else 1000 * c.burst;
            var passes, next := Passes(c, buckets, source, now), AfterCall(c, buckets, source, now);
            && (passes <==> gained >= 1000)
            && source in next && next[source].lastSeen == now
            && (gained <= 1000 * c.burst ==> next[source].tokens == gained - if passes then 1000 else 0)
            && (known && now > buckets[source].lastRefill && gained > 1000 * c.burst ==>
                  next[source].tokens == 1000 * c.burst - 1000)
  {
  }

  /** A call of one source forgets exactly the others that were idle for too long. */
  lemma OthersAre(c: Config, buckets: map<string, Bucket>, source: string, now: int, other: string)
    requires other != source
    ensures var next := AfterCall(c, buckets, source, now);
            && (other in next <==> other in buckets && !(c.ttlMs > 0 && now - buckets[other].lastSeen > c.ttlMs))
            && (other in next ==> next[other] == buckets[other])
  {
  }

  class SourceRateLimiter {
    var buckets: map<string, Bucket>
    const config: Config

    constructor (rps: int, burst: int, ttlMs: int)
      ensures config == Limits(rps, burst, ttlMs) && buckets == map[]
    {
      config := Limits(rps, burst, ttlMs);
      buckets := map[];
    }

    method Cleanup(nowMs: int)
      modifies this
      ensures buckets == Cleaned(config, old(buckets), nowMs)
    {
      if config.ttlMs <= 0 {
        return;
      }
      var todo := buckets.Keys;
      while todo != {}
        invariant todo <= old(buckets).Keys
        invariant buckets ==
                  map k | k in old(buckets) && (k in todo || !Idle(config, old(buckets)[k], nowMs)) :: old(buckets)[k]
      {
        var key :| key in todo;
        if nowMs - buckets[key].lastSeen > config.ttlMs {
          buckets := buckets - {key};
        }
        todo := todo - {key};
      }
    }

    method Allow(source: string, nowMs: int) returns (allowed: bool)
      modifies this
      ensures buckets == AfterCall(config, old(buckets), source, nowMs)
      ensures allowed == Passes(config, old(buckets), source, nowMs)
    {
      Cleanup(nowMs);
      if source !in buckets {
        buckets := buckets[source := Bucket(config.Full(), nowMs, nowMs)];
      }
      var b := buckets[source];
      if nowMs - b.lastRefill > 0 {
        b := b.(tokens := b.tokens + (nowMs - b.lastRefill) * config.rps);
        if b.tokens > config.Full() {
          b := b.(tokens := config.Full());
        }
        b := b.(lastRefill := nowMs);
      }
      b := b.(lastSeen := nowMs);
      allowed := !(b.tokens < 1000);
      if allowed {
        b := b.(tokens := b.tokens - 1000);
      }
      buckets := buckets[source := b];
    }
  }

  // ----- runs -----

  datatype Call = Call(source: string, at: int)

  function Run(c: Config, buckets: map<string, Bucket>, calls: seq<Call>): (passed: seq<bool>)
    ensures |passed| == |calls|
    decreases |calls|
  {
    if calls == [] then []
    else [Passes(c, buckets, calls[0].source, calls[0].at)] +
         Run(c, AfterCall(c, buckets, calls[0].source, calls[0].at), calls[1..])
  }

  function BucketsAfter(c: Config, buckets: map<string, Bucket>, calls: seq<Call>): map<string, Bucket>
    decreases |calls|
  {
    if calls == [] then buckets
    else BucketsAfter(c, AfterCall(c, buckets, calls[0].source, calls[0].at), calls[1..])
  }

  /** The clock never goes back, and starts no earlier than `from`. */
  ghost predicate Timed(calls: seq<Call>, from: int) {
    calls == [] || (from <= calls[0].at && Timed(calls[1..], calls[0].at))
  }

  function Only(calls: seq<Call>, source: string): seq<Call> {
    if calls == [] then []
    else (if calls[0].source == source then [calls[0]] else []) + Only(calls[1..], source)
  }

  function DecisionsFor(calls: seq<Call>, passed: seq<bool>, source: string): seq<bool>
    requires |passed| == |calls|
  {
    if calls == [] then []
    else (if calls[0].source == source then [passed[0]] else []) + DecisionsFor(calls[1..], passed[1..], source)
  }

  function Passed(calls: seq<Call>, passed: seq<bool>, source: string): nat
    requires |passed| == |calls|
  {
    if calls == [] then 0
    else (if calls[0].source == source && passed[0] then 1 else 0) + Passed(calls[1..], passed[1..], source)
  }

  /** Tokens stay between nothing and a full bucket; no bucket has been touched after `now`. */
  ghost predicate Sane(c: Config, buckets: map<string, Bucket>, now: int) {
    forall k :: k in buckets ==>
      0 <= buckets[k].tokens <= c.Full() && buckets[k].lastRefill == buckets[k].lastSeen <= now
  }

  lemma CallKeepsSane(c: Config, buckets: map<string, Bucket>, source: string, before: int, now: int)
    requires c.Valid() && Sane(c, buckets, before) && before <= now
    ensures Sane(c, AfterCall(c, buckets, source, now), now)
  {
    var b := Current(c, buckets, source, now);
    assert now > b.lastRefill ==> (now - b.lastRefill) * c.rps >= 0;
  }

  lemma {:induction false} TokensStayInRange(c: Config, buckets: map<string, Bucket>, calls: seq<Call>, from: int)
    requires c.Valid() && Sane(c, buckets, from) && Timed(calls, from)
    ensures Sane(c, BucketsAfter(c, buckets, calls), if calls == [] then from else calls[|calls| - 1].at)
    decreases |calls|
  {
    if calls != [] {
      CallKeepsSane(c, buckets, calls[0].source, from, calls[0].at);
      TokensStayInRange(c, AfterCall(c, buckets, calls[0].source, calls[0].at), calls[1..], calls[0].at);
    }
  }

  ghost predicate InRange(c: Config, buckets: map<string, Bucket>) {
    forall k :: k in buckets ==> 0 <= buckets[k].tokens <= c.Full()
  }

  /** Stored tokens lie between nothing and a full burst, even if the clock jumps. */
  lemma {:induction false} TokensInRangeAnyClock(c: Config, buckets: map<string, Bucket>, calls: seq<Call>)
    requires c.Valid() && InRange(c, buckets)
    ensures InRange(c, BucketsAfter(c, buckets, calls))
    decreases |calls|
  {
    if calls != [] {
      var b := Current(c, buckets, calls[0].source, calls[0].at);
      assert calls[0].at > b.lastRefill ==> (calls[0].at - b.lastRefill) * c.rps >= 0;
      TokensInRangeAnyClock(c, AfterCall(c, buckets, calls[0].source, calls[0].at), calls[1..]);
    }
  }

  // ----- what a source can observe -----

  /** Tokens a source would find at time `t`. */
  function Level(c: Config, buckets: map<string, Bucket>, source: string, t: int): int {
    Refilled(c, Current(c, buckets, source, t), t).tokens
  }

  /** From `now` on, the source cannot tell the two limiters apart. */
  ghost predicate Alike(c: Config, a: map<string, Bucket>, d: Config, b: map<string, Bucket>, source: string,
                        now: int)
  {
    forall t :: t >= now ==> Level(c, a, source, t) == Level(d, b, source, t)
  }

  /** Limiters with the same rate and burst whose evictions, if they differ, never matter. */
  predicate SameService(c: Config, d: Config) {
    && c.Valid() && d.Valid() && c.rps == d.rps && c.burst == d.burst
    && (c == d || (c.EvictsOnlyFull() && d.EvictsOnlyFull()))
  }

  lemma OthersUnseen(c: Config, buckets: map<string, Bucket>, other: string, source: string, now: int)
    requires other != source
    ensures Alike(c, AfterCall(c, buckets, other, now), c, buckets, source, now)
  {
  }

  lemma MulMono(a: int, b: int, k: int)
    requires a <= b && k >= 0
    ensures a * k <= b * k
  {
  }

  /** An idle source finds the refill since its last call, evicted or not. */
  lemma LevelAfterCall(c: Config, buckets: map<string, Bucket>, source: string, before: int, now: int, t: int)
    requires c.Valid() && Sane(c, buckets, before) && before <= now <= t
    requires c.EvictsOnlyFull()
    ensures var next := AfterCall(c, buckets, source, now);
            Level(c, next, source, t) == Min(next[source].tokens + (t - now) * c.rps, c.Full())
  {
    CallKeepsSane(c, buckets, source, before, now);
    BucketLevel(c, AfterCall(c, buckets, source, now)[source], now, t);
  }

  lemma BucketLevel(c: Config, b: Bucket, now: int, t: int)
    requires c.Valid() && c.EvictsOnlyFull() && 0 <= b.tokens <= c.Full() && b.lastRefill == b.lastSeen == now <= t
    ensures (if Idle(c, b, t) then c.Full() else Refilled(c, b, t).tokens) ==
            Min(b.tokens + (t - now) * c.rps, c.Full())
  {
    if Idle(c, b, t) {
      MulMono(c.ttlMs + 1, t - now, c.rps);
    }
  }

  lemma SameCall(c: Config, a: map<string, Bucket>, d: Config, b: map<string, Bucket>, source: string, before: int,
                 now: int)
    requires SameService(c, d) && Sane(c, a, before) && Sane(d, b, before) && before <= now
    requires Alike(c, a, d, b, source, before)
    ensures Passes(c, a, source, now) == Passes(d, b, source, now)
    ensures Alike(c, AfterCall(c, a, source, now), d, AfterCall(d, b, source, now), source, now)
  {
    assert Level(c, a, source, now) == Level(d, b, source, now);
    assert AfterCall(c, a, source, now)[source] == AfterCall(d, b, source, now)[source];
    forall t | t >= now
      ensures Level(c, AfterCall(c, a, source, now), source, t) == Level(d, AfterCall(d, b, source, now), source, t)
    {
      if c != d {
        LevelAfterCall(c, a, source, before, now, t);
        LevelAfterCall(d, b, source, before, now, t);
      }
    }
  }

  lemma {:induction false} SourceRunsAlone(c: Config, a: map<string, Bucket>, d: Config, b: map<string, Bucket>,
                                           calls: seq<Call>, source: string, from: int)
    requires SameService(c, d) && Sane(c, a, from) && Sane(d, b, from)
    requires Alike(c, a, d, b, source, from) && Timed(calls, from)
    ensures DecisionsFor(calls, Run(c, a, calls), source) == Run(d, b, Only(calls, source))
    decreases |calls|
  {
    if calls != [] {
      var call := calls[0];
      var a' := AfterCall(c, a, call.source, call.at);
      CallKeepsSane(c, a, call.source, from, call.at);
      assert Run(c, a, calls)[1..] == Run(c, a', calls[1..]);
      if call.source == source {
        var b' := AfterCall(d, b, source, call.at);
        SameCall(c, a, d, b, source, from, call.at);
        CallKeepsSane(d, b, source, from, call.at);
        SourceRunsAlone(c, a', d, b', calls[1..], source, call.at);
        assert Only(calls, source)[1..] == Only(calls[1..], source);
      } else {
        OthersUnseen(c, a, call.source, source, call.at);
        SourceRunsAlone(c, a', d, b, calls[1..], source, call.at);
        assert Only(calls, source) == Only(calls[1..], source);
      }
    }
  }

  /** Sources are isolated: one source's decisions are those of a fresh limiter that only ever
      sees this source, although every call sweeps the buckets of all sources. */
  lemma SourcesAreIsolated(c: Config, calls: seq<Call>, source: string, from: int)
    requires c.Valid() && Timed(calls, from)
    ensures DecisionsFor(calls, Run(c, map[], calls), source) == Run(c, map[], Only(calls, source))
  {
    SourceRunsAlone(c, map[], c, map[], calls, source, from);
  }

  // ----- eviction -----

  /** The decisions are determined source by source. */
  lemma {:induction false} DecisionsDetermine(calls: seq<Call>, p: seq<bool>, q: seq<bool>)
    requires |p| == |q| == |calls|
    requires forall s :: DecisionsFor(calls, p, s) == DecisionsFor(calls, q, s)
    ensures p == q
  {
    if calls != [] {
      var s0 := calls[0].source;
      assert DecisionsFor(calls, p, s0)[0] == p[0] && DecisionsFor(calls, q, s0)[0] == q[0];
      forall s ensures DecisionsFor(calls[1..], p[1..], s) == DecisionsFor(calls[1..], q[1..], s) {
        assert DecisionsFor(calls, p, s) == DecisionsFor(calls, q, s);
        if s == s0 {
          assert DecisionsFor(calls, p, s)[1..] == DecisionsFor(calls[1..], p[1..], s);
          assert DecisionsFor(calls, q, s)[1..] == DecisionsFor(calls[1..], q[1..], s);
        } else {
          assert DecisionsFor(calls, p, s) == DecisionsFor(calls[1..], p[1..], s);
          assert DecisionsFor(calls, q, s) == DecisionsFor(calls[1..], q[1..], s);
        }
      }
      DecisionsDetermine(calls[1..], p[1..], q[1..]);
    }
  }

  lemma EvictionUnseen(c: Config, calls: seq<Call>, from: int)
    requires c.Valid() && c.EvictsOnlyFull() && Timed(calls, from)
    ensures Run(c, map[], calls) == Run(c.NeverEvicting(), map[], calls)
  {
    var d := c.NeverEvicting();
    forall s ensures DecisionsFor(calls, Run(c, map[], calls), s) == DecisionsFor(calls, Run(d, map[], calls), s) {
      SourceRunsAlone(c, map[], d, map[], calls, s, from);
      SourceRunsAlone(d, map[], d, map[], calls, s, from);
    }
    DecisionsDetermine(calls, Run(c, map[], calls), Run(d, map[], calls));
  }

  // ----- throughput -----

  function Span(calls: seq<Call>): int {
    if calls == [] then 0 else calls[|calls| - 1].at - calls[0].at
  }

  /** Between two calls a source gains at most `rps` per millisecond. */
  lemma LevelGrowth(c: Config, buckets: map<string, Bucket>, source: string, before: int, t: int, u: int)
    requires c.Valid() && c.EvictsOnlyFull() && Sane(c, buckets, before) && before <= t <= u
    ensures Level(c, buckets, source, u) <= Level(c, buckets, source, t) + (u - t) * c.rps
  {
    MulMono(0, u - t, c.rps);
    if source in buckets {
      var b := buckets[source];
      MulMono(0, t - b.lastSeen, c.rps);
      assert (u - b.lastSeen) * c.rps == (u - t) * c.rps + (t - b.lastSeen) * c.rps;
      if Idle(c, b, u) {
        MulMono(c.ttlMs + 1, u - b.lastSeen, c.rps);
      }
    }
  }

  lemma LevelDrop(c: Config, buckets: map<string, Bucket>, source: string, caller: string, before: int, t: int)
    requires c.Valid() && Sane(c, buckets, before) && before <= t
    ensures Level(c, AfterCall(c, buckets, caller, t), source, t) ==
            Level(c, buckets, source, t) - if caller == source && Passes(c, buckets, caller, t) then 1000 else 0
    ensures Level(c, buckets, source, t) >= 0 && Level(c, AfterCall(c, buckets, caller, t), source, t) >= 0
  {
    CallKeepsSane(c, buckets, caller, before, t);
    if source in buckets {
      MulMono(0, t - buckets[source].lastRefill, c.rps);
    }
  }

  /** What a source is granted over a stretch of calls, plus what it still has, comes out of
      what it had and what it gained meanwhile. */
  lemma {:induction false} TokensAreSpentOnce(c: Config, buckets: map<string, Bucket>, calls: seq<Call>,
                                              source: string, from: int)
    requires c.Valid() && c.EvictsOnlyFull() && Sane(c, buckets, from) && Timed(calls, from) && calls != []
    ensures 1000 * Passed(calls, Run(c, buckets, calls), source) +
            Level(c, BucketsAfter(c, buckets, calls), source, calls[|calls| - 1].at)
         <= Level(c, buckets, source, calls[0].at) + Span(calls) * c.rps
    decreases |calls|
  {
    var call := calls[0];
    var next := AfterCall(c, buckets, call.source, call.at);
    LevelDrop(c, buckets, source, call.source, from, call.at);
    assert Run(c, buckets, calls)[1..] == Run(c, next, calls[1..]);
    if |calls| == 1 {
      assert calls[1..] == [];
    } else {
      CallKeepsSane(c, buckets, call.source, from, call.at);
      TokensAreSpentOnce(c, next, calls[1..], source, call.at);
      LevelGrowth(c, next, source, call.at, call.at, calls[1].at);
      SpanSplit(c, calls);
      assert BucketsAfter(c, buckets, calls) == BucketsAfter(c, next, calls[1..]);
    }
  }

  lemma SpanSplit(c: Config, calls: seq<Call>)
    requires |calls| > 1
    ensures Span(calls) * c.rps == Span(calls[1..]) * c.rps + (calls[1].at - calls[0].at) * c.rps
  {
    var rest := calls[1..];
    assert rest[|rest| - 1] == calls[|calls| - 1];
    assert Span(calls) == Span(rest) + (calls[1].at - calls[0].at);
  }

  lemma LevelIsBounded(c: Config, buckets: map<string, Bucket>, source: string, before: int, t: int)
    requires c.Valid() && Sane(c, buckets, before) && before <= t
    ensures 0 <= Level(c, buckets, source, t) <= c.Full()
  {
    if source in buckets {
      MulMono(0, t - buckets[source].lastRefill, c.rps);
    }
  }

  predicate WithinBudget(c: Config, earlier: seq<Call>, window: seq<Call>, source: string) {
    1000 * Passed(window, Run(c, BucketsAfter(c, map[], earlier), window), source)
      <= 1000 * c.burst + Span(window) * c.rps
  }

  /** In any window of a run, a source is granted at most a full burst plus the refill of the window. */
  lemma ThroughputBound(c: Config, earlier: seq<Call>, window: seq<Call>, source: string, from: int)
    requires c.Valid() && c.EvictsOnlyFull() && Timed(earlier + window, from)
    ensures WithinBudget(c, earlier, window, source)
  {
    TimedSplit(earlier, window, from);
    TokensStayInRange(c, map[], earlier, from);
    WindowBound(c, BucketsAfter(c, map[], earlier), window, source,
                if earlier == [] then from else earlier[|earlier| - 1].at);
  }

  lemma WindowBound(c: Config, buckets: map<string, Bucket>, window: seq<Call>, source: string, start: int)
    requires c.Valid() && c.EvictsOnlyFull() && Sane(c, buckets, start) && Timed(window, start)
    ensures 1000 * Passed(window, Run(c, buckets, window), source) <= 1000 * c.burst + Span(window) * c.rps
  {
    if window != [] {
      var end, after := window[|window| - 1].at, BucketsAfter(c, buckets, window);
      TokensStayInRange(c, buckets, window, start);
      TimedRises(window, start);
      TokensAreSpentOnce(c, buckets, window, source, start);
      assert Level(c, buckets, source, window[0].at) <= c.Full() by {
        LevelIsBounded(c, buckets, source, start, window[0].at);
      }
      assert Level(c, after, source, end) >= 0 by {
        LevelIsBounded(c, after, source, end, end);
      }
    } else {
      assert Span(window) * c.rps == 0;
    }
  }

  lemma {:induction false} TimedSplit(a: seq<Call>, b: seq<Call>, from: int)
    requires Timed(a + b, from)
    ensures Timed(a, from) && Timed(b, if a == [] then from else a[|a| - 1].at)
  {
    if a == [] {
      assert a + b == b;
    } else {
      assert (a + b)[1..] == a[1..] + b;
      TimedSplit(a[1..], b, a[0].at);
    }
  }

  lemma {:induction false} TimedJoin(a: seq<Call>, b: seq<Call>, from: int)
    requires Timed(a, from) && Timed(b, if a == [] then from else a[|a| - 1].at)
    ensures Timed(a + b, from)
  {
    if a == [] {
      assert a + b == b;
    } else {
      assert (a + b)[1..] == a[1..] + b;
      TimedJoin(a[1..], b, a[0].at);
    }
  }

  lemma {:induction false} TimedRises(calls: seq<Call>, from: int)
    requires Timed(calls, from) && calls != []
    ensures from <= calls[0].at <= calls[|calls| - 1].at
  {
    if |calls| > 1 {
      TimedRises(calls[1..], calls[0].at);
    }
  }

  // ----- the condition is exact -----

  function Volley(source: string, at: int, n: nat): seq<Call> {
    seq(n, i => Call(source, at))
  }

  lemma {:induction false} VolleyIsTimed(source: string, at: int, n: nat, from: int)
    requires from <= at
    ensures Timed(Volley(source, at, n), from)
  {
    if n > 0 {
      assert Volley(source, at, n)[1..] == Volley(source, at, n - 1);
      VolleyIsTimed(source, at, n - 1, at);
    }
  }

  /** Simultaneous calls drain the level one call at a time. */
  lemma {:induction false} VolleyDrains(c: Config, buckets: map<string, Bucket>, source: string, before: int,
                                        at: int, n: nat)
    requires c.Valid() && Sane(c, buckets, before) && before <= at
    requires Level(c, buckets, source, at) >= 1000 * n
    ensures var calls := Volley(source, at, n);
            && Passed(calls, Run(c, buckets, calls), source) == n
            && Level(c, BucketsAfter(c, buckets, calls), source, at) == Level(c, buckets, source, at) - 1000 * n
            && (n > 0 ==> source in BucketsAfter(c, buckets, calls) &&
                          BucketsAfter(c, buckets, calls)[source].lastSeen == at)
            && Sane(c, BucketsAfter(c, buckets, calls), at)
    decreases n
  {
    var calls := Volley(source, at, n);
    if n > 0 {
      var next := AfterCall(c, buckets, source, at);
      assert calls[0] == Call(source, at) && calls[1..] == Volley(source, at, n - 1);
      CallKeepsSane(c, buckets, source, before, at);
      LevelDrop(c, buckets, source, source, before, at);
      VolleyDrains(c, next, source, at, at, n - 1);
      assert Run(c, buckets, calls)[1..] == Run(c, next, calls[1..]);
    }
  }

  lemma {:induction false} PassedConcat(c: Config, buckets: map<string, Bucket>, a: seq<Call>, b: seq<Call>,
                                        source: string)
    ensures Passed(a + b, Run(c, buckets, a + b), source) ==
            Passed(a, Run(c, buckets, a), source) + Passed(b, Run(c, BucketsAfter(c, buckets, a), b), source)
    decreases |a|
  {
    if a == [] {
      assert a + b == b;
    } else {
      var next := AfterCall(c, buckets, a[0].source, a[0].at);
      assert (a + b)[1..] == a[1..] + b;
      assert Run(c, buckets, a + b)[1..] == Run(c, next, a[1..] + b);
      assert Run(c, buckets, a)[1..] == Run(c, next, a[1..]);
      PassedConcat(c, next, a[1..], b, source);
    }
  }

  /** Two full volleys just over the idle limit apart. */
  function Overdraw(c: Config): seq<Call>
    requires c.Valid()
  {
    Volley("s", 0, c.burst) + Volley("s", c.ttlMs + 1, c.burst)
  }

  lemma OverdrawIsTimed(c: Config)
    requires c.Valid() && c.ttlMs > 0
    ensures Timed(Overdraw(c), 0) && Span(Overdraw(c)) == c.ttlMs + 1
  {
    VolleyIsTimed("s", 0, c.burst, 0);
    VolleyIsTimed("s", c.ttlMs + 1, c.burst, 0);
    TimedJoin(Volley("s", 0, c.burst), Volley("s", c.ttlMs + 1, c.burst), 0);
  }

  lemma FirstVolley(c: Config, source: string)
    requires c.Valid()
    ensures var one := Volley(source, 0, c.burst);
            var buckets := BucketsAfter(c, map[], one);
            && Passed(one, Run(c, map[], one), source) == c.burst
            && source in buckets && buckets[source].lastSeen == 0 && Sane(c, buckets, 0)
  {
    assert Level(c, map[], source, 0) == c.Full();
    VolleyDrains(c, map[], source, 0, 0, c.burst);
  }

  /** A bucket that has just been evicted serves a full volley again. */
  lemma SecondVolley(c: Config, buckets: map<string, Bucket>, source: string, at: int)
    requires c.Valid() && Sane(c, buckets, 0) && 0 <= at && source in buckets && Idle(c, buckets[source], at)
    ensures Passed(Volley(source, at, c.burst), Run(c, buckets, Volley(source, at, c.burst)), source) == c.burst
  {
    assert Level(c, buckets, source, at) == c.Full();
    VolleyDrains(c, buckets, source, 0, at, c.burst);
  }

  lemma OverdrawPasses(c: Config)
    requires c.Valid() && !c.EvictsOnlyFull()
    ensures Passed(Overdraw(c), Run(c, map[], Overdraw(c)), "s") == 2 * c.burst
  {
    var source, at := "s", c.ttlMs + 1;
    var one := Volley(source, 0, c.burst);
    FirstVolley(c, source);
    SecondVolley(c, BucketsAfter(c, map[], one), source, at);
    PassedConcat(c, map[], one, Volley(source, at, c.burst), source);
  }

  /** On this run, evicting and not evicting decide alike. */
  ghost predicate EvictionUnseenIn(c: Config, calls: seq<Call>, from: int) {
    Timed(calls, from) ==> Run(c, map[], calls) == Run(c.NeverEvicting(), map[], calls)
  }

  ghost predicate BoundedIn(c: Config, earlier: seq<Call>, window: seq<Call>, source: string, from: int) {
    Timed(earlier + window, from) ==> WithinBudget(c, earlier, window, source)
  }

  lemma OverdrawExceeds(c: Config)
    requires c.Valid() && !c.EvictsOnlyFull()
    ensures !BoundedIn(c, [], Overdraw(c), "s", 0)
  {
    OverdrawIsTimed(c);
    OverdrawPasses(c);
    assert [] + Overdraw(c) == Overdraw(c);
    assert BucketsAfter(c, map[], []) == map[];
  }

  lemma OverdrawIsSeen(c: Config)
    requires c.Valid() && !c.EvictsOnlyFull()
    ensures !EvictionUnseenIn(c, Overdraw(c), 0)
  {
    OverdrawIsTimed(c);
    OverdrawExceeds(c);
    ThroughputBound(c.NeverEvicting(), [], Overdraw(c), "s", 0);
    assert [] + Overdraw(c) == Overdraw(c);
    assert BucketsAfter(c.NeverEvicting(), map[], []) == map[];
  }

  /** Eviction never changes a decision, in any run whose clock does not go back, exactly when
      only buckets that would be full again are evicted. */
  lemma EvictionInvisibleIff(c: Config)
    requires c.Valid()
    ensures c.EvictsOnlyFull() <==> forall calls, from :: EvictionUnseenIn(c, calls, from)
  {
    if c.EvictsOnlyFull() {
      forall calls, from ensures EvictionUnseenIn(c, calls, from) {
        if Timed(calls, from) {
          EvictionUnseen(c, calls, from);
        }
      }
    } else {
      OverdrawIsSeen(c);
    }
  }

  /** The throughput bound holds in every window of every run under exactly the same condition. */
  lemma ThroughputBoundIff(c: Config)
    requires c.Valid()
    ensures c.EvictsOnlyFull() <==>
            forall earlier, window, source, from :: BoundedIn(c, earlier, window, source, from)
  {
    if c.EvictsOnlyFull() {
      forall earlier, window, source, from ensures BoundedIn(c, earlier, window, source, from) {
        if Timed(earlier + window, from) {
          ThroughputBound(c, earlier, window, source, from);
        }
      }
    } else {
      OverdrawExceeds(c);
    }
  }
}
