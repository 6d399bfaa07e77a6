/**
 Forwarding of external names: per-upstream health with exponential cooldown, the ranking
 of upstreams for one query, and the attempt loop. Times are in milliseconds; streak
 counters are unbounded.
 */
module Forwarding {
  import opened Sorting

  const MAX_ATTEMPTS := 3
  const BACKOFF_BASE := 250
  const BACKOFF_MAX := 5000

  datatype Upstream = Upstream(lastSuccess: int, lastFailure: int, successStreak: nat, failureStreak: nat,
                               cooldownUntil: int)

  const UNTRIED := Upstream(0, 0, 0, 0, 0)

  datatype Candidate = Candidate(addr: string, st: Upstream)

  function Pow2(n: nat): nat { if n == 0 then 1 else 2 * Pow2(n - 1) }

  /** min(5000, 250 * 2^(n-1)), and nothing without failures. */
  function Backoff(streak: nat): nat {
    if streak == 0 then 0
    else if BACKOFF_BASE * Pow2(streak - 1) < BACKOFF_MAX then BACKOFF_BASE * Pow2(streak - 1) else BACKOFF_MAX
  }

  lemma {:induction false} Pow2Mono(a: nat, b: nat)
    requires a <= b
    ensures 1 <= Pow2(a) <= Pow2(b)
    decreases b
  {
    if b > 0 {
      Pow2Mono(if a == b then a - 1 else a, b - 1);
    }
  }

  lemma BackoffMonotone(a: nat, b: nat)
    requires a <= b
    ensures Backoff(a) <= Backoff(b) <= BACKOFF_MAX
  {
    if a > 0 {
      Pow2Mono(a - 1, b - 1);
    }
  }

  /** The first failure costs 250 ms, and each further one doubles that up to 5000 ms. */
  lemma BackoffDoubles(n: nat)
    ensures Backoff(0) == 0 && Backoff(1) == 250
    ensures n > 0 ==> Backoff(n + 1) == if 2 * Backoff(n) < 5000 then 2 * Backoff(n) else 5000
  {
    if n > 0 {
      assert Pow2(n) == 2 * Pow2(n - 1);
    }
  }

  method BackoffDuration(failureStreak: nat) returns (backoff: nat)
    ensures backoff == Backoff(failureStreak)
  {
    if failureStreak == 0 {
      return 0;
    }
    backoff := BACKOFF_BASE;
    var i := 1;
    while i < failureStreak
      invariant 1 <= i <= failureStreak
      invariant backoff == BACKOFF_BASE * Pow2(i - 1)
    {
      backoff := backoff * 2;
      if backoff >= BACKOFF_MAX {
        Pow2Mono(i, failureStreak - 1);
        return BACKOFF_MAX;
      }
      i := i + 1;
    }
    if backoff > BACKOFF_MAX {
      return BACKOFF_MAX;
    }
  }

  function Lookup(pool: map<string, Upstream>, addr: string): Upstream {
    if addr in pool then pool[addr] else UNTRIED
  }

  function Succeeded(st: Upstream, now: int): Upstream {
    st.(lastSuccess := now, successStreak := st.successStreak + 1, failureStreak := 0, cooldownUntil := 0)
  }

  function Failed(st: Upstream, now: int): Upstream {
    st.(lastFailure := now, failureStreak := st.failureStreak + 1, successStreak := 0,
        cooldownUntil := now + Backoff(st.failureStreak + 1))
  }

  // ----- histories -----

  datatype Outcome = Success(at: int) | Failure(at: int)

  /** An upstream after a history of outcomes, latest last. */
  function StateAfter(history: seq<Outcome>): Upstream {
    if history == [] then UNTRIED
    else var st := StateAfter(history[..|history| - 1]);
         match history[|history| - 1]
         case Success(at) => Succeeded(st, at)
         case Failure(at) => Failed(st, at)
  }

  /** How many outcomes at the end of the history are of one kind. */
  function Trailing(history: seq<Outcome>, failures: bool): nat {
    if history != [] && history[|history| - 1].Failure? == failures
    then 1 + Trailing(history[..|history| - 1], failures) else 0
  }

  /** Time of the latest outcome of one kind, 0 when there is none. */
  function Latest(history: seq<Outcome>, failures: bool): int {
    if history == [] then 0
    else var last := history[|history| - 1];
         if last.Failure? == failures then last.at else Latest(history[..|history| - 1], failures)
  }

  /** Every history leaves an upstream in the state its latest outcomes describe: the streaks
      count the outcomes at the end, so they are never both positive, and the cooldown runs
      from the last failure by the capped power of two of the failure streak. */
  lemma {:induction false} HealthReflectsHistory(history: seq<Outcome>)
    ensures var st := StateAfter(history);
            var failed := Trailing(history, true);
            && st.failureStreak == failed && st.successStreak == Trailing(history, false)
            && !(st.failureStreak > 0 && st.successStreak > 0)
            && st.lastSuccess == Latest(history, false) && st.lastFailure == Latest(history, true)
            && st.cooldownUntil == if failed == 0 then 0 else Latest(history, true) + Backoff(failed)
  {
    if history != [] {
      HealthReflectsHistory(history[..|history| - 1]);
    }
  }

  /** One recorded exchange with an upstream. */
  datatype Exchange = Exchange(addr: string, outcome: Outcome)

  function Recorded(pool: map<string, Upstream>, e: Exchange): map<string, Upstream> {
    pool[e.addr := match e.outcome
                   case Success(at) => Succeeded(Lookup(pool, e.addr), at)
                   case Failure(at) => Failed(Lookup(pool, e.addr), at)]
  }

  function PoolAfter(pool: map<string, Upstream>, exchanges: seq<Exchange>): map<string, Upstream> {
    if exchanges == [] then pool
    else Recorded(PoolAfter(pool, exchanges[..|exchanges| - 1]), exchanges[|exchanges| - 1])
  }

  function HistoryOf(exchanges: seq<Exchange>, addr: string): seq<Outcome> {
    if exchanges == [] then []
    else HistoryOf(exchanges[..|exchanges| - 1], addr) +
         if exchanges[|exchanges| - 1].addr == addr then [exchanges[|exchanges| - 1].outcome] else []
  }

  /** Interleaved exchanges leave every upstream in the state of its own history. */
  lemma {:induction false} UpstreamsAreIndependent(exchanges: seq<Exchange>, addr: string)
    ensures Lookup(PoolAfter(map[], exchanges), addr) == StateAfter(HistoryOf(exchanges, addr))
  {
    if exchanges != [] {
      var k := |exchanges| - 1;
      UpstreamsAreIndependent(exchanges[..k], addr);
      if exchanges[k].addr == addr {
        var before := HistoryOf(exchanges[..k], addr);
        assert (before + [exchanges[k].outcome])[..|before|] == before;
      } else {
        assert HistoryOf(exchanges, addr) == HistoryOf(exchanges[..k], addr);
      }
    }
  }

  // ----- ranking -----

  predicate Cooling(st: Upstream, now: int) { st.cooldownUntil > now }

  function Candidates(addrs: seq<string>, pool: map<string, Upstream>, now: int, cooling: bool): seq<Candidate> {
    if addrs == [] then []
    else var k := |addrs| - 1;
         Candidates(addrs[..k], pool, now, cooling) +
         if Cooling(Lookup(pool, addrs[k]), now) == cooling then [Candidate(addrs[k], Lookup(pool, addrs[k]))] else []
  }

  predicate Healthier(a: Candidate, b: Candidate) {
    a.st.failureStreak < b.st.failureStreak ||
    (a.st.failureStreak == b.st.failureStreak && a.st.lastSuccess >= b.st.lastSuccess)
  }

  predicate ReadySooner(a: Candidate, b: Candidate) { a.st.cooldownUntil <= b.st.cooldownUntil }

  lemma OrdersAreTotal()
    ensures TotalPreorder(Healthier) && TotalPreorder(ReadySooner)
  {
  }

  /** `out` ranks the upstreams: first those not cooling, stably by failure streak and latest
      success; then, only when fewer than three of those, the cooling ones, stably by expiry. */
  ghost predicate Ranks(out: seq<Candidate>, addrs: seq<string>, pool: map<string, Upstream>, now: int) {
    exists active, cooling ::
      && StableSortOf(active, Candidates(addrs, pool, now, false), Healthier)
      && StableSortOf(cooling, Candidates(addrs, pool, now, true), ReadySooner)
      && out == active + if |active| < MAX_ATTEMPTS then cooling else []
  }

  lemma {:induction false} CandidatesPartition(addrs: seq<string>, pool: map<string, Upstream>, now: int)
    ensures |Candidates(addrs, pool, now, false)| + |Candidates(addrs, pool, now, true)| == |addrs|
    ensures forall c, k :: c in Candidates(addrs, pool, now, k) ==>
              c.addr in addrs && c.st == Lookup(pool, c.addr) && Cooling(c.st, now) == k
  {
    if addrs != [] {
      CandidatesPartition(addrs[..|addrs| - 1], pool, now);
    }
  }

  /** A sorted group holds the upstreams of its kind and no others. */
  lemma GroupIsOfOneKind(group: seq<Candidate>, addrs: seq<string>, pool: map<string, Upstream>, now: int, k: bool)
    requires multiset(group) == multiset(Candidates(addrs, pool, now, k))
    ensures |group| == |Candidates(addrs, pool, now, k)|
    ensures forall c :: c in group ==> c.addr in addrs && c.st == Lookup(pool, c.addr) && Cooling(c.st, now) == k
  {
    CandidatesPartition(addrs, pool, now);
    SameMembers(group, Candidates(addrs, pool, now, k));
  }

  lemma PartsOfRanking(out: seq<Candidate>, addrs: seq<string>, pool: map<string, Upstream>, now: int)
      returns (active: seq<Candidate>, cooling: seq<Candidate>)
    requires Ranks(out, addrs, pool, now)
    ensures StableSortOf(active, Candidates(addrs, pool, now, false), Healthier)
    ensures StableSortOf(cooling, Candidates(addrs, pool, now, true), ReadySooner)
    ensures out == active + if |active| < MAX_ATTEMPTS then cooling else []
  {
    active, cooling :|
      && StableSortOf(active, Candidates(addrs, pool, now, false), Healthier)
      && StableSortOf(cooling, Candidates(addrs, pool, now, true), ReadySooner)
      && out == active + if |active| < MAX_ATTEMPTS then cooling else [];
  }

  // ----- the ranking, field by field -----

  /** The upstream `a`, given at position `i`, is to be tried before `b`, given at position `j`. */
  predicate Before(a: Upstream, i: nat, b: Upstream, j: nat, now: int) {
    if a.cooldownUntil > now then
      b.cooldownUntil > now && (a.cooldownUntil < b.cooldownUntil || (a.cooldownUntil == b.cooldownUntil && i < j))
    else
      || b.cooldownUntil > now
      || a.failureStreak < b.failureStreak
      || (a.failureStreak == b.failureStreak &&
          (a.lastSuccess > b.lastSuccess || (a.lastSuccess == b.lastSuccess && i < j)))
  }

  /** The candidate is the address at position `i`, as the pool knows it. */
  predicate Offers(c: Candidate, i: nat, addrs: seq<string>, pool: map<string, Upstream>) {
    i < |addrs| && c.addr == addrs[i] && c.st == if addrs[i] in pool then pool[addrs[i]] else UNTRIED
  }

  /** `out` offers the addresses at the positions `p`, each once, in the order to be tried. */
  ghost predicate RankedBy(p: seq<nat>, out: seq<Candidate>, addrs: seq<string>, pool: map<string, Upstream>, now: int)
  {
    && |p| == |out|
    && (forall i :: 0 <= i < |p| ==> Offers(out[i], p[i], addrs, pool))
    && (forall i, j :: 0 <= i < j < |p| ==> p[i] != p[j] && Before(out[i].st, p[i], out[j].st, p[j], now))
  }

  /** An address is passed over only when it is cooling and three that are not are offered, and then
      every cooling one is. */
  ghost predicate OffersEnough(p: seq<nat>, out: seq<Candidate>, addrs: seq<string>, pool: map<string, Upstream>,
                               now: int)
    requires |p| == |out|
  {
    && (forall k :: 0 <= k < |addrs| && k !in p ==>
          && (if addrs[k] in pool then pool[addrs[k]] else UNTRIED).cooldownUntil > now
          && |out| >= 3 && forall i :: 0 <= i < |out| ==> out[i].st.cooldownUntil <= now)
    && (|out| >= 3 && out[2].st.cooldownUntil <= now ==>
          forall i :: 0 <= i < |out| ==> out[i].st.cooldownUntil <= now)
  }

  /** Positions at which the flags are `k`, in order. */
  function Where(flags: seq<bool>, k: bool): seq<nat> {
    if flags == [] then []
    else var n := |flags| - 1; Where(flags[..n], k) + if flags[n] == k then [n] else []
  }

  lemma {:induction false} WhereFinds(flags: seq<bool>, k: bool)
    ensures forall c :: 0 <= c < |Where(flags, k)| ==> Where(flags, k)[c] < |flags|
    ensures forall c, d :: 0 <= c < d < |Where(flags, k)| ==> Where(flags, k)[c] < Where(flags, k)[d]
    ensures forall i :: 0 <= i < |flags| ==> (i in Where(flags, k) <==> flags[i] == k)
  {
    if flags != [] {
      WhereFinds(flags[..|flags| - 1], k);
    }
  }

  function Kinds(addrs: seq<string>, pool: map<string, Upstream>, now: int): seq<bool> {
    seq(|addrs|, i requires 0 <= i < |addrs| => Cooling(Lookup(pool, addrs[i]), now))
  }

  lemma {:induction false} CandidatesAt(addrs: seq<string>, pool: map<string, Upstream>, now: int, k: bool)
    ensures var q, cs := Where(Kinds(addrs, pool, now), k), Candidates(addrs, pool, now, k);
            |q| == |cs| && forall c :: 0 <= c < |q| ==>
              q[c] < |addrs| && cs[c] == Candidate(addrs[q[c]], Lookup(pool, addrs[q[c]]))
  {
    if addrs != [] {
      var n := |addrs| - 1;
      CandidatesAt(addrs[..n], pool, now, k);
      assert Kinds(addrs, pool, now)[..n] == Kinds(addrs[..n], pool, now);
    }
  }

  /** Positions of a stable sort of some entries, among all entries. */
  lemma PositionsAmongAll<T>(r: seq<nat>, group: seq<T>, xs: seq<T>, le: (T, T) -> bool, q: seq<nat>)
      returns (p: seq<nat>)
    requires StablySorted(r, group, xs, le) && |q| == |xs| && forall c, d :: 0 <= c < d < |q| ==> q[c] < q[d]
    ensures |p| == |group| && forall i :: 0 <= i < |p| ==> r[i] < |q| && p[i] == q[r[i]]
    ensures forall i, j :: 0 <= i < j < |p| ==> p[i] != p[j] && (le(group[j], group[i]) ==> p[i] < p[j])
    ensures forall i :: i in p <==> i in q
  {
    p := seq(|r|, i requires 0 <= i < |r| => q[r[i]]);
    forall i, j | 0 <= i < j < |p| ensures p[i] != p[j] && (le(group[j], group[i]) ==> p[i] < p[j]) {
      assert r[i] < r[j] || r[j] < r[i];
    }
    forall i | i in q ensures i in p {
      var c :| 0 <= c < |q| && q[c] == i;
      assert c in r;
      var d :| 0 <= d < |r| && r[d] == c;
      assert p[d] == i;
    }
  }

  /** A sorted group, with the position of each of its upstreams among the addresses. */
  lemma GroupPositions(group: seq<Candidate>, addrs: seq<string>, pool: map<string, Upstream>, now: int, k: bool,
                       le: (Candidate, Candidate) -> bool)
      returns (p: seq<nat>)
    requires StableSortOf(group, Candidates(addrs, pool, now, k), le)
    ensures |p| == |group| && Sorted(group, le)
    ensures forall i :: 0 <= i < |p| ==> Offers(group[i], p[i], addrs, pool)
    ensures forall i, j :: 0 <= i < j < |p| ==> p[i] != p[j] && (le(group[j], group[i]) ==> p[i] < p[j])
    ensures forall i :: 0 <= i < |addrs| ==> (i in p <==> Cooling(Lookup(pool, addrs[i]), now) == k)
  {
    var xs, q := Candidates(addrs, pool, now, k), Where(Kinds(addrs, pool, now), k);
    CandidatesAt(addrs, pool, now, k);
    WhereFinds(Kinds(addrs, pool, now), k);
    var r :| StablySorted(r, group, xs, le);
    p := PositionsAmongAll(r, group, xs, le, q);
  }

  /** Every ranking, on the fields of the upstreams alone: ready ones come first, by the shorter
      failure streak, the later success and the earlier position; cooling ones follow by the earlier
      expiry and position, and only when fewer than three are ready; and nothing else is left out. */
  lemma RankingOrder(out: seq<Candidate>, addrs: seq<string>, pool: map<string, Upstream>, now: int)
      returns (p: seq<nat>)
    requires Ranks(out, addrs, pool, now)
    ensures RankedBy(p, out, addrs, pool, now) && OffersEnough(p, out, addrs, pool, now)
  {
    var active, cooling := PartsOfRanking(out, addrs, pool, now);
    var pa := GroupPositions(active, addrs, pool, now, false, Healthier);
    var pc := GroupPositions(cooling, addrs, pool, now, true, ReadySooner);
    p := pa + if |active| < MAX_ATTEMPTS then pc else [];
    ActiveOrder(pa, active, addrs, pool, now);
    CoolingOrder(pc, cooling, addrs, pool, now);
    if |active| < MAX_ATTEMPTS {
      JoinedOrder(pa, active, pc, cooling, addrs, pool, now);
      BothOffered(pa, pc, out, addrs, pool, now);
    } else {
      assert p == pa && out == active;
      ReadyOnly(pa, active, addrs, pool, now);
    }
  }

  ghost predicate TriedInOrder(out: seq<Candidate>, addrs: seq<string>, pool: map<string, Upstream>, now: int) {
    exists p :: RankedBy(p, out, addrs, pool, now) && OffersEnough(p, out, addrs, pool, now)
  }

  lemma RankingIsInOrder(out: seq<Candidate>, addrs: seq<string>, pool: map<string, Upstream>, now: int)
    requires Ranks(out, addrs, pool, now)
    ensures TriedInOrder(out, addrs, pool, now)
  {
    var p := RankingOrder(out, addrs, pool, now);
  }

  lemma ReadyOnly(p: seq<nat>, active: seq<Candidate>, addrs: seq<string>, pool: map<string, Upstream>, now: int)
    requires RankedBy(p, active, addrs, pool, now) && |active| >= MAX_ATTEMPTS
    requires forall i :: 0 <= i < |addrs| ==> (i in p <==> Cooling(Lookup(pool, addrs[i]), now) == false)
    ensures OffersEnough(p, active, addrs, pool, now)
  {
    forall i | 0 <= i < |active| ensures active[i].st.cooldownUntil <= now {
      assert p[i] in p && Offers(active[i], p[i], addrs, pool);
    }
  }

  lemma ActiveOrder(p: seq<nat>, active: seq<Candidate>, addrs: seq<string>, pool: map<string, Upstream>, now: int)
    requires |p| == |active| && Sorted(active, Healthier)
    requires forall i :: 0 <= i < |p| ==> Offers(active[i], p[i], addrs, pool)
    requires forall i, j :: 0 <= i < j < |p| ==> p[i] != p[j] && (Healthier(active[j], active[i]) ==> p[i] < p[j])
    requires forall i :: 0 <= i < |addrs| ==> (i in p <==> Cooling(Lookup(pool, addrs[i]), now) == false)
    ensures RankedBy(p, active, addrs, pool, now)
  {
    forall i, j | 0 <= i < j < |p| ensures Before(active[i].st, p[i], active[j].st, p[j], now) {
      assert p[i] in p && p[j] in p && Healthier(active[i], active[j]);
    }
  }

  lemma CoolingOrder(p: seq<nat>, cooling: seq<Candidate>, addrs: seq<string>, pool: map<string, Upstream>, now: int)
    requires |p| == |cooling| && Sorted(cooling, ReadySooner)
    requires forall i :: 0 <= i < |p| ==> Offers(cooling[i], p[i], addrs, pool)
    requires forall i, j :: 0 <= i < j < |p| ==> p[i] != p[j] && (ReadySooner(cooling[j], cooling[i]) ==> p[i] < p[j])
    requires forall i :: 0 <= i < |addrs| ==> (i in p <==> Cooling(Lookup(pool, addrs[i]), now) == true)
    ensures RankedBy(p, cooling, addrs, pool, now)
  {
    forall i, j | 0 <= i < j < |p| ensures Before(cooling[i].st, p[i], cooling[j].st, p[j], now) {
      assert p[i] in p && p[j] in p && ReadySooner(cooling[i], cooling[j]);
    }
  }

  lemma JoinedOrder(pa: seq<nat>, active: seq<Candidate>, pc: seq<nat>, cooling: seq<Candidate>, addrs: seq<string>,
                    pool: map<string, Upstream>, now: int)
    requires RankedBy(pa, active, addrs, pool, now) && RankedBy(pc, cooling, addrs, pool, now)
    requires forall i :: 0 <= i < |addrs| ==> (i in pa <==> Cooling(Lookup(pool, addrs[i]), now) == false)
    requires forall i :: 0 <= i < |addrs| ==> (i in pc <==> Cooling(Lookup(pool, addrs[i]), now) == true)
    ensures RankedBy(pa + pc, active + cooling, addrs, pool, now)
  {
    var p, out := pa + pc, active + cooling;
    forall i | 0 <= i < |p| ensures Offers(out[i], p[i], addrs, pool) && (Cooling(out[i].st, now) <==> i >= |pa|) {
      if i < |pa| {
        assert pa[i] in pa && Offers(active[i], pa[i], addrs, pool);
      } else {
        assert pc[i - |pa|] in pc && Offers(cooling[i - |pa|], pc[i - |pa|], addrs, pool);
      }
    }
    forall i, j | 0 <= i < j < |p| ensures p[i] != p[j] && Before(out[i].st, p[i], out[j].st, p[j], now) {
      if i >= |pa| {
        assert p[i] == pc[i - |pa|] && p[j] == pc[j - |pa|];
      }
    }
  }

  lemma BothOffered(pa: seq<nat>, pc: seq<nat>, out: seq<Candidate>, addrs: seq<string>, pool: map<string, Upstream>,
                    now: int)
    requires |out| == |pa + pc| && |pa| < MAX_ATTEMPTS
    requires forall i :: 0 <= i < |out| ==> Offers(out[i], (pa + pc)[i], addrs, pool)
    requires forall i :: 0 <= i < |addrs| ==> (i in pa <==> Cooling(Lookup(pool, addrs[i]), now) == false)
    requires forall i :: 0 <= i < |addrs| ==> (i in pc <==> Cooling(Lookup(pool, addrs[i]), now) == true)
    ensures OffersEnough(pa + pc, out, addrs, pool, now)
  {
    forall k | 0 <= k < |addrs| ensures k in pa + pc {
      assert k in pa || k in pc;
    }
    if |out| >= 3 {
      assert (pa + pc)[2] in pc && Offers(out[2], (pa + pc)[2], addrs, pool);
    }
  }

  /** Any ranking of a nonempty address list has a candidate, offers at least as many as can be
      tried or every address, and puts no cooling upstream before one that is not. */
  lemma RankingIsSafe(out: seq<Candidate>, addrs: seq<string>, pool: map<string, Upstream>, now: int)
    requires Ranks(out, addrs, pool, now)
    ensures addrs != [] ==> out != []
    ensures |out| == |addrs| || |out| >= 3
    ensures forall i, j :: 0 <= i < j < |out| && Cooling(out[i].st, now) ==> Cooling(out[j].st, now)
    ensures forall c :: c in out ==> c.addr in addrs && c.st == Lookup(pool, c.addr)
  {
    var active, cooling := PartsOfRanking(out, addrs, pool, now);
    CandidatesPartition(addrs, pool, now);
    StableIsPermutation(active, Candidates(addrs, pool, now, false), Healthier);
    StableIsPermutation(cooling, Candidates(addrs, pool, now, true), ReadySooner);
    GroupIsOfOneKind(active, addrs, pool, now, false);
    GroupIsOfOneKind(cooling, addrs, pool, now, true);
    ReadyFirst(active, if |active| < MAX_ATTEMPTS then cooling else [], now);
  }

  lemma SomeCandidate(out: seq<Candidate>, addrs: seq<string>, pool: map<string, Upstream>, now: int)
    requires Ranks(out, addrs, pool, now) && addrs != []
    ensures out != []
  {
    RankingIsSafe(out, addrs, pool, now);
  }

  lemma ReadyFirst(ready: seq<Candidate>, cooling: seq<Candidate>, now: int)
    requires forall c :: c in ready ==> !Cooling(c.st, now)
    requires forall c :: c in cooling ==> Cooling(c.st, now)
    ensures var out := ready + cooling;
            forall i, j :: 0 <= i < j < |out| && Cooling(out[i].st, now) ==> Cooling(out[j].st, now)
  {
    var out := ready + cooling;
    forall i | 0 <= i < |out| ensures Cooling(out[i].st, now) <==> i >= |ready| {
      if i < |ready| {
        assert out[i] in ready;
      } else {
        assert out[i] in cooling;
      }
    }
  }

  lemma StableIsPermutation<T>(ys: seq<T>, xs: seq<T>, le: (T, T) -> bool)
    requires StableSortOf(ys, xs, le)
    ensures multiset(ys) == multiset(xs)
  {
    var p :| StablySorted(p, ys, xs, le);
  }

  lemma SameMembers<T>(sorted: seq<T>, xs: seq<T>)
    requires multiset(sorted) == multiset(xs)
    ensures |sorted| == |xs| && forall x :: x in sorted ==> x in xs
  {
    assert |sorted| == |multiset(sorted)| == |xs|;
    forall x | x in sorted ensures x in xs {
      assert x in multiset(sorted);
    }
  }

  lemma NothingRanks(addrs: seq<string>, pool: map<string, Upstream>, now: int)
    requires addrs == []
    ensures Ranks([], addrs, pool, now)
  {
    NothingSorts<Candidate>(Healthier);
    NothingSorts<Candidate>(ReadySooner);
    var none: seq<Candidate> := [];
    assert Candidates(addrs, pool, now, false) == none && Candidates(addrs, pool, now, true) == none;
    assert StableSortOf(none, Candidates(addrs, pool, now, false), Healthier);
    assert StableSortOf(none, Candidates(addrs, pool, now, true), ReadySooner);
    assert none == none + if |none| < MAX_ATTEMPTS then none else [];
  }

  lemma NothingSorts<T>(le: (T, T) -> bool)
    ensures StableSortOf([], [], le)
  {
    var none: seq<T> := [];
    assert StablySorted([], none, none, le);
  }

  /** An upstream entered without an exchange counts as one never seen. */
  lemma {:induction false} UntriedIsAbsent(p: map<string, Upstream>, q: map<string, Upstream>,
                                           exchanges: seq<Exchange>, addr: string)
    requires forall a :: Lookup(p, a) == Lookup(q, a)
    ensures Lookup(PoolAfter(p, exchanges), addr) == Lookup(PoolAfter(q, exchanges), addr)
  {
    if exchanges != [] {
      UntriedIsAbsent(p, q, exchanges[..|exchanges| - 1], addr);
    }
  }

  ghost predicate SameUpstreams(p: map<string, Upstream>, q: map<string, Upstream>) {
    forall a :: Lookup(p, a) == Lookup(q, a)
  }

  /** Pools that say the same about every upstream say so after the same exchanges. */
  lemma SamePoolsStaySame(p: map<string, Upstream>, q: map<string, Upstream>, exchanges: seq<Exchange>)
    requires SameUpstreams(p, q)
    ensures SameUpstreams(PoolAfter(p, exchanges), PoolAfter(q, exchanges))
  {
    forall a ensures Lookup(PoolAfter(p, exchanges), a) == Lookup(PoolAfter(q, exchanges), a) {
      UntriedIsAbsent(p, q, exchanges, a);
    }
  }

  // ----- one forwarded query -----

  datatype Reply = Reply(answered: bool, at: int)

  function OutcomeOf(r: Reply): Outcome {
    if r.answered then Success(r.at) else Failure(r.at)
  }

  datatype Forwarded = Answered(addr: string) | NoUpstreams | NoCandidates | AllFailed

  /** `tried` is what the attempt loop did with a ranking: one exchange per candidate in rank
      order, stopping after an answer or after three attempts. */
  ghost predicate Attempts(tried: seq<Exchange>, out: seq<Candidate>, replies: seq<Reply>) {
    && |tried| <= |out| && |tried| <= 3 && |tried| <= |replies|
    && (forall i :: 0 <= i < |tried| ==> tried[i].addr == out[i].addr)
    && (forall i :: 0 <= i < |tried| ==> (tried[i].outcome.Success? <==> replies[i].answered)
                                         && tried[i].outcome.at == replies[i].at)
    && (forall i :: 0 <= i < |tried| - 1 ==> tried[i].outcome.Failure?)
  }

  ghost predicate AllFailing(tried: seq<Exchange>) {
    forall i :: 0 <= i < |tried| ==> tried[i].outcome.Failure?
  }

  lemma OneMoreAttempt(tried: seq<Exchange>, out: seq<Candidate>, replies: seq<Reply>)
    requires Attempts(tried, out, replies) && |tried| < |out| && |tried| < MAX_ATTEMPTS && |tried| < |replies|
    requires AllFailing(tried)
    ensures var e := Exchange(out[|tried|].addr, OutcomeOf(replies[|tried|]));
            Attempts(tried + [e], out, replies) && (e.outcome.Failure? ==> AllFailing(tried + [e]))
  {
  }

  /** What reaches the pool while one query tries its candidates: before its own `i`-th exchange,
      the exchanges `meanwhile[i]` of other queries. */
  function Woven(tried: seq<Exchange>, meanwhile: seq<seq<Exchange>>): seq<Exchange>
    requires |tried| <= |meanwhile|
  {
    if tried == [] then []
    else var k := |tried| - 1; Woven(tried[..k], meanwhile) + meanwhile[k] + [tried[k]]
  }

  lemma {:induction false} PoolConcat(pool: map<string, Upstream>, a: seq<Exchange>, b: seq<Exchange>)
    ensures PoolAfter(pool, a + b) == PoolAfter(PoolAfter(pool, a), b)
  {
    if b == [] {
      assert a + b == a;
    } else {
      assert (a + b)[..|a + b| - 1] == a + b[..|b| - 1];
      PoolConcat(pool, a, b[..|b| - 1]);
    }
  }

  lemma OneMoreRecorded(pool: map<string, Upstream>, tried: seq<Exchange>, e: Exchange)
    ensures PoolAfter(pool, tried + [e]) == Recorded(PoolAfter(pool, tried), e)
  {
    assert (tried + [e])[..|tried|] == tried;
  }

  lemma OneMoreWoven(pool: map<string, Upstream>, tried: seq<Exchange>, meanwhile: seq<seq<Exchange>>, e: Exchange)
    requires |tried| < |meanwhile|
    ensures PoolAfter(pool, Woven(tried + [e], meanwhile)) ==
            Recorded(PoolAfter(PoolAfter(pool, Woven(tried, meanwhile)), meanwhile[|tried|]), e)
  {
    var before, others := Woven(tried, meanwhile), meanwhile[|tried|];
    assert (tried + [e])[..|tried|] == tried;
    PoolConcat(pool, before, others);
    OneMoreRecorded(pool, before + others, e);
  }

  class UpstreamPool {
    var forwardState: map<string, Upstream>
    var degraded: bool
    var backoffSkips: nat
    var lastSuccessAt: int
    var lastFailureAt: int

    constructor ()
      ensures forwardState == map[] && !degraded
    {
      forwardState := map[];
      degraded, backoffSkips, lastSuccessAt, lastFailureAt := false, 0, 0, 0;
    }

    method RecordForwardSuccess(addr: string, now: int)
      modifies this`forwardState, this`degraded, this`lastSuccessAt
      ensures forwardState == old(forwardState)[addr := Succeeded(Lookup(old(forwardState), addr), now)]
      ensures !degraded && lastSuccessAt == now
    {
      var st := if addr in forwardState then forwardState[addr] else UNTRIED;
      st := st.(lastSuccess := now);
      st := st.(successStreak := st.successStreak + 1);
      st := st.(failureStreak := 0);
      st := st.(cooldownUntil := 0);
      forwardState := forwardState[addr := st];
      degraded := false;
      lastSuccessAt := st.lastSuccess;
    }

    method RecordForwardFailure(addr: string, now: int)
      modifies this`forwardState, this`degraded, this`lastFailureAt
      ensures forwardState == old(forwardState)[addr := Failed(Lookup(old(forwardState), addr), now)]
      ensures degraded && lastFailureAt == now
    {
      var st := if addr in forwardState then forwardState[addr] else UNTRIED;
      st := st.(lastFailure := now);
      st := st.(failureStreak := st.failureStreak + 1);
      st := st.(successStreak := 0);
      var backoff := BackoffDuration(st.failureStreak);
      st := st.(cooldownUntil := st.lastFailure + backoff);
      forwardState := forwardState[addr := st];
      degraded := true;
      lastFailureAt := st.lastFailure;
    }

    /** The ready and the cooling upstreams, each in the order of the list. */
    method SplitByCooldown(addrs: seq<string>, now: int) returns (active: seq<Candidate>, backoff: seq<Candidate>)
      modifies this`forwardState, this`backoffSkips
      ensures active == Candidates(addrs, old(forwardState), now, false)
      ensures backoff == Candidates(addrs, old(forwardState), now, true)
      ensures SameUpstreams(forwardState, old(forwardState))
      ensures forwardState.Keys == old(forwardState).Keys + set a | a in addrs
      ensures backoffSkips == old(backoffSkips) + |backoff|
    {
      active, backoff := [], [];
      for i := 0 to |addrs|
        invariant active == Candidates(addrs[..i], old(forwardState), now, false)
        invariant backoff == Candidates(addrs[..i], old(forwardState), now, true)
        invariant forall a :: Lookup(forwardState, a) == Lookup(old(forwardState), a)
        invariant forwardState.Keys == old(forwardState).Keys + set a | a in addrs[..i]
        invariant backoffSkips == old(backoffSkips) + |backoff|
      {
        var addr := addrs[i];
        assert addrs[..i + 1] == addrs[..i] + [addr];
        assert Lookup(forwardState, addr) == Lookup(old(forwardState), addr);
        if addr !in forwardState {
          forwardState := forwardState[addr := UNTRIED];
        }
        var c := Candidate(addr, forwardState[addr]);
        if c.st.cooldownUntil > now {
          backoff := backoff + [c];
          backoffSkips := backoffSkips + 1;
          continue;
        }
        active := active + [c];
      }
      assert addrs[..|addrs|] == addrs;
    }

    method RankForwardCandidates(addrs: seq<string>, now: int) returns (out: seq<Candidate>)
      modifies this`forwardState, this`backoffSkips
      ensures Ranks(out, addrs, old(forwardState), now) && TriedInOrder(out, addrs, old(forwardState), now)
      ensures SameUpstreams(forwardState, old(forwardState))
      ensures forwardState.Keys == old(forwardState).Keys + set a | a in addrs
      ensures backoffSkips == old(backoffSkips) + |Candidates(addrs, old(forwardState), now, true)|
    {
      var active, backoff := SplitByCooldown(addrs, now);
      OrdersAreTotal();
      var sortedActive := SortStable(active, Healthier);
      var sortedBackoff := SortStable(backoff, ReadySooner);
      out := sortedActive;
      if |out| < MAX_ATTEMPTS {
        out := out + sortedBackoff;
      }
      assert out == sortedActive + if |sortedActive| < MAX_ATTEMPTS then sortedBackoff else [];
      RankingIsInOrder(out, addrs, old(forwardState), now);
    }

    method Record(e: Exchange)
      modifies this
      ensures forwardState == Recorded(old(forwardState), e)
      ensures degraded == e.outcome.Failure?
    {
      match e.outcome {
        case Success(at) => RecordForwardSuccess(e.addr, at);
        case Failure(at) => RecordForwardFailure(e.addr, at);
      }
    }

    /** What other queries record. */
    method RecordAll(exchanges: seq<Exchange>)
      modifies this
      ensures forwardState == PoolAfter(old(forwardState), exchanges)
    {
      for i := 0 to |exchanges|
        invariant forwardState == PoolAfter(old(forwardState), exchanges[..i])
      {
        OneMoreRecorded(old(forwardState), exchanges[..i], exchanges[i]);
        assert exchanges[..i + 1] == exchanges[..i] + [exchanges[i]];
        Record(exchanges[i]);
      }
      assert exchanges[..|exchanges|] == exchanges;
    }

    method TryCandidates(out: seq<Candidate>, replies: seq<Reply>, meanwhile: seq<seq<Exchange>>)
      returns (result: Forwarded, tried: seq<Exchange>)
      requires |replies| >= MAX_ATTEMPTS && |meanwhile| >= MAX_ATTEMPTS && out != []
      modifies this
      ensures Attempts(tried, out, replies) && tried != []
      ensures result == if tried[|tried| - 1].outcome.Success? then Answered(tried[|tried| - 1].addr) else AllFailed
      ensures result.AllFailed? ==> |tried| == |out| || |tried| == 3
      ensures forwardState == PoolAfter(old(forwardState), Woven(tried, meanwhile))
    {
      tried := [];
      var attempts := 0;
      while attempts < |out|
        invariant attempts == |tried| <= |out|
        invariant Attempts(tried, out, replies) && AllFailing(tried)
        invariant forwardState == PoolAfter(old(forwardState), Woven(tried, meanwhile))
        decreases |out| - attempts
      {
        if attempts >= MAX_ATTEMPTS {
          break;
        }
        var addr, reply := out[attempts].addr, replies[attempts];
        var exchange := Exchange(addr, OutcomeOf(reply));
        OneMoreAttempt(tried, out, replies);
        OneMoreWoven(old(forwardState), tried, meanwhile, exchange);
        RecordAll(meanwhile[attempts]);
        tried := tried + [exchange];
        attempts := attempts + 1;
        Record(exchange);
        if reply.answered {
          return Answered(addr), tried;
        }
      }
      result := AllFailed;
    }

    /** The attempts from a pool that says what `before` says. */
    method TryRanked(out: seq<Candidate>, replies: seq<Reply>, meanwhile: seq<seq<Exchange>>,
                     ghost before: map<string, Upstream>)
      returns (result: Forwarded, tried: seq<Exchange>)
      requires |replies| >= MAX_ATTEMPTS && |meanwhile| >= MAX_ATTEMPTS && out != []
      requires SameUpstreams(forwardState, before)
      modifies this
      ensures Attempts(tried, out, replies) && tried != [] && !result.NoUpstreams? && !result.NoCandidates?
      ensures result.AllFailed? ==> |tried| == |out| || |tried| == 3
      ensures result.Answered? <==> tried[|tried| - 1].outcome.Success?
      ensures result.Answered? ==> result.addr == tried[|tried| - 1].addr
      ensures SameUpstreams(forwardState, PoolAfter(before, Woven(tried, meanwhile)))
    {
      ghost var ranked := forwardState;
      result, tried := TryCandidates(out, replies, meanwhile);
      SamePoolsStaySame(ranked, before, Woven(tried, meanwhile));
    }

    /** Ranking and attempts for some addresses. */
    method ForwardTo(addrs: seq<string>, now: int, replies: seq<Reply>, meanwhile: seq<seq<Exchange>>)
      returns (result: Forwarded, tried: seq<Exchange>, ghost out: seq<Candidate>)
      requires |replies| >= MAX_ATTEMPTS && |meanwhile| >= MAX_ATTEMPTS && addrs != []
      modifies this
      ensures !result.NoUpstreams? && !result.NoCandidates? && tried != []
      ensures Ranks(out, addrs, old(forwardState), now) && Attempts(tried, out, replies)
      ensures result.AllFailed? ==> |tried| == |out| || |tried| == 3
      ensures result.Answered? <==> tried[|tried| - 1].outcome.Success?
      ensures result.Answered? ==> result.addr == tried[|tried| - 1].addr
      ensures SameUpstreams(forwardState, PoolAfter(old(forwardState), Woven(tried, meanwhile)))
    {
      var candidates := RankForwardCandidates(addrs, now);
      SomeCandidate(candidates, addrs, old(forwardState), now);
      if candidates == [] {
        assert false;
      }
      out := candidates;
      result, tried := TryRanked(candidates, replies, meanwhile, old(forwardState));
    }

    /** `replies` holds what each attempt meets, `meanwhile` what other queries record before it, and
        `out` is the ranking that the attempts follow. */
    method ForwardExternal(addrs: seq<string>, now: int, replies: seq<Reply>, meanwhile: seq<seq<Exchange>>)
      returns (result: Forwarded, tried: seq<Exchange>, ghost out: seq<Candidate>)
      requires |replies| >= MAX_ATTEMPTS && |meanwhile| >= MAX_ATTEMPTS
      modifies this
      ensures result != NoCandidates
      ensures result == NoUpstreams <==> addrs == []
      ensures addrs == [] <==> tried == []
      ensures Ranks(out, addrs, old(forwardState), now) && Attempts(tried, out, replies)
      ensures result.AllFailed? ==> |tried| == |out| || |tried| == 3
      ensures result.Answered? <==> tried != [] && tried[|tried| - 1].outcome.Success?
      ensures result.Answered? ==> result.addr == tried[|tried| - 1].addr
      ensures SameUpstreams(forwardState, PoolAfter(old(forwardState), Woven(tried, meanwhile)))
    {
      if addrs == [] {
        NothingRanks(addrs, forwardState, now);
        return NoUpstreams, [], [];
      }
      result, tried, out := ForwardTo(addrs, now, replies, meanwhile);
    }
  }
}
