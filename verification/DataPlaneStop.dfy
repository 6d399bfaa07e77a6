/**
 Stopping the embedded containerd data plane. A stop attempt clears the drain marker, takes
 the drain hold, drains and verifies; only then is the marker written, containerd stopped and
 its shims reaped, all within one time budget. The attempt runs inside a signal loop that goes
 on when a drain did not verify. File operations that fail are only logged, so a run is the
 sequence of operations issued; drain outcomes, clock readings and reap results are arbitrary.
 Times are in milliseconds.
 */
module DataPlaneStop {
  import opened Wrappers

  datatype DrainOutcome = DrainOutcome(complete: bool, timedOut: bool, degraded: bool, verifyFailed: bool) {
    predicate AllowsShimReap() { complete && !verifyFailed && !timedOut && !degraded }

    predicate OneFlag() {
      || (complete && !timedOut && !degraded && !verifyFailed)
      || (!complete && timedOut && !degraded && !verifyFailed)
      || (!complete && !timedOut && degraded && !verifyFailed)
      || (!complete && !timedOut && !degraded && verifyFailed)
    }

    function Status(): string {
      if verifyFailed then "verifyFailed" else if complete then "complete" else "timedOut"
    }
  }

  const COMPLETE := DrainOutcome(true, false, false, false)
  const TIMED_OUT := DrainOutcome(false, true, false, false)
  const DEGRADED := DrainOutcome(false, false, true, false)
  const VERIFY_FAILED := DrainOutcome(false, false, false, true)

  function OutcomeFromQuiesce(status: string): (o: DrainOutcome)
    ensures o.OneFlag()
    ensures o.AllowsShimReap() <==> status == "complete"
    ensures o.verifyFailed <==> status == "verifyFailed"
    ensures status in {"complete", "timedOut", "verifyFailed"} ==> o.Status() == status
  {
    if status == "complete" then COMPLETE else if status == "verifyFailed" then VERIFY_FAILED else TIMED_OUT
  }

  /** How one run of the operator command ends. */
  datatype RunResult =
    | Succeeded
    | Exited(code: int, saysTimedOut: bool, retryable: bool)
    | NotRun(deadlineExceeded: bool, retryable: bool)

  /** One turn of the operator drain: whether the control socket answers, and the run if it does. */
  datatype Turn = Turn(listening: bool, result: RunResult)

  /** The outcome a turn settles, or None when the drain tries again. */
  function Settles(t: Turn): Option<DrainOutcome> {
    if !t.listening then None else
    match t.result
    case Succeeded => Some(COMPLETE)
    case Exited(code, saysTimedOut, retryable) =>
      if code == 1 && saysTimedOut then Some(TIMED_OUT) else if retryable then None else Some(DEGRADED)
    case NotRun(deadlineExceeded, retryable) =>
      if deadlineExceeded then Some(TIMED_OUT) else if retryable then None else Some(DEGRADED)
  }

  /** A turn settles nothing while the socket is silent or the failure is worth a retry; a success
      completes the drain, and a failure that speaks of a deadline times it out. */
  lemma SettlesIff(t: Turn)
    ensures Settles(t).None? <==>
            || !t.listening
            || (t.result.Exited? && t.result.retryable && !(t.result.code == 1 && t.result.saysTimedOut))
            || (t.result.NotRun? && t.result.retryable && !t.result.deadlineExceeded)
    ensures Settles(t).Some? ==>
              var o := Settles(t).value;
              && o.OneFlag() && !o.verifyFailed
              && (o.complete <==> t.result.Succeeded?)
              && (o.timedOut <==> (t.result.Exited? && t.result.code == 1 && t.result.saysTimedOut) ||
                                  (t.result.NotRun? && t.result.deadlineExceeded))
  {
  }

  /** `o` is the outcome of the first turn that settles one, or degraded when none does. */
  ghost predicate FirstSettled(o: DrainOutcome, turns: seq<Turn>) {
    || (exists i :: 0 <= i < |turns| && Settles(turns[i]) == Some(o) && Unsettled(turns, i))
    || (o == DEGRADED && Unsettled(turns, |turns|))
  }

  ghost predicate Unsettled(turns: seq<Turn>, n: nat)
    requires n <= |turns|
  {
    forall j :: 0 <= j < n ==> Settles(turns[j]).None?
  }

  /** The drain through the operator command; `turns` are those before the deadline. */
  method ExecRuntimeDrain(binaryFound: bool, turns: seq<Turn>) returns (o: DrainOutcome)
    ensures o.OneFlag() && o.complete == o.AllowsShimReap()
    ensures if binaryFound then FirstSettled(o, turns) else o == DEGRADED
    ensures o.complete <==> binaryFound && exists i :: 0 <= i < |turns| && turns[i].listening
                                             && turns[i].result.Succeeded? && Unsettled(turns, i)
  {
    if !binaryFound {
      return DEGRADED;
    }
    for i := 0 to |turns|
      invariant Unsettled(turns, i)
    {
      var turn := turns[i];
      if !turn.listening {
        continue;
      }
      match turn.result {
        case Succeeded =>
          return COMPLETE;
        case Exited(code, saysTimedOut, retryable) =>
          if code == 1 && saysTimedOut {
            return TIMED_OUT;
          }
          if retryable {
            continue;
          }
          return DEGRADED;
        case NotRun(deadlineExceeded, retryable) =>
          if deadlineExceeded {
            return TIMED_OUT;
          }
          if retryable {
            continue;
          }
          return DEGRADED;
      }
    }
    return DEGRADED;
  }

  /** What a drain through the runtime runs into. */
  datatype Drain =
    | Quiesce(runtimeUp: bool, holdersLeft: bool, status: string)  // the default
    | Labeled(runtimeUp: bool, ok: bool)                           // stop labelled workloads only

  /** Both set exactly one flag: nothing verifies without a runtime that says so. */
  function Produce(d: Drain): (o: DrainOutcome)
    ensures o.OneFlag() && o.complete == o.AllowsShimReap() && !o.degraded
    ensures o.complete <==> d.runtimeUp && if d.Quiesce? then d.status == "complete" else d.ok
    ensures o.verifyFailed <==> d.Quiesce? && if d.runtimeUp then d.status == "verifyFailed" else d.holdersLeft
  {
    match d
    case Quiesce(up, holdersLeft, status) =>
      if !up then (if holdersLeft then VERIFY_FAILED else TIMED_OUT) else OutcomeFromQuiesce(status)
    case Labeled(up, ok) => if up && ok then COMPLETE else TIMED_OUT
  }

  // ----- one attempt -----

  datatype Config = Config(total: int, verifyCap: int)

  const DEFAULT_BUDGET := 120000
  const DEFAULT_VERIFY_CAP := 10000

  function WithDefaults(c: Config): (d: Config)
    ensures d.total > 0 && d.verifyCap > 0
    ensures if c.total > 0 then d.total == c.total else d.total == 120000
    ensures if c.verifyCap > 0 then d.verifyCap == c.verifyCap else d.verifyCap == 10000
  {
    Config(if c.total <= 0 then DEFAULT_BUDGET else c.total,
           if c.verifyCap <= 0 then DEFAULT_VERIFY_CAP else c.verifyCap)
  }

  function Remaining(total: int, elapsed: int): int {
    if total - elapsed < 0 then 0 else total - elapsed
  }

  /** What one attempt meets: whether to drain, the outcome, the elapsed time at the three budget
      readings, and the result of the first reap. */
  datatype Attempt = Attempt(shouldDrain: bool, drained: DrainOutcome,
                             elapsed1: int, elapsed2: int, elapsed3: int, reapOk: bool)

  function OutcomeOf(a: Attempt): DrainOutcome {
    if a.shouldDrain then a.drained else COMPLETE
  }

  datatype Op =
    | ClearMarker
    | BeginHold
    | Drained(outcome: DrainOutcome)
    | EndHold
    | WriteMarker
    | StopContainerd(budget: int)
    | Reap(budget: int, remaining: int, verify: bool)

  function Reaps(c: Config, a: Attempt): seq<Op> {
    var primary := Remaining(c.total, a.elapsed2);
    var left := Remaining(c.total, a.elapsed3);
    var verify := if left > c.verifyCap then c.verifyCap else left;
    (if primary <= 0 then [] else [Reap(primary, primary, false)]) +
    (if (primary > 0 && a.reapOk) || verify <= 0 then [] else [Reap(verify, left, true)])
  }

  function AttemptOps(c: Config, a: Attempt): seq<Op> {
    var o := OutcomeOf(a);
    [ClearMarker, BeginHold, Drained(o)] +
    if o.AllowsShimReap() then [WriteMarker, StopContainerd(Remaining(c.total, a.elapsed1))] + Reaps(c, a)
    else [EndHold]
  }

  // ----- the signal loop -----

  datatype Signal = Hangup | Terminate(attempt: Attempt)

  /** Operations issued over a run of signals; the loop returns at the first complete outcome. */
  function LoopOps(c: Config, signals: seq<Signal>): seq<Op> {
    if signals == [] then []
    else match signals[0]
         case Hangup => LoopOps(c, signals[1..])
         case Terminate(a) =>
           AttemptOps(c, a) + if OutcomeOf(a).complete then [] else LoopOps(c, signals[1..])
  }

  predicate Returns(signals: seq<Signal>) {
    exists i :: 0 <= i < |signals| && signals[i].Terminate? && OutcomeOf(signals[i].attempt).complete
  }

  /** What the first signal does comes before what the rest do. */
  lemma LoopStep(c: Config, done: seq<Op>, signals: seq<Signal>)
    requires signals != []
    ensures signals[0].Hangup? ==> LoopOps(c, signals) == LoopOps(c, signals[1..])
    ensures signals[0].Terminate? ==>
              (var a := signals[0].attempt;
               done + LoopOps(c, signals) ==
               (done + AttemptOps(c, a)) + if OutcomeOf(a).complete then [] else LoopOps(c, signals[1..]))
  {
  }

  class Bootstrap {
    var ops: seq<Op>
    const config: Config

    constructor (c: Config)
      ensures config == WithDefaults(c) && ops == []
    {
      config := WithDefaults(c);
      ops := [];
    }

    method Issue(op: Op)
      modifies this
      ensures ops == old(ops) + [op]
    {
      ops := ops + [op];
    }

    method StopDataPlane(a: Attempt) returns (outcome: DrainOutcome)
      modifies this
      ensures ops == old(ops) + AttemptOps(config, a)
      ensures outcome == OutcomeOf(a)
    {
      Issue(ClearMarker);
      Issue(BeginHold);
      outcome := if !a.shouldDrain then COMPLETE else a.drained;
      Issue(Drained(outcome));
      if !outcome.AllowsShimReap() {
        Issue(EndHold);
        return;
      }
      Issue(WriteMarker);
      Issue(StopContainerd(Remaining(config.total, a.elapsed1)));
      ReapShims(a);
    }

    method ReapShims(a: Attempt)
      modifies this
      ensures ops == old(ops) + Reaps(config, a)
    {
      var primaryBudget := Remaining(config.total, a.elapsed2);
      if primaryBudget > 0 {
        Issue(Reap(primaryBudget, primaryBudget, false));
        if a.reapOk {
          return;
        }
      }
      var left := Remaining(config.total, a.elapsed3);
      var verifyBudget := left;
      if verifyBudget > config.verifyCap {
        verifyBudget := config.verifyCap;
      }
      if verifyBudget <= 0 {
        return;
      }
      Issue(Reap(verifyBudget, left, true));
    }

    /** The signal loop over the signals that arrive; `returned` tells that the process ends. */
    method RunSignals(signals: seq<Signal>) returns (returned: bool)
      modifies this
      ensures ops == old(ops) + LoopOps(config, signals)
      ensures returned <==> Returns(signals)
    {
      var i := 0;
      while i < |signals|
        invariant 0 <= i <= |signals|
        invariant ops + LoopOps(config, signals[i..]) == old(ops) + LoopOps(config, signals)
        invariant forall j :: 0 <= j < i && signals[j].Terminate? ==> !OutcomeOf(signals[j].attempt).complete
      {
        assert signals[i..][1..] == signals[i + 1..];
        LoopStep(config, ops, signals[i..]);
        i := i + 1;
        if signals[i - 1].Hangup? {
          continue;
        }
        var outcome := StopDataPlane(signals[i - 1].attempt);
        if !outcome.complete {
          continue;
        }
        return true;
      }
      return false;
    }
  }

  // ----- safety of every run -----

  function Stops(ops: seq<Op>): nat {
    if ops == [] then 0 else (if ops[0].StopContainerd? then 1 else 0) + Stops(ops[1..])
  }

  /** The drain that licenses the stop at `i` verified, and nothing but the marker lies between. */
  ghost predicate Licensed(ops: seq<Op>, i: int)
    requires 0 <= i < |ops|
  {
    exists j :: 0 <= j < i && ops[j].Drained? && ops[j].outcome.AllowsShimReap() &&
                forall k :: j < k < i ==> ops[k].WriteMarker?
  }

  ghost predicate FollowsStop(ops: seq<Op>, i: int)
    requires 0 <= i < |ops|
  {
    exists j :: 0 <= j < i && ops[j].StopContainerd?
  }

  predicate BudgetOk(c: Config, op: Op) {
    op.Reap? ==> 0 < op.budget <= op.remaining <= c.total && (op.verify ==> op.budget <= c.verifyCap)
  }

  /** Whether the drain hold is in place after the operations. */
  function Held(ops: seq<Op>): bool {
    if ops == [] then false
    else match ops[|ops| - 1]
         case BeginHold => true
         case EndHold => false
         case _ => Held(ops[..|ops| - 1])
  }

  ghost predicate Safe(c: Config, ops: seq<Op>) {
    && Stops(ops) <= 1
    && (forall i :: 0 <= i < |ops| && ops[i].StopContainerd? ==> Licensed(ops, i))
    && (forall i :: 0 <= i < |ops| && ops[i].Reap? ==> FollowsStop(ops, i))
    && (forall op :: op in ops ==> BudgetOk(c, op))
    && (Held(ops) <==> Stops(ops) == 1)
  }

  /** Clock readings of one attempt never go back and start at its beginning. */
  predicate Timed(a: Attempt) { 0 <= a.elapsed1 <= a.elapsed2 <= a.elapsed3 }

  lemma {:induction false} StopsConcat(a: seq<Op>, b: seq<Op>)
    ensures Stops(a + b) == Stops(a) + Stops(b)
  {
    if a == [] {
      assert a + b == b;
    } else {
      assert (a + b)[1..] == a[1..] + b;
      StopsConcat(a[1..], b);
    }
  }

  lemma {:induction false} HeldConcat(a: seq<Op>, b: seq<Op>)
    requires !Held(a)
    ensures Held(a + b) == Held(b)
  {
    if b == [] {
      assert a + b == a;
    } else {
      var k := |b| - 1;
      assert (a + b)[..|a + b| - 1] == a + b[..k];
      HeldConcat(a, b[..k]);
    }
  }

  /** An aborted attempt stops nothing, reaps nothing and gives the hold back. */
  lemma AbortIsHarmless(c: Config, a: Attempt)
    requires !OutcomeOf(a).AllowsShimReap()
    ensures var ops := AttemptOps(c, a);
            Stops(ops) == 0 && !Held(ops) && forall op :: op in ops ==> !op.Reap? && !op.StopContainerd?
  {
    var o := Drained(OutcomeOf(a));
    var ops := [ClearMarker, BeginHold, o, EndHold];
    assert AttemptOps(c, a) == ops;
    assert ops[1..] == [BeginHold, o, EndHold] && ops[1..][1..] == [o, EndHold] && ops[1..][1..][1..] == [EndHold];
    assert Stops([EndHold]) == 0 && Stops([o, EndHold]) == 0 && Stops([BeginHold, o, EndHold]) == 0;
  }

  lemma NoStops(ops: seq<Op>)
    requires forall op :: op in ops ==> !op.StopContainerd?
    ensures Stops(ops) == 0
  {
  }

  lemma {:induction false} HeldKeeps(a: seq<Op>, b: seq<Op>)
    requires forall op :: op in b ==> !op.EndHold?
    ensures Held(a) ==> Held(a + b)
  {
    if b == [] {
      assert a + b == a;
    } else {
      var k := |b| - 1;
      assert (a + b)[..|a + b| - 1] == a + b[..k];
      assert b == b[..k] + [b[k]];
      HeldKeeps(a, b[..k]);
    }
  }

  lemma ReapBudgets(c: Config, a: Attempt)
    requires c.total > 0 && c.verifyCap > 0 && Timed(a)
    ensures forall op :: op in Reaps(c, a) ==> op.Reap? && BudgetOk(c, op)
  {
  }

  lemma VerifiedAttemptCounts(c: Config, a: Attempt)
    requires OutcomeOf(a).AllowsShimReap()
    ensures Stops(AttemptOps(c, a)) == 1 && Held(AttemptOps(c, a))
  {
    var stop := StopContainerd(Remaining(c.total, a.elapsed1));
    var head, tail := [ClearMarker, BeginHold, Drained(OutcomeOf(a)), WriteMarker], Reaps(c, a);
    assert AttemptOps(c, a) == head + ([stop] + tail);
    StopsConcat(head, [stop] + tail);
    NoStops(head);
    NoStops(tail);
    assert ([stop] + tail)[1..] == tail;
    assert Held([ClearMarker, BeginHold]);
    assert [ClearMarker, BeginHold] + head[2..] == head;
    HeldKeeps([ClearMarker, BeginHold], head[2..]);
    HeldKeeps(head, [stop] + tail);
  }

  lemma VerifiedAttemptIsSafe(c: Config, a: Attempt)
    requires c.total > 0 && c.verifyCap > 0 && Timed(a) && OutcomeOf(a).AllowsShimReap()
    ensures Safe(c, AttemptOps(c, a)) && Stops(AttemptOps(c, a)) == 1
  {
    var ops, tail := AttemptOps(c, a), Reaps(c, a);
    VerifiedAttemptCounts(c, a);
    ReapBudgets(c, a);
    assert ops[2].Drained? && ops[3].WriteMarker? && ops[4].StopContainerd?;
    assert Licensed(ops, 4);
    forall i | 5 <= i < |ops| ensures ops[i] in tail {
      assert ops[i] == tail[i - 5];
    }
  }

  lemma PrefixKeepsSafe(c: Config, prefix: seq<Op>, ops: seq<Op>)
    requires Safe(c, ops) && Stops(prefix) == 0 && !Held(prefix)
    requires forall op :: op in prefix ==> !op.Reap? && !op.StopContainerd?
    ensures Safe(c, prefix + ops)
  {
    var n, all := |prefix|, prefix + ops;
    StopsConcat(prefix, ops);
    HeldConcat(prefix, ops);
    forall i | 0 <= i < |all| && all[i].StopContainerd? ensures Licensed(all, i) {
      assert i >= n;
      var j :| 0 <= j < i - n && ops[j].Drained? && ops[j].outcome.AllowsShimReap() &&
               forall k :: j < k < i - n ==> ops[k].WriteMarker?;
      assert all[n + j] == ops[j];
      assert forall k :: n + j < k < i ==> all[k] == ops[k - n];
    }
    forall i | 0 <= i < |all| && all[i].Reap? ensures FollowsStop(all, i) {
      assert i >= n;
      var j :| 0 <= j < i - n && ops[j].StopContainerd?;
      assert all[n + j] == ops[j];
    }
  }

  // ----- budgets on the clock -----

  /** The budget of a stop or a reap, told by the clock of its attempt: what is left of the total at
      the reading before it, never negative for the stop, positive for a reap, and for the verifying
      reap the smaller of that and its cap. */
  predicate OnTheClock(c: Config, a: Attempt, op: Op) {
    && (op.StopContainerd? ==>
          op.budget == if a.elapsed1 <= c.total then c.total - a.elapsed1 else 0)
    && (op.Reap? && !op.verify ==> 0 < op.budget == op.remaining == c.total - a.elapsed2)
    && (op.Reap? && op.verify ==>
          && op.remaining == c.total - a.elapsed3 && 0 < op.budget <= c.verifyCap && op.budget + a.elapsed3 <= c.total
          && (op.budget == c.verifyCap || op.budget == c.total - a.elapsed3))
  }

  /** Exactly what an attempt does: clear the marker, hold, drain; and after a verified drain write the
      marker, stop, reap with what the clock leaves, and reap again only after a first reap that failed
      or had no time. */
  lemma AttemptIs(c: Config, a: Attempt)
    requires c.total > 0 && c.verifyCap > 0
    ensures var ops := AttemptOps(c, a);
            var drained := if a.shouldDrain then a.drained else DrainOutcome(true, false, false, false);
            var verified := drained.complete && !drained.verifyFailed && !drained.timedOut && !drained.degraded;
            var first, again := verified && a.elapsed2 < c.total,
                                verified && a.elapsed3 < c.total && !(a.elapsed2 < c.total && a.reapOk);
            && |ops| == (if verified then 5 else 4) + (if first then 1 else 0) + (if again then 1 else 0)
            && ops[0] == ClearMarker && ops[1] == BeginHold && ops[2] == Drained(drained)
            && (if verified then ops[3] == WriteMarker && ops[4].StopContainerd? else ops[3] == EndHold)
            && (first ==> ops[5].Reap? && !ops[5].verify)
            && (again ==> ops[|ops| - 1].Reap? && ops[|ops| - 1].verify)
            && forall i :: 0 <= i < |ops| ==> OnTheClock(c, a, ops[i])
  {
  }

  /** Every stop and reap of every run has the budget that the clock of its own attempt leaves. */
  lemma {:induction false} BudgetsFollowTheClock(c: Config, signals: seq<Signal>, op: Op)
    requires c.total > 0 && c.verifyCap > 0 && op in LoopOps(c, signals)
    ensures exists i :: 0 <= i < |signals| && signals[i].Terminate? &&
                        op in AttemptOps(c, signals[i].attempt) && OnTheClock(c, signals[i].attempt, op)
  {
    if signals[0].Terminate? && op in AttemptOps(c, signals[0].attempt) {
      AttemptIs(c, signals[0].attempt);
      var j :| 0 <= j < |AttemptOps(c, signals[0].attempt)| && AttemptOps(c, signals[0].attempt)[j] == op;
      assert OnTheClock(c, signals[0].attempt, op);
    } else {
      BudgetsFollowTheClock(c, signals[1..], op);
      var i :| 0 <= i < |signals[1..]| && signals[1..][i].Terminate? &&
               op in AttemptOps(c, signals[1..][i].attempt) && OnTheClock(c, signals[1..][i].attempt, op);
      assert signals[i + 1] == signals[1..][i];
    }
  }

  // ----- the marker -----

  /** Whether the drain-verified marker is in place after the operations. */
  function Marked(ops: seq<Op>): bool {
    if ops == [] then false
    else match ops[|ops| - 1]
         case WriteMarker => true
         case ClearMarker => false
         case _ => Marked(ops[..|ops| - 1])
  }

  lemma {:induction false} MarkedConcat(a: seq<Op>, b: seq<Op>)
    ensures Marked(a + b) ==
            if forall op :: op in b ==> !op.WriteMarker? && !op.ClearMarker? then Marked(a) else Marked(b)
  {
    if b == [] {
      assert a + b == a;
    } else {
      var k := |b| - 1;
      assert (a + b)[..|a + b| - 1] == a + b[..k];
      assert b == b[..k] + [b[k]];
      MarkedConcat(a, b[..k]);
    }
  }

  lemma AttemptMarks(c: Config, a: Attempt)
    ensures Marked(AttemptOps(c, a)) <==> OutcomeOf(a).AllowsShimReap()
    ensures ClearMarker in AttemptOps(c, a)
  {
    var o := OutcomeOf(a);
    var head := [ClearMarker, BeginHold, Drained(o)];
    assert head[..2] == [ClearMarker, BeginHold] && [ClearMarker, BeginHold][..1] == [ClearMarker];
    assert !Marked([ClearMarker]);
    assert !Marked([ClearMarker, BeginHold]);
    assert !Marked(head);
    assert AttemptOps(c, a)[0] == ClearMarker;
    if o.AllowsShimReap() {
      var rest := [StopContainerd(Remaining(c.total, a.elapsed1))] + Reaps(c, a);
      assert AttemptOps(c, a) == (head + [WriteMarker]) + rest;
      assert (head + [WriteMarker])[..3] == head;
      assert Marked(head + [WriteMarker]);
      MarkedConcat(head + [WriteMarker], rest);
    } else {
      assert AttemptOps(c, a)[..3] == head;
    }
  }

  /** After every run the marker is in place exactly when containerd was stopped. */
  lemma {:induction false} MarkerTellsStop(c: Config, signals: seq<Signal>)
    requires c.total > 0 && c.verifyCap > 0
    requires forall s :: s in signals && s.Terminate? ==> s.attempt.drained.OneFlag() && Timed(s.attempt)
    ensures Marked(LoopOps(c, signals)) <==> Stops(LoopOps(c, signals)) == 1
  {
    if signals != [] {
      var rest := signals[1..];
      assert signals[0] in signals && forall s :: s in rest ==> s in signals;
      MarkerTellsStop(c, rest);
      if signals[0].Terminate? {
        var a := signals[0].attempt;
        AttemptMarks(c, a);
        if OutcomeOf(a).complete {
          VerifiedAttemptCounts(c, a);
          assert AttemptOps(c, a) + [] == AttemptOps(c, a);
        } else {
          AbortIsHarmless(c, a);
          StopsConcat(AttemptOps(c, a), LoopOps(c, rest));
          MarkedConcat(AttemptOps(c, a), LoopOps(c, rest));
          if forall op :: op in LoopOps(c, rest) ==> !op.WriteMarker? && !op.ClearMarker? {
            UnmarkedRun(LoopOps(c, rest));
          }
        }
      }
    }
  }

  lemma {:induction false} UnmarkedRun(ops: seq<Op>)
    requires forall op :: op in ops ==> !op.WriteMarker? && !op.ClearMarker?
    ensures !Marked(ops)
  {
    if ops != [] {
      assert ops[|ops| - 1] in ops;
      UnmarkedRun(ops[..|ops| - 1]);
    }
  }

  /** Over every run of signals and drain outcomes: containerd is stopped at most once, right after
      a verified drain; every shim reap follows that stop; every reap budget is positive, within what
      remains and, for the second reap, within its cap; and the drain hold outlives an attempt exactly
      when containerd was stopped. */
  lemma {:induction false} EveryRunIsSafe(c: Config, signals: seq<Signal>)
    requires c.total > 0 && c.verifyCap > 0
    requires forall s :: s in signals && s.Terminate? ==> Timed(s.attempt)
    ensures Safe(c, LoopOps(c, signals))
  {
    if signals != [] {
      assert signals[0] in signals && forall s :: s in signals[1..] ==> s in signals;
      EveryRunIsSafe(c, signals[1..]);
      if signals[0].Terminate? {
        var a := signals[0].attempt;
        var ops := AttemptOps(c, a);
        if OutcomeOf(a).AllowsShimReap() {
          VerifiedAttemptIsSafe(c, a);
          assert LoopOps(c, signals) == ops;
        } else {
          AbortIsHarmless(c, a);
          if OutcomeOf(a).complete {
            assert LoopOps(c, signals) == ops + [];
            assert Safe(c, []);
            PrefixKeepsSafe(c, ops, []);
          } else {
            PrefixKeepsSafe(c, ops, LoopOps(c, signals[1..]));
          }
        }
      }
    }
  }

  /** The process ends exactly when containerd has been stopped, for outcomes of the producers. */
  lemma {:induction false} ReturnsIffStopped(c: Config, signals: seq<Signal>)
    requires forall s :: s in signals && s.Terminate? ==> s.attempt.drained.OneFlag() && Timed(s.attempt)
    requires c.total > 0 && c.verifyCap > 0
    ensures Returns(signals) <==> Stops(LoopOps(c, signals)) == 1
  {
    if signals != [] {
      var rest := signals[1..];
      assert signals[0] in signals && forall s :: s in rest ==> s in signals;
      ReturnsIffStopped(c, rest);
      assert Returns(rest) ==> Returns(signals) by {
        if Returns(rest) {
          var i :| 0 <= i < |rest| && rest[i].Terminate? && OutcomeOf(rest[i].attempt).complete;
          assert signals[i + 1] == rest[i];
        }
      }
      if signals[0].Terminate? {
        var a := signals[0].attempt;
        StopsConcat(AttemptOps(c, a), LoopOps(c, rest));
        if OutcomeOf(a).complete {
          VerifiedAttemptIsSafe(c, a);
          assert AttemptOps(c, a) + [] == AttemptOps(c, a);
        } else {
          AbortIsHarmless(c, a);
          if Returns(signals) { ReturnsLater(signals); }
        }
      } else {
        if Returns(signals) { ReturnsLater(signals); }
      }
    }
  }

  lemma ReturnsLater(signals: seq<Signal>)
    requires signals != [] && Returns(signals)
    requires signals[0].Terminate? ==> !OutcomeOf(signals[0].attempt).complete
    ensures Returns(signals[1..])
  {
    var i :| 0 <= i < |signals| && signals[i].Terminate? && OutcomeOf(signals[i].attempt).complete;
    assert signals[1..][i - 1] == signals[i];
  }
}
