/**
 Runtime sessions behind controller exec attachments. A start attaches under the lock and goes on
 without it: it connects, registers a record, creates the process, launches it from a goroutine of
 its own and waits for it to run; it never looks at the attachment again. A stop detaches under the
 lock and releases without it, and a release that finds no record ends no process. A process that
 ends normally keeps its record. Each of these parts is one event here, so a run is any interleaving
 of them by any threads. A process is known by its session, whose engine handle is derived from it.
 */
module ExecRuntime {
  import opened ExecSessions

  /** The bags hold the sessions of the threads that have yet to register, create, launch, see the
      process run, give up a failed start, and release after a stop. */
  datatype Node = Node(
    m: Manager,
    starting: multiset<string>, creating: multiset<string>, launching: multiset<string>, gating: multiset<string>,
    failing: multiset<string>, releasing: multiset<string>,
    registry: set<string>, running: set<string>)

  datatype Event =
    | Poll(row: Session, ready: bool, handlerMade: bool)
    | Stop(id: string)
    | StartFailed(id: string)          // connecting failed, or creating before the record
    | Register(id: string)
    | Create(id: string, ok: bool)
    | Launch(id: string, ok: bool)
    | Gate(id: string, ok: bool)       // the wait for the process to run
    | Withdraw(id: string)             // a failed start stops its attachment
    | Release(id: string)
    | Exit(id: string, failed: bool)   // the process ends by itself
    | Sweep(id: string)                // a later create in the container ends unrecorded processes
    | Purge(id: string)                // the stop of all sessions of a microservice

  predicate Refused(m: Manager, row: Session, ready: bool) {
    |Attached(m.active, row.microservice)| >= MAX_PER_MICROSERVICE || !ready
  }

  function Stopping(n: Node, id: string): Node {
    n.(m := Detached(n.m, id), releasing := n.releasing + multiset{id})
  }

  function Visiting(n: Node, row: Session, ready: bool, handlerMade: bool): Node {
    var visited := n.(m := Visited(n.m, row, ready, handlerMade));
    if row.id in n.m.active || Refused(n.m, row, ready) then visited
    else if handlerMade then visited.(starting := n.starting + multiset{row.id})
    else visited.(releasing := n.releasing + multiset{row.id})
  }

  /** A record that exists already makes the start fail. */
  function Registered(n: Node, id: string): Node {
    var on := n.(starting := n.starting - multiset{id});
    if id in n.registry then on.(failing := n.failing + multiset{id})
    else on.(registry := n.registry + {id}, creating := n.creating + multiset{id})
  }

  function Created(n: Node, id: string, ok: bool): Node {
    var on := n.(creating := n.creating - multiset{id});
    if ok then on.(launching := n.launching + multiset{id}, gating := n.gating + multiset{id})
    else on.(registry := n.registry - {id}, failing := n.failing + multiset{id})
  }

  function Launched(n: Node, id: string, ok: bool): Node {
    var on := n.(launching := n.launching - multiset{id});
    if ok then on.(running := n.running + {id}) else on.(registry := n.registry - {id})
  }

  function Gated(n: Node, id: string, ok: bool): Node {
    var on := n.(gating := n.gating - multiset{id});
    if ok then on
    else on.(running := n.running - {id}, registry := n.registry - {id}, failing := n.failing + multiset{id})
  }

  function Released(n: Node, id: string): Node {
    var on := n.(releasing := n.releasing - multiset{id});
    if id in n.registry then on.(registry := n.registry - {id}, running := n.running - {id}) else on
  }

  function Next(n: Node, e: Event): Node {
    match e
    case Poll(row, ready, handlerMade) => Visiting(n, row, ready, handlerMade)
    case Stop(id) => Stopping(n, id)
    case StartFailed(id) =>
      if id in n.starting then n.(starting := n.starting - multiset{id}, failing := n.failing + multiset{id}) else n
    case Register(id) => if id in n.starting then Registered(n, id) else n
    case Create(id, ok) => if id in n.creating then Created(n, id, ok) else n
    case Launch(id, ok) => if id in n.launching then Launched(n, id, ok) else n
    case Gate(id, ok) => if id in n.gating then Gated(n, id, ok) else n
    case Withdraw(id) =>
      if id in n.failing then Stopping(n.(failing := n.failing - multiset{id}), id) else n
    case Release(id) => if id in n.releasing then Released(n, id) else n
    case Exit(id, failed) =>
      n.(running := n.running - {id}, registry := if failed then n.registry - {id} else n.registry)
    case Sweep(id) => if id in n.registry then n else n.(running := n.running - {id})
    case Purge(id) => n.(running := n.running - {id}, registry := n.registry - {id})
  }

  function RunNode(n: Node, es: seq<Event>): Node {
    if es == [] then n else Next(RunNode(n, es[..|es| - 1]), es[|es| - 1])
  }

  // ----- attachments stay bounded -----

  ghost predicate Bounded(m: Manager, owner: string -> string) {
    KeysAgree(m) && WithinLimit(m.active) && Owned(m, owner)
  }

  lemma NextKeepsBounded(n: Node, e: Event, owner: string -> string)
    requires Bounded(n.m, owner) && (e.Poll? ==> e.row.microservice == owner(e.row.id))
    ensures Bounded(Next(n, e).m, owner)
  {
    match e
    case Poll(row, ready, handlerMade) =>
      StepKeepsKeys(n.m, Visit(row, ready, handlerMade));
      StepKeepsLimit(n.m, Visit(row, ready, handlerMade), owner);
    case Stop(id) =>
      StepKeepsKeys(n.m, Detach(id));
      StepKeepsLimit(n.m, Detach(id), owner);
    case Withdraw(id) =>
      StepKeepsKeys(n.m, Detach(id));
      StepKeepsLimit(n.m, Detach(id), owner);
    case _ =>
  }

  /** The attachments of a run that also creates and releases are bounded as before. */
  lemma {:induction false} NodeRunIsBounded(n: Node, es: seq<Event>, owner: string -> string)
    requires Bounded(n.m, owner)
    requires forall i :: 0 <= i < |es| && es[i].Poll? ==> es[i].row.microservice == owner(es[i].row.id)
    ensures Bounded(RunNode(n, es).m, owner)
  {
    if es != [] {
      var k := |es| - 1;
      NodeRunIsBounded(n, es[..k], owner);
      NextKeepsBounded(RunNode(n, es[..k]), es[k], owner);
    }
  }

  // ----- nothing under way is lost or doubled -----

  /** Starts of the session that are under way. */
  function Underway(n: Node, id: string): nat { n.starting[id] + n.creating[id] + n.gating[id] + n.failing[id] }

  /** What an event does for a session: a start begins or is over, a launch is set off or made, a release
      is due or made. */
  datatype Mark = Begin | Over | SetOff | Made | Due | Freed

  predicate Marks(n: Node, e: Event, id: string, mark: Mark) {
    match mark
    case Begin => e.Poll? && e.row.id == id && id !in n.m.active && !Refused(n.m, e.row, e.ready) && e.handlerMade
    case Over => (e == Gate(id, true) && id in n.gating) || (e == Withdraw(id) && id in n.failing)
    case SetOff => e == Create(id, true) && id in n.creating
    case Made => e.Launch? && e.id == id && id in n.launching
    case Due =>
      || e == Stop(id) || (e == Withdraw(id) && id in n.failing)
      || (e.Poll? && e.row.id == id && id !in n.m.active && !Refused(n.m, e.row, e.ready) && !e.handlerMade)
    case Freed => e == Release(id) && id in n.releasing
  }

  /** How often the events of a run do so. */
  function Count(n: Node, es: seq<Event>, id: string, mark: Mark): nat {
    if es == [] then 0
    else var k := |es| - 1;
         Count(n, es[..k], id, mark) + if Marks(RunNode(n, es[..k]), es[k], id, mark) then 1 else 0
  }

  function One(b: bool): nat { if b then 1 else 0 }

  ghost predicate Balances(n: Node, e: Event, id: string) {
    var next := Next(n, e);
    && Underway(n, id) + One(Marks(n, e, id, Begin)) == Underway(next, id) + One(Marks(n, e, id, Over))
    && n.launching[id] + One(Marks(n, e, id, SetOff)) == next.launching[id] + One(Marks(n, e, id, Made))
    && n.releasing[id] + One(Marks(n, e, id, Due)) == next.releasing[id] + One(Marks(n, e, id, Freed))
  }

  lemma PollBalances(n: Node, row: Session, ready: bool, handlerMade: bool, id: string)
    ensures Balances(n, Poll(row, ready, handlerMade), id)
  {
  }

  lemma StopBalances(n: Node, i: string, id: string)
    ensures Balances(n, Stop(i), id)
  {
  }

  lemma StartFailedBalances(n: Node, i: string, id: string)
    ensures Balances(n, StartFailed(i), id)
  {
  }

  lemma RegisterBalances(n: Node, i: string, id: string)
    ensures Balances(n, Register(i), id)
  {
  }

  lemma CreateBalances(n: Node, i: string, ok: bool, id: string)
    ensures Balances(n, Create(i, ok), id)
  {
  }

  lemma LaunchBalances(n: Node, i: string, ok: bool, id: string)
    ensures Balances(n, Launch(i, ok), id)
  {
  }

  lemma GateBalances(n: Node, i: string, ok: bool, id: string)
    ensures Balances(n, Gate(i, ok), id)
  {
  }

  lemma WithdrawBalances(n: Node, i: string, id: string)
    ensures Balances(n, Withdraw(i), id)
  {
  }

  lemma ReleaseBalances(n: Node, i: string, id: string)
    ensures Balances(n, Release(i), id)
  {
  }

  lemma StepBalances(n: Node, e: Event, id: string)
    ensures Balances(n, e, id)
  {
    match e
    case Poll(row, ready, handlerMade) => PollBalances(n, row, ready, handlerMade, id);
    case Stop(i) => StopBalances(n, i, id);
    case StartFailed(i) => StartFailedBalances(n, i, id);
    case Register(i) => RegisterBalances(n, i, id);
    case Create(i, ok) => CreateBalances(n, i, ok, id);
    case Launch(i, ok) => LaunchBalances(n, i, ok, id);
    case Gate(i, ok) => GateBalances(n, i, ok, id);
    case Withdraw(i) => WithdrawBalances(n, i, id);
    case Release(i) => ReleaseBalances(n, i, id);
    case Exit(_, _) =>
    case Sweep(_) =>
    case Purge(_) =>
  }

  /** Over every run and for every session: each start that began is over or under way, each launch set off
      was made or is yet to come, and each release that fell due was made or is yet to come. */
  lemma {:induction false} EverythingIsAccountedFor(n: Node, es: seq<Event>, id: string)
    ensures var end := RunNode(n, es);
            && Underway(n, id) + Count(n, es, id, Begin) == Underway(end, id) + Count(n, es, id, Over)
            && n.launching[id] + Count(n, es, id, SetOff) == end.launching[id] + Count(n, es, id, Made)
            && n.releasing[id] + Count(n, es, id, Due) == end.releasing[id] + Count(n, es, id, Freed)
  {
    if es != [] {
      var k := |es| - 1;
      EverythingIsAccountedFor(n, es[..k], id);
      StepBalances(RunNode(n, es[..k]), es[k], id);
    }
  }

  // ----- what is left behind -----

  datatype Kind = Record | Process

  /** A record without an attachment that no stop or failed start is about to release, or a process
      without a record, which no stop can end. */
  predicate LeftBehind(n: Node, kind: Kind, id: string) {
    match kind
    case Record => id in n.registry && id !in n.m.active && id !in n.releasing && id !in n.failing
    case Process => id in n.running && id !in n.registry
  }

  /** The event leaves it behind: a start registers after its attachment was stopped and released,
      launches after its record was released, or takes the record of a running process with it when
      it fails. */
  predicate Leaves(n: Node, e: Event, kind: Kind, id: string) {
    match kind
    case Record =>
      e == Register(id) && id in n.starting && id !in n.registry &&
      id !in n.m.active && id !in n.releasing && id !in n.failing
    case Process =>
      || (e == Launch(id, true) && id in n.launching && id !in n.registry)
      || (e == Create(id, false) && id in n.creating && id in n.running && id in n.registry)
      || (e == Launch(id, false) && id in n.launching && id in n.running && id in n.registry)
  }

  /** The event ends what was left behind, or brings it back within reach of a stop. */
  predicate Recovers(n: Node, e: Event, kind: Kind, id: string) {
    match kind
    case Record => RecoversRecord(n, e, id)
    case Process => RecoversProcess(n, e, id)
  }

  predicate RecoversRecord(n: Node, e: Event, id: string) {
    match e
    case Poll(row, ready, _) => row.id == id && !Refused(n.m, row, ready)
    case Stop(i) => i == id
    case StartFailed(i) => i == id && id in n.starting
    case Register(i) => i == id && id in n.starting
    case Create(i, ok) => i == id && !ok && id in n.creating
    case Launch(i, ok) => i == id && !ok && id in n.launching
    case Gate(i, ok) => i == id && !ok && id in n.gating
    case Exit(i, failed) => i == id && failed
    case Purge(i) => i == id
    case _ => false
  }

  predicate RecoversProcess(n: Node, e: Event, id: string) {
    match e
    case Register(i) => i == id && id in n.starting
    case Gate(i, ok) => i == id && !ok && id in n.gating
    case Exit(i, _) => i == id
    case Sweep(i) => i == id
    case Purge(i) => i == id
    case _ => false
  }

  ghost predicate StepIff(n: Node, e: Event, kind: Kind, id: string) {
    LeftBehind(Next(n, e), kind, id) <==>
    Leaves(n, e, kind, id) || (LeftBehind(n, kind, id) && !Recovers(n, e, kind, id))
  }

  lemma PollStep(n: Node, row: Session, ready: bool, handlerMade: bool, kind: Kind, id: string)
    ensures StepIff(n, Poll(row, ready, handlerMade), kind, id)
  {
  }

  lemma StopStep(n: Node, i: string, kind: Kind, id: string)
    ensures StepIff(n, Stop(i), kind, id)
  {
  }

  lemma StartFailedStep(n: Node, i: string, kind: Kind, id: string)
    ensures StepIff(n, StartFailed(i), kind, id)
  {
  }

  lemma RegisterStep(n: Node, i: string, kind: Kind, id: string)
    ensures StepIff(n, Register(i), kind, id)
  {
  }

  lemma CreateStep(n: Node, i: string, ok: bool, kind: Kind, id: string)
    ensures StepIff(n, Create(i, ok), kind, id)
  {
  }

  lemma LaunchStep(n: Node, i: string, ok: bool, kind: Kind, id: string)
    ensures StepIff(n, Launch(i, ok), kind, id)
  {
  }

  lemma GateStep(n: Node, i: string, ok: bool, kind: Kind, id: string)
    ensures StepIff(n, Gate(i, ok), kind, id)
  {
  }

  lemma WithdrawStep(n: Node, i: string, kind: Kind, id: string)
    ensures StepIff(n, Withdraw(i), kind, id)
  {
  }

  lemma ReleaseStep(n: Node, i: string, kind: Kind, id: string)
    ensures StepIff(n, Release(i), kind, id)
  {
  }

  lemma ExitStep(n: Node, i: string, failed: bool, kind: Kind, id: string)
    ensures StepIff(n, Exit(i, failed), kind, id)
  {
  }

  lemma SweepStep(n: Node, i: string, kind: Kind, id: string)
    ensures StepIff(n, Sweep(i), kind, id)
  {
  }

  lemma PurgeStep(n: Node, i: string, kind: Kind, id: string)
    ensures StepIff(n, Purge(i), kind, id)
  {
  }

  /** One event changes what is left behind in no other way. */
  lemma LeftBehindStepIff(n: Node, e: Event, kind: Kind, id: string)
    ensures StepIff(n, e, kind, id)
  {
    match e
    case Poll(row, ready, handlerMade) => PollStep(n, row, ready, handlerMade, kind, id);
    case Stop(i) => StopStep(n, i, kind, id);
    case StartFailed(i) => StartFailedStep(n, i, kind, id);
    case Register(i) => RegisterStep(n, i, kind, id);
    case Create(i, ok) => CreateStep(n, i, ok, kind, id);
    case Launch(i, ok) => LaunchStep(n, i, ok, kind, id);
    case Gate(i, ok) => GateStep(n, i, ok, kind, id);
    case Withdraw(i) => WithdrawStep(n, i, kind, id);
    case Release(i) => ReleaseStep(n, i, kind, id);
    case Exit(i, failed) => ExitStep(n, i, failed, kind, id);
    case Sweep(i) => SweepStep(n, i, kind, id);
    case Purge(i) => PurgeStep(n, i, kind, id);
  }

  lemma RegisterAffects(n: Node, i: string, id: string)
    ensures var next := Next(n, Register(i));
            next.running == n.running && (id in next.registry <==> id in n.registry || (i == id && id in n.starting))
  {
  }

  lemma CreateAffects(n: Node, i: string, ok: bool, id: string)
    ensures var next := Next(n, Create(i, ok));
            next.running == n.running &&
            (id in next.registry <==> id in n.registry && !(i == id && !ok && id in n.creating))
  {
  }

  lemma LaunchAffects(n: Node, i: string, ok: bool, id: string)
    ensures var next := Next(n, Launch(i, ok));
            && (id in next.running <==> id in n.running || (i == id && ok && id in n.launching))
            && (id in next.registry <==> id in n.registry && !(i == id && !ok && id in n.launching))
  {
  }

  lemma GateAffects(n: Node, i: string, ok: bool, id: string)
    ensures var next := Next(n, Gate(i, ok));
            && (id in next.running <==> id in n.running && !(i == id && !ok && id in n.gating))
            && (id in next.registry <==> id in n.registry && !(i == id && !ok && id in n.gating))
  {
  }

  lemma ReleaseAffects(n: Node, i: string, id: string)
    ensures var next := Next(n, Release(i)); var gone := i == id && id in n.releasing && id in n.registry;
            (id in next.running <==> id in n.running && !gone) && (id in next.registry <==> id in n.registry && !gone)
  {
  }

  ghost predicate LeavesAt(n: Node, es: seq<Event>, kind: Kind, id: string, k: int)
    requires 0 <= k < |es|
  {
    Leaves(RunNode(n, es[..k]), es[k], kind, id)
  }

  ghost predicate RecoversAt(n: Node, es: seq<Event>, kind: Kind, id: string, k: int)
    requires 0 <= k < |es|
  {
    Recovers(RunNode(n, es[..k]), es[k], kind, id)
  }

  /** The event at `k` leaves it behind, and none afterwards, before `m`, recovers it. */
  ghost predicate LeaksFrom(n: Node, es: seq<Event>, m: int, kind: Kind, id: string, k: int)
    requires 0 <= k < m <= |es|
  {
    LeavesAt(n, es, kind, id, k) && forall j :: k < j < m ==> !RecoversAt(n, es, kind, id, j)
  }

  ghost predicate Leaks(n: Node, es: seq<Event>, m: int, kind: Kind, id: string)
    requires 0 <= m <= |es|
  {
    exists k :: 0 <= k < m && LeaksFrom(n, es, m, kind, id, k)
  }

  lemma LeaksFromStep(n: Node, es: seq<Event>, m: int, kind: Kind, id: string, k: int)
    requires 0 <= k <= m < |es|
    ensures k < m ==>
              (LeaksFrom(n, es, m + 1, kind, id, k) <==>
               LeaksFrom(n, es, m, kind, id, k) && !RecoversAt(n, es, kind, id, m))
    ensures LeaksFrom(n, es, m + 1, kind, id, m) <==> LeavesAt(n, es, kind, id, m)
  {
  }

  lemma LeaksStep(n: Node, es: seq<Event>, m: int, kind: Kind, id: string)
    requires 0 <= m < |es|
    ensures Leaks(n, es, m + 1, kind, id) <==>
            LeavesAt(n, es, kind, id, m) || (Leaks(n, es, m, kind, id) && !RecoversAt(n, es, kind, id, m))
  {
    var next := m + 1;
    LeaksFromStep(n, es, m, kind, id, m);
    if LeavesAt(n, es, kind, id, m) {
      assert LeaksFrom(n, es, next, kind, id, m);
    } else if Leaks(n, es, next, kind, id) {
      var k :| 0 <= k < next && LeaksFrom(n, es, next, kind, id, k);
      LeaksFromStep(n, es, m, kind, id, k);
    } else if Leaks(n, es, m, kind, id) {
      var k :| 0 <= k < m && LeaksFrom(n, es, m, kind, id, k);
      LeaksFromStep(n, es, m, kind, id, k);
    }
  }

  ghost predicate LeftAt(n: Node, es: seq<Event>, m: int, kind: Kind, id: string)
    requires 0 <= m <= |es|
  {
    LeftBehind(RunNode(n, es[..m]), kind, id)
  }

  lemma LeftBehindStep(n: Node, es: seq<Event>, m: int, kind: Kind, id: string)
    requires 0 <= m < |es|
    ensures LeftAt(n, es, m + 1, kind, id) <==>
            LeavesAt(n, es, kind, id, m) || (LeftAt(n, es, m, kind, id) && !RecoversAt(n, es, kind, id, m))
  {
    assert es[..m + 1][..m] == es[..m];
    LeftBehindStepIff(RunNode(n, es[..m]), es[m], kind, id);
  }

  ghost predicate LeaksShow(n: Node, es: seq<Event>, m: int, kind: Kind, id: string)
    requires 0 <= m <= |es|
  {
    LeftAt(n, es, m, kind, id) <==> Leaks(n, es, m, kind, id)
  }

  lemma NothingLeftYet(n: Node, es: seq<Event>, kind: Kind, id: string)
    requires !LeftBehind(n, kind, id)
    ensures LeaksShow(n, es, 0, kind, id)
  {
    assert es[..0] == [];
  }

  lemma LeaksShowStep(n: Node, es: seq<Event>, m: int, kind: Kind, id: string)
    requires 0 <= m < |es| && LeaksShow(n, es, m, kind, id)
    ensures LeaksShow(n, es, m + 1, kind, id)
  {
    LeftBehindStep(n, es, m, kind, id);
    LeaksStep(n, es, m, kind, id);
  }

  lemma {:induction false} LeaksWithinIff(n: Node, es: seq<Event>, m: int, kind: Kind, id: string)
    requires 0 <= m <= |es| && !LeftBehind(n, kind, id)
    ensures LeaksShow(n, es, m, kind, id)
  {
    if m == 0 {
      NothingLeftYet(n, es, kind, id);
    } else {
      LeaksWithinIff(n, es, m - 1, kind, id);
      LeaksShowStep(n, es, m - 1, kind, id);
    }
  }

  /** Which runs leak: a record or a process is left behind at the end exactly when some event left
      it behind and nothing after that recovered it. */
  lemma LeaksIff(n: Node, es: seq<Event>, kind: Kind, id: string)
    requires !LeftBehind(n, kind, id)
    ensures LeftBehind(RunNode(n, es), kind, id) <==> Leaks(n, es, |es|, kind, id)
  {
    LeaksWithinIff(n, es, |es|, kind, id);
    assert es[..|es|] == es;
  }

  // ----- quiet nodes -----

  /** No start, failed start or stop is under way. */
  predicate Quiet(n: Node) {
    n.starting == n.creating == n.launching == n.gating == n.failing == n.releasing == multiset{}
  }

  predicate Still(n: Node, id: string) { Underway(n, id) == n.launching[id] == n.releasing[id] == 0 }

  lemma QuietIff(n: Node)
    ensures Quiet(n) <==> forall id :: Still(n, id)
  {
    if forall id :: Still(n, id) {
      forall id ensures n.starting[id] == n.creating[id] == n.gating[id] == n.failing[id] == 0 {
        assert Still(n, id);
      }
      forall id ensures n.launching[id] == n.releasing[id] == 0 {
        assert Still(n, id);
      }
    }
  }

  /** All that began, was set off or fell due for the session is done. */
  predicate Done(n: Node, es: seq<Event>, id: string) {
    && Count(n, es, id, Begin) == Count(n, es, id, Over)
    && Count(n, es, id, SetOff) == Count(n, es, id, Made)
    && Count(n, es, id, Due) == Count(n, es, id, Freed)
  }

  /** From a fresh start a node is quiet exactly when all is done for every session. */
  lemma QuietIffDone(es: seq<Event>)
    ensures Quiet(RunNode(IDLE, es)) <==> forall id :: Done(IDLE, es, id)
  {
    QuietIff(RunNode(IDLE, es));
    forall id ensures Still(RunNode(IDLE, es), id) <==> Done(IDLE, es, id) {
      EverythingIsAccountedFor(IDLE, es, id);
    }
  }

  const NOBODY: multiset<string> := multiset{}
  const IDLE := Node(Manager(map[], map[]), NOBODY, NOBODY, NOBODY, NOBODY, NOBODY, NOBODY, {}, {})

  /** From a fresh start to any quiet moment, every record has an attachment and every process a
      record exactly when the run leaked none. */
  lemma QuietRunIsCleanIff(es: seq<Event>)
    requires Quiet(RunNode(IDLE, es))
    ensures var n := RunNode(IDLE, es);
            n.registry <= n.m.active.Keys <==> forall id :: !Leaks(IDLE, es, |es|, Record, id)
    ensures var n := RunNode(IDLE, es);
            n.running <= n.registry <==> forall id :: !Leaks(IDLE, es, |es|, Process, id)
  {
    var n := RunNode(IDLE, es);
    forall id, kind ensures LeftBehind(n, kind, id) <==> Leaks(IDLE, es, |es|, kind, id) {
      LeaksIff(IDLE, es, kind, id);
    }
    forall id | id in n.registry && id !in n.m.active.Keys ensures LeftBehind(n, Record, id) {
    }
    forall id | id in n.running && id !in n.registry ensures LeftBehind(n, Process, id) {
    }
  }

  // ----- the stop of all sessions of a microservice -----

  /** A start of the session that was under way gets its record or its process. */
  predicate Revives(e: Event, id: string) { e == Register(id) || e == Launch(id, true) }

  lemma NothingRevives(n: Node, e: Event, id: string)
    requires id !in n.registry && id !in n.running && !Revives(e, id)
    ensures id !in Next(n, e).registry && id !in Next(n, e).running
  {
    match e
    case Register(i) => RegisterAffects(n, i, id);
    case Create(i, ok) => CreateAffects(n, i, ok, id);
    case Launch(i, ok) => LaunchAffects(n, i, ok, id);
    case Gate(i, ok) => GateAffects(n, i, ok, id);
    case Release(i) => ReleaseAffects(n, i, id);
    case _ =>
  }

  /** A purged session has neither record nor process at the end of any run in which no start of it
      registers or launches afterwards. */
  lemma {:induction false} PurgedStaysGone(n: Node, es: seq<Event>, id: string)
    requires forall i :: 0 <= i < |es| ==> !Revives(es[i], id)
    ensures var end := RunNode(Next(n, Purge(id)), es);
            id !in end.registry && id !in end.running
  {
    if es != [] {
      var k := |es| - 1;
      PurgedStaysGone(n, es[..k], id);
      NothingRevives(RunNode(Next(n, Purge(id)), es[..k]), es[k], id);
    }
  }

  // ----- schedules that leak -----

  lemma OneMore(n: Node, es: seq<Event>, e: Event)
    ensures RunNode(n, es + [e]) == Next(RunNode(n, es), e)
  {
    assert (es + [e])[..|es|] == es;
  }

  function Attaching(row: Session): Node {
    IDLE.(m := Manager(map[row.id := row], map[row.id := row.microservice]), starting := multiset{row.id})
  }

  lemma Attaches(row: Session)
    ensures Next(IDLE, Poll(row, true, true)) == Attaching(row)
  {
    assert Attached(IDLE.m.active, row.microservice) == {};
  }

  /** An attachment that is stopped and released while its start goes on. */
  lemma StoppedEarly(row: Session)
    ensures Next(Next(Attaching(row), Stop(row.id)), Release(row.id)) == IDLE.(starting := multiset{row.id})
  {
    var stopped := Next(Attaching(row), Stop(row.id));
    assert stopped.m.active == map[] && stopped.m.handlers == map[];
  }

  /** The rest of a start that finds its record as it left it. */
  lemma CompletesStart(n: Node, id: string)
    requires n.creating == multiset{id} && n.launching == n.gating == multiset{}
    ensures Next(Next(Next(n, Create(id, true)), Launch(id, true)), Gate(id, true)) ==
            n.(creating := multiset{}, running := n.running + {id})
  {
    var created := Next(n, Create(id, true));
    assert created.launching == multiset{id} && created.gating == multiset{id};
  }

  function LateStart(row: Session): seq<Event> {
    [Poll(row, true, true)] + [Stop(row.id)] + [Release(row.id)] + [Register(row.id)] +
    [Create(row.id, true)] + [Launch(row.id, true)] + [Gate(row.id, true)]
  }

  /** A stop between attaching and registering leaves a session running on a quiet node without an
      attachment. */
  lemma StopDuringStartLeaks(row: Session)
    ensures RunNode(IDLE, LateStart(row)) == IDLE.(registry := {row.id}, running := {row.id})
  {
    var id := row.id;
    var e1 := [Poll(row, true, true)];
    var e3 := e1 + [Stop(id)] + [Release(id)];
    var e4 := e3 + [Register(id)];
    assert [] + e1 == e1;
    OneMore(IDLE, [], Poll(row, true, true));
    Attaches(row);
    OneMore(IDLE, e1, Stop(id));
    OneMore(IDLE, e1 + [Stop(id)], Release(id));
    StoppedEarly(row);
    OneMore(IDLE, e3, Register(id));
    assert RunNode(IDLE, e4) == IDLE.(creating := multiset{id}, registry := {id});
    OneMore(IDLE, e4, Create(id, true));
    OneMore(IDLE, e4 + [Create(id, true)], Launch(id, true));
    OneMore(IDLE, e4 + [Create(id, true)] + [Launch(id, true)], Gate(id, true));
    CompletesStart(RunNode(IDLE, e4), id);
  }

  /** When that session ends normally its record stays, and the next start of it fails. */
  lemma FinishedSessionBlocksRestart(row: Session)
    ensures var es := LateStart(row) + [Exit(row.id, false)];
            RunNode(IDLE, es) == IDLE.(registry := {row.id})
            && row.id in RunNode(IDLE, es + [Poll(row, true, true)] + [Register(row.id)]).failing
  {
    var es := LateStart(row) + [Exit(row.id, false)];
    StopDuringStartLeaks(row);
    OneMore(IDLE, LateStart(row), Exit(row.id, false));
    assert RunNode(IDLE, es) == IDLE.(registry := {row.id});
    OneMore(IDLE, es, Poll(row, true, true));
    OneMore(IDLE, es + [Poll(row, true, true)], Register(row.id));
    assert Attached(IDLE.m.active, row.microservice) == {};
  }

  function EarlyRelease(row: Session): seq<Event> {
    [Poll(row, true, true)] + [Register(row.id)] + [Stop(row.id)] + [Release(row.id)] +
    [Create(row.id, true)] + [Launch(row.id, true)] + [Gate(row.id, true)]
  }

  /** A stop between registering and launching leaves a process without a record on a quiet node. */
  lemma ReleaseDuringCreateLeaks(row: Session)
    ensures RunNode(IDLE, EarlyRelease(row)) == IDLE.(running := {row.id})
  {
    var id := row.id;
    var e1 := [Poll(row, true, true)];
    var e2 := e1 + [Register(id)];
    var e4 := e2 + [Stop(id)] + [Release(id)];
    assert [] + e1 == e1;
    OneMore(IDLE, [], Poll(row, true, true));
    Attaches(row);
    OneMore(IDLE, e1, Register(id));
    OneMore(IDLE, e2, Stop(id));
    OneMore(IDLE, e2 + [Stop(id)], Release(id));
    ReleasedEarly(row);
    OneMore(IDLE, e4, Create(id, true));
    OneMore(IDLE, e4 + [Create(id, true)], Launch(id, true));
    OneMore(IDLE, e4 + [Create(id, true)] + [Launch(id, true)], Gate(id, true));
    CompletesStart(RunNode(IDLE, e4), id);
  }

  /** Stopping the session again does not end that process. */
  lemma StopMissesUnrecorded(n: Node, id: string)
    requires LeftBehind(n, Process, id)
    ensures LeftBehind(Next(Next(n, Stop(id)), Release(id)), Process, id)
  {
    StopStep(n, id, Process, id);
    ReleaseStep(Next(n, Stop(id)), id, Process, id);
  }

  lemma ReleasedEarly(row: Session)
    ensures Next(Next(Next(Attaching(row), Register(row.id)), Stop(row.id)), Release(row.id)) ==
            IDLE.(creating := multiset{row.id})
  {
    var registered := Next(Attaching(row), Register(row.id));
    assert registered.creating == multiset{row.id} && registered.registry == {row.id};
    var stopped := Next(registered, Stop(row.id));
    assert stopped.m.active == map[] && stopped.m.handlers == map[] && stopped.releasing == multiset{row.id};
  }
}
