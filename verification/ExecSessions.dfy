/**
 Controller exec sessions: local attachments reconciled against the rows of a poll. The
 manager gives up its lock in the middle of starting, stopping and reconnecting, so the unit
 of interleaving here is one critical section; a run is any sequence of them, by any threads.
 */
module ExecSessions {

  const MAX_PER_MICROSERVICE := 3

  datatype Session = Session(id: string, microservice: string, status: string, agentConnected: bool)

  /** Attachments and their socket handlers; a handler remembers the microservice it was made for. */
  datatype Manager = Manager(active: map<string, Session>, handlers: map<string, string>)

  function Attached(active: map<string, Session>, microservice: string): set<string> {
    set id | id in active && active[id].microservice == microservice
  }

  // ----- critical sections -----

  datatype Step =
    | Visit(row: Session, ready: bool, handlerMade: bool)  // one polled row, up to the next unlock
    | Detach(id: string)                                   // the locked part of any stop

  function Detached(m: Manager, id: string): Manager {
    Manager(m.active - {id}, m.handlers - {id})
  }

  /** `ready` says the process manager is set, `handlerMade` that a controller URL is configured. */
  function Visited(m: Manager, row: Session, ready: bool, handlerMade: bool): Manager {
    if row.id in m.active then m.(active := m.active[row.id := row])
    else if |Attached(m.active, row.microservice)| >= MAX_PER_MICROSERVICE || !ready then m
    else if !handlerMade then Detached(m.(active := m.active[row.id := row]), row.id)
    else Manager(m.active[row.id := row], m.handlers[row.id := row.microservice])
  }

  function Apply(m: Manager, s: Step): Manager {
    match s
    case Visit(row, ready, handlerMade) => Visited(m, row, ready, handlerMade)
    case Detach(id) => Detached(m, id)
  }

  function Run(m: Manager, steps: seq<Step>): Manager
    decreases |steps|
  {
    if steps == [] then m else Run(Apply(m, steps[0]), steps[1..])
  }

  // ----- what every run keeps -----

  ghost predicate KeysAgree(m: Manager) {
    && m.active.Keys == m.handlers.Keys
    && forall id :: id in m.active ==> m.active[id].id == id
  }

  ghost predicate WithinLimit(active: map<string, Session>) {
    forall ms :: |Attached(active, ms)| <= MAX_PER_MICROSERVICE
  }

  ghost predicate AllOf(active: map<string, Session>, ids: set<string>, microservice: string) {
    forall id :: id in ids ==> id in active && active[id].microservice == microservice
  }

  /** The limit is that no four attachments belong to one microservice. */
  lemma WithinLimitIff(active: map<string, Session>)
    ensures WithinLimit(active) <==> forall ids, ms :: AllOf(active, ids, ms) ==> |ids| <= 3
  {
    if WithinLimit(active) {
      forall ids, ms | AllOf(active, ids, ms) ensures |ids| <= 3 {
        SubsetSize(ids, Attached(active, ms));
      }
    }
    forall ms ensures AllOf(active, Attached(active, ms), ms) {
    }
  }

  lemma StepKeepsKeys(m: Manager, s: Step)
    requires KeysAgree(m)
    ensures KeysAgree(Apply(m, s))
  {
  }

  lemma AttachedAfterPut(active: map<string, Session>, row: Session, ms: string)
    ensures var next := active[row.id := row];
            Attached(next, ms) ==
            if row.microservice == ms then Attached(active, ms) + {row.id} else Attached(active, ms) - {row.id}
  {
  }

  lemma PutWithinLimit(active: map<string, Session>, row: Session)
    requires WithinLimit(active)
    ensures WithinLimit(active[row.id := row]) <==>
            row.id in Attached(active, row.microservice) ||
            |Attached(active, row.microservice)| < MAX_PER_MICROSERVICE
  {
    var next := active[row.id := row];
    forall ms | ms != row.microservice ensures |Attached(next, ms)| <= MAX_PER_MICROSERVICE {
      AttachedAfterPut(active, row, ms);
      SubsetSize(Attached(active, ms) - {row.id}, Attached(active, ms));
    }
    AttachedAfterPut(active, row, row.microservice);
    var before := Attached(active, row.microservice);
    if row.id in before {
      assert before + {row.id} == before;
    }
  }

  lemma SubsetSize<T>(a: set<T>, b: set<T>)
    requires a <= b
    ensures |a| <= |b|
  {
    assert b == a + (b - a);
  }

  lemma DropWithinLimit(active: map<string, Session>, ids: set<string>)
    requires WithinLimit(active)
    ensures WithinLimit(active - ids)
  {
    forall ms ensures |Attached(active - ids, ms)| <= MAX_PER_MICROSERVICE {
      SubsetSize(Attached(active - ids, ms), Attached(active, ms));
    }
  }

  /** A polled row keeps the limit exactly when it starts a new attachment or is refused, keeps
      its microservice, or moves to a microservice with room. */
  lemma VisitKeepsLimitIff(m: Manager, row: Session, ready: bool, handlerMade: bool)
    requires WithinLimit(m.active)
    ensures WithinLimit(Visited(m, row, ready, handlerMade).active) <==>
            row.id in m.active && m.active[row.id].microservice != row.microservice ==>
              |Attached(m.active, row.microservice)| < MAX_PER_MICROSERVICE
  {
    PutWithinLimit(m.active, row);
    if row.id !in m.active {
      assert m.active[row.id := row] - {row.id} == m.active;
    }
  }

  /** Session ids keep their microservice throughout. */
  ghost predicate KeepsOwners(steps: seq<Step>, owner: string -> string) {
    forall s :: s in steps && s.Visit? ==> s.row.microservice == owner(s.row.id)
  }

  ghost predicate Owned(m: Manager, owner: string -> string) {
    forall id :: id in m.active ==> m.active[id].microservice == owner(id)
  }

  lemma StepKeepsLimit(m: Manager, s: Step, owner: string -> string)
    requires KeysAgree(m) && WithinLimit(m.active) && Owned(m, owner)
    requires s.Visit? ==> s.row.microservice == owner(s.row.id)
    ensures WithinLimit(Apply(m, s).active) && Owned(Apply(m, s), owner)
  {
    match s
    case Visit(row, ready, handlerMade) => VisitKeepsLimitIff(m, row, ready, handlerMade);
    case Detach(id) => DropWithinLimit(m.active, {id});
  }

  /** In every interleaving of polls, stops and close messages, attachments and handlers have the
      same ids, and no microservice has more than three attachments as long as session ids keep
      their microservice. */
  lemma {:induction false} EveryRunIsBounded(m: Manager, steps: seq<Step>, owner: string -> string)
    requires KeysAgree(m)
    ensures KeysAgree(Run(m, steps))
    ensures WithinLimit(m.active) && Owned(m, owner) && KeepsOwners(steps, owner) ==>
              WithinLimit(Run(m, steps).active)
    decreases |steps|
  {
    if steps != [] {
      StepKeepsKeys(m, steps[0]);
      if WithinLimit(m.active) && Owned(m, owner) && KeepsOwners(steps, owner) {
        StepKeepsLimit(m, steps[0], owner);
      }
      EveryRunIsBounded(Apply(m, steps[0]), steps[1..], owner);
    }
  }

  /** Without that, the limit can be passed: a session that moves to a full microservice. */
  lemma MovingSessionBreaksLimit()
    ensures var row := (id: string, ms: string) => Session(id, ms, "ACTIVE", true);
            var m := Manager(map["a" := row("a", "x"), "b" := row("b", "x"),
                                 "c" := row("c", "x"), "d" := row("d", "y")],
                             map["a" := "x", "b" := "x", "c" := "x", "d" := "y"]);
            KeysAgree(m) && WithinLimit(m.active) && !WithinLimit(Visited(m, row("d", "x"), true, true).active)
  {
    var row := (id: string, ms: string) => Session(id, ms, "ACTIVE", true);
    var m := Manager(map["a" := row("a", "x"), "b" := row("b", "x"), "c" := row("c", "x"), "d" := row("d", "y")],
                     map["a" := "x", "b" := "x", "c" := "x", "d" := "y"]);
    forall ms ensures |Attached(m.active, ms)| <= MAX_PER_MICROSERVICE {
      assert Attached(m.active, ms) == if ms == "x" then {"a", "b", "c"} else if ms == "y" then {"d"} else {};
    }
    assert Attached(m.active, "x") == {"a", "b", "c"};
    assert "a"[0] != "b"[0] && "b"[0] != "c"[0] && "a"[0] != "c"[0];
    assert |{"a", "b", "c"}| == 3;
    VisitKeepsLimitIff(m, row("d", "x"), true, true);
  }

  // ----- one poll that nothing disturbs -----

  /** What happens outside the lock while a row is handled. */
  datatype Outcome = Outcome(handlerMade: bool, connected: bool, created: bool)

  function Ids(rows: seq<Session>): set<string> {
    set i | 0 <= i < |rows| :: rows[i].id
  }

  function Kept(m: Manager, ids: set<string>): Manager {
    Manager(map id | id in m.active && id in ids :: m.active[id],
            map id | id in m.handlers && id in ids :: m.handlers[id])
  }

  lemma KeptStep(m: Manager, fetched: set<string>, todo: set<string>, id: string)
    requires id in todo
    ensures Kept(m, fetched + (todo - {id})) ==
            if id in fetched then Kept(m, fetched + todo) else Detached(Kept(m, fetched + todo), id)
  {
    if id in fetched {
      assert fetched + (todo - {id}) == fetched + todo;
    }
  }

  /** A start whose connect or create fails is taken back. */
  function PolledRow(m: Manager, row: Session, ready: bool, o: Outcome): Manager {
    var visited := Visited(m, row, ready, o.handlerMade);
    if row.id !in m.active && row.id in visited.active && !(o.connected && o.created)
    then Detached(visited, row.id) else visited
  }

  function PolledRows(m: Manager, rows: seq<Session>, ready: bool, outcomes: seq<Outcome>): Manager
    requires |outcomes| == |rows|
  {
    if rows == [] then m
    else var k := |rows| - 1;
         PolledRow(PolledRows(m, rows[..k], ready, outcomes[..k]), rows[k], ready, outcomes[k])
  }

  function Polled(m: Manager, rows: seq<Session>, ready: bool, outcomes: seq<Outcome>): Manager
    requires |outcomes| == |rows|
  {
    PolledRows(Kept(m, Ids(rows)), rows, ready, outcomes)
  }

  predicate StartedFully(row: Session, id: string, ready: bool, o: Outcome) {
    row.id == id && ready && o.handlerMade && o.connected && o.created
  }

  lemma RowEffect(m: Manager, row: Session, ready: bool, o: Outcome, id: string)
    requires KeysAgree(m)
    ensures var next := PolledRow(m, row, ready, o);
            && KeysAgree(next)
            && (id in m.active ==> id in next.active)
            && (id in next.active ==> (id in m.active && next.active[id] == m.active[id]) || next.active[id] == row)
            && (id in next.active && id !in m.active ==> StartedFully(row, id, ready, o))
  {
    StepKeepsKeys(m, Visit(row, ready, o.handlerMade));
  }

  lemma {:induction false} RowsEffect(m: Manager, rows: seq<Session>, ready: bool, outcomes: seq<Outcome>, id: string)
    requires |outcomes| == |rows| && KeysAgree(m)
    ensures var next := PolledRows(m, rows, ready, outcomes);
            && KeysAgree(next)
            && (id in m.active ==> id in next.active)
            && (id in next.active ==> (id in m.active && next.active[id] == m.active[id]) || next.active[id] in rows)
            && (id in next.active && id !in m.active ==>
                  exists i :: 0 <= i < |rows| && StartedFully(rows[i], id, ready, outcomes[i]))
  {
    if rows != [] {
      var k := |rows| - 1;
      var before := PolledRows(m, rows[..k], ready, outcomes[..k]);
      RowsEffect(m, rows[..k], ready, outcomes[..k], id);
      RowEffect(before, rows[k], ready, outcomes[k], id);
      if id in before.active && id !in m.active {
        var i :| 0 <= i < k && StartedFully(rows[..k][i], id, ready, outcomes[..k][i]);
        assert StartedFully(rows[i], id, ready, outcomes[i]);
      }
    }
  }

  /** Row `i` of a poll is started: it is started completely and its microservice has room when
      its turn comes. */
  ghost predicate Starts(m: Manager, rows: seq<Session>, ready: bool, outcomes: seq<Outcome>, i: int)
    requires |outcomes| == |rows| && 0 <= i < |rows|
  {
    && StartedFully(rows[i], rows[i].id, ready, outcomes[i])
    && |Attached(PolledRows(m, rows[..i], ready, outcomes[..i]).active, rows[i].microservice)| < MAX_PER_MICROSERVICE
  }

  lemma RowAttachesIff(m: Manager, row: Session, ready: bool, o: Outcome, id: string)
    ensures id in PolledRow(m, row, ready, o).active <==>
            id in m.active ||
            (StartedFully(row, id, ready, o) && |Attached(m.active, row.microservice)| < MAX_PER_MICROSERVICE)
  {
  }

  lemma {:induction false} RowsAttachIff(m: Manager, rows: seq<Session>, ready: bool, outcomes: seq<Outcome>,
                                         id: string)
    requires |outcomes| == |rows|
    ensures id in PolledRows(m, rows, ready, outcomes).active <==>
            id in m.active || exists i :: 0 <= i < |rows| && rows[i].id == id && Starts(m, rows, ready, outcomes, i)
  {
    if rows != [] {
      var k := |rows| - 1;
      RowsAttachIff(m, rows[..k], ready, outcomes[..k], id);
      RowAttachesIff(PolledRows(m, rows[..k], ready, outcomes[..k]), rows[k], ready, outcomes[k], id);
      forall i | 0 <= i < k
        ensures Starts(m, rows[..k], ready, outcomes[..k], i) <==> Starts(m, rows, ready, outcomes, i)
      {
        assert rows[..k][..i] == rows[..i] && outcomes[..k][..i] == outcomes[..i];
      }
      StartsEarlier(m, rows, ready, outcomes, id);
    }
  }

  lemma StartsEarlier(m: Manager, rows: seq<Session>, ready: bool, outcomes: seq<Outcome>, id: string)
    requires |outcomes| == |rows| > 0
    requires var k := |rows| - 1;
             forall i :: 0 <= i < k ==>
               (Starts(m, rows[..k], ready, outcomes[..k], i) <==> Starts(m, rows, ready, outcomes, i))
    ensures var k := |rows| - 1;
            (exists i :: 0 <= i < |rows| && rows[i].id == id && Starts(m, rows, ready, outcomes, i)) <==>
            (exists i :: 0 <= i < k && rows[..k][i].id == id && Starts(m, rows[..k], ready, outcomes[..k], i)) ||
            (rows[k].id == id && Starts(m, rows, ready, outcomes, k))
  {
    var k := |rows| - 1;
    if i :| 0 <= i < |rows| && rows[i].id == id && Starts(m, rows, ready, outcomes, i) {
      if i < k {
        assert rows[..k][i].id == id && Starts(m, rows[..k], ready, outcomes[..k], i);
      }
    }
    if i :| 0 <= i < k && rows[..k][i].id == id && Starts(m, rows[..k], ready, outcomes[..k], i) {
      assert rows[i].id == id && Starts(m, rows, ready, outcomes, i);
    }
  }

  /** After an undisturbed poll an id is attached exactly when it was attached and fetched again, or
      one of its rows was started completely with room for it. So nothing outside the fetched rows
      remains, and a fetched row that is not attached was refused at the limit or without a process
      manager, or failed to start. */
  lemma PollConverges(m: Manager, rows: seq<Session>, ready: bool, outcomes: seq<Outcome>, id: string)
    requires |outcomes| == |rows| && KeysAgree(m)
    ensures var next := Polled(m, rows, ready, outcomes);
            && KeysAgree(next)
            && (id in next.active <==>
                  || (id in m.active && id in Ids(rows))
                  || exists i :: 0 <= i < |rows| && rows[i].id == id &&
                                 Starts(Kept(m, Ids(rows)), rows, ready, outcomes, i))
            && (id in next.active ==> id in Ids(rows))
  {
    var kept := Kept(m, Ids(rows));
    assert KeysAgree(kept);
    RowsEffect(kept, rows, ready, outcomes, id);
    RowsAttachIff(kept, rows, ready, outcomes, id);
  }

  /** Position of the last row for the id, or -1. */
  function LastRow(rows: seq<Session>, id: string): (i: int)
    ensures -1 <= i < |rows|
    ensures i >= 0 ==> rows[i].id == id
    ensures forall j :: i < j < |rows| ==> rows[j].id != id
  {
    if rows == [] then -1 else if rows[|rows| - 1].id == id then |rows| - 1 else LastRow(rows[..|rows| - 1], id)
  }

  lemma RowValue(m: Manager, row: Session, ready: bool, o: Outcome, id: string)
    ensures var next := PolledRow(m, row, ready, o);
            && (id in next.active && row.id == id ==> next.active[id] == row)
            && (row.id != id ==> (id in next.active <==> id in m.active))
            && (row.id != id && id in m.active ==> next.active[id] == m.active[id])
            && (id in m.active && id in m.handlers ==> id in next.handlers && next.handlers[id] == m.handlers[id])
            && (id in next.active && id !in m.active ==> id in next.handlers && next.handlers[id] == row.microservice)
  {
  }

  lemma {:induction false} RowsValue(m: Manager, rows: seq<Session>, ready: bool, outcomes: seq<Outcome>, id: string)
    requires |outcomes| == |rows| && KeysAgree(m)
    ensures var next, i := PolledRows(m, rows, ready, outcomes), LastRow(rows, id);
            && (id in next.active && i >= 0 ==> next.active[id] == rows[i])
            && (id in next.active && i < 0 ==> id in m.active && next.active[id] == m.active[id])
            && (id in m.active ==> id in next.handlers && next.handlers[id] == m.handlers[id])
            && (id in next.active && id !in m.active ==>
                  id in next.handlers &&
                  exists j :: 0 <= j < |rows| && rows[j].id == id && next.handlers[id] == rows[j].microservice)
  {
    if rows != [] {
      var k := |rows| - 1;
      var before := PolledRows(m, rows[..k], ready, outcomes[..k]);
      RowsEffect(m, rows[..k], ready, outcomes[..k], id);
      RowsValue(m, rows[..k], ready, outcomes[..k], id);
      RowValue(before, rows[k], ready, outcomes[k], id);
    }
  }

  /** After an undisturbed poll every attachment holds the last row fetched for it; one that was there
      before keeps its socket handler, and a new one has a handler for the microservice of a fetched row. */
  lemma PollRefreshes(m: Manager, rows: seq<Session>, ready: bool, outcomes: seq<Outcome>, id: string)
    requires |outcomes| == |rows| && KeysAgree(m) && id in Polled(m, rows, ready, outcomes).active
    ensures var next, i := Polled(m, rows, ready, outcomes), LastRow(rows, id);
            && i >= 0 && next.active[id] == rows[i] && id in next.handlers
            && if id in m.active then next.handlers[id] == m.handlers[id]
               else exists j :: 0 <= j < |rows| && rows[j].id == id && next.handlers[id] == rows[j].microservice
  {
    var kept := Kept(m, Ids(rows));
    assert KeysAgree(kept);
    RowsValue(kept, rows, ready, outcomes, id);
    PollConverges(m, rows, ready, outcomes, id);
  }

  // ----- stopping while others run -----

  /** Once its last row is past, a session that is stopped stays gone, whatever else happens. */
  lemma {:induction false} StoppedStaysGone(m: Manager, steps: seq<Step>, id: string)
    requires id !in m.active || Detach(id) in steps
    requires forall s :: s in steps && s.Visit? ==> s.row.id != id
    ensures id !in Run(m, steps).active
    decreases |steps|
  {
    if steps != [] {
      assert steps[0] in steps && forall s :: s in steps[1..] ==> s in steps;
      assert Detach(id) in steps ==> steps[0] == Detach(id) || Detach(id) in steps[1..];
      StoppedStaysGone(Apply(m, steps[0]), steps[1..], id);
    }
  }

  /** Stopping every attachment of a microservice gives up the lock between the stops. In every
      interleaving with other threads none is left at the end, as long as no row of the
      microservice is polled meanwhile. */
  lemma {:induction false} StopAllUnderInterference(m: Manager, steps: seq<Step>, microservice: string)
    requires forall s :: s in steps && s.Visit? ==> s.row.microservice != microservice
    ensures forall id :: id in Attached(Run(m, steps).active, microservice) ==>
              id in Attached(m.active, microservice) && Detach(id) !in steps
    decreases |steps|
  {
    if steps != [] {
      assert steps[0] in steps && forall s :: s in steps[1..] ==> s in steps;
      assert forall id :: Detach(id) in steps ==> steps[0] == Detach(id) || Detach(id) in steps[1..];
      StopAllUnderInterference(Apply(m, steps[0]), steps[1..], microservice);
    }
  }

  // ----- a poll is one of the runs -----

  lemma {:induction false} RunConcat(m: Manager, a: seq<Step>, b: seq<Step>)
    ensures Run(m, a + b) == Run(Run(m, a), b)
    decreases |a|
  {
    if a == [] {
      assert a + b == b;
    } else {
      assert (a + b)[1..] == a[1..] + b;
      RunConcat(Apply(m, a[0]), a[1..], b);
    }
  }

  function StopSteps(ids: seq<string>): seq<Step> {
    if ids == [] then [] else StopSteps(ids[..|ids| - 1]) + [Detach(ids[|ids| - 1])]
  }

  function RowSteps(m: Manager, row: Session, ready: bool, o: Outcome): seq<Step> {
    [Visit(row, ready, o.handlerMade)] +
    if row.id !in m.active && row.id in Visited(m, row, ready, o.handlerMade).active && !(o.connected && o.created)
    then [Detach(row.id)] else []
  }

  function RowsSteps(m: Manager, rows: seq<Session>, ready: bool, outcomes: seq<Outcome>): seq<Step>
    requires |outcomes| == |rows|
  {
    if rows == [] then []
    else var k := |rows| - 1;
         RowsSteps(m, rows[..k], ready, outcomes[..k]) +
         RowSteps(PolledRows(m, rows[..k], ready, outcomes[..k]), rows[k], ready, outcomes[k])
  }

  lemma RunRowSteps(m: Manager, row: Session, ready: bool, o: Outcome)
    ensures Run(m, RowSteps(m, row, ready, o)) == PolledRow(m, row, ready, o)
  {
    var steps := RowSteps(m, row, ready, o);
    if |steps| == 2 {
      var visited := Visited(m, row, ready, o.handlerMade);
      assert steps[1..] == [Detach(row.id)] && steps[1..][1..] == [];
      assert Run(visited, steps[1..]) == Apply(visited, Detach(row.id));
    } else {
      assert steps[1..] == [];
    }
  }

  lemma {:induction false} RunRows(m: Manager, rows: seq<Session>, ready: bool, outcomes: seq<Outcome>)
    requires |outcomes| == |rows|
    ensures Run(m, RowsSteps(m, rows, ready, outcomes)) == PolledRows(m, rows, ready, outcomes)
    ensures forall s :: s in RowsSteps(m, rows, ready, outcomes) && s.Visit? ==> s.row in rows
  {
    if rows != [] {
      var k := |rows| - 1;
      var before := PolledRows(m, rows[..k], ready, outcomes[..k]);
      RunRows(m, rows[..k], ready, outcomes[..k]);
      RunConcat(m, RowsSteps(m, rows[..k], ready, outcomes[..k]), RowSteps(before, rows[k], ready, outcomes[k]));
      RunRowSteps(before, rows[k], ready, outcomes[k]);
    }
  }

  lemma {:induction false} RunStops(m: Manager, ids: seq<string>)
    ensures var gone := set id | id in ids;
            Run(m, StopSteps(ids)) == Manager(m.active - gone, m.handlers - gone)
    ensures forall s :: s in StopSteps(ids) ==> s.Detach?
  {
    if ids == [] {
      assert m.active - {} == m.active && m.handlers - {} == m.handlers;
    } else {
      var k := |ids| - 1;
      var last := [Detach(ids[k])];
      RunStops(m, ids[..k]);
      RunConcat(m, StopSteps(ids[..k]), last);
      assert last[1..] == [];
      assert (set id | id in ids) == (set id | id in ids[..k]) + {ids[k]} by {
        assert ids == ids[..k] + [ids[k]];
      }
    }
  }

  /** The poll as a whole is a run of the critical sections it is made of, so everything proved of
      runs holds of polls, however many overlap. */
  lemma PollIsARun(m: Manager, rows: seq<Session>, ready: bool, outcomes: seq<Outcome>, stale: seq<string>)
    requires |outcomes| == |rows| && KeysAgree(m)
    requires forall id :: id in stale <==> id in m.active && id !in Ids(rows)
    ensures Run(m, StopSteps(stale) + RowsSteps(Kept(m, Ids(rows)), rows, ready, outcomes)) ==
            Polled(m, rows, ready, outcomes)
  {
    var gone := set id | id in stale;
    RunStops(m, stale);
    assert m.active - gone == Kept(m, Ids(rows)).active;
    assert m.handlers - gone == Kept(m, Ids(rows)).handlers;
    RunConcat(m, StopSteps(stale), RowsSteps(Kept(m, Ids(rows)), rows, ready, outcomes));
    RunRows(Kept(m, Ids(rows)), rows, ready, outcomes);
  }

  // ----- the manager -----

  class ExecSessionManager {
    var activeSessions: map<string, Session>
    var webSocketHandlers: map<string, string>
    var processManagerSet: bool

    function State(): Manager
      reads this
    {
      Manager(activeSessions, webSocketHandlers)
    }

    constructor ()
      ensures State() == Manager(map[], map[]) && !processManagerSet
    {
      activeSessions, webSocketHandlers, processManagerSet := map[], map[], false;
    }

    method CountControllerSessionsForMS(microservice: string) returns (count: nat)
      ensures count == |Attached(activeSessions, microservice)|
    {
      count := 0;
      var todo, counted := activeSessions.Keys, {};
      while todo != {}
        invariant todo <= activeSessions.Keys
        invariant counted == Attached(activeSessions, microservice) - todo && count == |counted|
      {
        var id :| id in todo;
        if activeSessions[id].microservice == microservice {
          count := count + 1;
          counted := counted + {id};
        }
        todo := todo - {id};
      }
      assert counted == Attached(activeSessions, microservice);
    }

    /** The locked part of every stop. */
    method RemoveExecSessionState(id: string)
      modifies this`activeSessions, this`webSocketHandlers
      ensures State() == Detached(old(State()), id)
    {
      webSocketHandlers := webSocketHandlers - {id};
      activeSessions := activeSessions - {id};
    }

    /** Handling one polled row until the lock is given up or the next row comes; `starting`
        tells that a connect is now in progress. Reconnecting a known session leaves both maps alone. */
    method VisitRow(row: Session, handlerMade: bool) returns (starting: bool)
      modifies this`activeSessions, this`webSocketHandlers
      ensures State() == Visited(old(State()), row, processManagerSet, handlerMade)
      ensures starting <==> row.id !in old(activeSessions) && row.id in activeSessions
    {
      if row.id in activeSessions {
        activeSessions := activeSessions[row.id := row];
        return false;
      }
      var count := CountControllerSessionsForMS(row.microservice);
      if count >= MAX_PER_MICROSERVICE || !processManagerSet {
        return false;
      }
      activeSessions := activeSessions[row.id := row];
      if !handlerMade {
        RemoveExecSessionState(row.id);
        return false;
      }
      webSocketHandlers := webSocketHandlers[row.id := row.microservice];
      return true;
    }

    method StopStale(fetched: set<string>)
      requires KeysAgree(State())
      modifies this`activeSessions, this`webSocketHandlers
      ensures State() == Kept(old(State()), fetched)
    {
      var todo := activeSessions.Keys;
      while todo != {}
        invariant todo <= old(activeSessions).Keys
        invariant State() == Kept(old(State()), fetched + todo)
      {
        var id :| id in todo;
        KeptStep(old(State()), fetched, todo, id);
        if id !in fetched {
          RemoveExecSessionState(id);
        }
        todo := todo - {id};
      }
      assert fetched + todo == fetched;
    }

    /** A poll during which no other thread takes the lock. */
    method HandleExecSessions(rows: seq<Session>, outcomes: seq<Outcome>)
      requires |outcomes| == |rows| && KeysAgree(State())
      modifies this`activeSessions, this`webSocketHandlers
      ensures State() == Polled(old(State()), rows, processManagerSet, outcomes)
    {
      var fetched := Ids(rows);
      StopStale(fetched);
      ghost var kept := State();
      for i := 0 to |rows|
        invariant State() == PolledRows(kept, rows[..i], processManagerSet, outcomes[..i])
      {
        assert rows[..i + 1][..i] == rows[..i] && outcomes[..i + 1][..i] == outcomes[..i];
        var starting := VisitRow(rows[i], outcomes[i].handlerMade);
        if starting {
          if !outcomes[i].connected || !outcomes[i].created {
            RemoveExecSessionState(rows[i].id);
          }
        }
      }
      assert rows[..|rows|] == rows && outcomes[..|rows|] == outcomes;
    }

    method StopAllInteractiveForMicroservice(microservice: string)
      modifies this`activeSessions, this`webSocketHandlers
      ensures State() == Manager(old(activeSessions) - Attached(old(activeSessions), microservice),
                                 old(webSocketHandlers) - Attached(old(activeSessions), microservice))
    {
      var ids := Attached(activeSessions, microservice);
      var todo := ids;
      while todo != {}
        invariant todo <= ids
        invariant activeSessions == old(activeSessions) - (ids - todo)
        invariant webSocketHandlers == old(webSocketHandlers) - (ids - todo)
      {
        var id :| id in todo;
        RemoveExecSessionState(id);
        assert ids - (todo - {id}) == (ids - todo) + {id};
        todo := todo - {id};
      }
      assert ids - todo == ids;
    }
  }
}
