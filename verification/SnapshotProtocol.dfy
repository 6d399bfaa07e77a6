/**
 When the resolver's table reaches the disk, and when its clean flag can be believed. The
 persister runs beside the mutators: it loads the revision, collects the table under the lock,
 writes the file and only then stores the revision it had loaded. The steps are separate here,
 so mutators and reconcile passes fall between any two of them. The JSON codec is the identity
 on records, and a missing file reads as an empty list.
 */
module SnapshotProtocol {
  import opened Text
  import opened Wrappers
  import opened Sorting
  import opened DnsRecords
  import opened Resolver

  datatype Phase =
    | Idle
    | Loaded(rev: nat)
    | Collected(rev: nat, list: seq<WorkloadRecord>)
    | Saved(rev: nat)

  datatype State = State(table: Table, revision: nat, persisted: nat, disk: seq<WorkloadRecord>, phase: Phase)

  datatype Event =
    | Upsert(rec: WorkloadRecord, hostIP: string)
    | SetActive(uuid: string, active: bool, startedAt: int)
    | Remove(uuid: string)
    | Reconcile(records: seq<WorkloadRecord>, hostIP: string)
    | LoadRevision(force: bool)
    | Collect(list: seq<WorkloadRecord>)
    | Save(ok: bool)
    | StorePersisted

  /** A mutator's effect: the revision moves exactly when the table does. */
  function Mutated(s: State, table: Table): State {
    s.(table := table, revision := s.revision + if table == s.table then 0 else 1)
  }

  ghost predicate Enabled(s: State, e: Event) {
    match e
    case Upsert(_, hostIP) => Trimmed(hostIP)
    case SetActive(_, _, _) => true
    case Remove(_) => true
    case Reconcile(_, hostIP) => Trimmed(hostIP)
    case LoadRevision(_) => s.phase.Idle?
    case Collect(list) => s.phase.Loaded? && IsSnapshotOf(list, s.table)
    case Save(_) => s.phase.Collected?
    case StorePersisted => s.phase.Saved?
  }

  ghost function Step(s: State, e: Event): State
    requires Enabled(s, e)
  {
    match e
    case Upsert(rec, hostIP) => Mutated(s, Upserted(s.table, rec, hostIP))
    case SetActive(uuid, active, startedAt) => Mutated(s, Activated(s.table, uuid, active, startedAt))
    case Remove(uuid) => Mutated(s, Removed(s.table, uuid))
    case Reconcile(records, hostIP) => s.(table := Reconciled(s.table, records, hostIP))
    case LoadRevision(force) =>
      if !force && s.revision == s.persisted then s else s.(phase := Loaded(s.revision))
    case Collect(list) => s.(phase := Collected(s.phase.rev, list))
    case Save(ok) => if ok then s.(disk := s.phase.list, phase := Saved(s.phase.rev)) else s.(phase := Idle)
    case StorePersisted => s.(persisted := s.phase.rev, phase := Idle)
  }

  /** A mutator may run at any time, moves the revision by one exactly when it changes the table, and
      touches neither file nor persister. */
  lemma MutatorIs(s: State, e: Event)
    requires e.Remove? || e.SetActive? || (e.Upsert? && Trimmed(e.hostIP))
    ensures Enabled(s, e)
    ensures var next := Step(s, e);
            && next.revision == s.revision + (if next.table == s.table then 0 else 1)
            && next.persisted == s.persisted && next.disk == s.disk && next.phase == s.phase
    ensures e.Remove? ==> Step(s, e).table == s.table - {TrimSpace(e.uuid)}
  {
    if e.Remove? {
      RemovedIs(s.table, e.uuid);
    }
  }

  ghost predicate Legal(s: State, es: seq<Event>)
    decreases |es|
  {
    es == [] || (Enabled(s, es[0]) && Legal(Step(s, es[0]), es[1..]))
  }

  ghost function After(s: State, es: seq<Event>): State
    requires Legal(s, es)
    decreases |es|
  {
    if es == [] then s else After(Step(s, es[0]), es[1..])
  }

  /** The clean flag tells the truth. */
  ghost predicate CleanMeansSaved(s: State) {
    s.persisted == s.revision ==> IsSnapshotOf(s.disk, s.table)
  }

  ghost predicate Inv(s: State) {
    && WellKeyed(s.table)
    && s.persisted <= s.revision
    && CleanMeansSaved(s)
    && match s.phase
       case Idle => true
       case Loaded(rev) => s.persisted <= rev <= s.revision
       case Collected(rev, list) =>
         s.persisted <= rev <= s.revision && (rev == s.revision ==> IsSnapshotOf(list, s.table))
       case Saved(rev) =>
         s.persisted <= rev <= s.revision && (rev == s.revision ==> IsSnapshotOf(s.disk, s.table))
  }

  lemma MutatorsKeepKeys(table: Table, rec: WorkloadRecord, hostIP: string, uuid: string, active: bool, startedAt: int)
    requires WellKeyed(table) && Trimmed(hostIP)
    ensures WellKeyed(Upserted(table, rec, hostIP)) && WellKeyed(Removed(table, uuid))
    ensures WellKeyed(Activated(table, uuid, active, startedAt))
  {
    NormalizeRecordStores(rec, hostIP);
    if NormalizeRecord(rec, hostIP).Some? {
      StoredKeyed(table, NormalizeRecord(rec, hostIP).value);
    }
    var next := Activated(table, uuid, active, startedAt);
    if TrimSpace(uuid) in table {
      StoredKeyed(table, next[TrimSpace(uuid)]);
    }
  }

  lemma ReconciledIsWellKeyed(table: Table, records: seq<WorkloadRecord>, hostIP: string)
    requires WellKeyed(table) && Trimmed(hostIP)
    ensures WellKeyed(Reconciled(table, records, hostIP))
  {
    KeyedIsWellKeyed(Eligible(records), hostIP);
  }

  lemma MutatedKeepsInv(s: State, table: Table)
    requires Inv(s) && WellKeyed(table)
    ensures Inv(Mutated(s, table))
  {
  }

  lemma StepKeepsInv(s: State, e: Event)
    requires Inv(s) && Enabled(s, e) && Timely(s, e)
    ensures Inv(Step(s, e))
  {
    match e
    case Upsert(rec, hostIP) =>
      MutatorsKeepKeys(s.table, rec, hostIP, "", false, 0);
      MutatedKeepsInv(s, Upserted(s.table, rec, hostIP));
    case SetActive(uuid, active, startedAt) =>
      MutatorsKeepKeys(s.table, ANY_RECORD, "", uuid, active, startedAt);
      MutatedKeepsInv(s, Activated(s.table, uuid, active, startedAt));
    case Remove(uuid) =>
      MutatorsKeepKeys(s.table, ANY_RECORD, "", uuid, false, 0);
      MutatedKeepsInv(s, Removed(s.table, uuid));
    case Reconcile(records, hostIP) => ReconcileKeepsInvIff(s, records, hostIP);
    case LoadRevision(_) =>
    case Collect(_) =>
    case Save(_) =>
    case StorePersisted =>
  }

  const ANY_RECORD := WorkloadRecord("", "", "", SCOPE_MANAGED, "", false, false, false, false, false, 0)

  // ----- reconcile leaves the revision alone -----

  /** A save of the current revision is on its way with a list collected earlier. */
  predicate InFlight(s: State) {
    (s.phase.Collected? || s.phase.Saved?) && s.phase.rev == s.revision
  }

  /** A reconcile at a moment that cannot make the clean flag lie: it changes nothing, or the
      snapshot is dirty and no save of the current revision is on its way. */
  ghost predicate Timely(s: State, e: Event) {
    e.Reconcile? ==>
      Reconciled(s.table, e.records, e.hostIP) == s.table || (s.persisted != s.revision && !InFlight(s))
  }

  lemma SnapshotDetermines(list: seq<WorkloadRecord>, a: Table, b: Table)
    requires WellKeyed(a) && WellKeyed(b) && IsSnapshotOf(list, a) && IsSnapshotOf(list, b)
    ensures a == b
  {
    forall u | u in a ensures u in b && a[u] == b[u] {
      assert a[u] in list;
    }
    forall u | u in b ensures u in a {
      assert b[u] in list;
    }
    assert a.Keys == b.Keys;
  }

  /** A reconcile keeps the run invariant exactly when it is timely. */
  lemma ReconcileKeepsInvIff(s: State, records: seq<WorkloadRecord>, hostIP: string)
    requires Inv(s) && Trimmed(hostIP)
    ensures Inv(Step(s, Reconcile(records, hostIP))) <==> Timely(s, Reconcile(records, hostIP))
  {
    var table := Reconciled(s.table, records, hostIP);
    ReconciledIsWellKeyed(s.table, records, hostIP);
    if table != s.table {
      if s.persisted == s.revision && IsSnapshotOf(s.disk, table) {
        SnapshotDetermines(s.disk, s.table, table);
      }
      if s.phase.Collected? && s.phase.rev == s.revision && IsSnapshotOf(s.phase.list, table) {
        SnapshotDetermines(s.phase.list, s.table, table);
      }
      if s.phase.Saved? && s.phase.rev == s.revision && IsSnapshotOf(s.disk, table) {
        SnapshotDetermines(s.disk, s.table, table);
      }
    }
  }

  /** Every reconcile of the run comes at such a moment. */
  ghost predicate AllTimely(s: State, es: seq<Event>)
    requires Legal(s, es)
    decreases |es|
  {
    es == [] || (Timely(s, es[0]) && AllTimely(Step(s, es[0]), es[1..]))
  }

  /** In every interleaving of mutators, timely reconciles and persister steps, whenever the
      persisted revision equals the current one the file holds exactly the current table in
      identifier order. */
  lemma {:induction false} CleanFlagIsSound(s: State, es: seq<Event>)
    requires Inv(s) && Legal(s, es) && AllTimely(s, es)
    ensures CleanMeansSaved(After(s, es)) && Inv(After(s, es))
    decreases |es|
  {
    if es != [] {
      StepKeepsInv(s, es[0]);
      CleanFlagIsSound(Step(s, es[0]), es[1..]);
    }
  }

  predicate NoReconcile(es: seq<Event>) {
    forall i :: 0 <= i < |es| ==> !es[i].Reconcile?
  }

  /** The clean flag is sound now and in every continuation without a further reconcile. */
  ghost predicate SoundFrom(s: State) {
    forall es :: Legal(s, es) && NoReconcile(es) ==> CleanMeansSaved(After(s, es))
  }

  lemma {:induction false} WithoutReconcileIsTimely(s: State, es: seq<Event>)
    requires Legal(s, es) && NoReconcile(es)
    ensures AllTimely(s, es)
    decreases |es|
  {
    if es != [] {
      WithoutReconcileIsTimely(Step(s, es[0]), es[1..]);
    }
  }

  lemma OneEvent(s: State, e: Event)
    requires Enabled(s, e)
    ensures Legal(s, [e]) && After(s, [e]) == Step(s, e)
  {
    assert [e][1..] == [];
  }

  lemma FirstEvent(s: State, e: Event, es: seq<Event>)
    requires Enabled(s, e) && Legal(Step(s, e), es)
    ensures Legal(s, [e] + es) && After(s, [e] + es) == After(Step(s, e), es)
  {
    assert ([e] + es)[1..] == es;
  }

  lemma LyingRun(s: State, es: seq<Event>)
    requires Legal(s, es) && NoReconcile(es) && !CleanMeansSaved(After(s, es))
    ensures !SoundFrom(s)
  {
  }

  /** A save on its way whose list is not the table's makes the flag lie when it lands. */
  lemma StaleSaveLies(s: State)
    requires InFlight(s) && !IsSnapshotOf(if s.phase.Collected? then s.phase.list else s.disk, s.table)
    ensures !SoundFrom(s)
  {
    var store := StorePersisted;
    if s.phase.Saved? {
      OneEvent(s, store);
      LyingRun(s, [store]);
    } else {
      var saved := Step(s, Save(true));
      OneEvent(saved, store);
      FirstEvent(s, Save(true), [store]);
      LyingRun(s, [Save(true)] + [store]);
    }
  }

  /** After a reconcile the clean flag can be believed for good, whatever mutators and persister
      do next, exactly when the reconcile was timely. */
  lemma ReconcileIsSafeIff(s: State, records: seq<WorkloadRecord>, hostIP: string)
    requires Inv(s) && Trimmed(hostIP)
    ensures SoundFrom(Step(s, Reconcile(records, hostIP))) <==> Timely(s, Reconcile(records, hostIP))
  {
    var next := Step(s, Reconcile(records, hostIP));
    ReconcileKeepsInvIff(s, records, hostIP);
    ReconciledIsWellKeyed(s.table, records, hostIP);
    if Inv(next) {
      forall es | Legal(next, es) && NoReconcile(es) ensures CleanMeansSaved(After(next, es)) {
        WithoutReconcileIsTimely(next, es);
        CleanFlagIsSound(next, es);
      }
    } else if CleanMeansSaved(next) {
      StaleSaveLies(next);
    } else {
      assert Legal(next, []) && After(next, []) == next;
    }
  }

  /** A file that lags behind is noticed by the next unforced pass, and a pass that no mutator
      disturbs and whose write succeeds leaves the resolver clean. */
  lemma QuietPassCleans(s: State, force: bool, list: seq<WorkloadRecord>)
    requires Inv(s) && s.phase.Idle? && IsSnapshotOf(list, s.table)
    ensures !IsSnapshotOf(s.disk, s.table) ==> Step(s, LoadRevision(force)).phase.Loaded?
    ensures Step(s, LoadRevision(force)).phase.Loaded? ==>
              var es := [LoadRevision(force), Collect(list), Save(true), StorePersisted];
              Legal(s, es) && After(s, es) == s.(persisted := s.revision, disk := list)
  {
    var load := LoadRevision(force);
    if Step(s, load).phase.Loaded? {
      var s1 := Step(s, load);
      var s2 := Step(s1, Collect(list));
      var s3 := Step(s2, Save(true));
      OneEvent(s3, StorePersisted);
      FirstEvent(s2, Save(true), [StorePersisted]);
      FirstEvent(s1, Collect(list), [Save(true)] + [StorePersisted]);
      FirstEvent(s, load, [Collect(list)] + ([Save(true)] + [StorePersisted]));
      assert [load] + ([Collect(list)] + ([Save(true)] + [StorePersisted])) ==
             [load, Collect(list), Save(true), StorePersisted];
    }
  }

  // ----- restart -----

  /** The resolver starts from the file. */
  function Restored(s: State, hostIP: string): State {
    var table := Keyed(s.disk, hostIP);
    var rev := if table == map[] then 0 else 1;
    State(table, rev, rev, s.disk, Idle)
  }

  /** A restart is clean at revision one, or zero for an empty table, with no save under way. */
  lemma RestoredIs(s: State, hostIP: string)
    ensures var r := Restored(s, hostIP);
            && r.table == Keyed(s.disk, hostIP) && r.disk == s.disk && r.phase == Idle
            && r.revision == r.persisted && (r.revision == 0 || r.revision == 1)
            && (r.revision == 0 <==> forall u :: u !in r.table)
  {
  }

  lemma SnapshotKeys(list: seq<WorkloadRecord>, table: Table, hostIP: string)
    requires WellKeyed(table) && IsSnapshotOf(list, table)
    ensures Keyed(list, hostIP).Keys == table.Keys
    ensures forall u :: u in table ==> NormalizeRecord(table[u], hostIP) == Some(Keyed(list, hostIP)[u])
  {
    forall r, u | r in list ensures NormalizesTo(r, hostIP, u) <==> r.uuid == u {
      TrimSpaceTrims(r.uuid);
    }
    forall u
      ensures u in Keyed(list, hostIP) <==> u in table
      ensures u in table ==> NormalizeRecord(table[u], hostIP) == Some(Keyed(list, hostIP)[u])
    {
      KeyedKeepsLast(list, hostIP, u);
      if u in table {
        assert table[u] in list && NormalizesTo(table[u], hostIP, u);
      }
      var i := LastFor(list, |list|, hostIP, u);
      if i >= 0 {
        assert list[i] in list;
      }
    }
  }

  /** Writing the table and starting from that file gives the table back exactly when no
      host-network record without an address meets an address that is now advertised. */
  lemma RestoreRoundTrip(list: seq<WorkloadRecord>, table: Table, hostIP: string)
    requires WellKeyed(table) && IsSnapshotOf(list, table)
    ensures Keyed(list, hostIP) == table <==>
            forall u :: u in table && table[u].hostNetwork && table[u].ip == "" ==> hostIP == ""
  {
    SnapshotKeys(list, table, hostIP);
    forall u | u in table
      ensures Keyed(list, hostIP)[u] == table[u] <==>
              (table[u].hostNetwork && table[u].ip == "" ==> hostIP == "")
    {
      NormalizeStored(table[u], hostIP);
    }
  }

  // ----- a known host address -----

  /** Every host-network record has an address. */
  ghost predicate Addressed(table: Table) {
    forall u :: u in table && table[u].hostNetwork ==> table[u].ip != ""
  }

  lemma UpsertedAddressed(table: Table, rec: WorkloadRecord, hostIP: string)
    requires Addressed(table) && hostIP != ""
    ensures Addressed(Upserted(table, rec, hostIP))
  {
  }

  lemma {:induction false} KeyedAddressed(records: seq<WorkloadRecord>, hostIP: string)
    requires hostIP != ""
    ensures Addressed(Keyed(records, hostIP))
  {
    if records != [] {
      KeyedAddressed(records[..|records| - 1], hostIP);
      UpsertedAddressed(Keyed(records[..|records| - 1], hostIP), records[|records| - 1], hostIP);
    }
  }

  /** The event uses this host address, if any. */
  predicate Advertises(e: Event, hostIP: string) {
    (e.Upsert? || e.Reconcile?) ==> e.hostIP == hostIP
  }

  lemma StepAddressed(s: State, e: Event, hostIP: string)
    requires Enabled(s, e) && Advertises(e, hostIP) && hostIP != "" && Addressed(s.table)
    ensures Addressed(Step(s, e).table)
  {
    match e
    case Upsert(rec, _) => UpsertedAddressed(s.table, rec, hostIP);
    case Reconcile(records, _) => KeyedAddressed(Eligible(records), hostIP);
    case _ =>
  }

  /** With one known host address throughout, as the gateway of the fixed bridge network is, no run
      holds a host-network record without an address, so saving and restoring always gives the
      table back. */
  lemma {:induction false} KnownAddressRoundTrip(s: State, es: seq<Event>, hostIP: string, list: seq<WorkloadRecord>)
    requires Legal(s, es) && WellKeyed(s.table) && Addressed(s.table) && hostIP != "" && Trimmed(hostIP)
    requires forall e :: e in es ==> Advertises(e, hostIP)
    ensures Addressed(After(s, es).table)
    ensures IsSnapshotOf(list, After(s, es).table) ==> Keyed(list, hostIP) == After(s, es).table
    decreases |es|
  {
    if es == [] {
      if IsSnapshotOf(list, s.table) {
        RestoreRoundTrip(list, s.table, hostIP);
      }
    } else {
      assert es[0] in es && forall e :: e in es[1..] ==> e in es;
      StepAddressed(s, es[0], hostIP);
      StepKeepsKeys(s, es[0]);
      KnownAddressRoundTrip(Step(s, es[0]), es[1..], hostIP, list);
    }
  }

  lemma StepKeepsKeys(s: State, e: Event)
    requires Enabled(s, e) && WellKeyed(s.table)
    ensures WellKeyed(Step(s, e).table)
  {
    match e
    case Upsert(rec, hostIP) => MutatorsKeepKeys(s.table, rec, hostIP, "", false, 0);
    case SetActive(uuid, active, startedAt) => MutatorsKeepKeys(s.table, ANY_RECORD, "", uuid, active, startedAt);
    case Remove(uuid) => MutatorsKeepKeys(s.table, ANY_RECORD, "", uuid, false, 0);
    case Reconcile(records, hostIP) => ReconciledIsWellKeyed(s.table, records, hostIP);
    case _ =>
  }

  /** Were the host address unknown for a while, a host-network workload stored then would come
      back with an address it was not saved with. */
  lemma RestoreCanFillAddress()
    ensures var rec := WorkloadRecord("u", "a", "n", SCOPE_MANAGED, "", true, false, false, false, true, 1);
            var table: Table := map["u" := rec];
            WellKeyed(table) && IsSnapshotOf([rec], table) && Keyed([rec], "10.0.0.1") != table
  {
    var rec := WorkloadRecord("u", "a", "n", SCOPE_MANAGED, "", true, false, false, false, true, 1);
    var table: Table := map["u" := rec];
    assert WellKeyed(table);
    assert IsSnapshotOf([rec], table) by {
      assert table["u"] in [rec];
    }
    assert table["u"].hostNetwork && table["u"].ip == "";
    RestoreRoundTrip([rec], table, "10.0.0.1");
  }

  /** A restart from a table's own file begins with a clean flag that tells the truth exactly when
      the round trip gives the table back. */
  lemma RestartIsCleanIff(s: State, table: Table, hostIP: string)
    requires WellKeyed(table) && IsSnapshotOf(s.disk, table) && Trimmed(hostIP)
    ensures Inv(Restored(s, hostIP)) <==>
            forall u :: u in table && table[u].hostNetwork && table[u].ip == "" ==> hostIP == ""
    ensures Inv(Restored(s, hostIP)) ==> Restored(s, hostIP).table == table
  {
    RestoreRoundTrip(s.disk, table, hostIP);
    KeyedIsWellKeyed(s.disk, hostIP);
    if Inv(Restored(s, hostIP)) {
      SnapshotDetermines(s.disk, table, Restored(s, hostIP).table);
    }
  }

  // ----- reconciles that are not timely -----

  const LEARNED := WorkloadRecord("u", "a", "n", SCOPE_MANAGED, "10.0.0.2", false, false, false, false, true, 1)

  /** A pass over one managed workload on the bridge network takes it in. */
  lemma BridgeRecordIsKept(table: Table, rec: WorkloadRecord)
    requires rec.uuid != "" && Trimmed(rec.uuid) && rec.scope == SCOPE_MANAGED && !rec.hostNetwork
    ensures rec.uuid in Reconciled(table, [rec], "")
  {
    TrimSpaceTrims(rec.uuid);
    assert [rec][..0] == [];
    assert !([rec][0].hostNetwork);
    assert Eligible([rec]) == Eligible([]) + [rec] == [rec];
    UpsertedAt(Keyed([], ""), rec, "", rec.uuid);
  }

  const FRESH := State(map[], 0, 0, [], Idle)

  lemma LearningIsLost(rec: WorkloadRecord)
    requires rec.uuid != "" && Trimmed(rec.uuid) && rec.scope == SCOPE_MANAGED && !rec.hostNetwork
    ensures Inv(FRESH) && !CleanMeansSaved(Step(FRESH, Reconcile([rec], "")))
  {
    BridgeRecordIsKept(map[], rec);
    var table := Reconciled(map[], [rec], "");
    if IsSnapshotOf([], table) {
      assert false;
    }
  }

  /** A resolver that has written its empty table and then learns of one workload by reconcile
      reports itself clean while the file lacks that workload. */
  lemma ReconcileCanLoseAnUpdate()
    ensures Inv(FRESH) && !CleanMeansSaved(Step(FRESH, Reconcile([LEARNED], "")))
  {
    LearningIsLost(LEARNED);
  }

  /** So does a dirty one whose save was under way: the correction is missing from the file that
      the save then declares current. */
  lemma SaveUnderWayCanLoseAnUpdate()
    ensures var s := State(map[], 1, 0, [], Collected(1, []));
            Inv(s) && s.persisted != s.revision && !SoundFrom(Step(s, Reconcile([LEARNED], "")))
  {
    var s := State(map[], 1, 0, [], Collected(1, []));
    BridgeRecordIsKept(map[], LEARNED);
    ReconcileIsSafeIff(s, [LEARNED], "");
  }
}
