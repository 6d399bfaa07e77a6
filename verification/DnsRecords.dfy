/**
 Workload records of the embedded DNS resolver: how a record is normalised, which
 names it answers to, and what a plain scan of the whole table says about a name.
 The scan is the reference that the inverted index and the queries are proved against.
 */
module DnsRecords {
  import opened Text
  import opened Wrappers

  const DEFAULT_ZONE := "svc.bridge.local"
  const RESERVED_ROUTER := "router.default." + DEFAULT_ZONE
  const RESERVED_NATS := "nats.default." + DEFAULT_ZONE
  const RESERVED_AGENT := "edgelet.default." + DEFAULT_ZONE
  const COMPAT_DOCKER_HOST := "host.docker.internal"
  const COMPAT_CONTAINER_HOST := "host.container.internal"
  const EDGELET_CONTROLLER := "edgelet.controller"

  const SCOPE_MANAGED := "edgelet"
  const SCOPE_LOCAL := "iofog-local"

  datatype WorkloadRecord = WorkloadRecord(
    uuid: string, application: string, name: string, scope: string, ip: string,
    hostNetwork: bool, isRouter: bool, isNats: bool, isController: bool,
    active: bool, startedAt: int)

  type Table = map<string, WorkloadRecord>

  function NormalizeScope(scope: string): string {
    if scope == SCOPE_LOCAL then SCOPE_LOCAL else SCOPE_MANAGED
  }

  function NormalizeName(name: string): string {
    var n := TrimSpace(ToLower(name));
    if n != "" && n[|n| - 1] == '.' then n[..|n| - 1] else n
  }

  /** The record as stored, or None when it has no identifier. `hostIP` is the address
      advertised for host-network workloads at the time of the call. */
  function NormalizeRecord(rec: WorkloadRecord, hostIP: string): Option<WorkloadRecord> {
    var uuid := TrimSpace(rec.uuid);
    if uuid == "" then None else
    var ip := TrimSpace(rec.ip);
    Some(rec.(uuid := uuid, application := TrimSpace(rec.application), name := TrimSpace(rec.name),
              scope := NormalizeScope(rec.scope),
              ip := if rec.hostNetwork && ip == "" then hostIP else ip))
  }

  function NameAliases(rec: WorkloadRecord): seq<string> {
    if rec.application != "" && rec.name != "" then
      var short := rec.application + "." + rec.name; [short, short + "." + DEFAULT_ZONE]
    else []
  }

  function IdentifierAliases(rec: WorkloadRecord): seq<string> {
    if rec.uuid != "" then var short := "iofog_" + rec.uuid; [short, short + "." + DEFAULT_ZONE] else []
  }

  function ControllerAliases(rec: WorkloadRecord): seq<string> {
    if rec.isController then
      [EDGELET_CONTROLLER, EDGELET_CONTROLLER + "." + DEFAULT_ZONE] +
      (var ns := NormalizeName(rec.application);
       if ns != "" then ["controller." + ns, "controller." + ns + "." + DEFAULT_ZONE] else [])
    else []
  }

  function RoleAliases(rec: WorkloadRecord): seq<string> {
    (if rec.scope == SCOPE_MANAGED && rec.isRouter then [RESERVED_ROUTER] else []) +
    (if rec.scope == SCOPE_MANAGED && rec.isNats then [RESERVED_NATS] else [])
  }

  function HostAliases(rec: WorkloadRecord, compat: bool): seq<string> {
    if rec.scope == SCOPE_MANAGED then
      [RESERVED_AGENT] + if compat then [COMPAT_DOCKER_HOST, COMPAT_CONTAINER_HOST] else []
    else []
  }

  function RawAliases(rec: WorkloadRecord, compat: bool): seq<string> {
    NameAliases(rec) + IdentifierAliases(rec) + ControllerAliases(rec) + RoleAliases(rec) + HostAliases(rec, compat)
  }

  function NormalizeNames(names: seq<string>): seq<string> {
    if names == [] then []
    else var n := NormalizeName(names[0]);
         (if n != "" then [n] else []) + NormalizeNames(names[1..])
  }

  /** Every name the record answers to. */
  function Aliases(rec: WorkloadRecord, compat: bool): seq<string> {
    NormalizeNames(RawAliases(rec, compat))
  }

  lemma {:induction false} NormalizeNamesMembers(names: seq<string>, n: string)
    ensures n in NormalizeNames(names) <==> n != "" && exists raw :: raw in names && NormalizeName(raw) == n
  {
    if names != [] {
      NormalizeNamesMembers(names[1..], n);
      assert names == [names[0]] + names[1..];
      if n in NormalizeNames(names) && n != NormalizeName(names[0]) {
        var raw :| raw in names[1..] && NormalizeName(raw) == n;
        assert raw in names;
      }
      if n != "" && NormalizeName(names[0]) == n {
        assert names[0] in names;
      }
    }
  }

  predicate IsHostReserved(name: string, compat: bool) {
    name == RESERVED_AGENT || (compat && (name == COMPAT_DOCKER_HOST || name == COMPAT_CONTAINER_HOST))
  }

  predicate IsReservedRole(name: string) {
    name == RESERVED_ROUTER || name == RESERVED_NATS
  }

  /** The reserved names, spelt out. */
  lemma ReservedNames(name: string, compat: bool)
    ensures IsReservedRole(name) <==>
            name == "router.default.svc.bridge.local" || name == "nats.default.svc.bridge.local"
    ensures IsHostReserved(name, compat) <==>
            || name == "edgelet.default.svc.bridge.local"
            || (compat && (name == "host.docker.internal" || name == "host.container.internal"))
  {
    assert "router.default." + "svc.bridge.local" == "router.default.svc.bridge.local";
    assert "nats.default." + "svc.bridge.local" == "nats.default.svc.bridge.local";
    assert "edgelet.default." + "svc.bridge.local" == "edgelet.default.svc.bridge.local";
  }

  // ----- the table -----

  /** A record in the form the mutators store it. */
  predicate Stored(rec: WorkloadRecord) {
    && rec.uuid != "" && Trimmed(rec.uuid) && Trimmed(rec.application) && Trimmed(rec.name)
    && Trimmed(rec.ip) && (rec.scope == SCOPE_MANAGED || rec.scope == SCOPE_LOCAL)
  }

  ghost predicate WellKeyed(table: Table) {
    forall u :: u in table ==> table[u].uuid == u && Stored(table[u])
  }

  lemma NormalizeRecordStores(rec: WorkloadRecord, hostIP: string)
    requires Trimmed(hostIP)
    ensures NormalizeRecord(rec, hostIP).Some? ==> Stored(NormalizeRecord(rec, hostIP).value)
  {
    TrimSpaceTrims(rec.uuid);
    TrimSpaceTrims(rec.application);
    TrimSpaceTrims(rec.name);
    TrimSpaceTrims(rec.ip);
  }

  /** A stored record is changed by normalising it again exactly when it is a host-network
      record still without an address while one is now advertised. */
  lemma NormalizeStored(rec: WorkloadRecord, hostIP: string)
    requires Stored(rec)
    ensures NormalizeRecord(rec, hostIP) == Some(rec) <==>
            (rec.hostNetwork && rec.ip == "" ==> hostIP == "")
  {
    TrimSpaceTrims(rec.uuid);
    TrimSpaceTrims(rec.application);
    TrimSpaceTrims(rec.name);
    TrimSpaceTrims(rec.ip);
  }

  lemma StoredKeyed(table: Table, rec: WorkloadRecord)
    requires WellKeyed(table) && Stored(rec)
    ensures WellKeyed(table[rec.uuid := rec])
    ensures table[rec.uuid := rec] == table <==> rec.uuid in table && table[rec.uuid] == rec
  {
    assert table[rec.uuid := rec][rec.uuid] == rec;
    if rec.uuid in table && table[rec.uuid] == rec {
      assert table[rec.uuid := rec] == table;
    }
  }

  function Upserted(table: Table, rec: WorkloadRecord, hostIP: string): Table {
    match NormalizeRecord(rec, hostIP)
    case None => table
    case Some(n) => table[n.uuid := n]
  }

  function Activated(table: Table, uuid: string, active: bool, startedAt: int): Table {
    var u := TrimSpace(uuid);
    if u !in table then table
    else table[u := table[u].(active := active,
                              startedAt := if startedAt > 0 then startedAt else table[u].startedAt)]
  }

  function Removed(table: Table, uuid: string): Table {
    table - {TrimSpace(uuid)}
  }

  /** What normalising does to each field. */
  lemma NormalizedFields(rec: WorkloadRecord, hostIP: string)
    ensures NormalizeRecord(rec, hostIP).None? <==> AllSpace(rec.uuid)
    ensures NormalizeRecord(rec, hostIP).Some? ==>
              var n := NormalizeRecord(rec, hostIP).value;
              && n.uuid == TrimSpace(rec.uuid) && n.application == TrimSpace(rec.application)
              && n.name == TrimSpace(rec.name)
              && n.scope == (if rec.scope == "iofog-local" then "iofog-local" else "edgelet")
              && n.ip == (if rec.hostNetwork && AllSpace(rec.ip) then hostIP else TrimSpace(rec.ip))
              && n.hostNetwork == rec.hostNetwork && n.isRouter == rec.isRouter && n.isNats == rec.isNats
              && n.isController == rec.isController && n.active == rec.active && n.startedAt == rec.startedAt
  {
    BlankIff(rec.uuid);
    BlankIff(rec.ip);
  }

  /** Removing a workload takes its record out of the table and touches no other. */
  lemma RemovedIs(table: Table, uuid: string)
    ensures var u, next := TrimSpace(uuid), Removed(table, uuid);
            && u !in next && (forall v :: v != u ==> (v in next <==> v in table))
            && (forall v :: v in next ==> next[v] == table[v])
            && (next == table <==> u !in table)
  {
    var u, next := TrimSpace(uuid), Removed(table, uuid);
    if u !in table {
      assert next == table;
    }
  }

  /** Starting or stopping a workload sets its liveness and a positive start, and nothing else. */
  lemma ActivatedIs(table: Table, uuid: string, active: bool, startedAt: int)
    ensures var u, next := TrimSpace(uuid), Activated(table, uuid, active, startedAt);
            && next.Keys == table.Keys && (forall v :: v in table && v != u ==> next[v] == table[v])
            && (u in table ==>
                  && next[u].active == active
                  && next[u].startedAt == (if startedAt > 0 then startedAt else table[u].startedAt)
                  && next[u] == table[u].(active := next[u].active, startedAt := next[u].startedAt))
  {
  }

  /** The records keyed by identifier; a later record replaces an earlier one. */
  function Keyed(records: seq<WorkloadRecord>, hostIP: string): Table {
    if records == [] then map[]
    else Upserted(Keyed(records[..|records| - 1], hostIP), records[|records| - 1], hostIP)
  }

  lemma {:induction false} KeyedIsWellKeyed(records: seq<WorkloadRecord>, hostIP: string)
    requires Trimmed(hostIP)
    ensures WellKeyed(Keyed(records, hostIP))
  {
    if records != [] {
      KeyedIsWellKeyed(records[..|records| - 1], hostIP);
      NormalizeRecordStores(records[|records| - 1], hostIP);
    }
  }

  predicate NormalizesTo(rec: WorkloadRecord, hostIP: string, u: string) {
    NormalizeRecord(rec, hostIP).Some? && NormalizeRecord(rec, hostIP).value.uuid == u
  }

  /** Position of the last of the first `n` records that is for `u`, or -1. */
  function LastFor(records: seq<WorkloadRecord>, n: nat, hostIP: string, u: string): (i: int)
    requires n <= |records|
    ensures -1 <= i < n
    ensures i >= 0 ==> NormalizesTo(records[i], hostIP, u)
    ensures forall j :: i < j < n ==> !NormalizesTo(records[j], hostIP, u)
  {
    if n == 0 then -1
    else if NormalizesTo(records[n - 1], hostIP, u) then n - 1
    else LastFor(records, n - 1, hostIP, u)
  }

  lemma KeyedStep(records: seq<WorkloadRecord>, n: nat, hostIP: string)
    requires 0 < n <= |records|
    ensures Keyed(records[..n], hostIP) == Upserted(Keyed(records[..n - 1], hostIP), records[n - 1], hostIP)
  {
    assert records[..n][..n - 1] == records[..n - 1];
  }

  /** One more record moves the last position, or leaves the entry alone. */
  lemma LastAfter(before: Table, after: Table, records: seq<WorkloadRecord>, n: nat, hostIP: string, u: string)
    requires n < |records| && after == Upserted(before, records[n], hostIP)
    requires var i := LastFor(records, n, hostIP, u);
             (u in before <==> i >= 0) && (i >= 0 ==> NormalizeRecord(records[i], hostIP) == Some(before[u]))
    ensures var i := LastFor(records, n + 1, hostIP, u);
            (u in after <==> i >= 0) && (i >= 0 ==> NormalizeRecord(records[i], hostIP) == Some(after[u]))
  {
    UpsertedAt(before, records[n], hostIP, u);
  }

  lemma {:induction false} KeyedKeepsLastOf(records: seq<WorkloadRecord>, n: nat, hostIP: string, u: string)
    requires n <= |records|
    ensures var keyed, i := Keyed(records[..n], hostIP), LastFor(records, n, hostIP, u);
            && (u in keyed <==> i >= 0)
            && (i >= 0 ==> NormalizeRecord(records[i], hostIP) == Some(keyed[u]))
  {
    if n > 0 {
      KeyedKeepsLastOf(records, n - 1, hostIP, u);
      KeyedStep(records, n, hostIP);
      LastAfter(Keyed(records[..n - 1], hostIP), Keyed(records[..n], hostIP), records, n - 1, hostIP, u);
    }
  }

  /** `u` is keyed exactly when some record normalises to it, and the last such record is kept. */
  lemma KeyedKeepsLast(records: seq<WorkloadRecord>, hostIP: string, u: string)
    ensures var keyed, i := Keyed(records, hostIP), LastFor(records, |records|, hostIP, u);
            && (u in keyed <==> i >= 0)
            && (i >= 0 ==> NormalizeRecord(records[i], hostIP) == Some(keyed[u]))
  {
    KeyedKeepsLastOf(records, |records|, hostIP, u);
    assert records[..|records|] == records;
  }

  lemma UpsertedAt(table: Table, rec: WorkloadRecord, hostIP: string, u: string)
    ensures var next := Upserted(table, rec, hostIP);
            if NormalizesTo(rec, hostIP, u) then
              u in next && Some(next[u]) == NormalizeRecord(rec, hostIP) && next[u].scope == NormalizeScope(rec.scope)
            else (u in next <==> u in table) && (u in next ==> next[u] == table[u])
  {
  }

  // ----- the inverted index against a scan -----

  type ScopeIndex = map<string, map<string, set<string>>>

  function Bucket(index: ScopeIndex, scope: string, name: string): set<string> {
    if scope in index && name in index[scope] then index[scope][name] else {}
  }

  /** What a scan of the whole table finds under a name. */
  function Scan(table: Table, compat: bool, scope: string, name: string): set<string> {
    set u | u in table && table[u].scope == scope && name in Aliases(table[u], compat)
  }

  ghost predicate NoEmptyBucket(index: ScopeIndex) {
    forall s, n :: s in index && n in index[s] ==> index[s][n] != {}
  }

  /** The index says about every name exactly what the scan says, and stores no empty bucket. */
  ghost predicate Agrees(index: ScopeIndex, table: Table, compat: bool) {
    && index.Keys == {SCOPE_MANAGED, SCOPE_LOCAL}
    && NoEmptyBucket(index)
    && forall s, n :: Bucket(index, s, n) == Scan(table, compat, s, n)
  }

  /** The index is a function of the table: no history of updates shows through it. */
  lemma IndexIsDetermined(a: ScopeIndex, b: ScopeIndex, table: Table, compat: bool)
    requires Agrees(a, table, compat) && Agrees(b, table, compat)
    ensures a == b
  {
    forall s | s in a ensures a[s] == b[s] {
      forall n ensures n in a[s] <==> n in b[s] {
        assert Bucket(a, s, n) == Bucket(b, s, n);
      }
      forall n | n in a[s] ensures a[s][n] == b[s][n] {
        assert Bucket(a, s, n) == Bucket(b, s, n);
      }
    }
  }

  /** A name is known in every letter case, between white space, and with one final dot. */
  lemma NameVariants(pre: string, name: string, other: string, post: string)
    requires AllSpace(pre) && AllSpace(post) && EqualFold(name, other)
    requires Trimmed(name) && name != "" && name[|name| - 1] != '.'
    ensures NormalizeName(pre + other + post) == ToLower(name)
    ensures NormalizeName(pre + other + "." + post) == ToLower(name)
  {
    ToLowerIff(name, other);
    LowerPads(pre, other, post);
    LowerPads(pre, other + ".", post);
    assert pre + other + "." + post == pre + (other + ".") + post;
    assert ToLower(other + ".") == ToLower(other) + ".";
    LowerTrims(name);
    TrimSpaceKeepsCore(ToLower(pre), ToLower(other), ToLower(post));
    WhatIsSpace('.');
    TrimSpaceKeepsCore(ToLower(pre), ToLower(other) + ".", ToLower(post));
  }

  lemma LowerPads(pre: string, core: string, post: string)
    requires AllSpace(pre) && AllSpace(post)
    ensures ToLower(pre + core + post) == ToLower(pre) + ToLower(core) + ToLower(post)
    ensures AllSpace(ToLower(pre)) && AllSpace(ToLower(post))
  {
  }

  lemma LowerTrims(s: string)
    requires Trimmed(s)
    ensures Trimmed(ToLower(s)) && (s != "" && s[|s| - 1] != '.' ==> ToLower(s)[|s| - 1] != '.')
  {
  }

  lemma NameSurvives(s: string)
    requires Trimmed(s) && |s| >= 2
    ensures NormalizeName(s) != ""
    ensures NoUpper(s) && s[|s| - 1] != '.' ==> NormalizeName(s) == s
  {
    TrimSpaceTrims(ToLower(s));
    if NoUpper(s) {
      assert ToLower(s) == s;
    }
  }

  predicate NoUpper(s: string) { forall i :: 0 <= i < |s| ==> LowerChar(s[i]) == s[i] }

  lemma AliasFound(table: Table, u: string, compat: bool, raw: string)
    requires u in table && raw in RawAliases(table[u], compat) && NormalizeName(raw) != ""
    ensures u in Scan(table, compat, table[u].scope, NormalizeName(raw))
  {
    NormalizeNamesMembers(RawAliases(table[u], compat), NormalizeName(raw));
  }

  lemma PartsAreAliases(rec: WorkloadRecord, compat: bool, raw: string)
    requires || raw in NameAliases(rec) || raw in IdentifierAliases(rec) || raw in ControllerAliases(rec)
             || raw in RoleAliases(rec) || raw in HostAliases(rec, compat)
    ensures raw in RawAliases(rec, compat)
  {
  }

  lemma JoinIsTrimmed(a: string, b: string)
    requires a != "" && b != "" && Trimmed(a) && Trimmed(b)
    ensures Trimmed(a + b) && |a + b| >= 2
  {
  }

  lemma IdentifierIsAlias(rec: WorkloadRecord, compat: bool)
    requires rec.uuid != "" && Trimmed(rec.uuid)
    ensures var raw := "iofog_" + rec.uuid; raw in RawAliases(rec, compat) && Trimmed(raw) && |raw| >= 2
  {
    PartsAreAliases(rec, compat, IdentifierAliases(rec)[0]);
    assert Trimmed("iofog_");
    JoinIsTrimmed("iofog_", rec.uuid);
  }

  lemma ApplicationIsAlias(rec: WorkloadRecord, compat: bool)
    requires rec.application != "" && rec.name != "" && Trimmed(rec.application) && Trimmed(rec.name)
    ensures var raw := rec.application + "." + rec.name; raw in RawAliases(rec, compat) && Trimmed(raw) && |raw| >= 2
  {
    PartsAreAliases(rec, compat, NameAliases(rec)[0]);
    assert Trimmed(".");
    JoinIsTrimmed(rec.application, ".");
    JoinIsTrimmed(rec.application + ".", rec.name);
  }

  /** Every stored workload is found under its identifier name and, when it has one, under its
      application name, whatever else the table holds. */
  lemma FoundByOwnNames(table: Table, u: string, compat: bool)
    requires WellKeyed(table) && u in table
    ensures var rec := table[u];
            && u in Scan(table, compat, rec.scope, NormalizeName("iofog_" + u))
            && (rec.application != "" && rec.name != "" ==>
                  u in Scan(table, compat, rec.scope, NormalizeName(rec.application + "." + rec.name)))
  {
    var rec := table[u];
    IdentifierIsAlias(rec, compat);
    NameSurvives("iofog_" + u);
    AliasFound(table, u, compat, "iofog_" + u);
    if rec.application != "" && rec.name != "" {
      ApplicationIsAlias(rec, compat);
      NameSurvives(rec.application + "." + rec.name);
      AliasFound(table, u, compat, rec.application + "." + rec.name);
    }
  }

  lemma ZoneIsTrimmed()
    ensures Trimmed("." + DEFAULT_ZONE)
  {
  }

  /** Every stored workload is also found under the zone forms of those names. */
  lemma FoundByZoneNames(table: Table, u: string, compat: bool)
    requires WellKeyed(table) && u in table
    ensures var rec := table[u];
            && u in Scan(table, compat, rec.scope, NormalizeName("iofog_" + u + "." + DEFAULT_ZONE))
            && (rec.application != "" && rec.name != "" ==>
                  u in Scan(table, compat, rec.scope,
                            NormalizeName(rec.application + "." + rec.name + "." + DEFAULT_ZONE)))
  {
    var rec := table[u];
    IdentifierIsAlias(rec, compat);
    PartsAreAliases(rec, compat, IdentifierAliases(rec)[1]);
    ZoneForm("iofog_" + u);
    NameSurvives("iofog_" + u + "." + DEFAULT_ZONE);
    AliasFound(table, u, compat, "iofog_" + u + "." + DEFAULT_ZONE);
    if rec.application != "" && rec.name != "" {
      ApplicationIsAlias(rec, compat);
      PartsAreAliases(rec, compat, NameAliases(rec)[1]);
      ZoneForm(rec.application + "." + rec.name);
      NameSurvives(rec.application + "." + rec.name + "." + DEFAULT_ZONE);
      AliasFound(table, u, compat, rec.application + "." + rec.name + "." + DEFAULT_ZONE);
    }
  }

  lemma ZoneForm(short: string)
    requires short != "" && Trimmed(short)
    ensures var raw := short + "." + DEFAULT_ZONE; Trimmed(raw) && |raw| >= 2
  {
    ZoneIsTrimmed();
    assert short + "." + DEFAULT_ZONE == short + ("." + DEFAULT_ZONE);
    JoinIsTrimmed(short, "." + DEFAULT_ZONE);
  }

  /** Every controller workload is found under the common controller name, with and without the zone. */
  lemma FoundByControllerName(table: Table, u: string, compat: bool)
    requires u in table && table[u].isController
    ensures u in Scan(table, compat, table[u].scope, NormalizeName("edgelet.controller"))
    ensures u in Scan(table, compat, table[u].scope, NormalizeName("edgelet.controller." + DEFAULT_ZONE))
  {
    var rec := table[u];
    ControllerForms();
    PartsAreAliases(rec, compat, ControllerAliases(rec)[0]);
    PartsAreAliases(rec, compat, ControllerAliases(rec)[1]);
    NameSurvives(EDGELET_CONTROLLER);
    AliasFound(table, u, compat, EDGELET_CONTROLLER);
    NameSurvives(EDGELET_CONTROLLER + "." + DEFAULT_ZONE);
    AliasFound(table, u, compat, EDGELET_CONTROLLER + "." + DEFAULT_ZONE);
  }

  /** And under the controller name of its application, with and without the zone. */
  lemma FoundByNamespaceController(table: Table, u: string, compat: bool)
    requires u in table && table[u].isController && NormalizeName(table[u].application) != ""
    ensures var ns := NormalizeName(table[u].application);
            && u in Scan(table, compat, table[u].scope, NormalizeName("controller." + ns))
            && u in Scan(table, compat, table[u].scope, NormalizeName("controller." + ns + "." + DEFAULT_ZONE))
  {
    var ns := NormalizeName(table[u].application);
    ControllerSurvives(ns);
    NamedIsFound(table, u, compat, "controller." + ns);
    ControllerSurvives(ns + "." + DEFAULT_ZONE);
    ControllerZone(ns);
    NamedIsFound(table, u, compat, "controller." + ns + "." + DEFAULT_ZONE);
  }

  lemma NamedIsFound(table: Table, u: string, compat: bool, raw: string)
    requires u in table && Named(table[u], compat, raw) && NormalizeName(raw) != ""
    ensures u in Scan(table, compat, table[u].scope, NormalizeName(raw))
  {
    AliasesIff(table[u], compat, NormalizeName(raw));
  }

  lemma ControllerZone(ns: string)
    ensures "controller." + ns + "." + DEFAULT_ZONE == "controller." + (ns + "." + DEFAULT_ZONE)
  {
  }

  lemma ControllerSurvives(rest: string)
    ensures NormalizeName("controller." + rest) != ""
  {
    var raw := "controller." + rest;
    assert ToLower(raw)[0] == 'c' && ToLower(raw)[1] == 'o';
    TrimKeepsHead(ToLower(raw));
  }

  lemma TrimKeepsHead(s: string)
    requires |s| >= 2 && !IsSpace(s[0]) && !IsSpace(s[1])
    ensures |TrimSpace(s)| >= 2
  {
    var core := TrimRight(s);
    var post := TrimRightDrops(s);
    forall i | |core| <= i < |s| ensures IsSpace(s[i]) {
      assert s[i] == post[i - |core|];
    }
  }

  lemma ControllerForms()
    ensures Trimmed(EDGELET_CONTROLLER) && |EDGELET_CONTROLLER| >= 2 && Trimmed("controller.")
    ensures EDGELET_CONTROLLER + "." + DEFAULT_ZONE == "edgelet.controller." + DEFAULT_ZONE
    ensures Trimmed(EDGELET_CONTROLLER + "." + DEFAULT_ZONE)
  {
    ZoneForm(EDGELET_CONTROLLER);
    assert "edgelet.controller" + "." == "edgelet.controller.";
  }

  /** Every managed workload is indexed under the agent name and, in compatibility mode, under the two
      host names, although queries for them are answered with the host address. */
  lemma FoundByHostNames(table: Table, u: string, compat: bool)
    requires WellKeyed(table) && u in table && table[u].scope == SCOPE_MANAGED
    ensures u in Scan(table, compat, SCOPE_MANAGED, NormalizeName(RESERVED_AGENT))
    ensures compat ==> u in Scan(table, compat, SCOPE_MANAGED, NormalizeName(COMPAT_DOCKER_HOST)) &&
                       u in Scan(table, compat, SCOPE_MANAGED, NormalizeName(COMPAT_CONTAINER_HOST))
  {
    var rec := table[u];
    HostForms();
    PartsAreAliases(rec, compat, HostAliases(rec, compat)[0]);
    NameSurvives(RESERVED_AGENT);
    AliasFound(table, u, compat, RESERVED_AGENT);
    if compat {
      PartsAreAliases(rec, compat, HostAliases(rec, compat)[1]);
      PartsAreAliases(rec, compat, HostAliases(rec, compat)[2]);
      NameSurvives(COMPAT_DOCKER_HOST);
      AliasFound(table, u, compat, COMPAT_DOCKER_HOST);
      NameSurvives(COMPAT_CONTAINER_HOST);
      AliasFound(table, u, compat, COMPAT_CONTAINER_HOST);
    }
  }

  lemma HostForms()
    ensures Trimmed(RESERVED_AGENT) && |RESERVED_AGENT| >= 2
    ensures Trimmed(COMPAT_DOCKER_HOST) && Trimmed(COMPAT_CONTAINER_HOST)
    ensures |COMPAT_DOCKER_HOST| >= 2 && |COMPAT_CONTAINER_HOST| >= 2
  {
  }

  lemma ZoneIsLower()
    ensures NoUpper(DEFAULT_ZONE)
  {
  }

  lemma ReservedRouterIsNormal()
    ensures NormalizeName(RESERVED_ROUTER) == RESERVED_ROUTER && Trimmed(RESERVED_ROUTER)
  {
    ZoneIsLower();
    assert NoUpper("router.default.");
    NameSurvives(RESERVED_ROUTER);
  }

  lemma ReservedNatsIsNormal()
    ensures NormalizeName(RESERVED_NATS) == RESERVED_NATS && Trimmed(RESERVED_NATS)
  {
    ZoneIsLower();
    assert NoUpper("nats.default.");
    NameSurvives(RESERVED_NATS);
  }

  /** A managed router or NATS workload is found under the reserved name of its role. */
  lemma FoundByRoleName(table: Table, u: string, compat: bool)
    requires WellKeyed(table) && u in table && table[u].scope == SCOPE_MANAGED
    ensures table[u].isRouter ==> u in Scan(table, compat, SCOPE_MANAGED, RESERVED_ROUTER)
    ensures table[u].isNats ==> u in Scan(table, compat, SCOPE_MANAGED, RESERVED_NATS)
  {
    if table[u].isRouter {
      ReservedRouterIsNormal();
      SpeltAliases(table[u], compat);
      NameSurvives(RESERVED_ROUTER);
      AliasFound(table, u, compat, RESERVED_ROUTER);
    }
    if table[u].isNats {
      ReservedNatsIsNormal();
      SpeltAliases(table[u], compat);
      NameSurvives(RESERVED_NATS);
      AliasFound(table, u, compat, RESERVED_NATS);
    }
  }

  /** A record whose application and name spell the reserved name, with or without the zone. */
  predicate Spells(rec: WorkloadRecord, reserved: string) {
    && rec.application != "" && rec.name != ""
    && (var short := rec.application + "." + rec.name;
        NormalizeName(short) == reserved || NormalizeName(short + "." + DEFAULT_ZONE) == reserved)
  }

  /** The first letter of a name survives normalising. */
  lemma FirstLetter(raw: string)
    requires raw != "" && !IsSpace(LowerChar(raw[0]))
    ensures NormalizeName(raw) == "" || NormalizeName(raw)[0] == LowerChar(raw[0])
  {
    TrimRightIsPrefix(ToLower(raw));
  }

  /** Every name a record is given, before normalising. */
  predicate Named(rec: WorkloadRecord, compat: bool, raw: string) {
    var ns := NormalizeName(rec.application);
    || (rec.application != "" && rec.name != "" &&
        raw in {rec.application + "." + rec.name, rec.application + "." + rec.name + "." + DEFAULT_ZONE})
    || (rec.uuid != "" && raw in {"iofog_" + rec.uuid, "iofog_" + rec.uuid + "." + DEFAULT_ZONE})
    || (rec.isController && raw in {"edgelet.controller", "edgelet.controller" + "." + DEFAULT_ZONE})
    || (rec.isController && ns != "" && raw in {"controller." + ns, "controller." + ns + "." + DEFAULT_ZONE})
    || (rec.scope == SCOPE_MANAGED && rec.isRouter && raw == "router.default." + DEFAULT_ZONE)
    || (rec.scope == SCOPE_MANAGED && rec.isNats && raw == "nats.default." + DEFAULT_ZONE)
    || (rec.scope == SCOPE_MANAGED && raw == "edgelet.default." + DEFAULT_ZONE)
    || (rec.scope == SCOPE_MANAGED && compat && raw in {"host.docker.internal", "host.container.internal"})
  }

  lemma NamedIffPart(rec: WorkloadRecord, compat: bool, raw: string)
    ensures Named(rec, compat, raw) <==>
            || raw in NameAliases(rec) || raw in IdentifierAliases(rec) || raw in ControllerAliases(rec)
            || raw in RoleAliases(rec) || raw in HostAliases(rec, compat)
  {
  }

  /** A record answers to exactly the nonempty normal forms of the names it is given. */
  lemma AliasesIff(rec: WorkloadRecord, compat: bool, n: string)
    ensures n in Aliases(rec, compat) <==> n != "" && exists raw :: Named(rec, compat, raw) && NormalizeName(raw) == n
  {
    var raws := RawAliases(rec, compat);
    NormalizeNamesMembers(raws, n);
    forall raw ensures raw in raws <==> Named(rec, compat, raw) {
      NamedIffPart(rec, compat, raw);
      if Named(rec, compat, raw) {
        PartsAreAliases(rec, compat, raw);
      }
    }
  }

  /** The aliases that are neither spelt from the record's names nor a reserved role name. */
  ghost predicate OtherAlias(raw: string) {
    raw != "" && (raw[0] == 'i' || raw[0] == 'e' || raw[0] == 'c' || raw[0] == 'h')
  }

  lemma FixedAliasesAreOther(rec: WorkloadRecord, compat: bool, raw: string)
    ensures raw in IdentifierAliases(rec) ==> OtherAlias(raw)
    ensures raw in ControllerAliases(rec) ==> OtherAlias(raw)
    ensures raw in HostAliases(rec, compat) ==> OtherAlias(raw)
  {
  }

  lemma AliasCases(rec: WorkloadRecord, compat: bool, raw: string)
    requires raw in RawAliases(rec, compat)
    ensures raw in NameAliases(rec) || raw in RoleAliases(rec) || OtherAlias(raw)
  {
    FixedAliasesAreOther(rec, compat, raw);
  }

  /** No other alias is a name that begins like a reserved role name. */
  lemma OtherAliasMisses(raw: string, reserved: string)
    requires OtherAlias(raw) && reserved != "" && (reserved[0] == 'r' || reserved[0] == 'n')
    ensures NormalizeName(raw) != reserved
  {
    FirstLetter(raw);
  }

  lemma ReservedNamesDiffer()
    ensures RESERVED_ROUTER[0] == 'r' && RESERVED_NATS[0] == 'n'
  {
  }

  lemma RouterRaw(rec: WorkloadRecord, compat: bool, raw: string)
    requires raw in RawAliases(rec, compat) && NormalizeName(raw) == RESERVED_ROUTER
    ensures (rec.scope == SCOPE_MANAGED && rec.isRouter) || Spells(rec, RESERVED_ROUTER)
  {
    ReservedRouterIsNormal();
    ReservedNatsIsNormal();
    ReservedNamesDiffer();
    AliasCases(rec, compat, raw);
    if OtherAlias(raw) {
      OtherAliasMisses(raw, RESERVED_ROUTER);
    }
  }

  /** A record answers to the reserved router name exactly when it is a managed router or its
      application and name spell it. */
  lemma RouterAliasIff(rec: WorkloadRecord, compat: bool)
    ensures RESERVED_ROUTER in Aliases(rec, compat) <==>
            (rec.scope == SCOPE_MANAGED && rec.isRouter) || Spells(rec, RESERVED_ROUTER)
  {
    ReservedRouterIsNormal();
    NormalizeNamesMembers(RawAliases(rec, compat), RESERVED_ROUTER);
    forall raw | raw in RawAliases(rec, compat) && NormalizeName(raw) == RESERVED_ROUTER
      ensures (rec.scope == SCOPE_MANAGED && rec.isRouter) || Spells(rec, RESERVED_ROUTER)
    {
      RouterRaw(rec, compat, raw);
    }
    SpeltAliases(rec, compat);
  }

  lemma NatsRaw(rec: WorkloadRecord, compat: bool, raw: string)
    requires raw in RawAliases(rec, compat) && NormalizeName(raw) == RESERVED_NATS
    ensures (rec.scope == SCOPE_MANAGED && rec.isNats) || Spells(rec, RESERVED_NATS)
  {
    ReservedRouterIsNormal();
    ReservedNatsIsNormal();
    ReservedNamesDiffer();
    AliasCases(rec, compat, raw);
    if OtherAlias(raw) {
      OtherAliasMisses(raw, RESERVED_NATS);
    }
  }

  lemma NatsAliasIff(rec: WorkloadRecord, compat: bool)
    ensures RESERVED_NATS in Aliases(rec, compat) <==>
            (rec.scope == SCOPE_MANAGED && rec.isNats) || Spells(rec, RESERVED_NATS)
  {
    ReservedNatsIsNormal();
    NormalizeNamesMembers(RawAliases(rec, compat), RESERVED_NATS);
    forall raw | raw in RawAliases(rec, compat) && NormalizeName(raw) == RESERVED_NATS
      ensures (rec.scope == SCOPE_MANAGED && rec.isNats) || Spells(rec, RESERVED_NATS)
    {
      NatsRaw(rec, compat, raw);
    }
    SpeltAliases(rec, compat);
  }

  lemma SpeltAliases(rec: WorkloadRecord, compat: bool)
    ensures rec.application != "" && rec.name != "" ==>
              (var short := rec.application + "." + rec.name;
               short in RawAliases(rec, compat) && short + "." + DEFAULT_ZONE in RawAliases(rec, compat))
    ensures rec.scope == SCOPE_MANAGED && rec.isRouter ==> RESERVED_ROUTER in RawAliases(rec, compat)
    ensures rec.scope == SCOPE_MANAGED && rec.isNats ==> RESERVED_NATS in RawAliases(rec, compat)
  {
  }

  /** Who answers to a reserved role name in a scope: the managed holders of the role and every
      workload of that scope whose application and name spell it. */
  lemma RoleNamesIff(table: Table, u: string, compat: bool, s: string)
    requires u in table
    ensures u in Scan(table, compat, s, RESERVED_ROUTER) <==>
            table[u].scope == s && ((s == SCOPE_MANAGED && table[u].isRouter) || Spells(table[u], RESERVED_ROUTER))
    ensures u in Scan(table, compat, s, RESERVED_NATS) <==>
            table[u].scope == s && ((s == SCOPE_MANAGED && table[u].isNats) || Spells(table[u], RESERVED_NATS))
  {
    RouterAliasIff(table[u], compat);
    NatsAliasIff(table[u], compat);
  }

  /** The reserved router name is not reserved to routers: a workload called `default` of an
      application called `router` is found under it, in its own scope. */
  lemma RouterNameCanBeClaimed(table: Table, u: string, compat: bool)
    requires u in table && table[u].application == "router" && table[u].name == "default"
    ensures u in Scan(table, compat, table[u].scope, RESERVED_ROUTER)
  {
    ReservedRouterIsNormal();
    var rec := table[u];
    assert rec.application + "." + rec.name + "." + DEFAULT_ZONE == RESERVED_ROUTER by {
      assert "router" + "." + "default" + "." == "router.default.";
    }
    RoleNamesIff(table, u, compat, rec.scope);
  }

  // ----- updating the index name by name -----

  function AddId(index: ScopeIndex, scope: string, name: string, uuid: string): ScopeIndex {
    index[scope := (if scope in index then index[scope] else map[])[name := Bucket(index, scope, name) + {uuid}]]
  }

  function DropId(index: ScopeIndex, scope: string, name: string, uuid: string): ScopeIndex {
    if scope !in index || name !in index[scope] then index
    else if index[scope][name] - {uuid} == {} then index[scope := index[scope] - {name}]
    else index[scope := index[scope][name := index[scope][name] - {uuid}]]
  }

  function AddIds(index: ScopeIndex, scope: string, names: seq<string>, uuid: string): ScopeIndex {
    if names == [] then index
    else AddId(AddIds(index, scope, names[..|names| - 1], uuid), scope, names[|names| - 1], uuid)
  }

  function DropIds(index: ScopeIndex, scope: string, names: seq<string>, uuid: string): ScopeIndex {
    if names == [] then index
    else DropId(DropIds(index, scope, names[..|names| - 1], uuid), scope, names[|names| - 1], uuid)
  }

  lemma NothingIndexed(compat: bool)
    ensures Agrees(map[SCOPE_MANAGED := map[], SCOPE_LOCAL := map[]], map[], compat)
  {
  }

  lemma DropIdsStep(index: ScopeIndex, scope: string, names: seq<string>, i: nat, uuid: string)
    requires i < |names|
    ensures DropIds(index, scope, names[..i + 1], uuid) ==
            DropId(DropIds(index, scope, names[..i], uuid), scope, names[i], uuid)
  {
    assert names[..i + 1][..i] == names[..i];
  }

  lemma DropIdKeepsScope(index: ScopeIndex, scope: string, name: string, uuid: string)
    requires scope in index
    ensures scope in DropId(index, scope, name, uuid)
  {
  }

  lemma {:induction false} NothingToDrop(index: ScopeIndex, scope: string, names: seq<string>, uuid: string)
    requires scope !in index
    ensures DropIds(index, scope, names, uuid) == index
  {
    if names != [] {
      NothingToDrop(index, scope, names[..|names| - 1], uuid);
    }
  }

  lemma {:induction false} AddIdsBucket(index: ScopeIndex, scope: string, names: seq<string>, uuid: string,
                                        s: string, n: string)
    requires scope in index
    ensures var next := AddIds(index, scope, names, uuid);
            && next.Keys == index.Keys
            && Bucket(next, s, n) == Bucket(index, s, n) + if s == scope && n in names then {uuid} else {}
  {
    if names != [] {
      var k := |names| - 1;
      AddIdsBucket(index, scope, names[..k], uuid, s, n);
      assert n in names <==> n in names[..k] || n == names[k];
    }
  }

  lemma {:induction false} AddIdsNoEmpty(index: ScopeIndex, scope: string, names: seq<string>, uuid: string)
    requires NoEmptyBucket(index)
    ensures NoEmptyBucket(AddIds(index, scope, names, uuid))
  {
    if names != [] {
      AddIdsNoEmpty(index, scope, names[..|names| - 1], uuid);
    }
  }

  lemma {:induction false} DropIdsBucket(index: ScopeIndex, scope: string, names: seq<string>, uuid: string,
                                         s: string, n: string)
    ensures var next := DropIds(index, scope, names, uuid);
            && next.Keys == index.Keys
            && Bucket(next, s, n) == Bucket(index, s, n) - if s == scope && n in names then {uuid} else {}
  {
    if names != [] {
      var k := |names| - 1;
      DropIdsBucket(index, scope, names[..k], uuid, s, n);
      assert n in names <==> n in names[..k] || n == names[k];
    }
  }

  lemma {:induction false} DropIdsNoEmpty(index: ScopeIndex, scope: string, names: seq<string>, uuid: string)
    requires NoEmptyBucket(index)
    ensures NoEmptyBucket(DropIds(index, scope, names, uuid))
  {
    if names != [] {
      DropIdsNoEmpty(index, scope, names[..|names| - 1], uuid);
    }
  }

  function Indexed(index: ScopeIndex, rec: WorkloadRecord, compat: bool): ScopeIndex {
    AddIds(index, rec.scope, Aliases(rec, compat), rec.uuid)
  }

  function Deindexed(index: ScopeIndex, rec: WorkloadRecord, compat: bool): ScopeIndex {
    DropIds(index, rec.scope, Aliases(rec, compat), rec.uuid)
  }

  lemma ScanAfterPut(table: Table, rec: WorkloadRecord, compat: bool, s: string, n: string)
    requires rec.uuid !in table
    ensures Scan(table[rec.uuid := rec], compat, s, n) ==
            Scan(table, compat, s, n) + if s == rec.scope && n in Aliases(rec, compat) then {rec.uuid} else {}
  {
  }

  /** Indexing a record that the table does not hold yet keeps the index exact. */
  lemma IndexedAgrees(index: ScopeIndex, table: Table, rec: WorkloadRecord, compat: bool)
    requires Agrees(index, table, compat) && Stored(rec) && rec.uuid !in table
    ensures Agrees(Indexed(index, rec, compat), table[rec.uuid := rec], compat)
  {
    var names := Aliases(rec, compat);
    AddIdsNoEmpty(index, rec.scope, names, rec.uuid);
    AddIdsBucket(index, rec.scope, names, rec.uuid, "", "");
    forall s, n
      ensures Bucket(Indexed(index, rec, compat), s, n) == Scan(table[rec.uuid := rec], compat, s, n)
    {
      AddIdsBucket(index, rec.scope, names, rec.uuid, s, n);
      ScanAfterPut(table, rec, compat, s, n);
      assert Bucket(index, s, n) == Scan(table, compat, s, n);
    }
  }

  /** Removing a record through its current aliases keeps the index exact. */
  lemma DeindexedAgrees(index: ScopeIndex, table: Table, u: string, compat: bool)
    requires Agrees(index, table, compat) && u in table && table[u].uuid == u
    ensures Agrees(Deindexed(index, table[u], compat), table - {u}, compat)
  {
    var names := Aliases(table[u], compat);
    DropIdsNoEmpty(index, table[u].scope, names, u);
    DropIdsBucket(index, table[u].scope, names, u, "", "");
    forall s, n
      ensures Bucket(Deindexed(index, table[u], compat), s, n) == Scan(table - {u}, compat, s, n)
    {
      DropIdsBucket(index, table[u].scope, names, u, s, n);
      assert Bucket(index, s, n) == Scan(table, compat, s, n);
    }
  }

  lemma PutReplaces<K, V>(m: map<K, V>, k: K, v: V)
    ensures m[k := v] == (m - {k})[k := v]
    ensures k !in m ==> m - {k} == m
  {
  }

  lemma ScopeIsIndexed(index: ScopeIndex, table: Table, rec: WorkloadRecord, compat: bool)
    requires Agrees(index, table, compat) && Stored(rec)
    ensures rec.scope in index
  {
    assert rec.scope in {SCOPE_MANAGED, SCOPE_LOCAL};
  }

  /** Replacing a record, or adding a new one, keeps the index exact. */
  lemma ReplacedAgrees(index: ScopeIndex, table: Table, rec: WorkloadRecord, compat: bool)
    requires WellKeyed(table) && Agrees(index, table, compat) && Stored(rec)
    ensures var without := if rec.uuid in table then Deindexed(index, table[rec.uuid], compat) else index;
            rec.scope in without && Agrees(Indexed(without, rec, compat), table[rec.uuid := rec], compat)
  {
    var u := rec.uuid;
    var without := if u in table then Deindexed(index, table[u], compat) else index;
    PutReplaces(table, u, rec);
    if u in table {
      DeindexedAgrees(index, table, u, compat);
    }
    ScopeIsIndexed(without, table - {u}, rec, compat);
    IndexedAgrees(without, table - {u}, rec, compat);
  }

  /** No alias depends on whether a workload runs or since when. */
  lemma AliasesIgnoreLiveness(a: WorkloadRecord, b: WorkloadRecord, compat: bool)
    requires b == a.(active := b.active, startedAt := b.startedAt)
    ensures Aliases(a, compat) == Aliases(b, compat)
  {
    assert RawAliases(a, compat) == RawAliases(b, compat);
  }

  lemma ScanIgnoresLiveness(table: Table, u: string, b: WorkloadRecord, compat: bool, s: string, n: string)
    requires u in table && b == table[u].(active := b.active, startedAt := b.startedAt)
    ensures Scan(table[u := b], compat, s, n) == Scan(table, compat, s, n)
  {
    AliasesIgnoreLiveness(table[u], b, compat);
  }

  lemma ActivatedMovesIff(table: Table, uuid: string, active: bool, startedAt: int)
    ensures Activated(table, uuid, active, startedAt) == table <==>
            (var u := TrimSpace(uuid);
             u in table ==> table[u].active == active && (startedAt > 0 ==> table[u].startedAt == startedAt))
  {
    var u, next := TrimSpace(uuid), Activated(table, uuid, active, startedAt);
    if u in table && next[u] == table[u] {
      assert next == table;
    }
  }

  /** Starting or stopping a workload needs no index update. */
  lemma ActivatedAgrees(index: ScopeIndex, table: Table, uuid: string, active: bool, startedAt: int, compat: bool)
    requires WellKeyed(table) && Agrees(index, table, compat)
    ensures var next := Activated(table, uuid, active, startedAt);
            && WellKeyed(next) && Agrees(index, next, compat)
            && (next == table <==> (var u := TrimSpace(uuid);
                  u in table ==> table[u].active == active && (startedAt > 0 ==> table[u].startedAt == startedAt)))
  {
    var u, next := TrimSpace(uuid), Activated(table, uuid, active, startedAt);
    ActivatedMovesIff(table, uuid, active, startedAt);
    if u in table {
      StoredKeyed(table, next[u]);
      forall s, n ensures Bucket(index, s, n) == Scan(next, compat, s, n) {
        ScanIgnoresLiveness(table, u, next[u], compat, s, n);
        assert Bucket(index, s, n) == Scan(table, compat, s, n);
      }
    }
  }
}
