/**
 The embedded DNS resolver: a table of workload records and a hand-maintained inverted
 index over it. Every mutator is proved to leave the index in exact agreement with a
 scan of the table, and a query, which reads only the index, is proved to answer what
 the scan would.
 */
module Resolver {
  import opened Text
  import opened Wrappers
  import opened Sorting
  import opened DnsRecords
  import opened Merge

  datatype Addr = V4(bits: nat) | V6(bits: nat)
  datatype QType = A | AAAA | Any
  datatype RR = RR(name: string, addr: Addr)

  /** The parser of textual addresses, a library function. */
  type AddrParser = string -> Option<Addr>

  /** Resource records for one textual address. */
  function RecordsFromIP(name: string, ip: string, qtype: QType, parse: AddrParser): seq<RR> {
    match parse(TrimSpace(ip))
    case None => []
    case Some(addr) =>
      if (qtype == AAAA && !addr.V6?) || (qtype == A && !addr.V4?) then [] else [RR(name, addr)]
  }

  function RecordsFromIPs(name: string, ips: seq<string>, qtype: QType, parse: AddrParser): seq<RR> {
    FlatMap(ips, ip => RecordsFromIP(name, ip, qtype, parse))
  }

  // ----- what a query means, read off the table -----

  function OtherScope(scope: string): string {
    if scope == SCOPE_MANAGED then SCOPE_LOCAL else SCOPE_MANAGED
  }

  /** The identifiers a listener of `scope` answers from: its own scope, or the local scope
      when the managed listener has nothing and the local scope is off. */
  function Visible(table: Table, compat: bool, localOn: bool, scope: string, name: string): set<string> {
    var own := Scan(table, compat, scope, name);
    if own == {} && scope == SCOPE_MANAGED && !localOn then Scan(table, compat, SCOPE_LOCAL, name) else own
  }

  function Live(table: Table, ids: set<string>): set<string> {
    set u | u in ids && u in table && table[u].active && TrimSpace(table[u].ip) != ""
  }

  function AddressesOf(table: Table, ids: set<string>): set<string> {
    set u | u in ids && u in table :: table[u].ip
  }

  /** `ips` lists the set `s` without repetition. */
  ghost predicate Enumerates(ips: seq<string>, s: set<string>) {
    && (forall i, j :: 0 <= i < j < |ips| ==> ips[i] != ips[j])
    && (forall x :: x in ips <==> x in s)
  }

  lemma EnumerationsPermute(x: seq<string>, y: seq<string>, s: set<string>)
    requires Enumerates(x, s) && Enumerates(y, s)
    ensures multiset(x) == multiset(y)
  {
    OnceEach(x);
    OnceEach(y);
  }

  /** Latest start first, then smallest identifier. */
  predicate Preferred(a: WorkloadRecord, b: WorkloadRecord) {
    a.startedAt > b.startedAt || (a.startedAt == b.startedAt && LexLe(a.uuid, b.uuid))
  }

  ghost predicate IsBest(table: Table, live: set<string>, u: string) {
    && u in live && u in table
    && forall v :: v in live && v in table ==> Preferred(table[u], table[v])
  }

  lemma PreferredIsTotal()
    ensures TotalPreorder(Preferred)
  {
    LexIsTotalOrder();
  }

  /** A reserved role name has one answer, whatever order the index is walked in. */
  lemma BestIsUnique(table: Table, live: set<string>, u: string, v: string)
    requires WellKeyed(table) && IsBest(table, live, u) && IsBest(table, live, v)
    ensures u == v
  {
    LexIsTotalOrder();
    assert Preferred(table[u], table[v]) && Preferred(table[v], table[u]);
  }

  /** The answer section for a name whose live candidates are `live`. */
  ghost predicate Answers(table: Table, live: set<string>, name: string, qtype: QType,
                          parse: AddrParser, rrs: seq<RR>)
  {
    if live == {} then rrs == []
    else if IsReservedRole(name) then
      exists u :: IsBest(table, live, u) && rrs == RecordsFromIP(name, table[u].ip, qtype, parse)
    else
      exists ips :: Enumerates(ips, AddressesOf(table, live)) && rrs == RecordsFromIPs(name, ips, qtype, parse)
  }

  /** The order in which the index is walked shows only in the order of the answers. */
  lemma AnswersIgnoreOrder(table: Table, live: set<string>, name: string, qtype: QType, parse: AddrParser,
                           a: seq<RR>, b: seq<RR>)
    requires WellKeyed(table)
    requires Answers(table, live, name, qtype, parse, a) && Answers(table, live, name, qtype, parse, b)
    ensures multiset(a) == multiset(b)
    ensures IsReservedRole(name) ==> a == b
  {
    if live != {} {
      if IsReservedRole(name) {
        var u :| IsBest(table, live, u) && a == RecordsFromIP(name, table[u].ip, qtype, parse);
        var v :| IsBest(table, live, v) && b == RecordsFromIP(name, table[v].ip, qtype, parse);
        BestIsUnique(table, live, u, v);
      } else {
        var x :| Enumerates(x, AddressesOf(table, live)) && a == RecordsFromIPs(name, x, qtype, parse);
        var y :| Enumerates(y, AddressesOf(table, live)) && b == RecordsFromIPs(name, y, qtype, parse);
        EnumerationsPermute(x, y, AddressesOf(table, live));
        FlatMapPermutes(x, y, ip => RecordsFromIP(name, ip, qtype, parse));
      }
    }
  }

  // ----- what a query answers, record by record -----

  predicate OfFamily(addr: Addr, qtype: QType) { (qtype == A ==> addr.V4?) && (qtype == AAAA ==> addr.V6?) }

  /** The text, between white space, is the address, and the query asks for its family. */
  predicate Yields(ip: string, addr: Addr, qtype: QType, parse: AddrParser) {
    parse(TrimSpace(ip)) == Some(addr) && OfFamily(addr, qtype)
  }

  lemma RecordsFromIPIs(name: string, ip: string, qtype: QType, parse: AddrParser, rr: RR)
    ensures rr in RecordsFromIP(name, ip, qtype, parse) <==> rr.name == name && Yields(ip, rr.addr, qtype, parse)
    ensures |RecordsFromIP(name, ip, qtype, parse)| <= 1
  {
  }

  lemma {:induction false} FlatMapMembers<P, Q>(xs: seq<P>, f: P -> seq<Q>, y: Q)
    ensures y in FlatMap(xs, f) <==> exists x :: x in xs && y in f(x)
  {
    if xs != [] {
      var k := |xs| - 1;
      FlatMapMembers(xs[..k], f, y);
      assert xs == xs[..k] + [xs[k]];
    }
  }

  lemma RecordsFromIPsIs(name: string, ips: seq<string>, qtype: QType, parse: AddrParser, rr: RR)
    ensures rr in RecordsFromIPs(name, ips, qtype, parse) <==>
            rr.name == name && exists ip :: ip in ips && Yields(ip, rr.addr, qtype, parse)
  {
    var f := ip => RecordsFromIP(name, ip, qtype, parse);
    FlatMapMembers(ips, f, rr);
    forall ip ensures rr in f(ip) <==> rr.name == name && Yields(ip, rr.addr, qtype, parse) {
      RecordsFromIPIs(name, ip, qtype, parse, rr);
    }
  }

  predicate Carries(table: Table, compat: bool, scope: string, name: string, u: string) {
    u in table && table[u].scope == scope && name in Aliases(table[u], compat)
  }

  /** The record is one a query of `scope` reaches: one of that scope, or for a managed query that no
      managed record carries, a local one. */
  ghost predicate Reached(table: Table, compat: bool, scope: string, name: string, u: string) {
    || Carries(table, compat, scope, name, u)
    || (scope == SCOPE_MANAGED && Carries(table, compat, SCOPE_LOCAL, name, u) &&
        forall v :: !Carries(table, compat, SCOPE_MANAGED, name, v))
  }

  /** Reached, running, and with an address. */
  ghost predicate Serves(table: Table, compat: bool, scope: string, name: string, u: string) {
    Reached(table, compat, scope, name, u) && u in table && table[u].active && !AllSpace(table[u].ip)
  }

  /** Among those that serve, the one started last, and of those the one with the smallest identifier. */
  ghost predicate Leads(table: Table, compat: bool, scope: string, name: string, u: string) {
    && Serves(table, compat, scope, name, u)
    && forall v :: Serves(table, compat, scope, name, v) ==>
         || table[u].startedAt > table[v].startedAt
         || (table[u].startedAt == table[v].startedAt && LexLe(table[u].uuid, table[v].uuid))
  }

  /** The query answers the record: some workload that serves it has that address, and for the name of a
      role only the leading one counts. */
  ghost predicate Answered(table: Table, compat: bool, scope: string, name: string, qtype: QType, parse: AddrParser,
                           rr: RR)
  {
    && rr.name == name
    && exists u :: && Serves(table, compat, scope, name, u) && Yields(table[u].ip, rr.addr, qtype, parse)
                   && (IsReservedRole(name) ==> Leads(table, compat, scope, name, u))
  }

  /** What a query for a name that is not reserved for the host says. */
  ghost predicate QueryMeans(table: Table, compat: bool, scope: string, name: string, qtype: QType, parse: AddrParser,
                             known: bool, rrs: seq<RR>, knownOther: bool)
  {
    && (known <==> exists u :: Reached(table, compat, scope, name, u))
    && (knownOther <==> !known && scope != SCOPE_MANAGED && exists u :: Carries(table, compat, SCOPE_MANAGED, name, u))
    && (forall rr :: rr in rrs <==> Answered(table, compat, scope, name, qtype, parse, rr))
  }

  lemma ScanIff(table: Table, compat: bool, scope: string, name: string)
    ensures forall u :: u in Scan(table, compat, scope, name) <==> Carries(table, compat, scope, name, u)
    ensures Scan(table, compat, scope, name) == {} <==> forall u :: !Carries(table, compat, scope, name, u)
  {
    if u :| u in Scan(table, compat, scope, name) {
      assert Carries(table, compat, scope, name, u);
    }
  }

  lemma VisibleIff(table: Table, compat: bool, scope: string, name: string, u: string)
    ensures u in Visible(table, compat, false, scope, name) <==> Reached(table, compat, scope, name, u)
  {
    ScanIff(table, compat, scope, name);
    ScanIff(table, compat, SCOPE_LOCAL, name);
  }

  lemma LiveIff(table: Table, compat: bool, scope: string, name: string, u: string)
    ensures u in Live(table, Visible(table, compat, false, scope, name)) <==> Serves(table, compat, scope, name, u)
  {
    VisibleIff(table, compat, scope, name, u);
    if u in table {
      BlankIff(table[u].ip);
    }
  }

  lemma BestIff(table: Table, compat: bool, scope: string, name: string, u: string)
    ensures IsBest(table, Live(table, Visible(table, compat, false, scope, name)), u) <==>
            Leads(table, compat, scope, name, u)
  {
    forall v ensures v in Live(table, Visible(table, compat, false, scope, name)) <==>
                     Serves(table, compat, scope, name, v)
    {
      LiveIff(table, compat, scope, name, v);
    }
  }

  lemma ServedAddresses(table: Table, compat: bool, scope: string, name: string, ips: seq<string>, live: set<string>)
    requires Enumerates(ips, AddressesOf(table, live))
    requires forall v :: v in live <==> Serves(table, compat, scope, name, v)
    ensures forall u :: Serves(table, compat, scope, name, u) ==> table[u].ip in ips
    ensures forall ip :: ip in ips ==> exists u :: Serves(table, compat, scope, name, u) && table[u].ip == ip
  {
    forall u | Serves(table, compat, scope, name, u) ensures table[u].ip in ips {
      assert u in live && table[u].ip in AddressesOf(table, live);
    }
    forall ip | ip in ips ensures exists u :: Serves(table, compat, scope, name, u) && table[u].ip == ip {
      assert ip in AddressesOf(table, live);
      var u :| u in live && u in table && table[u].ip == ip;
    }
  }

  lemma RoleAnswer(table: Table, compat: bool, scope: string, name: string, qtype: QType, parse: AddrParser,
                   rr: RR, best: string)
    requires IsReservedRole(name) && Leads(table, compat, scope, name, best)
    requires forall u :: Leads(table, compat, scope, name, u) ==> u == best
    ensures rr in RecordsFromIP(name, table[best].ip, qtype, parse) <==>
            Answered(table, compat, scope, name, qtype, parse, rr)
  {
    RecordsFromIPIs(name, table[best].ip, qtype, parse, rr);
  }

  lemma PlainAnswer(table: Table, compat: bool, scope: string, name: string, qtype: QType, parse: AddrParser,
                    rr: RR, ips: seq<string>)
    requires !IsReservedRole(name)
    requires forall u :: Serves(table, compat, scope, name, u) ==> table[u].ip in ips
    requires forall ip :: ip in ips ==> exists u :: Serves(table, compat, scope, name, u) && table[u].ip == ip
    ensures rr in RecordsFromIPs(name, ips, qtype, parse) <==>
            Answered(table, compat, scope, name, qtype, parse, rr)
  {
    RecordsFromIPsIs(name, ips, qtype, parse, rr);
  }

  lemma LeaderIsUnique(table: Table, compat: bool, scope: string, name: string, u: string, v: string)
    requires WellKeyed(table) && Leads(table, compat, scope, name, u) && Leads(table, compat, scope, name, v)
    ensures u == v
  {
    LexIsTotalOrder();
  }

  /** The answers for the live candidates are those of the records that serve the query. */
  lemma AnswersAre(table: Table, compat: bool, scope: string, name: string, qtype: QType, parse: AddrParser,
                   rrs: seq<RR>, rr: RR)
    requires WellKeyed(table)
    requires Answers(table, Live(table, Visible(table, compat, false, scope, name)), name, qtype, parse, rrs)
    ensures rr in rrs <==> Answered(table, compat, scope, name, qtype, parse, rr)
  {
    var live := Live(table, Visible(table, compat, false, scope, name));
    forall v ensures v in live <==> Serves(table, compat, scope, name, v) {
      LiveIff(table, compat, scope, name, v);
    }
    if live != {} {
      if IsReservedRole(name) {
        var best :| IsBest(table, live, best) && rrs == RecordsFromIP(name, table[best].ip, qtype, parse);
        BestIff(table, compat, scope, name, best);
        forall u | Leads(table, compat, scope, name, u) ensures u == best {
          LeaderIsUnique(table, compat, scope, name, u, best);
        }
        RoleAnswer(table, compat, scope, name, qtype, parse, rr, best);
      } else {
        var ips :| Enumerates(ips, AddressesOf(table, live)) && rrs == RecordsFromIPs(name, ips, qtype, parse);
        ServedAddresses(table, compat, scope, name, ips, live);
        PlainAnswer(table, compat, scope, name, qtype, parse, rr, ips);
      }
    }
  }

  /** What the index says about a name, said of the records themselves. */
  lemma QueryIs(table: Table, compat: bool, scope: string, name: string, qtype: QType, parse: AddrParser,
                known: bool, rrs: seq<RR>, knownOther: bool)
    requires WellKeyed(table)
    requires var ids := Visible(table, compat, false, scope, name);
             && (known <==> ids != {})
             && (knownOther <==> ids == {} && Scan(table, compat, OtherScope(scope), name) != {})
             && Answers(table, Live(table, ids), name, qtype, parse, rrs)
    requires scope == SCOPE_MANAGED ==> !knownOther
    ensures QueryMeans(table, compat, scope, name, qtype, parse, known, rrs, knownOther)
  {
    var ids := Visible(table, compat, false, scope, name);
    forall u ensures u in ids <==> Reached(table, compat, scope, name, u) {
      VisibleIff(table, compat, scope, name, u);
    }
    ScanIff(table, compat, SCOPE_MANAGED, name);
    if u :| u in ids {
      assert Reached(table, compat, scope, name, u);
    }
    forall rr ensures rr in rrs <==> Answered(table, compat, scope, name, qtype, parse, rr) {
      AnswersAre(table, compat, scope, name, qtype, parse, rrs, rr);
    }
  }

  /** `recs` holds the table's records for `ids`, each once, in some order. */
  ghost predicate Lists(recs: seq<WorkloadRecord>, table: Table, ids: set<string>) {
    && (forall i, j :: 0 <= i < j < |recs| ==> recs[i].uuid != recs[j].uuid)
    && (forall r :: r in recs ==> r.uuid in ids && r.uuid in table && table[r.uuid] == r)
    && (forall u :: u in ids && u in table ==> table[u] in recs)
  }

  function LiveOnly(recs: seq<WorkloadRecord>): seq<WorkloadRecord> {
    if recs == [] then []
    else var r := recs[|recs| - 1];
         LiveOnly(recs[..|recs| - 1]) + if r.active && TrimSpace(r.ip) != "" then [r] else []
  }

  lemma {:induction false} LiveOnlyMembers(recs: seq<WorkloadRecord>)
    requires forall i, j :: 0 <= i < j < |recs| ==> recs[i].uuid != recs[j].uuid
    ensures forall r :: r in LiveOnly(recs) <==> r in recs && r.active && TrimSpace(r.ip) != ""
    ensures forall i, j :: 0 <= i < j < |LiveOnly(recs)| ==> LiveOnly(recs)[i].uuid != LiveOnly(recs)[j].uuid
  {
    if recs != [] {
      var k := |recs| - 1;
      LiveOnlyMembers(recs[..k]);
      assert recs == recs[..k] + [recs[k]];
      forall r | r in LiveOnly(recs[..k]) ensures r.uuid != recs[k].uuid {
        assert r in recs[..k];
      }
    }
  }

  lemma LiveOnlyLists(recs: seq<WorkloadRecord>, table: Table, ids: set<string>)
    requires Lists(recs, table, ids)
    ensures Lists(LiveOnly(recs), table, Live(table, ids))
  {
    LiveOnlyMembers(recs);
  }

  /** `list` holds every record of the table once, in identifier order. */
  ghost predicate IsSnapshotOf(list: seq<WorkloadRecord>, table: Table) {
    Lists(list, table, table.Keys) && Sorted(list, ByUuid)
  }

  predicate ByUuid(a: WorkloadRecord, b: WorkloadRecord) { LexLe(a.uuid, b.uuid) }

  lemma SnapshotIs(list: seq<WorkloadRecord>, table: Table)
    requires WellKeyed(table) && IsSnapshotOf(list, table)
    ensures forall r :: r in list <==> r.uuid in table && table[r.uuid] == r
    ensures forall i, j :: 0 <= i < j < |list| ==> list[i].uuid != list[j].uuid && LexLe(list[i].uuid, list[j].uuid)
  {
    forall i, j | 0 <= i < j < |list| ensures LexLe(list[i].uuid, list[j].uuid) {
      assert ByUuid(list[i], list[j]);
    }
  }

  lemma ByUuidIsTotal()
    ensures TotalPreorder(ByUuid)
  {
    LexIsTotalOrder();
  }

  lemma SortedLists(list: seq<WorkloadRecord>, recs: seq<WorkloadRecord>, table: Table)
    requires SortOf(list, recs, ByUuid) && Lists(recs, table, table.Keys)
    ensures IsSnapshotOf(list, table)
  {
    forall r ensures r in list <==> r in recs {
      assert r in multiset(list) <==> r in multiset(recs);
    }
    OnceEach(recs);
    forall i, j | 0 <= i < j < |list| ensures list[i].uuid != list[j].uuid {
      assert list[i] in recs && list[j] in recs;
      CountedTwice(list, i, j);
    }
  }

  lemma CountedTwice(recs: seq<WorkloadRecord>, i: nat, j: nat)
    requires i < j < |recs|
    ensures recs[i] == recs[j] ==> multiset(recs)[recs[i]] >= 2
  {
    assert recs == recs[..i] + [recs[i]] + recs[i + 1..j] + [recs[j]] + recs[j + 1..];
  }

  /** A table has one snapshot. */
  lemma SnapshotIsUnique(a: seq<WorkloadRecord>, b: seq<WorkloadRecord>, table: Table)
    requires IsSnapshotOf(a, table) && IsSnapshotOf(b, table)
    ensures a == b
  {
    OnceEach(a);
    OnceEach(b);
    forall r ensures multiset(a)[r] == multiset(b)[r] {
      assert r in a <==> r.uuid in table && table[r.uuid] == r;
      assert r in b <==> r.uuid in table && table[r.uuid] == r;
    }
    LexIsTotalOrder();
    SortIsUnique(a, b, ByUuid);
  }

  /** Records that a pass keeps once the scope policy of the same pass is applied. */
  function Eligible(records: seq<WorkloadRecord>): seq<WorkloadRecord> {
    if records == [] then []
    else Eligible(records[..|records| - 1]) +
         if NormalizeScope(records[|records| - 1].scope) == SCOPE_MANAGED then [records[|records| - 1]] else []
  }

  predicate HasBridgeWorkload(records: seq<WorkloadRecord>) {
    exists i :: 0 <= i < |records| && !records[i].hostNetwork
  }

  /** A pass over these records is carried out: some workload uses the bridge network and some
      record is managed. Otherwise it is skipped. */
  predicate PassRuns(records: seq<WorkloadRecord>) {
    HasBridgeWorkload(records) && Eligible(records) != []
  }

  lemma {:induction false} EligibleIff(records: seq<WorkloadRecord>, r: WorkloadRecord)
    ensures r in Eligible(records) <==> r in records && NormalizeScope(r.scope) == SCOPE_MANAGED
  {
    if records != [] {
      var k := |records| - 1;
      EligibleIff(records[..k], r);
      assert records == records[..k] + [records[k]];
    }
  }

  /** A pass is carried out exactly when some workload is off the host network and some record is managed. */
  lemma PassRunsIff(records: seq<WorkloadRecord>)
    ensures PassRuns(records) <==> && (exists r :: r in records && !r.hostNetwork)
                                   && exists r :: r in records && NormalizeScope(r.scope) == SCOPE_MANAGED
  {
    forall r ensures r in Eligible(records) <==> r in records && NormalizeScope(r.scope) == SCOPE_MANAGED {
      EligibleIff(records, r);
    }
    if Eligible(records) != [] {
      assert Eligible(records)[0] in Eligible(records);
    }
  }

  /** The table after one pass over a runtime snapshot. */
  function Reconciled(table: Table, records: seq<WorkloadRecord>, hostIP: string): Table {
    if PassRuns(records) then Keyed(Eligible(records), hostIP) else table
  }

  /** Every record that wins its identifier is managed. */
  ghost predicate ManagedWinners(records: seq<WorkloadRecord>, hostIP: string) {
    forall u :: u in Keyed(records, hostIP) ==> Keyed(records, hostIP)[u].scope == SCOPE_MANAGED
  }

  /** Filtering by the scope policy of the pass loses nothing exactly when no record that wins its
      identifier is local. */
  lemma FilterKeepsManagedOnly(records: seq<WorkloadRecord>, hostIP: string)
    ensures Keyed(Eligible(records), hostIP) == Keyed(records, hostIP) <==> ManagedWinners(records, hostIP)
  {
    var all, kept := Keyed(records, hostIP), Keyed(Eligible(records), hostIP);
    forall u
      ensures u in kept ==> u in all && kept[u].scope == SCOPE_MANAGED
      ensures u in all && all[u].scope == SCOPE_MANAGED ==> u in kept && kept[u] == all[u]
    {
      EligibleKeyed(records, hostIP, u);
    }
    if ManagedWinners(records, hostIP) {
      assert kept.Keys == all.Keys;
    }
  }

  /** A pass that has something to correct brings the table to the runtime's records exactly when
      it is carried out and no winning record is local. */
  lemma PassConvergesIff(table: Table, records: seq<WorkloadRecord>, hostIP: string)
    requires table != Keyed(records, hostIP)
    ensures Reconciled(table, records, hostIP) == Keyed(records, hostIP) <==>
            PassRuns(records) && ManagedWinners(records, hostIP)
  {
    FilterKeepsManagedOnly(records, hostIP);
  }

  /** A pass with nothing to correct leaves the table alone exactly when it is skipped or no winning
      record is local. */
  lemma SettledPassIff(records: seq<WorkloadRecord>, hostIP: string)
    ensures Reconciled(Keyed(records, hostIP), records, hostIP) == Keyed(records, hostIP) <==>
            (PassRuns(records) ==> ManagedWinners(records, hostIP))
  {
    FilterKeepsManagedOnly(records, hostIP);
  }

  /** A workload that the runtime no longer reports stays in the table exactly when the pass is
      skipped. */
  lemma StaleSurvivesIff(table: Table, records: seq<WorkloadRecord>, hostIP: string, u: string)
    requires u in table && u !in Keyed(records, hostIP)
    ensures u in Reconciled(table, records, hostIP) <==> !PassRuns(records)
  {
    EligibleKeyed(records, hostIP, u);
  }

  /** So a runtime that reports nothing never clears the table, and a single managed workload on
      the host network is not taken in. */
  lemma SkippedPassCorrectsNothing(table: Table, hostIP: string)
    ensures Reconciled(table, [], hostIP) == table
    ensures var rec := WorkloadRecord("u", "a", "n", SCOPE_MANAGED, "10.0.0.2", true, false, false, false, true, 1);
            "u" in Keyed([rec], hostIP) && Reconciled(table, [rec], hostIP) == table
  {
    var rec := WorkloadRecord("u", "a", "n", SCOPE_MANAGED, "10.0.0.2", true, false, false, false, true, 1);
    SoleRecordIsKeyed(rec, hostIP);
  }

  lemma SoleRecordIsKeyed(rec: WorkloadRecord, hostIP: string)
    requires rec.uuid != "" && Trimmed(rec.uuid)
    ensures rec.uuid in Keyed([rec], hostIP)
  {
    TrimSpaceTrims(rec.uuid);
    assert [rec][..0] == [];
    UpsertedAt(Keyed([], hostIP), rec, hostIP, rec.uuid);
  }

  /** A single local workload on the bridge network is not taken in either. */
  lemma LocalRecordIsDropped(table: Table)
    ensures var rec := WorkloadRecord("u", "a", "n", SCOPE_LOCAL, "10.0.0.2", false, false, false, false, true, 1);
            "u" in Keyed([rec], "") && Reconciled(table, [rec], "") == table
  {
    var rec := WorkloadRecord("u", "a", "n", SCOPE_LOCAL, "10.0.0.2", false, false, false, false, true, 1);
    SoleRecordIsKeyed(rec, "");
    assert [rec][..0] == [];
    assert Eligible([rec]) == Eligible([]) + [];
  }

  lemma {:induction false} EligibleKeyed(records: seq<WorkloadRecord>, hostIP: string, u: string)
    ensures var all, kept := Keyed(records, hostIP), Keyed(Eligible(records), hostIP);
            && (u in kept ==> u in all && kept[u].scope == SCOPE_MANAGED)
            && (u in all && all[u].scope == SCOPE_MANAGED ==> u in kept && kept[u] == all[u])
  {
    if records != [] {
      var k := |records| - 1;
      var front, last := Eligible(records[..k]), records[k];
      EligibleKeyed(records[..k], hostIP, u);
      UpsertedAt(Keyed(records[..k], hostIP), last, hostIP, u);
      if NormalizeScope(last.scope) == SCOPE_MANAGED {
        UpsertedAt(Keyed(front, hostIP), last, hostIP, u);
        assert (front + [last])[..|front|] == front;
        assert Keyed(Eligible(records), hostIP) == Upserted(Keyed(front, hostIP), last, hostIP);
      } else {
        assert Eligible(records) == front;
      }
    }
  }

  lemma NotIndexed(index: ScopeIndex, table: Table, compat: bool, u: string)
    requires Agrees(index, table, compat) && u !in table
    ensures forall s, n :: u !in Bucket(index, s, n)
  {
    forall s, n ensures u !in Bucket(index, s, n) {
      assert Bucket(index, s, n) == Scan(table, compat, s, n);
    }
  }

  lemma NobodyIsBlank(table: Table, index: ScopeIndex, compat: bool)
    requires WellKeyed(table) && Agrees(index, table, compat)
    ensures "" !in table && forall s, n :: "" !in Bucket(index, s, n)
  {
    NotIndexed(index, table, compat, "");
  }

  class Resolver {
    var workloads: Table
    var index: ScopeIndex
    var scopeEnabled: map<string, bool>
    var snapshotRevision: nat
    var snapshotPersisted: nat
    const compatOn: bool

    ghost predicate Valid()
      reads this
    {
      && WellKeyed(workloads)
      && Agrees(index, workloads, compatOn)
      && scopeEnabled.Keys == {SCOPE_MANAGED, SCOPE_LOCAL}
      && !scopeEnabled[SCOPE_LOCAL]
    }

    constructor (compat: bool)
      ensures Valid() && workloads == map[] && compatOn == compat
      ensures snapshotRevision == snapshotPersisted == 0 && !scopeEnabled[SCOPE_MANAGED]
    {
      compatOn := compat;
      workloads := map[];
      index := map[SCOPE_MANAGED := map[], SCOPE_LOCAL := map[]];
      scopeEnabled := map[SCOPE_MANAGED := false, SCOPE_LOCAL := false];
      snapshotRevision, snapshotPersisted := 0, 0;
    }

    // ----- the index, one record at a time -----

    method AddName(scope: string, name: string, uuid: string)
      requires scope in index
      modifies this`index
      ensures index == AddId(old(index), scope, name, uuid)
    {
      var byName := index[scope];
      if name !in byName {
        byName := byName[name := {}];
      }
      byName := byName[name := byName[name] + {uuid}];
      assert byName == index[scope][name := Bucket(index, scope, name) + {uuid}];
      index := index[scope := byName];
    }

    method DropName(scope: string, name: string, uuid: string)
      requires scope in index
      modifies this`index
      ensures index == DropId(old(index), scope, name, uuid)
    {
      if name in index[scope] {
        var ids := index[scope][name] - {uuid};
        if ids == {} {
          index := index[scope := index[scope] - {name}];
        } else {
          index := index[scope := index[scope][name := ids]];
        }
      }
    }

    method IndexRecord(rec: WorkloadRecord)
      modifies this`index
      ensures index == Indexed(if rec.scope in old(index) then old(index) else old(index)[rec.scope := map[]],
                               rec, compatOn)
    {
      var names := Aliases(rec, compatOn);
      if rec.scope !in index {
        index := index[rec.scope := map[]];
      }
      ghost var start := index;
      for i := 0 to |names|
        invariant rec.scope in index
        invariant index == AddIds(start, rec.scope, names[..i], rec.uuid)
      {
        AddName(rec.scope, names[i], rec.uuid);
        assert names[..i + 1][..i] == names[..i];
      }
      assert names[..|names|] == names;
    }

    method DeindexRecord(rec: WorkloadRecord)
      modifies this`index
      ensures index == Deindexed(old(index), rec, compatOn)
    {
      var names := Aliases(rec, compatOn);
      if rec.scope !in index {
        NothingToDrop(index, rec.scope, names, rec.uuid);
        return;
      }
      for i := 0 to |names|
        invariant rec.scope in index
        invariant index == DropIds(old(index), rec.scope, names[..i], rec.uuid)
      {
        DropIdsStep(old(index), rec.scope, names, i, rec.uuid);
        DropIdKeepsScope(index, rec.scope, names[i], rec.uuid);
        DropName(rec.scope, names[i], rec.uuid);
      }
      assert names[..|names|] == names;
    }

    method RebuildIndex()
      requires WellKeyed(workloads)
      modifies this`index
      ensures Agrees(index, workloads, compatOn)
    {
      index := map[SCOPE_MANAGED := map[], SCOPE_LOCAL := map[]];
      NothingIndexed(compatOn);
      ghost var done: Table := map[];
      var todo := workloads.Keys;
      while todo != {}
        invariant todo <= workloads.Keys && done.Keys == workloads.Keys - todo
        invariant forall u :: u in done ==> done[u] == workloads[u]
        invariant Agrees(index, done, compatOn)
      {
        var u :| u in todo;
        IndexedAgrees(index, done, workloads[u], compatOn);
        IndexRecord(workloads[u]);
        done := done[u := workloads[u]];
        todo := todo - {u};
      }
      assert done == workloads;
    }

    // ----- mutators -----

    method UpsertWorkload(rec: WorkloadRecord, hostIP: string)
      requires Valid() && Trimmed(hostIP)
      modifies this`workloads, this`index, this`snapshotRevision
      ensures Valid()
      ensures workloads == Upserted(old(workloads), rec, hostIP)
      ensures snapshotRevision == old(snapshotRevision) + if workloads == old(workloads) then 0 else 1
    {
      var normalized := NormalizeRecord(rec, hostIP);
      if normalized.None? {
        return;
      }
      NormalizeRecordStores(rec, hostIP);
      StoreRecord(normalized.value);
    }

    method StoreRecord(newRec: WorkloadRecord)
      requires Valid() && Stored(newRec)
      modifies this`workloads, this`index, this`snapshotRevision
      ensures Valid()
      ensures workloads == old(workloads)[newRec.uuid := newRec]
      ensures snapshotRevision == old(snapshotRevision) + if workloads == old(workloads) then 0 else 1
    {
      StoredKeyed(workloads, newRec);
      if newRec.uuid in workloads && workloads[newRec.uuid] == newRec {
        return;
      }
      ReplaceRecord(newRec);
      snapshotRevision := snapshotRevision + 1;
    }

    method ReplaceRecord(newRec: WorkloadRecord)
      requires WellKeyed(workloads) && Agrees(index, workloads, compatOn) && Stored(newRec)
      modifies this`workloads, this`index
      ensures workloads == old(workloads)[newRec.uuid := newRec]
      ensures Agrees(index, workloads, compatOn)
    {
      ReplacedAgrees(index, workloads, newRec, compatOn);
      if newRec.uuid in workloads {
        DeindexRecord(workloads[newRec.uuid]);
      }
      workloads := workloads[newRec.uuid := newRec];
      IndexRecord(newRec);
    }

    method SetWorkloadActive(uuid: string, active: bool, startedAt: int)
      requires Valid()
      modifies this`workloads, this`snapshotRevision
      ensures Valid()
      ensures workloads == Activated(old(workloads), uuid, active, startedAt)
      ensures snapshotRevision == old(snapshotRevision) + if workloads == old(workloads) then 0 else 1
    {
      ActivatedAgrees(index, workloads, uuid, active, startedAt, compatOn);
      var u := TrimSpace(uuid);
      if u == "" || u !in workloads {
        return;
      }
      var rec, changed := workloads[u].(active := active), workloads[u].active != active;
      if startedAt > 0 && rec.startedAt != startedAt {
        rec, changed := rec.(startedAt := startedAt), true;
      }
      workloads := workloads[u := rec];
      if changed {
        snapshotRevision := snapshotRevision + 1;
      }
    }

    method RemoveWorkload(uuid: string)
      requires Valid()
      modifies this`workloads, this`index, this`snapshotRevision
      ensures Valid()
      ensures workloads == Removed(old(workloads), uuid) == old(workloads) - {TrimSpace(uuid)}
      ensures TrimSpace(uuid) !in workloads && forall s, n :: TrimSpace(uuid) !in Bucket(index, s, n)
      ensures snapshotRevision == old(snapshotRevision) + if TrimSpace(uuid) in old(workloads) then 1 else 0
    {
      var u := TrimSpace(uuid);
      RemovedIs(workloads, uuid);
      if u == "" {
        NobodyIsBlank(workloads, index, compatOn);
        return;
      }
      if u in workloads {
        DropRecord(u);
        snapshotRevision := snapshotRevision + 1;
      }
      NotIndexed(index, workloads, compatOn, u);
    }

    method DropRecord(u: string)
      requires WellKeyed(workloads) && Agrees(index, workloads, compatOn) && u in workloads
      modifies this`workloads, this`index
      ensures workloads == old(workloads) - {u}
      ensures Agrees(index, workloads, compatOn)
    {
      DeindexedAgrees(index, workloads, u, compatOn);
      DeindexRecord(workloads[u]);
      workloads := workloads - {u};
    }

    // ----- queries -----

    /** Records of the given identifiers, in whatever order the set is walked. */
    method Gather(ids: set<string>) returns (candidates: seq<WorkloadRecord>)
      requires WellKeyed(workloads)
      ensures Lists(candidates, workloads, ids)
    {
      candidates := [];
      var todo := ids;
      while todo != {}
        invariant todo <= ids
        invariant Lists(candidates, workloads, ids - todo)
      {
        var u :| u in todo;
        todo := todo - {u};
        if u in workloads {
          candidates := candidates + [workloads[u]];
        }
      }
    }

    method KeepLive(candidates: seq<WorkloadRecord>, ghost ids: set<string>) returns (live: seq<WorkloadRecord>)
      requires WellKeyed(workloads) && Lists(candidates, workloads, ids)
      ensures Lists(live, workloads, Live(workloads, ids))
    {
      live := [];
      for i := 0 to |candidates|
        invariant live == LiveOnly(candidates[..i])
      {
        assert candidates[..i + 1][..i] == candidates[..i];
        if !candidates[i].active {
          continue;
        }
        if TrimSpace(candidates[i].ip) == "" {
          continue;
        }
        live := live + [candidates[i]];
      }
      assert candidates[..|candidates|] == candidates;
      LiveOnlyLists(candidates, workloads, ids);
    }

    method PickReservedTarget(live: seq<WorkloadRecord>, ghost ids: set<string>) returns (best: WorkloadRecord)
      requires WellKeyed(workloads) && Lists(live, workloads, ids) && live != []
      ensures best in live && IsBest(workloads, ids, best.uuid)
    {
      PreferredIsTotal();
      var sorted := SortStable(live, Preferred);
      assert |sorted| == |multiset(sorted)| == |live|;
      best := sorted[0];
      assert best in multiset(sorted);
      forall v | v in ids && v in workloads ensures Preferred(best, workloads[v]) {
        assert workloads[v] in multiset(sorted);
      }
    }

    method DistinctAnswers(live: seq<WorkloadRecord>, ghost ids: set<string>, name: string, qtype: QType,
                           parse: AddrParser)
      returns (rrs: seq<RR>)
      requires Lists(live, workloads, ids)
      ensures exists ips :: Enumerates(ips, AddressesOf(workloads, ids)) &&
                            rrs == RecordsFromIPs(name, ips, qtype, parse)
    {
      rrs := [];
      var seen := {};
      ghost var ips := [];
      for i := 0 to |live|
        invariant Enumerates(ips, seen) && rrs == RecordsFromIPs(name, ips, qtype, parse)
        invariant forall ip :: ip in seen <==> exists j :: 0 <= j < i && live[j].ip == ip
      {
        var ip := live[i].ip;
        if ip in seen {
          continue;
        }
        seen := seen + {ip};
        rrs := rrs + RecordsFromIP(name, ip, qtype, parse);
        assert (ips + [ip])[..|ips|] == ips;
        ips := ips + [ip];
      }
      assert forall j :: 0 <= j < |live| ==> live[j] in live;
      assert seen == AddressesOf(workloads, ids);
    }

    /** A query, as the scan of the table answers it. */
    method LookUp(scope: string, name: string, qtype: QType, hostIP: string, parse: AddrParser)
      returns (known: bool, rrs: seq<RR>, knownOther: bool)
      requires Valid()
      ensures IsHostReserved(name, compatOn) ==>
                known && !knownOther && rrs == RecordsFromIP(name, hostIP, qtype, parse)
      ensures !IsHostReserved(name, compatOn) ==>
                var ids := Visible(workloads, compatOn, scopeEnabled[SCOPE_LOCAL], scope, name);
                && (known <==> ids != {})
                && (knownOther <==> ids == {} && Scan(workloads, compatOn, OtherScope(scope), name) != {})
                && Answers(workloads, Live(workloads, ids), name, qtype, parse, rrs)
      ensures scope == SCOPE_MANAGED ==> !knownOther
    {
      if IsHostReserved(name, compatOn) {
        return true, RecordsFromIP(name, hostIP, qtype, parse), false;
      }
      var ids := Bucket(index, scope, name);
      if ids == {} && scope == SCOPE_MANAGED && !scopeEnabled[SCOPE_LOCAL] {
        ids := Bucket(index, SCOPE_LOCAL, name);
      }
      assert ids == Visible(workloads, compatOn, scopeEnabled[SCOPE_LOCAL], scope, name);
      if ids == {} {
        var other := if scope == SCOPE_MANAGED then SCOPE_LOCAL else SCOPE_MANAGED;
        assert Bucket(index, other, name) == Scan(workloads, compatOn, other, name);
        return false, [], other in index && name in index[other];
      }
      var candidates := Gather(ids);
      var live := KeepLive(candidates, ids);
      if live == [] {
        assert Live(workloads, ids) == {};
        return true, [], false;
      }
      assert live[0].uuid in Live(workloads, ids);
      if IsReservedRole(name) {
        var best := PickReservedTarget(live, Live(workloads, ids));
        return true, RecordsFromIP(name, best.ip, qtype, parse), false;
      }
      rrs := DistinctAnswers(live, Live(workloads, ids), name, qtype, parse);
      return true, rrs, false;
    }

    method ResolveInternal(scope: string, name: string, qtype: QType, hostIP: string, parse: AddrParser)
      returns (known: bool, rrs: seq<RR>, knownOther: bool)
      requires Valid()
      ensures IsHostReserved(name, compatOn) ==>
                && known && !knownOther && |rrs| <= 1
                && forall rr :: rr in rrs <==> rr.name == name && Yields(hostIP, rr.addr, qtype, parse)
      ensures !IsHostReserved(name, compatOn) ==>
                && QueryMeans(workloads, compatOn, scope, name, qtype, parse, known, rrs, knownOther)
                && var ids := Visible(workloads, compatOn, scopeEnabled[SCOPE_LOCAL], scope, name);
                   Answers(workloads, Live(workloads, ids), name, qtype, parse, rrs)
      ensures scope == SCOPE_MANAGED ==> !knownOther
    {
      known, rrs, knownOther := LookUp(scope, name, qtype, hostIP, parse);
      if IsHostReserved(name, compatOn) {
        forall rr ensures rr in rrs <==> rr.name == name && Yields(hostIP, rr.addr, qtype, parse) {
          RecordsFromIPIs(name, hostIP, qtype, parse, rr);
        }
      } else {
        QueryIs(workloads, compatOn, scope, name, qtype, parse, known, rrs, knownOther);
      }
    }

    // ----- reconcile against the runtime -----

    method KeyRecords(records: seq<WorkloadRecord>, hostIP: string) returns (desired: Table)
      ensures desired == Keyed(records, hostIP)
    {
      desired := map[];
      for i := 0 to |records|
        invariant desired == Keyed(records[..i], hostIP)
      {
        var normalized := NormalizeRecord(records[i], hostIP);
        if normalized.Some? {
          desired := desired[normalized.value.uuid := normalized.value];
        }
        assert records[..i + 1][..i] == records[..i];
      }
      assert records[..|records|] == records;
    }

    method RemoveStale(desired: Table) returns (removed: nat)
      modifies this`workloads, this`index
      ensures workloads == Pruned(old(workloads), desired, {})
      ensures removed == |old(workloads).Keys - desired.Keys|
    {
      removed := 0;
      ghost var before := workloads;
      var todo := workloads.Keys;
      PrunedEnds(before, desired);
      while todo != {}
        invariant todo <= before.Keys
        invariant workloads == Pruned(before, desired, todo)
        invariant removed == |before.Keys - desired.Keys - todo|
      {
        var u :| u in todo;
        PrunedStep(before, desired, todo, u);
        PrunedCount(before, desired, todo, u);
        todo := todo - {u};
        if u in desired {
          continue;
        }
        DeindexRecord(workloads[u]);
        workloads := workloads - {u};
        removed := removed + 1;
      }
    }

    method PutDesired(desired: Table, ghost before: Table) returns (added: nat, updated: nat)
      requires workloads == Pruned(before, desired, {})
      modifies this`workloads
      ensures workloads == desired
      ensures added == |desired.Keys - before.Keys| && updated == |Changed(before, desired)|
    {
      added, updated := 0, 0;
      var todo := desired.Keys;
      FilledEnds(before, desired);
      CountsEnd(before, desired);
      while todo != {}
        invariant todo <= desired.Keys
        invariant workloads == Filled(before, desired, todo)
        invariant added == |desired.Keys - before.Keys - todo| && updated == |Changed(before, desired) - todo|
      {
        var u :| u in todo;
        FilledStep(before, desired, todo, u);
        CountsStep(before, desired, todo, u);
        todo := todo - {u};
        if u !in workloads {
          workloads := workloads[u := desired[u]];
          added := added + 1;
          continue;
        }
        if workloads[u] == desired[u] {
          continue;
        }
        workloads := workloads[u := desired[u]];
        updated := updated + 1;
      }
    }

    method ReconcileAgainstRecords(records: seq<WorkloadRecord>, hostIP: string) returns (report: ReconcileReport)
      requires Valid() && Trimmed(hostIP)
      modifies this`workloads, this`index
      ensures Valid()
      ensures workloads == Keyed(records, hostIP)
      ensures report == ReportOf(old(workloads), workloads)
    {
      var desired := KeyRecords(records, hostIP);
      var removed := RemoveStale(desired);
      var added, updated := PutDesired(desired, old(workloads));
      KeyedIsWellKeyed(records, hostIP);
      RebuildIndex();
      report := ReconcileReport(added, updated, removed);
    }

    method UpdateScopePolicy(records: seq<WorkloadRecord>)
      modifies this`scopeEnabled
      ensures scopeEnabled.Keys == old(scopeEnabled).Keys + {SCOPE_MANAGED, SCOPE_LOCAL}
      ensures !scopeEnabled[SCOPE_LOCAL] && scopeEnabled[SCOPE_MANAGED] == HasBridgeWorkload(records)
    {
      var managedCount, localCount := 0, 0;
      for i := 0 to |records|
        invariant managedCount >= 0 && localCount >= 0
        invariant managedCount + localCount > 0 <==> exists j :: 0 <= j < i && !records[j].hostNetwork
      {
        if records[i].hostNetwork {
          continue;
        }
        if NormalizeScope(records[i].scope) == SCOPE_LOCAL {
          localCount := localCount + 1;
        } else {
          managedCount := managedCount + 1;
        }
      }
      scopeEnabled := scopeEnabled[SCOPE_MANAGED := managedCount + localCount > 0];
      scopeEnabled := scopeEnabled[SCOPE_LOCAL := false];
    }

    method FilterRecordsByEnabledScopes(records: seq<WorkloadRecord>) returns (filtered: seq<WorkloadRecord>)
      requires Valid()
      ensures filtered == if scopeEnabled[SCOPE_MANAGED] then Eligible(records) else []
    {
      filtered := [];
      for i := 0 to |records|
        invariant filtered == if scopeEnabled[SCOPE_MANAGED] then Eligible(records[..i]) else []
      {
        if scopeEnabled[NormalizeScope(records[i].scope)] {
          filtered := filtered + [records[i]];
        }
        assert records[..i + 1][..i] == records[..i];
      }
      assert records[..|records|] == records;
    }

    /** One reconcile pass over a runtime snapshot that was read successfully. */
    method RunReconcileOnce(records: seq<WorkloadRecord>, hostIP: string) returns (report: ReconcileReport)
      requires Valid() && Trimmed(hostIP)
      modifies this`workloads, this`index, this`scopeEnabled
      ensures Valid()
      ensures workloads == Reconciled(old(workloads), records, hostIP)
      ensures report == ReportOf(old(workloads), workloads)
    {
      UpdateScopePolicy(records);
      var filtered := FilterRecordsByEnabledScopes(records);
      if filtered == [] {
        ReportBalances(workloads, workloads);
        return ReconcileReport(0, 0, 0);
      }
      report := ReconcileAgainstRecords(filtered, hostIP);
    }

    // ----- snapshot file -----

    method ReplaceTable(table: Table)
      modifies this`workloads
      ensures workloads == table
    {
      var todo := workloads.Keys;
      while todo != {}
        invariant workloads.Keys == todo
      {
        var u :| u in todo;
        workloads := workloads - {u};
        todo := todo - {u};
      }
      todo := table.Keys;
      while todo != {}
        invariant todo <= table.Keys && workloads == table - todo
      {
        var u :| u in todo;
        PutBack(table, todo, u);
        workloads := workloads[u := table[u]];
        todo := todo - {u};
      }
      assert table - {} == table;
    }

    method ApplySnapshotRecords(records: seq<WorkloadRecord>, hostIP: string) returns (count: nat)
      requires Valid() && Trimmed(hostIP)
      modifies this`workloads, this`index, this`snapshotRevision, this`snapshotPersisted
      ensures Valid()
      ensures workloads == Keyed(records, hostIP) && count == |workloads|
      ensures snapshotRevision == snapshotPersisted == if workloads == map[] then 0 else 1
    {
      var normalized := KeyRecords(records, hostIP);
      KeyedIsWellKeyed(records, hostIP);
      ReplaceTable(normalized);
      RebuildIndex();
      var rev := 0;
      if |normalized| > 0 {
        rev := 1;
      }
      snapshotRevision := rev;
      snapshotPersisted := rev;
      count := |normalized|;
    }

    method CollectSnapshotWorkloads() returns (list: seq<WorkloadRecord>)
      requires Valid()
      ensures IsSnapshotOf(list, workloads)
      ensures forall r :: r in list <==> r.uuid in workloads && workloads[r.uuid] == r
      ensures forall i, j :: 0 <= i < j < |list| ==> list[i].uuid != list[j].uuid && LexLe(list[i].uuid, list[j].uuid)
    {
      var out := Gather(workloads.Keys);
      ByUuidIsTotal();
      list := SortFunc(out, ByUuid);
      SortedLists(list, out, workloads);
      SnapshotIs(list, workloads);
    }

    /** One persister pass that no mutator disturbs; `written` is the list that reached the file. */
    method PersistSnapshotIfNeeded(force: bool, saveOk: bool) returns (written: Option<seq<WorkloadRecord>>)
      requires Valid()
      modifies this`snapshotPersisted
      ensures Valid()
      ensures written.Some? <==> saveOk && (force || snapshotRevision != old(snapshotPersisted))
      ensures written.Some? ==> IsSnapshotOf(written.value, workloads)
      ensures snapshotPersisted == if written.Some? then snapshotRevision else old(snapshotPersisted)
    {
      var rev := snapshotRevision;
      if !force && rev == snapshotPersisted {
        return None;
      }
      var records := CollectSnapshotWorkloads();
      if !saveOk {
        return None;
      }
      snapshotPersisted := rev;
      return Some(records);
    }
  }
}
