# Edgelet: a verified model

Edgelet is an edge-node agent. This project models its stateful core in Dafny and proves what
that core keeps over every run:

- the embedded DNS resolver: a workload table with an inverted name index, a reconcile pass
  against the runtime, a snapshot file written by a concurrent persister, a per-source token
  bucket, and forwarding to upstream resolvers with backoff (`DnsRecords`, `Resolver`, `Merge`,
  `SnapshotProtocol`, `RateLimiter`, `Forwarding`);
- controller exec sessions: attachments reconciled against polled rows under a lock that is
  given up half-way, the runtime sessions behind them, and the buffered socket handler of one
  session (`ExecSessions`, `ExecRuntime`, `ExecWebSocket`);
- stopping the embedded containerd data plane inside a signal loop (`DataPlaneStop`);
- Edge Guard: canonical hardware fingerprints, the locked NIC link states and the attestation
  run (`Canonical`, `Fingerprint`, `Attestation`, `HardwareAttestation`);
- the bytes an environment digest hashes, and shell quoting with the wrapper that picks a shell
  (`EnvDigest`, `ShellQuote`).

`Text`, `Sorting` and `Wrappers` hold trimming and string order, sorting, and `Option`.

Objects that the program updates in place are classes whose methods are proved against
specification functions; the properties are lemmas about those functions and about all
sequences of steps. A sort that is not stable is "any sorted permutation", and iteration over
a Go map visits keys in an arbitrary order, so every result holds whatever the order.

## What the program does not keep, and exactly when it does

Ten natural laws are false of the code. Each has a concrete failing input and an exact
condition:

- A reconcile pass that has something to correct brings the table to the runtime's records
  exactly when it is carried out and no record that wins its identifier is local
  (`PassConvergesIff`). A pass is skipped unless some workload uses the bridge network and some
  record is managed, and a stale workload survives exactly a skipped pass (`StaleSurvivesIff`):
  an empty runtime never clears the table (`SkippedPassCorrectsNothing`). Local records are
  filtered out because the scope policy of the pass always disables the local scope, although
  the resolver's comments call the scopes metadata (`LocalRecordIsDropped`).
- Reconciling changes the table without moving the snapshot revision. The clean flag can be
  believed afterwards, whatever mutators and persister do, exactly when the reconcile changed
  nothing, or the snapshot was dirty and no save of the current revision was under way
  (`ReconcileIsSafeIff`, `ReconcileCanLoseAnUpdate`, `SaveUnderWayCanLoseAnUpdate`).
- The reserved router and NATS names are also answered by every workload of the queried scope
  whose application and name spell them (`RoleNamesIff`, `RouterNameCanBeClaimed`).
- Evicting idle buckets is invisible, and the throughput bound holds, exactly when an evicted
  bucket would have been full again: `ttl <= 0` or `rps * (ttl + 1) >= 1000 * burst`
  (`EvictionInvisibleIff`, `ThroughputBoundIff`, `OverdrawPasses`).
- The limit of three attachments per microservice can be passed by a polled row that moves an
  attached session to another microservice (`VisitKeepsLimitIff`, `MovingSessionBreaksLimit`).
- A start of an exec session goes on without the lock and never looks at its attachment again. A
  record is left behind exactly when a start registers it after the attachment was stopped and
  released, and a process exactly when it is launched after its record was released or loses its
  record to a failing start, each unless a later event recovers it (`LeaksIff`,
  `StopDuringStartLeaks`, `ReleaseDuringCreateLeaks`). A finished session keeps its record, so one
  left behind makes the next start fail (`FinishedSessionBlocksRestart`), and stopping a session
  again does not end a process without a record (`StopMissesUnrecorded`).
- Output accepted by a socket handler can be dropped exactly when a flush worker runs while there
  is no connection (`NothingDroppedIff`, `LateFlushLosesFrame`).
- Output can be written before a session is active exactly when a flush worker runs in a session
  that is not (`WritesOnlyActiveIff`, `ResetCanLeaveWorker`).
- A canonical fingerprint is independent of the sorting algorithm exactly when no two different
  entries that reach it have the same sort key, since keys are joined without a separator
  (`CanonicalFormIff`, `TiedGpusHaveTwoForms`).
- The carrier that a check reads for a NIC is independent of the sorting algorithm exactly when all
  entries for that NIC agree (`ReadingIsDeterminedIff`, `TwoCarriersDisagree`).

Two laws hold because of what the surroundings guarantee, and their exact conditions are proved
too: saving and restoring gives the table back when the host address is known throughout, as the
gateway of the fixed bridge network always is (`KnownAddressRoundTrip`, `RestoreRoundTrip`), and
the bytes of an environment identify its pairs as long as no entry holds a NUL byte
(`DigestInputIff`, `IdentifiedIff`).

## Model

| member | source | states |
|---|---|---|
| `DnsRecords.NormalizeRecordStores` | internal/dnsresolver/reconcile.go:161-174 | whatever is normalised successfully has a trimmed nonempty identifier, trimmed fields and one of the two scopes |
| `DnsRecords.NormalizeStored` | internal/dnsresolver/reconcile.go:161-174 | normalising a stored record changes nothing, exactly unless it is a host-network record without an address and a host address is known |
| `DnsRecords.NormalizedFields` | internal/dnsresolver/reconcile.go:161-174 | a record is refused exactly when its identifier is blank; identifier, application, name and address are trimmed, any scope but the local one becomes managed, a host-network record without an address gets the host address, and nothing else changes |
| `DnsRecords.NormalizeNamesMembers` | internal/dnsresolver/resolver.go:777-784 | the aliases kept are exactly the nonempty normal forms of the raw names |
| `DnsRecords.NameVariants` | internal/dnsresolver/resolver.go:864-868 | a name is known in every letter case, between white space and with one final dot |
| `DnsRecords.AliasesIff` | internal/dnsresolver/resolver.go:777-818 | a record answers to exactly the nonempty normal forms of the names it is given: application.name and iofog_identifier with and without the zone, the controller names, its role name, and for managed records the agent and compatibility host names |
| `DnsRecords.ReservedNames` | internal/dnsresolver/resolver.go:874-886 | the reserved role names are those of router and NATS in the bridge zone; the host names are the agent name and, in compatibility mode, the two container host names |
| `DnsRecords.KeyedKeepsLast` | internal/dnsresolver/reconcile.go:96-101 | an identifier is keyed exactly when some record normalises to it, and the last such record is the one kept |
| `DnsRecords.KeyedIsWellKeyed` | internal/dnsresolver/snapshot.go:74-82 | keyed records are stored under their own identifiers, all normalised |
| `DnsRecords.IndexIsDetermined` | internal/dnsresolver/resolver.go:744-775 | two indexes that agree with a table are equal, so no history of updates shows through the index |
| `DnsRecords.AddIdsBucket` | internal/dnsresolver/resolver.go:751-756 | indexing adds the identifier to the buckets of its own names in its own scope and changes no other bucket |
| `DnsRecords.DropIdsBucket` | internal/dnsresolver/resolver.go:765-774 | deindexing takes the identifier out of those buckets only |
| `DnsRecords.DropIdsNoEmpty` | internal/dnsresolver/resolver.go:771-773 | deindexing never leaves an empty bucket stored |
| `DnsRecords.IndexedAgrees` | internal/dnsresolver/resolver.go:744-757 | indexing a record new to the table keeps the index equal to a scan of the table |
| `DnsRecords.DeindexedAgrees` | internal/dnsresolver/resolver.go:759-775 | deindexing the stored record and removing it keeps the index equal to a scan |
| `DnsRecords.ReplacedAgrees` | internal/dnsresolver/resolver.go:678-689 | deindexing by the old record's aliases, storing and indexing the new one keeps the index equal to a scan |
| `DnsRecords.AliasesIgnoreLiveness` | internal/dnsresolver/resolver.go:777-818 | no alias depends on whether a workload is active or when it started |
| `DnsRecords.ActivatedAgrees` | internal/dnsresolver/resolver.go:697-721 | starting or stopping a workload keeps the index exact without touching it, and the table moves exactly when liveness or a positive start time does |
| `DnsRecords.ActivatedIs` | internal/dnsresolver/resolver.go:697-721 | only the named record changes, by its liveness and, when positive, its start time; every other field and record stays |
| `DnsRecords.RemovedIs` | internal/dnsresolver/resolver.go:723-742 | after a removal the trimmed identifier is gone and every other identifier keeps its record |
| `DnsRecords.FoundByOwnNames` | internal/dnsresolver/resolver.go:786-795 | every stored workload is found under its identifier name and, when it has both, under application.name |
| `DnsRecords.FoundByZoneNames` | internal/dnsresolver/resolver.go:786-795 | it is also found under the zone forms of both |
| `DnsRecords.FoundByControllerName` | internal/dnsresolver/resolver.go:796-798 | every controller workload is found under edgelet.controller, with and without the zone |
| `DnsRecords.FoundByNamespaceController` | internal/dnsresolver/resolver.go:799-802 | every controller workload of an application is found under the controller name of that application, with and without the zone |
| `DnsRecords.FoundByHostNames` | internal/dnsresolver/resolver.go:810-816 | every managed workload is indexed under the agent name and, in compatibility mode, under both host names |
| `DnsRecords.FoundByRoleName` | internal/dnsresolver/resolver.go:804-809 | every managed router and NATS workload is found under its reserved role name |
| `DnsRecords.RoleNamesIff` | internal/dnsresolver/resolver.go:777-818 | a workload is found under a reserved role name in a scope exactly when it is a managed holder of the role or its application and name spell the name, with or without the zone |
| `DnsRecords.RouterNameCanBeClaimed` | internal/dnsresolver/resolver.go:786-790 | a workload "default" of an application "router" is found under the reserved router name, whatever its flags |
| `Resolver.Resolver.constructor` | internal/dnsresolver/resolver.go:160-186 | a new resolver has an empty table, an index that agrees with it and no revision |
| `Resolver.Resolver.IndexRecord` | internal/dnsresolver/resolver.go:744-757 | the loop over the aliases computes the index with the record's identifier under every alias |
| `Resolver.Resolver.DeindexRecord` | internal/dnsresolver/resolver.go:759-775 | the loop takes the identifier out of every alias and is a no-op for an unknown scope |
| `Resolver.Resolver.RebuildIndex` | internal/dnsresolver/reconcile.go:148-159 | an index rebuilt in any record order agrees with a scan of the table |
| `Resolver.Resolver.UpsertWorkload` | internal/dnsresolver/resolver.go:661-695 | the index invariant is kept, the table holds the normalised record, and the revision moves exactly when the table does |
| `Resolver.Resolver.SetWorkloadActive` | internal/dnsresolver/resolver.go:697-721 | the index invariant is kept, only liveness of that record changes, and the revision moves exactly when the table does |
| `Resolver.Resolver.RemoveWorkload` | internal/dnsresolver/resolver.go:723-742 | the table loses the trimmed identifier and nothing else, no bucket of the index holds it afterwards, the index invariant is kept, and the revision moves exactly when the identifier was there |
| `Resolver.Resolver.PickReservedTarget` | internal/dnsresolver/resolver.go:648-659 | the record chosen is the one with the latest start and, among those, the smallest identifier |
| `Resolver.BestIsUnique` | internal/dnsresolver/resolver.go:648-659 | that choice is unique, so the candidates' order cannot matter |
| `Resolver.Resolver.ResolveInternal` | internal/dnsresolver/resolver.go:580-646 | for a host name, the host address when it is of the queried family; otherwise known exactly when a record of the scope carries the name, or for a managed query that no managed record carries, a local one; known elsewhere exactly when only managed records carry it and the query is not managed; an address is answered exactly when it is of the queried family and one of those records that is running has it, for a role name only the one started last with the smallest identifier; each distinct address text once |
| `Resolver.QueryIs` | internal/dnsresolver/resolver.go:580-646 | what the scan of the table gives for a name, said of the records and their fields alone |
| `Resolver.RecordsFromIPIs` | internal/dnsresolver/resolver.go:820-862 | an address gives one record, under the queried name, exactly when the trimmed text parses and is of the queried family |
| `Resolver.AnswersIgnoreOrder` | internal/dnsresolver/resolver.go:604-645 | two runs of one query give the same answers up to order, and the same list for role names, whatever the map iteration order |
| `Resolver.Resolver.ReconcileAgainstRecords` | internal/dnsresolver/reconcile.go:95-146 | the index invariant is kept, the table becomes the keyed records, and the report counts exactly the keys added, changed and removed |
| `Merge.ReportBalances` | internal/dnsresolver/reconcile.go:103-145 | size after = size before + added - removed, and the report is zero exactly when nothing differs, so a second run reports 0/0/0 |
| `Resolver.Resolver.UpdateScopePolicy` | internal/dnsresolver/resolver.go:383-413 | the managed scope is enabled exactly when some record is not on the host network; the local scope never is |
| `Resolver.Resolver.FilterRecordsByEnabledScopes` | internal/dnsresolver/resolver.go:423-431 | the records kept are the managed ones in order, or none when the managed scope is disabled |
| `Resolver.PassRunsIff` | internal/dnsresolver/reconcile.go:75-83 | a pass is carried out exactly when some workload is off the host network and some record is managed |
| `Resolver.Resolver.RunReconcileOnce` | internal/dnsresolver/reconcile.go:75-93 | a pass leaves the table alone when no record is eligible and otherwise reconciles it with the eligible ones; the report is exact for the whole pass |
| `Resolver.FilterKeepsManagedOnly` | internal/dnsresolver/resolver.go:423-431 | filtering by the scope policy keeps the keyed records exactly when no winning record is local |
| `Resolver.PassConvergesIff` | internal/dnsresolver/reconcile.go:75-83 | a pass with something to correct brings the table to the keyed records exactly when it is carried out and no winning record is local |
| `Resolver.SettledPassIff` | internal/dnsresolver/reconcile.go:75-83 | a pass with nothing to correct leaves the table alone exactly when it is skipped or no winning record is local |
| `Resolver.StaleSurvivesIff` | internal/dnsresolver/reconcile.go:75-81 | a workload the runtime no longer reports stays in the table exactly when the pass is skipped |
| `Resolver.SkippedPassCorrectsNothing` | internal/dnsresolver/reconcile.go:77-81 | an empty runtime snapshot leaves every table as it was, and so does a single managed host-network workload |
| `Resolver.LocalRecordIsDropped` | internal/dnsresolver/resolver.go:400-412 | a pass over a single local workload on the bridge network leaves every table as it was |
| `Resolver.Resolver.ApplySnapshotRecords` | internal/dnsresolver/snapshot.go:74-102 | restoring empties and refills the table with the keyed records, keeps the index invariant, and sets both revisions to 1, or to 0 for nothing |
| `Resolver.Resolver.CollectSnapshotWorkloads` | internal/dnsresolver/snapshot.go:123-137 | the list holds exactly the records of the table, with strictly ascending identifiers |
| `Resolver.SnapshotIsUnique` | internal/dnsresolver/snapshot.go:133-136 | a table has one such list, although the sort is not stable |
| `Resolver.Resolver.PersistSnapshotIfNeeded` | internal/dnsresolver/snapshot.go:104-121 | undisturbed, a pass writes exactly when forced or dirty and the save works, writes the current table, and stores the loaded revision |
| `SnapshotProtocol.CleanFlagIsSound` | internal/dnsresolver/snapshot.go:104-121 | in every interleaving of upserts, activations, removals and timely reconciles with the persister's separate steps, equal revisions mean that the file holds the current table |
| `SnapshotProtocol.MutatorIs` | internal/dnsresolver/resolver.go:661-742 | a mutator may run at any time, moves the revision by one exactly when it changes the table, and touches neither file nor persister |
| `SnapshotProtocol.QuietPassCleans` | internal/dnsresolver/snapshot.go:104-121 | whenever the file is out of date the next pass starts, and one that nothing disturbs brings file and revision up to date |
| `SnapshotProtocol.RestoreRoundTrip` | internal/dnsresolver/snapshot.go:59-102 | collecting then restoring gives back the same table exactly when no host-network record without an address meets a known host address |
| `SnapshotProtocol.KnownAddressRoundTrip` | internal/dnsresolver/resolver.go:888-912 | with one nonempty host address throughout, no run holds a host-network record without an address, so collecting and restoring gives back the table of every reachable state |
| `SnapshotProtocol.RestoreCanFillAddress` | internal/dnsresolver/reconcile.go:170-172 | if the address were unknown for a while, a record stored then would be restored with an address it was not saved with |
| `SnapshotProtocol.RestartIsCleanIff` | internal/dnsresolver/snapshot.go:95-101 | a restart from a table's file begins with a truthful clean flag, and with that table, exactly under the round-trip condition |
| `SnapshotProtocol.RestoredIs` | internal/dnsresolver/snapshot.go:74-102 | a restart holds the keyed records of the file, clean at revision one, or zero when there are none |
| `SnapshotProtocol.ReconcileKeepsInvIff` | internal/dnsresolver/reconcile.go:95-146 | a reconcile pass keeps the run invariant exactly when it changes nothing, or the snapshot is dirty and no save of the current revision is under way |
| `SnapshotProtocol.ReconcileIsSafeIff` | internal/dnsresolver/reconcile.go:95-146 | the clean flag is truthful after a pass and in every continuation of mutators and persister steps exactly under that condition |
| `SnapshotProtocol.SaveUnderWayCanLoseAnUpdate` | internal/dnsresolver/snapshot.go:110-120 | a dirty resolver whose save was under way when a workload was learned ends up clean without it |
| `SnapshotProtocol.ReconcileCanLoseAnUpdate` | internal/dnsresolver/reconcile.go:117-133 | one added record on a clean empty resolver is a case where it does not |
| `RateLimiter.Limits` | internal/dnsresolver/ratelimit.go:43-56 | positive limits are kept as configured, others become one, and the time to live is kept |
| `RateLimiter.SourceRateLimiter.constructor` | internal/dnsresolver/ratelimit.go:43-56 | a new limiter has those limits and no buckets |
| `RateLimiter.SourceRateLimiter.Cleanup` | internal/dnsresolver/ratelimit.go:89-102 | exactly the buckets idle for longer than the time to live go, in any map order |
| `RateLimiter.SourceRateLimiter.Allow` | internal/dnsresolver/ratelimit.go:58-87 | cleanup, refill, cap and spend give the specified bucket and decision |
| `RateLimiter.CallIs` | internal/dnsresolver/ratelimit.go:58-87 | on the stored numbers: a call passes exactly when its source is new or forgotten, or its tokens plus elapsed milliseconds times rps reach 1000; it then costs 1000, and never more than a full burst is kept |
| `RateLimiter.OthersAre` | internal/dnsresolver/ratelimit.go:89-102 | a call of one source forgets exactly the other sources unseen for longer than the time to live and changes none |
| `RateLimiter.TokensStayInRange` | internal/dnsresolver/ratelimit.go:58-87 | over every run whose clock does not go back, every bucket holds between zero and burst tokens and was last refilled no later than now |
| `RateLimiter.TokensInRangeAnyClock` | internal/dnsresolver/ratelimit.go:67-86 | the token range holds even when the clock jumps |
| `RateLimiter.SourcesAreIsolated` | internal/dnsresolver/ratelimit.go:58-102 | the decisions for one source in any mixed run are those of a new limiter given that source's calls alone, for every time to live |
| `RateLimiter.EvictionInvisibleIff` | internal/dnsresolver/ratelimit.go:89-102 | the limiter decides like one that never evicts in all runs exactly when ttl <= 0 or rps * (ttl + 1) >= 1000 * burst |
| `RateLimiter.TokensAreSpentOnce` | internal/dnsresolver/ratelimit.go:67-86 | under that condition, tokens spent plus tokens left never exceed tokens at the start plus tokens added, over every window |
| `RateLimiter.ThroughputBound` | internal/dnsresolver/ratelimit.go:43-87 | under that condition, in every window after any earlier calls, 1000 times the calls passed is at most 1000 * burst + rps * duration |
| `RateLimiter.ThroughputBoundIff` | internal/dnsresolver/ratelimit.go:43-102 | the bound holds for all windows exactly under that condition |
| `RateLimiter.OverdrawPasses` | internal/dnsresolver/ratelimit.go:89-102 | otherwise two bursts around one eviction pass 2 * burst calls |
| `Forwarding.BackoffDuration` | internal/dnsresolver/forwarding.go:190-205 | the doubling loop computes 0 for no failure and otherwise min(5000, 250 * 2^(n-1)) ms |
| `Forwarding.BackoffMonotone` | internal/dnsresolver/forwarding.go:190-205 | the backoff never shrinks with the streak and never passes its cap |
| `Forwarding.BackoffDoubles` | internal/dnsresolver/forwarding.go:190-205 | the backoff is 250 ms after one failure and doubles with every further one up to 5000 ms |
| `Forwarding.HealthReflectsHistory` | internal/dnsresolver/forwarding.go:139-170 | after every history the streaks count the outcomes at its end, are never both positive, and the cooldown is last failure + backoff(streak), or zero after a success |
| `Forwarding.UpstreamsAreIndependent` | internal/dnsresolver/forwarding.go:139-170 | interleaved exchanges leave every upstream in the state of its own history |
| `Forwarding.UpstreamPool.RecordForwardSuccess` | internal/dnsresolver/forwarding.go:139-153 | one upstream changes, its streaks and cooldown as specified; the pool is no longer degraded |
| `Forwarding.UpstreamPool.RecordForwardFailure` | internal/dnsresolver/forwarding.go:155-170 | one upstream changes, with its cooldown from the looped backoff; the pool is degraded |
| `Forwarding.UpstreamPool.RankForwardCandidates` | internal/dnsresolver/forwarding.go:100-137 | on the upstream fields: ready upstreams come first, by the shorter failure streak, the later success and the earlier position in the list, then the cooling ones by expiry and position; an address is left out only when it is cooling and three ready ones are offered; skips are counted |
| `Forwarding.RankingOrder` | internal/dnsresolver/forwarding.go:100-137 | the positions of the candidates in the given list, which is a ranking in that order for every list and pool |
| `Forwarding.RankingIsSafe` | internal/dnsresolver/forwarding.go:100-137 | a ranking of a nonempty list is nonempty, offers three or every address, and puts no cooling upstream before a ready one |
| `Forwarding.UpstreamPool.TryCandidates` | internal/dnsresolver/forwarding.go:78-97 | candidates are tried in rank order, at most three, until the first answer, whatever other queries record between the attempts, and the pool ends as the interleaved exchanges say |
| `Forwarding.UpstreamPool.ForwardExternal` | internal/dnsresolver/forwarding.go:52-98 | the "no candidates" error cannot occur; the result is the last exchange of a prefix of the ranking, and every upstream ends as all exchanges, its own and those of other queries, say |
| `ExecSessions.ExecSessionManager.CountControllerSessionsForMS` | internal/fieldagent/exec_session_manager.go:181-189 | the loop counts the microservice's attachments |
| `ExecSessions.ExecSessionManager.RemoveExecSessionState` | internal/fieldagent/exec_session_manager.go:262-271 | exactly that session leaves both maps |
| `ExecSessions.ExecSessionManager.VisitRow` | internal/fieldagent/exec_session_manager.go:160-219 | one row refreshes an attachment, is refused at the limit or without a process manager, is taken back without a handler, or is attached with one |
| `ExecSessions.ExecSessionManager.StopStale` | internal/fieldagent/exec_session_manager.go:138-155 | exactly the attachments and handlers outside the fetched rows go |
| `ExecSessions.ExecSessionManager.HandleExecSessions` | internal/fieldagent/exec_session_manager.go:128-175 | an undisturbed poll ends in the specified state, failed starts taken back |
| `ExecSessions.ExecSessionManager.StopAllInteractiveForMicroservice` | internal/fieldagent/exec_session_manager.go:320-334 | undisturbed, exactly the microservice's attachments leave both maps |
| `ExecSessions.StopAllUnderInterference` | internal/fieldagent/exec_session_manager.go:320-338 | in every interleaving of the stops with other threads, only attachments that were there and were not stopped remain, as long as no row of the microservice is polled meanwhile |
| `ExecSessions.StoppedStaysGone` | internal/fieldagent/exec_session_manager.go:297-308 | in every interleaving a stopped session is gone at the end unless one of its rows is polled |
| `ExecSessions.EveryRunIsBounded` | internal/fieldagent/exec_session_manager.go:128-303 | in every interleaving of critical sections both maps have the same keys and, when identifiers keep their microservice, no microservice has more than three attachments |
| `ExecSessions.WithinLimitIff` | internal/fieldagent/exec_session_manager.go:181-189 | the limit is that no four attachments belong to one microservice |
| `ExecSessions.VisitKeepsLimitIff` | internal/fieldagent/exec_session_manager.go:160-219 | a visited row keeps the limit exactly unless it moves an attached session to a microservice that is full |
| `ExecSessions.MovingSessionBreaksLimit` | internal/fieldagent/exec_session_manager.go:160-163 | such a move, concretely |
| `ExecSessions.PollConverges` | internal/fieldagent/exec_session_manager.go:128-175 | after an undisturbed poll an identifier is attached exactly when it was attached and fetched again, or one of its rows started completely with room at its turn; nothing outside the rows remains |
| `ExecSessions.PollRefreshes` | internal/fieldagent/exec_session_manager.go:160-219 | after an undisturbed poll every attachment holds the last row fetched for it; an old one keeps its handler and a new one has a handler for the microservice of a fetched row |
| `ExecSessions.PollIsARun` | internal/fieldagent/exec_session_manager.go:128-175 | an undisturbed poll is one of the runs above, stopping stale sessions in any order |
| `ExecRuntime.NodeRunIsBounded` | internal/fieldagent/exec_session_manager.go:191-303 | the attachment limit and the agreement of both maps also hold in every interleaving with connecting, registering, creating, launching, waiting and releasing outside the lock |
| `ExecRuntime.EverythingIsAccountedFor` | internal/fieldagent/exec_session_manager.go:191-303 | over every run and for every session, each start that began is over or under way, each launch set off was made or is yet to come, and each release that fell due was made or is yet to come |
| `ExecRuntime.QuietIffDone` | internal/fieldagent/exec_session_manager.go:226-303 | from a fresh start a node is quiet exactly when all of that is done for every session |
| `ExecRuntime.LeftBehindStepIff` | internal/processmanager/exec_sessions.go:68-151 | one event leaves a record or a process behind only by registering after the stop and release, launching after the release, or failing with the record of a running process, and recovers it only in the listed ways; a normal exit is not one of them for a record, nor a stop for a process |
| `ExecRuntime.LeaksIff` | internal/processmanager/exec_sessions.go:68-151 | over every run, a record or a process is left behind at the end exactly when some event left it behind and nothing after that recovered it |
| `ExecRuntime.QuietRunIsCleanIff` | internal/fieldagent/exec_session_manager.go:226-303 | from a fresh start to any moment with no start or stop under way, every record has an attachment exactly when the run leaked no record, and every process a record exactly when it leaked no process |
| `ExecRuntime.StopDuringStartLeaks` | internal/fieldagent/exec_session_manager.go:226-243 | a stop between attaching and registering leaves a running session with its record on a quiet node without an attachment |
| `ExecRuntime.FinishedSessionBlocksRestart` | internal/processmanager/exec_sessions.go:27-34 | when that session ends normally its record stays, and the next start of it fails as a duplicate |
| `ExecRuntime.ReleaseDuringCreateLeaks` | internal/processmanager/exec_sessions.go:98-120 | a stop and release between registering and launching leave a process without a record on a quiet node |
| `ExecRuntime.StopMissesUnrecorded` | internal/processmanager/exec_sessions.go:137-151 | stopping the session again ends no process that has no record |
| `ExecRuntime.PurgedStaysGone` | internal/processmanager/exec_sessions.go:163-177 | a session ended by the stop of all sessions of its microservice has neither record nor process at the end of any run in which no start of it registers or launches afterwards |
| `ExecWebSocket.EveryRunIsSound` | internal/fieldagent/exec_websocket.go:178-337 | in every run the counters equal the queue's frames and bytes and stay within 1000 and 1 MiB, accepted frames are those removed followed by those queued in order and intact, and the flags match the connection state |
| `ExecWebSocket.SendIs` | internal/fieldagent/exec_websocket.go:304-337 | in every reachable state a frame sent outside an active session is queued exactly when fewer than 1000 frames wait and it fits into 1048576 bytes with them; otherwise the handler is unchanged |
| `ExecWebSocket.FlushIs` | internal/fieldagent/exec_websocket.go:822-835 | a worker takes the oldest frame and ends on an empty buffer; the frame is written exactly with a connection and a working write |
| `ExecWebSocket.TeardownIs` | internal/fieldagent/exec_websocket.go:178-195 | a reset, or the transport close of a connected session, drains the queue in order and leaves nothing connected or active |
| `ExecWebSocket.ConnectIs` | internal/fieldagent/exec_websocket.go:225-278 | a dial of a disconnected handler with token and connection makes it pending; every other dial changes nothing |
| `ExecWebSocket.ActivateIs` | internal/fieldagent/exec_websocket.go:806-820 | a pending session becomes active and gets one flush worker; any other is unchanged |
| `ExecWebSocket.NothingLostUntilTeardown` | internal/fieldagent/exec_websocket.go:806-835 | before any reset or transport close, frames leave the buffer in acceptance order and each was offered to a live connection |
| `ExecWebSocket.NothingDroppedIff` | internal/fieldagent/exec_websocket.go:806-835 | from every reachable state, all continuations without a teardown offer every frame that leaves the buffer to a connection exactly when no flush worker runs while there is none |
| `ExecWebSocket.WritesOnlyActiveIff` | internal/fieldagent/exec_websocket.go:304-313 | from every reachable state, all continuations without a teardown write output only while the session is active exactly when every flush worker belongs to an active session |
| `ExecWebSocket.ResetCanLeaveWorker` | internal/fieldagent/exec_websocket.go:178-195 | a reset right after activation leaves a worker of the old session |
| `ExecWebSocket.LateFlushLosesFrame` | internal/fieldagent/exec_websocket.go:822-835 | a flush worker surviving a reset drops a frame accepted after it |
| `ExecWebSocket.ExecSessionWebSocketHandler.TransitionState` | internal/fieldagent/exec_websocket.go:280-291 | the state moves exactly when it was the expected one |
| `ExecWebSocket.ExecSessionWebSocketHandler.ConnectTransport` | internal/fieldagent/exec_websocket.go:225-278 | connecting takes its step and succeeds exactly when not yet connected and token and dial work |
| `ExecWebSocket.ExecSessionWebSocketHandler.ActivateIfPending` | internal/fieldagent/exec_websocket.go:806-820 | activation takes its step and starts one flush worker |
| `ExecWebSocket.ExecSessionWebSocketHandler.SendMessage` | internal/fieldagent/exec_websocket.go:304-313 | a frame is written directly exactly when connected and active, and otherwise buffered when there is room |
| `ExecWebSocket.ExecSessionWebSocketHandler.BufferOutput` | internal/fieldagent/exec_websocket.go:315-337 | a frame is accepted at the end of the queue exactly when there is room; refusal changes nothing |
| `ExecWebSocket.ExecSessionWebSocketHandler.FlushBuffer` | internal/fieldagent/exec_websocket.go:822-835 | an undisturbed flush sends the whole queue in order and returns the counters |
| `ExecWebSocket.ExecSessionWebSocketHandler.DrainOutputBuffer` | internal/fieldagent/ws_session.go:38-50 | draining removes every queued frame in order and zeroes the counters |
| `ExecWebSocket.ExecSessionWebSocketHandler.ResetHandler` | internal/fieldagent/exec_websocket.go:178-195 | a reset disconnects and drains in one step |
| `ExecWebSocket.ExecSessionWebSocketHandler.HandleTransportClose` | internal/fieldagent/exec_websocket.go:870-880 | a transport close resets a connected handler and leaves others alone |
| `DataPlaneStop.Produce` | cmd/edgelet-server/runtime_bootstrap_shutdown.go:187-278 | both drains through the runtime set exactly one flag, so "complete" and "allows reaping" agree |
| `DataPlaneStop.ExecRuntimeDrain` | cmd/edgelet-server/runtime_bootstrap_shutdown.go:305-366 | the retry loop of the operator drain returns the outcome of the first turn that settles one, degraded when none does, with exactly one flag; complete exactly when a run succeeded before anything else settled |
| `DataPlaneStop.SettlesIff` | cmd/edgelet-server/runtime_bootstrap_shutdown.go:305-366 | a turn settles nothing exactly while the socket is silent or the failure is worth a retry; a success completes, a failure that speaks of a deadline times out |
| `DataPlaneStop.OutcomeFromQuiesce` | cmd/edgelet-server/runtime_bootstrap_shutdown.go:219-228 | the outcome has exactly one flag, allows reaping exactly for a complete quiesce, and reports the known statuses back |
| `DataPlaneStop.WithDefaults` | cmd/edgelet-server/runtime_bootstrap_shutdown.go:413-449 | positive budgets are kept; others become 120 s in total and 10 s for the verifying reap |
| `DataPlaneStop.Bootstrap.StopDataPlane` | cmd/edgelet-server/runtime_bootstrap_shutdown.go:451-516 | an attempt issues the operations that `AttemptIs` spells out and returns the drain outcome |
| `DataPlaneStop.AttemptIs` | cmd/edgelet-server/runtime_bootstrap_shutdown.go:451-516 | on the clock readings alone: clear marker, hold, drain; then release the hold, or after a verified drain write the marker, stop with what is left of the total, reap with what is left, and reap again, within its cap, only after a first reap that failed or had no time |
| `DataPlaneStop.Bootstrap.ReapShims` | cmd/edgelet-server/runtime_bootstrap_shutdown.go:483-515 | a first reap with total minus elapsed and a verifying one, within its cap, only after a failed or skipped first, each only with time left |
| `DataPlaneStop.Bootstrap.RunSignals` | cmd/edgelet-server/runtime_bootstrap.go:66-95 | the loop issues the operations of each stop signal up to the first complete outcome and returns exactly when there is one |
| `DataPlaneStop.EveryRunIsSafe` | cmd/edgelet-server/runtime_bootstrap_shutdown.go:451-516 | over every run of signals containerd is stopped at most once and only right after a verified drain, every reap follows the stop with a budget within what remains and the cap, and the hold is in place at the end exactly when containerd was stopped |
| `DataPlaneStop.BudgetsFollowTheClock` | cmd/edgelet-server/runtime_bootstrap_shutdown.go:483-515 | over every run of signals, each stop and reap belongs to an attempt and has exactly the budget its clock readings leave |
| `DataPlaneStop.MarkerTellsStop` | cmd/edgelet-server/runtime_bootstrap_shutdown.go:451-482 | over every run of signals from no marker, with one-flag drain outcomes and clock readings that do not go back, the marker is in place at the end exactly when containerd was stopped |
| `DataPlaneStop.AbortIsHarmless` | cmd/edgelet-server/runtime_bootstrap_shutdown.go:463-474 | an attempt whose drain did not verify stops and reaps nothing and releases the hold |
| `DataPlaneStop.ReturnsIffStopped` | cmd/edgelet-server/runtime_bootstrap.go:76-92 | with one-flag outcomes the loop returns exactly when containerd was stopped |
| `Canonical.NormalizeAndSort` | internal/edgeguard/fingerprint_types.go:143-217 | normalising in a loop and sorting gives a sorted permutation of the normal forms |
| `Canonical.Dedupe` | internal/edgeguard/fingerprint_types.go:264-318 | the loop with a seen-map keeps exactly the entries whose key no earlier entry has |
| `Canonical.SortedFormIff` | internal/edgeguard/fingerprint_types.go:143-217 | a sorted list has one possible result exactly when no two different entries have the same sort key |
| `Canonical.DedupedFormIff` | internal/edgeguard/fingerprint_types.go:143-318 | a sorted and deduplicated list has one possible result exactly when no two different survivors have the same sort key |
| `Canonical.DedupedFormIsUnique` | internal/edgeguard/fingerprint_types.go:264-318 | lists with the same normalised entries, in any order and repetition, then have the same result |
| `Canonical.OnlyRepeatsDropped` | internal/edgeguard/fingerprint_types.go:264-318 | when the deduplication key tells entries apart, only repeated entries are dropped |
| `Fingerprint.TiedGpusHaveTwoForms` | internal/edgeguard/fingerprint_types.go:162-164 | two different GPUs whose joined fields spell the same sort key may come out in either order |
| `Fingerprint.NormIdempotent` | internal/edgeguard/fingerprint_types.go:120-220 | normalisation of every string, entry kind and scalar block is idempotent |
| `Fingerprint.CanonicalFormIff` | internal/edgeguard/fingerprint_types.go:124-229 | a payload has one canonical form, whatever the sorting algorithm, exactly when no different entries that reach it tie |
| `Fingerprint.AlikeHaveOneForm` | internal/edgeguard/fingerprint_types.go:124-229 | payloads that agree field by field up to order, letter case, outer white space and, where lists are deduplicated, repetition have the same canonical form |
| `Fingerprint.SameFormIffAlike` | internal/edgeguard/fingerprint_types.go:124-229 | for fields without a bar, canonical forms are equal exactly when the payloads agree field by field up to letter case and outer white space, with the same devices in every list, and for GPUs and platform devices as many of each |
| `Fingerprint.NormScalarsIff` | internal/edgeguard/fingerprint_types.go:124-220 | two scalar blocks have one normal form exactly when every text field agrees up to letter case and outer white space and every number and flag is equal |
| `Fingerprint.AlikeIff` | internal/edgeguard/fingerprint_types.go:143-217 | the normal forms of all lists agree exactly when the lists hold the same devices, field by field |
| `Fingerprint.SameHardwareIff` | internal/edgeguard/fingerprint_types.go:231-246 | what the identity of a payload ignores beyond that is the carriers and the PCR values, and nothing else |
| `Fingerprint.FormIsOrdered` | internal/edgeguard/fingerprint_types.go:143-217 | every list of a canonical form is in the order of its joined fields |
| `Fingerprint.PciKeyIff` | internal/edgeguard/fingerprint_types.go:264-318 | bar-free PCI entries have one deduplication key exactly when all six fields are equal |
| `Fingerprint.NicKeyIff` | internal/edgeguard/fingerprint_types.go:264-318 | bar-free NIC entries have one key exactly when name, address and carrier are equal |
| `Fingerprint.UsbKeyIff` | internal/edgeguard/fingerprint_types.go:264-318 | bar-free USB entries have one key exactly when bus path, vendor, product and serial are equal |
| `Fingerprint.MemoryKeyIff` | internal/edgeguard/fingerprint_types.go:264-318 | bar-free memory modules have one key exactly when all three fields are equal |
| `Fingerprint.IdentityIsStable` | internal/edgeguard/fingerprint_types.go:231-246 | the identity form does not change under reordering, case, outer white space, carrier or PCR values |
| `Fingerprint.CanonicalFormIsStable` | internal/edgeguard/fingerprint_types.go:222-229 | canonicalising a canonical form changes nothing |
| `Fingerprint.EditsAreInvisible` | internal/edgeguard/manager.go:158-170 | an identity form of the lists as edited in place by the first pass is an identity form of the original payload |
| `Fingerprint.DeviceLists.Canonicalize` | internal/edgeguard/fingerprint_types.go:222-229 | the result is a version 1 canonical form of the payload, whose shared lists are left normalised and sorted |
| `Fingerprint.DeviceLists.CanonicalizeIdentity` | internal/edgeguard/fingerprint_types.go:231-246 | the result is a canonical form of the payload without carrier and PCR values, and holds none |
| `Fingerprint.DeviceLists.CanonicalizeBoth` | internal/edgeguard/manager.go:158-170 | the full form and then the identity form, computed on the same lists, are both forms of the payload as collected |
| `Attestation.IndexLinks` | internal/edgeguard/link_lock.go:104-110 | the loop computes the index of the links |
| `Attestation.IndexedKeepsLast` | internal/edgeguard/link_lock.go:104-110 | a key is indexed exactly when some link has it, and the last such link is the one kept |
| `Attestation.LinkStateIs` | internal/edgeguard/link_lock.go:116-122 | an empty or blank state reads "unknown"; any other is trimmed and lower-cased |
| `Attestation.LinkKeyIff` | internal/edgeguard/link_lock.go:112-114 | two links are of one NIC exactly when address and name agree up to letter case and outer white space |
| `Attestation.ReadingIs` | internal/edgeguard/link_lock.go:72-100 | a link is up exactly at "1", down exactly at "0", "unknown" or nothing, and otherwise tells nothing |
| `Attestation.LockBrokenIff` | internal/edgeguard/link_lock.go:41-55 | the lock is broken exactly when a NIC locked at "0", "unknown" or nothing has "1" in its last live link |
| `Attestation.LinkLockBroken` | internal/edgeguard/link_lock.go:41-55 | the lock is broken exactly when some NIC locked at 0 or unknown is live at 1 |
| `Attestation.BreaksLock` | internal/edgeguard/link_lock.go:43-53 | one lock entry is broken exactly when it is down or unknown and its NIC is live at 1; a missing NIC breaks nothing |
| `Attestation.EvaluateSignature` | internal/edgeguard/link_lock.go:31-39 | rebaseline exactly without stored links, deprovision exactly on a different hash or a broken lock; a refresh keeps the stored lock |
| `Attestation.ApplyDownwardObservations` | internal/edgeguard/link_lock.go:61-102 | the next observation of every NIC and the set of notices are as specified NIC by NIC |
| `Attestation.ObserveLink` | internal/edgeguard/link_lock.go:72-100 | one lock entry changes notices and observations by its NIC alone, with recovery and absence clearing the record |
| `Attestation.Manager.PersistBaseline` | internal/edgeguard/manager.go:313-324 | a baseline replaces signature and observations together, or changes nothing |
| `Attestation.Manager.CheckHardwareSignature` | internal/edgeguard/manager.go:150-230 | one check takes the specified transition, including every failure |
| `Attestation.VerdictIff` | internal/edgeguard/manager.go:150-230 | when each verdict is given and what it leaves stored: skipped, baselined, deprovisioned, refreshed and failed |
| `Attestation.SignatureComesFrom` | internal/edgeguard/manager.go:150-230 | over every run what is stored is the first signature, nothing, or the hash and links of an earlier check that baselined |
| `Attestation.LockHolds` | internal/edgeguard/manager.go:204-230 | over every run the stored hash and lock stay as baselined until a check contradicts them |
| `Attestation.FirstContradictionDeprovisions` | internal/edgeguard/manager.go:204-230 | the first deprovision is exactly at the first check with a different hash or a NIC locked down and live up |
| `Attestation.ObservationsFollowChecks` | internal/edgeguard/link_lock.go:61-102 | what is remembered about a locked-up NIC is the last loss that the checks themselves show |
| `Attestation.LastLossIff` | internal/edgeguard/link_lock.go:61-102 | the loss on record is the last reading that told anything, when that was a loss |
| `Attestation.NoticeIff` | internal/edgeguard/link_lock.go:61-102 | a loss is reported at a check exactly when a NIC locked up is down and the last loss on record is not this one |
| `Attestation.RepeatedNoticeNeedsChange` | internal/edgeguard/link_lock.go:61-102 | between two equal notices for a NIC some check saw it up, absent or down the other way |
| `HardwareAttestation.DeprovisionedIffHardwareChanged` | internal/edgeguard/manager.go:150-230 | with a hash that tells the two identity forms apart, a check of a baselined node deprovisions it exactly when the lock is broken or the hardware differs field by field in more than order, letter case, outer white space, repetition, carrier and PCR values |
| `HardwareAttestation.DeprovisionedByDifferentHash` | internal/edgeguard/manager.go:150-230 | for every hash function, the node is deprovisioned exactly when the lock is broken, or the hardware so differs and the hashes of the forms differ |
| `HardwareAttestation.SameHardwareKeepsNode` | internal/edgeguard/manager.go:150-230 | seeing the same hardware again never deprovisions by hash |
| `HardwareAttestation.LinkLockFromPayload` | internal/edgeguard/link_lock.go:18-29 | link by link the name, address and normalised state of the canonical NIC list, in order |
| `HardwareAttestation.ReadingIsDeterminedIff` | internal/edgeguard/link_lock.go:18-29 | what a check reads for a NIC is the same for every canonical form of the payload exactly when all entries for that NIC agree |
| `HardwareAttestation.LockVerdictIsDetermined` | internal/edgeguard/link_lock.go:41-55 | the verdict on the lock is the same for every canonical form when the entries of every locked NIC agree |
| `HardwareAttestation.TieFreeAgrees` | internal/edgeguard/link_lock.go:18-29 | in a payload without ties the entries of every NIC agree |
| `HardwareAttestation.TwoCarriersDisagree` | internal/edgeguard/link_lock.go:104-110 | one NIC reported with and without carrier reads either way |
| `EnvDigest.CollectPairs` | internal/containerapply/spec.go:154-166 | the loop splits every nonempty entry at its first equals sign |
| `EnvDigest.PairsAre` | internal/containerapply/spec.go:154-166 | a pair is given exactly when some nonempty entry is its KEY=VALUE with no equals sign in the key, or a bare key, and there are as many pairs as nonempty entries |
| `EnvDigest.HashEnvInput` | internal/containerapply/spec.go:154-181 | the bytes fed to the hash encode the pairs in some sorted order |
| `EnvDigest.DigestIsOrdered` | internal/containerapply/spec.go:167-179 | for environments without NUL the bytes read back as the pairs, keys ascending and, for equal keys, values ascending |
| `EnvDigest.DecodeEncode` | internal/containerapply/spec.go:174-179 | the encoding of pairs without NUL and with keys without an equals sign can be decoded |
| `EnvDigest.SamePairsSameBytes` | internal/containerapply/spec.go:167-179 | environments with the same pairs feed the same bytes, with or without NUL |
| `EnvDigest.ReorderedSameBytes` | internal/containerapply/spec.go:153-181 | reordering an environment never changes the bytes |
| `EnvDigest.DigestInputIff` | internal/containerapply/spec.go:154-181 | for environments without NUL the bytes are equal exactly when the multisets of pairs are |
| `EnvDigest.NulBreaksInjectivity` | internal/containerapply/spec.go:174-179 | two entries and a single entry with a NUL byte that feed the same bytes |
| `EnvDigest.IdentifiedIff` | internal/containerapply/spec.go:154-181 | with NUL bytes allowed, no other pairs feed the bytes of an environment exactly when it has no pairs, or a single one whose value cannot be cut at a NUL into two entries in order |
| `ShellQuote.ShellQuote` | internal/containerexec/shell.go:43-58 | the loop computes the quoted text, also for the empty string |
| `ShellQuote.QuoteReadsBack` | internal/containerexec/shell.go:43-58 | wherever it stands outside quotes, quoted text adds exactly its own bytes to the current word |
| `ShellQuote.QuoteIsOneWord` | internal/containerexec/shell.go:43-58 | quoted text reads back as one word equal to the original, for every string without NUL |
| `ShellQuote.ShellCommandForScript` | internal/containerexec/shell.go:33-40 | the arguments are /bin/sh, -lc and the wrapper, which on every system runs exactly the script when and only when it has no NUL byte |
| `ShellQuote.WrapperReads` | internal/containerexec/shell.go:34-38 | the wrapper reads as the three-way conditional with the script as one word in each branch |
| `ShellQuote.WrapperRunsTheScript` | internal/containerexec/shell.go:33-40 | on every system the wrapper runs the first available shell with exactly the original script |
| `ShellQuote.RunsIn` | internal/containerexec/shell.go:34-38 | that shell is /bin/bash when executable, else /bin/sh when executable, else /busybox/sh |
| `ShellQuote.WrapperRunsIff` | internal/containerexec/shell.go:33-58 | the wrapper runs the script on every system exactly when the script has no NUL byte, and is rejected otherwise |

## Left out

- Float rounding in the token bucket: tokens are exact thousandths.
- Wrap-around of unsigned counters and revisions, which are unbounded here.
- Letter case beyond ASCII: lower-casing maps A to Z only, and strings stand for byte strings.
- `hostAdvertiseIP` and the parsing of addresses: parameters; the host address is taken to be trimmed, as the printed and trimmed addresses the code uses are.
- Changing compatibility mode while the resolver runs: it is fixed when the resolver is made.
- More than one persister at a time, and a process killed between writing the snapshot and renaming it.
- DNS messages, listeners, binding, caching headers, statistics and log sampling.
- JSON, JWT, SHA-256, TLS, the store and all sockets: identity codecs, parameters or arbitrary results.
- Reading the reconcile provider: a pass is modelled from a snapshot that was read; a failed read changes nothing.
- Exec session I/O: closing callbacks and sockets is left out. A process is known by its session, as with the engine handle derived from it; engines that assign handles, and sessions whose derived handles coincide, are not modelled.
- Order of direct writes against a flush worker that is running, and a reset that races a send inside one operation: operations and single pops are atomic.
- Quiesce, shim reaping and marker files of the data plane: arbitrary results, with their order and budgets kept.
- Deriving GPU entries from PCI entries, and the platform collectors.
- Backing arrays of the fingerprint's slices: the shared lists are the fields of one object.
- `SourceRateLimiter.Allow` under a clock that goes back: only the token range is proved there, as the other properties are about elapsed time.
- Attestation.NoticeIff: the number of notices for repeated lock entries of one NIC is not stated, only which notices occur.
- Interactive shell commands, log sessions, local exec sessions, the controller client, parsers and configuration.
