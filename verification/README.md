# SnackPortal control and data plane: a verified model

This project models the parts of the multi-tenant platform whose correctness spans several calls, and
proves what they promise:

- **Import and lineage.** An import writes tenant copies, lineage rows and a checkpoint per batch in one
  transaction and resumes after a failure or a kill. The lineage is a keyed hash chain that a verifier
  re-reads page by page. Proved: crash/resume refinement to one uninterrupted run, soundness of every chain
  concurrent transactions can produce, binding of a chain to its last marker, detection of every deletion
  that is not a tail, and snapshot semantics of cursor walks.
- **Tenant lifecycle and readiness gate.** Registry operations, gate runs, re-association and recovery are
  processes of single port calls over one versioned store, one audit trail and one evidence ledger; any
  number of them interleave and any of them may die at any call. Proved: the lifecycle's edges, permanence
  of a hold, the audit chain, and physical distinctness of Ready tenants. The services are also written
  imperatively, with other callers acting between any two of their calls, and shown to be runs of that
  machine.
- **Compensation.** The only caller of the operator's drop, reading through ports that may raise at any
  call while registry, ledger and databases change. Proved: every drop is justified by proofs made right
  before it, the shape of the audit trail under every failure, and agreement with the orphan report.
- **Connections and routing.** Bounded pools, the view cache, and the router over them with its bounded
  audit policy. Proved: every connection ever opened is accounted for, bounded staleness, and that a routed
  connection is the signed tenant's, newly held and audited.
- **Names and order.** Tenant ids never alias in database names or secret keys; shortlex order of decimal
  identities is numeric order.

## How it is modelled

The HMAC (section 2 of RFC 2104) is a function value `mac` from content to marker, one per tenant and fixed;
nothing is assumed of it except, where binding needs it, that its results are not empty. Binding is stated
as "the chains agree, or here are two contents with one marker". Bytes are the characters they encode.

Clocks, generated identifiers, liveness answers, port replies and failures are inputs. A failure pattern is
a value too: a `Plan` for an import run, an `Answer` and a `Crash` for a lifecycle process, a sequence of
moments and failures for a compensation, a `World` for a routed request. A theorem quantified over them
holds for every pattern.

Objects that the services update in place are classes (`Session`, `ImportService`, `LineageVerifier`,
`InMemoryTenantTable`, `ConnectionPoolManager`, `RoutingViewCache`, `RoutingResolver`,
`BoundedRoutingAuditPolicy`, `DatabaseRouter`, `InMemoryControlStore`, `InMemoryDistinctnessLedger`,
`Services`, `RecoveryCompensationService`, `TerminalLatch`). Their methods are proved against functions on
values, and the lemmas are about those functions. Which answer an operation gives, and what it leaves, is stated
once more in plain fields and counts (`Recovery.EvidenceIff`, `Distinctness.VerdictIff`, `PoolPlaces`,
`ImportCounts`, and the effects `did` of each service call), so that no such statement rests on the function it
is about.

Where the code does not keep what its own text or a natural reading promises, the model keeps the code, shows
a concrete input, and says exactly when the promise holds:

- `RacedRegistrationResurrects`, `HoldLiftedIff`: `register_tenant` writes without a version check, so two
  registrations that both found the tenant missing can take it from Decommissioned back to Registered. A step
  takes a tenant off hold exactly when it is such a write. The theorems on records, holds and the ledger over
  arbitrary interleavings therefore ask that each registration still finds its tenant missing when it writes.
- `DiedRegistrationUnchains`, `AnnouncementChainsIff`, `TrailChainsIff`: `register_tenant` appends its audit record
  and then writes, each in a commit of its own, so a registration that dies between the two and is repeated leaves
  a trail that does not chain, though the tenant was missing both times. A registration's record continues the
  chain exactly when the trail tells no transition of its tenant yet, and the trail of a run chains exactly when
  that held of every registration's record. Then everything the trail promises follows, the missing tenant
  included (`EveryTrailIsTold`); operations of one tenant that do not overlap, and registrations that do not die
  between the two calls, are enough (`SerialTrailIsTold`).
- `ConcurrentGatesLoseEvidence`, `EvidenceKeptIff`: `_fail` drops the ledger row before its version-checked
  write, so two gate runs of one tenant can leave it Ready without evidence. The exact condition is one of
  single steps and their states. The condition a caller can keep, that operations on one tenant do not
  overlap while those on different tenants may, is sufficient for every run (`SerialRunKeeps`) and is not
  claimed to be necessary.
- `SerialGatesShareSecret`, `ApartKeptIff`, `ApartIff`, `VerifiedIffKeepsApart`: the ledger's write arbitrates
  fingerprints only, so a run of two gates that both read their inventories before either records makes two
  tenants Ready on one store location under two versions. Recording keeps all tenants apart exactly when the
  evidence clashes with no other on the ledger as it stands at the write, which a verdict on that ledger would
  have said.
- `SlowAnswerOutlivesTtl`, `YoungIffStoredAtOnce`: a cached view's age counts from when it was stored, so the
  bound on the age of an answer is the time to live plus the time the answer took; it is the time to live
  exactly when storing met the answer's moment.
- `RacedStoreServesInvalidated`, `FreshIffUnraced`: a view stored after an invalidation that came between its
  answer and its storing is served all the same; a step keeps everything fresh exactly when it is not such a
  store.
- `NoEmptyPoolsIff`: acquisitions leave no empty pool behind exactly when the bound is at least one; with none,
  the exhausted acquisition leaves the pool it reserved.
- `LateRunRepeatsIff`, `LateRunUndoes`, `LateBeginKeepsIff`: `_begin_job` reads the operation key without locking it,
  so of two overlapping requests the one that saw no key imports everything a second time under a job of its own,
  and when it dies part-way leaves an earlier record's columns under an import already reported applied. Over an
  applied import a run that nothing stops leaves the lineage alone exactly when it saw the key, or there is nothing
  to import.
- `SeparatorsAlias`, `DeterminedIff`: a content fixes its record exactly when neither the record nor the previous
  marker holds a separator.
- `ColonsUnbind`, `RecordRefBound`: a reference is bound to its tenant and family exactly when no colon stands in
  them, nor in the identity but at its very end.
- `UnguardedIdsAlias`, `EnvKeyIff`: under decimal versions ids share a secret key exactly when they flatten to one
  text, which admitted ids do only when equal.
- `UndecimalVersionsAlias`, `VersionsMeetIff`: versions let keys of admitted tenants meet exactly when one of them
  is flattened text followed by the key suffix of the other, which decimal ones never are.

`UncountableIsEvidenceIff` makes the census exact where its text is brief: an uncountable table is evidence, except
the sentinel table, whose row count is unrestricted.

## Model

| member | source | states |
|---|---|---|
| Canonical.JoinInjective | backend/lineage_service/canonical.py:50-58 | joining separator-free parts loses nothing: equal texts come from equal parts |
| Canonical.ContentDetermines | backend/lineage_service/canonical.py:50-58 | on separator-free fields the canonical content fixes every v1 field (absent and empty identified) and the previous marker |
| Canonical.FreeContentDetermines | backend/lineage_service/canonical.py:50-58 | a separator-free record and marker share their content with no other record, forged ones full of separators included |
| Canonical.DeterminedIff | backend/lineage_service/canonical.py:50-58 | the content fixes record and previous marker exactly when none of them holds a separator |
| Canonical.SeparatorsAlias | backend/lineage_service/canonical.py:50-58 | two different records with one content, by a separator in a column |
| LineageTable.AscendingPage | backend/database_router/session_provider.py:121-143 | an ascending page after a cursor is exactly the next rows of the ordered scan |
| LineageTable.DescendingPage | backend/database_router/session_provider.py:121-143 | a descending page below a cursor is exactly the newest rows of the ordered scan below it, newest first |
| Verification.LineageVerifier.ScanAscending | backend/lineage_service/verification.py:96-109 | keyset paging with a strictly growing cursor returns the ordered table, cut to `max_records`, for every page size |
| Verification.LineageVerifier.Verify | backend/lineage_service/verification.py:43-94 | the report counts and spans the rows looked at, lists exactly their findings, reports a marker mismatch, a broken link or a gap of a number exactly when that condition fails at a row of it, and is ok exactly when there are none |
| Verification.NoFindingsIffValid | backend/lineage_service/verification.py:58-82 | no finding is reported exactly when every row is authentic, linked and numbered without a gap |
| Verification.PrefixValid | backend/lineage_service/verification.py:96-109 | every prefix of a valid chain is valid, so a cut scan reports no false finding |
| Verification.ChainBinding | backend/lineage_service/verification.py:58-82 | two valid chains ending in one marker have equal length and agree on all v1 fields row by row, or two contents with one marker are exhibited; one separator-free table is enough, since digests hold no separators, so the other may be forged with them |
| Verification.MarkerIdentifiesHistory | backend/lineage_service/verification.py:58-82 | without such a collision, two valid chains agree on everything exactly when they end in one marker |
| Verification.DeletionDetected | backend/lineage_service/verification.py:58-82 | deleting any set of rows from a valid chain leaves a valid one exactly when what remains is a prefix |
| Emit.EmitChains | backend/lineage_service/emit.py:46-82 | an emit appends one row with the next number, linked to the head, and the chain stays valid |
| Emit.EmittedSays | backend/lineage_service/emit.py:53-79 | the emitted row says what was asked, under the next number, in the segment of the head or the first |
| Emit.CommitOther | backend/database_router/session_provider.py:85-90 | once a transaction with rows commits, every other open one with rows holds a committed number, which UNIQUE(seq) refuses; one without still continues the chain |
| Emit.StepSound | backend/lineage_service/emit.py:46-82 | begin, emit, commit and rollback of concurrent transactions keep the committed chain valid, with or without the advisory lock |
| Emit.CommittedRowsStay | backend/database_router/session_provider.py:85-90 | no transaction step changes or removes a committed row |
| Emit.CommitLands | backend/database_router/session_provider.py:85-90 | what a transaction appended is committed with it unless another took one of its numbers first; then, and on rollback, nothing is |
| Emit.EveryHistoryVerifies | backend/lineage_service/verification.py:43-109 | whatever transactions emit, commit, roll back or collide, the committed table verifies ok, in full and cut to any prefix, and every row is looked at |
| Query.EmitsGrow | backend/lineage_service/emit.py:53-56 | one transaction step only adds rows, above every row already there |
| Query.RunGrows | backend/lineage_service/emit.py:53-56 | any run of emits, commits and rollbacks keeps every row an earlier point of it had committed and adds only above them |
| Query.WalkIsSnapshot | backend/lineage_service/query.py:53-62 | over a table that grows at its head a cursor walk returns exactly the rows that matched at its first page, once each, newest first, and ends, for every limit and filter |
| Query.WalkBesideEmits | backend/lineage_service/query.py:53-62 | so does a walk whose pages read any later points of any run of concurrent emits |
| Query.PageWithinLimits | backend/lineage_service/query.py:53-62 | no page exceeds the caller's limit or the service's where these are at least one, and a cursor follows exactly a full page |
| Segmentation.Count | backend/lineage_service/segmentation.py:76-88 | the paged count is the number of the segment's rows |
| Segmentation.Summary | backend/lineage_service/segmentation.py:61-74 | the summary holds the segment's first and last number and row count, or nothing for an empty segment |
| Segmentation.SummarySpans | backend/lineage_service/segmentation.py:61-74 | both ends are rows of the segment, none of its rows lies outside them, and the markers are those before the first and of the last |
| Segmentation.EmitKeepsLabels | backend/lineage_service/emit.py:57 | an emit on a chained, labelled table keeps it labelled |
| Segmentation.CountIsSpan | backend/lineage_service/segmentation.py:61-88 | in a valid chain labelled in consecutive segments the count is last number minus first plus one |
| Segmentation.NeighboursAreContinuous | backend/lineage_service/segmentation.py:55-59 | summaries of neighbouring segments of such a chain pass the continuity check |
| TenantSession.UpsertIdempotent | backend/database_router/session_provider.py:70-83 | a repeated upsert is a no-op, the row holds what was written, other rows are untouched |
| TenantSession.UpsertLeaves | backend/database_router/session_provider.py:70-83 | the given columns are written, the row's others stay, and a new row has those alone |
| TenantSession.Session.UpsertCopy | backend/database_router/session_provider.py:70-83 | the working copy gains the columns, the committed snapshot does not, and the result tells whether anything changed |
| TenantSession.Session.EmitLineage | backend/lineage_service/emit.py:46-82 | the working table gains the next linked row of the chain as the transaction sees it |
| TenantSession.Session.Commit | backend/database_router/session_provider.py:58-68 | the working snapshot becomes the committed one |
| TenantSession.Session.Rollback | backend/database_router/session_provider.py:58-68 | the committed snapshot is what it was |
| Import.ImportService.ApplyOneRecord | backend/import_service/service.py:202-243 | the tenant copy and its lineage row are written in one open transaction and agree on the operation |
| Import.ImportService.ApplyOneBatch | backend/import_service/service.py:202-243 | the records are applied in order and a checkpoint with their count appended, or the call raises part-way; nothing is committed |
| Import.ImportService.CommitBatch | backend/import_service/service.py:166-200 | a batch is committed whole or not at all; a failed one only marks the operation failed |
| Import.ImportService.ApplyBatches | backend/import_service/service.py:166-200 | batches before the resume point are skipped, the others applied in order and counted, until one ends the run |
| Import.ImportService.StartImport | backend/import_service/service.py:51-75 | a whole run: begin or replay, resume point, batches, finalisation, with every transaction failing or dying where the plan says |
| ImportRefinement.RecordsStep | backend/import_service/service.py:202-243 | a batch adds exactly its records' columns to the table and one matching trace each to the job's lineage |
| ImportRefinement.BatchesKeepProgress | backend/import_service/service.py:166-243 | c committed checkpoints mean exactly the first min(c * b, n) records in table, lineage and checkpoints, wherever a run stops |
| ImportRefinement.RunKeepsInv | backend/import_service/service.py:51-75 | every run keeps that, and "applied" is reported only when every record is in |
| ImportRefinement.HistoryKeepsInv | backend/import_service/service.py:99-165 | so does every history of runs under one operation key with unrelated work between them |
| ImportRefinement.CheckpointsTellTheTruth | backend/import_service/service.py:160-164 | at every point of every history the number of checkpoints says which records are in table and lineage |
| ImportRefinement.UninterruptedRunApplies | backend/import_service/service.py:51-75 | a run nothing stops ends applied and counts every record once |
| ImportRefinement.HistoryRefinesOneRun | backend/import_service/service.py:99-243 | once any history of failed, killed and resumed runs ends applied, table, checkpoints and the job's ordered lineage equal those of one uninterrupted run |
| ImportRefinement.ReplayIsInert | backend/import_service/service.py:99-145 | a request repeated after success changes nothing and returns the stored counts |
| ImportCounts.RecordLands | backend/import_service/service.py:202-216 | one record overwrites its own fields and natural key of one row, and nothing else |
| ImportCounts.RecordTraced | backend/import_service/service.py:217-231 | its lineage row names job, source, target, actor and whether anything changed |
| ImportCounts.RaisedBatchMarks | backend/import_service/service.py:180-196 | a batch that raises leaves nothing but the failure mark, counts as stored |
| ImportCounts.BeginLeaves | backend/import_service/service.py:125-145 | a first run that dies right after its begin leaves its job and key, in progress, and nothing else |
| ImportCounts.BatchesGrow | backend/import_service/service.py:166-200 | the counters move with the checkpoints and lineage rows written, and a run that ends failed reports them |
| ImportCounts.RunReports | backend/import_service/service.py:51-75 | any run that reports returns the sum of the counts of the checkpoints it wrote as applied and its other records as no-ops; an applied one stores the same row |
| ImportCounts.FirstRunCounts | backend/import_service/service.py:51-75 | a first run that nothing stops returns and stores as applied exactly the records that changed something, and the rest as no-ops |
| ImportCounts.ReplayCounts | backend/import_service/service.py:99-129 | a replay returns the stored row field by field |
| ImportRefinement.RunKeepsChain | backend/import_service/service.py:202-243 | wherever a run is cut short, the tenant's lineage chain verifies in full |
| ImportOverlap.OnTimeRun | backend/import_service/service.py:99-145 | a run whose key nobody wrote between its read and its commit is a run on the store it commits on |
| ImportOverlap.LateBeginKeepsIff | backend/import_service/service.py:99-145 | a late begin keeps what the operation's checkpoints say exactly when it saw the key, or nothing has been imported under it |
| ImportOverlap.LateRunRepeatsIff | backend/import_service/service.py:99-145 | over an applied import, a run that nothing stops leaves the lineage as it is exactly when it saw the key or there are no records; otherwise it traces every record once more under its own job |
| ImportOverlap.LateRunUndoes | backend/import_service/service.py:202-243 | a run that saw no key and dies after its first batch puts an earlier record's column back under an import reported applied |
| Naming.AdmittedIff | backend/control_plane/registry.py:35-44 | an id is admitted exactly when it is one or more of the allowed letters and not the one reserved identifier |
| Naming.DatabaseNamesDistinct | backend/control_plane/provisioning.py:67-72 | distinct tenant ids have distinct database names |
| Naming.DsnRefInverse | backend/control_plane/onboarding.py:54-68 | parsing a reference yields an id exactly when the reference is that id's canonical one and the id is non-empty and slash-free |
| Naming.EnvKeyIff | backend/control_plane/adapters/providers/env_tenant_dsn_secret_store.py:48-53 | under decimal versions any two ids share a flattened secret key exactly when the versions are equal and the ids flatten to one text |
| Naming.EnvKeysDistinct | backend/control_plane/adapters/providers/env_tenant_dsn_secret_store.py:48-53 | admitted ids and decimal versions share a flattened secret key only when both are equal |
| Naming.CurrentKeyDistinct | backend/control_plane/adapters/providers/env_tenant_dsn_secret_store.py:70-73 | the current-version key of no tenant is the key of any non-empty decimal version, of any tenant |
| Naming.UnguardedIdsAlias | backend/control_plane/registry.py:35-44 | ids that admission refuses (upper case, a trailing newline) would alias admitted ones |
| Naming.VersionsMeetIff | backend/control_plane/adapters/providers/env_tenant_dsn_secret_store.py:48-53 | two versions of any kind let keys of admitted tenants meet exactly when one of them is upper-case letters, digits and underscores followed by the other's key suffix |
| Naming.UndecimalVersionsAlias | backend/control_plane/adapters/providers/env_tenant_dsn_secret_store.py:48-53 | two admitted ids share a key under such versions |
| Decimal.RoundTrip | backend/snackportal2/shared/tenant_data.py:167-171 | reading back the decimal text of a number gives the number, in digits without leading zeros |
| Decimal.ShortlexIsNumeric | backend/snackportal2/shared/tenant_data.py:184-187 | ordering decimal texts by length and then text is numeric order |
| TenantData.SortKeepsInsertionOrder | backend/snackportal2/shared/tenant_data.py:184-187 | sorting a tenant's identities leaves them in insertion order |
| TenantData.InMemoryTenantTable.Insert | backend/snackportal2/shared/tenant_data.py:167-171 | the row is appended under the next identity; no other tenant's rows change |
| TenantData.InMemoryTenantTable.Get | backend/snackportal2/shared/tenant_data.py:173-175 | the k-th inserted row is found under the k-th identity and nothing else is found |
| TenantData.InMemoryTenantTable.Update | backend/snackportal2/shared/tenant_data.py:177-182 | exactly the named row gains the fields; an unknown identity changes nothing |
| TenantData.InMemoryTenantTable.List | backend/snackportal2/shared/tenant_data.py:184-187 | the first `limit` rows in insertion order, with their identities; nothing changes |
| TenantData.RecordRefBound | backend/snackportal2/shared/tenant_data.py:194-205 | a record reference opens to its identity for its own tenant and family, and for no other exactly when tenant and family hold no colon, nor the identity but at its very end |
| TenantData.RowRefBound | backend/snackportal2/shared/tenant_data.py:194-205 | for the decimal identities rows have, exactly when tenant and family hold no colon |
| TenantData.ColonFreeRefBound | backend/snackportal2/shared/tenant_data.py:194-205 | among colon-free tenants and families a reference opens for its own only, whatever its identity |
| TenantData.ColonsUnbind | backend/snackportal2/shared/tenant_data.py:194-205 | with a colon in the tenant a reference opens for another tenant |
| Pool.EvictInv | backend/database_router/pool.py:132-144 | eviction closes exactly the expired, touches nobody's connection and leaves no empty pool |
| Pool.AcquireInv | backend/database_router/pool.py:58-92 | every acquisition, failed or not, keeps every connection in exactly one place within the bound |
| Pool.AcquirePromise | backend/database_router/pool.py:58-92 | a connection handed out is live or just opened, of the tenant and version asked for, held by nobody before; the in-use sets change by it alone, and not at all on failure |
| Pool.ReleaseInv | backend/database_router/pool.py:94-112 | release keeps the accounting whatever rollback, reset and liveness answer, drained pools included |
| Pool.DiscardInv | backend/database_router/pool.py:114-119 | discard keeps the accounting and takes exactly that connection out of use |
| Pool.InvalidateInv | backend/database_router/pool.py:121-129 | draining closes idle connections, leaves used ones with their holders and keeps the accounting |
| Pool.NoEmptyPoolsIff | backend/database_router/pool.py:67-90 | an acquisition, failed or not, leaves no empty pool exactly when the bound is at least one |
| Pool.EveryConnectionAccounted | backend/database_router/pool.py:58-144 | over every history every connection ever opened is closed, idle or in use under its own key, or lent from a drained pool, exactly one of these, and no pool exceeds its bound |
| PoolPlaces.EvictionIff | backend/database_router/pool.py:132-144 | an idle connection is closed exactly when more than the timeout has passed since its return, and stays idle otherwise |
| PoolPlaces.ReleaseIff | backend/database_router/pool.py:94-112 | a returned connection is closed unless it was in use, its reset succeeded, it is alive and its return is not expired; then it is idle from its return on |
| PoolPlaces.DrainingIff | backend/database_router/pool.py:121-129 | exactly the tenant's pools of other versions are dropped, idle closed and used left to their holders; every other pool stands |
| PoolPlaces.AnswerIff | backend/database_router/pool.py:58-92 | the newest unexpired live connection of the key; with none, exhausted exactly at the bound, and otherwise what opening says |
| PoolPlaces.UnresetNeverReused | backend/database_router/pool.py:94-112 | over any history a connection returned without a successful reset is never handed out again |
| ConnectionPool.ConnectionPoolManager.EvictIdle | backend/database_router/pool.py:132-144 | the loops over pools and idle lists compute the eviction |
| ConnectionPool.ConnectionPoolManager.KeepFresh | backend/database_router/pool.py:136-142 | one idle list: the expired are closed, the rest kept in order |
| ConnectionPool.ConnectionPoolManager.Acquire | backend/database_router/pool.py:58-92 | the in-place acquisition with its popping loop and failure clean-up computes the specified one |
| ConnectionPool.ConnectionPoolManager.Release | backend/database_router/pool.py:94-112 | likewise for release |
| ConnectionPool.ConnectionPoolManager.Discard | backend/database_router/pool.py:114-119 | likewise for discard |
| ConnectionPool.ConnectionPoolManager.InvalidateVersion | backend/database_router/pool.py:121-129 | likewise for draining |
| RoutingCache.InsertKeeps | backend/database_router/cache.py:43-46 | an insertion keeps one entry a tenant within the bound, adds only its own, and fails exactly when the bound leaves no room |
| RoutingCache.InsertLeaves | backend/database_router/cache.py:43-46 | an insertion leaves every other tenant's entry but the oldest, and that one exactly when a full cache takes in a new tenant |
| RoutingCache.LookupIff | backend/database_router/cache.py:33-41 | an entry is served exactly until it expires, and dropped alone after |
| RoutingCache.DenialIff | backend/database_router/disclosure.py:20-45 | each denial exactly under its own condition on lifecycle and ready flag |
| RoutingCache.MissIff | backend/database_router/resolver.py:31-50 | without an entry to serve: unavailable, not found, or the answer judged by lifecycle, flag and schema |
| RoutingCache.RemoveKeeps | backend/database_router/cache.py:48-49 | an invalidation removes exactly that tenant's entry |
| RoutingCache.RoutingViewCache.Get | backend/database_router/cache.py:33-41 | an unexpired entry is served, an expired one is dropped |
| RoutingCache.RoutingViewCache.Put | backend/database_router/cache.py:43-46 | the oldest entry makes room for a new key only when the cache is full |
| RoutingCache.RoutingViewCache.Invalidate | backend/database_router/cache.py:48-49 | that tenant's entry is gone, all others stand |
| RoutingCache.RoutingResolver.Resolve | backend/database_router/resolver.py:31-50 | cache, port, disclosure mapping and schema gate; a routable view is Ready, flagged ready and of a supported schema |
| Staleness.StalenessIsBounded | backend/database_router/cache.py:33-46 | over every interleaving with a monotone clock every served view was answered for that tenant, stored at most the time to live ago and may be routed to, and the cache keeps its bound |
| Staleness.YoungIffStoredAtOnce | backend/database_router/cache.py:33-46 | a cached view is served only within the time to live of its answer exactly when it was stored at the moment of the answer |
| Staleness.SlowAnswerOutlivesTtl | backend/database_router/resolver.py:33-42 | a slow answer is served when older than the time to live |
| Staleness.FreshIffUnraced | backend/database_router/resolver.py:31-54 | a step keeps everything cached and served newer than its last invalidation exactly when it does not store across one |
| Staleness.NothingInvalidatedIsServed | backend/database_router/resolver.py:52-54 | without such a store nothing invalidated is ever served |
| Staleness.RacedStoreServesInvalidated | backend/database_router/resolver.py:31-54 | with one an invalidated view is served |
| Router.BoundedRoutingAuditPolicy.Initiate | backend/database_router/main.py:183-195 | the same event is offered at most twice, a second time only after an unavailable transport; a lost route raises, a lost denial or anomaly is counted and swallowed |
| Router.BoundedRoutingAuditPolicy.Terminal | backend/database_router/main.py:174-181 | a finally lost event is counted under its own counter, or raises if it is a route |
| Router.DatabaseRouter.Deny | backend/database_router/router.py:222-231 | a denial is audited once and returned unchanged, whatever the sink does |
| Router.DatabaseRouter.RouteWithoutTenant | backend/database_router/router.py:62-80 | control routes, phase-0 and tenantless denials: one event, no connection |
| Router.DatabaseRouter.Acquire | backend/database_router/router.py:147-161 | a connection of the resolved tenant and version newly held, or a non-leaking denial and nothing held |
| Router.DatabaseRouter.Bind | backend/database_router/router.py:90-120 | the connection goes back to the caller only if it is the signed tenant's and its event was accepted; otherwise it is closed and nothing newly held |
| Router.DatabaseRouter.Route | backend/database_router/router.py:61-120 | one event is minted and offered at most twice; a connection comes back exactly when the request carries a tenant outside the bootstrap phase, that tenant resolves to itself, its pool yields a connection and the sink takes the event within two attempts, newly held and bound; otherwise the request raises with its own non-leaking code and the lane's in-use sets are as before; an unaudited error escapes exactly when an answer meets a cache without room; with a bulk pool a bulk request changes that pool alone, any other the interactive one alone |
| Router.DatabaseRouter.UnreachedIff | backend/database_router/router.py:147-161 | a tenant that cannot be reached is refused with the opening's own denial or one code that tells nothing |
| Router.DatabaseRouter.RouteTenant | backend/database_router/router.py:82-120 | resolution, acquisition and binding of one tenant request: the refusal of each with its own code, its one event, and nothing held unless the connection is returned |
| Router.DatabaseRouter.Release | backend/database_router/router.py:122-129 | the result's connection leaves the in-use set of its own lane: the bulk pool's for a bulk result when there is one, the interactive pool's otherwise, and the other pool stands |
| Router.ReleaseHolders | backend/database_router/pool.py:94-112 | a release takes exactly the released connection out of use |
| Distinctness.Verify | backend/control_plane/distinctness.py:119-174 | incomplete exactly when a listed field is missing, an anomaly exactly when a complete candidate is off its target, meets the Control DB on one of five legs or another tenant on one of four, verified otherwise, whatever order the inventory is listed in |
| Distinctness.VerdictIff | backend/control_plane/distinctness.py:119-174 | so decides the verdict the gate acts on, and each reason is given exactly for its own condition |
| Distinctness.ApartIff | backend/control_plane/distinctness.py:160-174 | recording complete evidence keeps all tenants apart on every leg exactly when it clashes with no other on the ledger it is recorded in |
| Distinctness.VerifiedIffKeepsApart | backend/control_plane/distinctness.py:160-174 | a complete candidate on target and off the Control DB is verified exactly when recording it would keep all tenants apart |
| Distinctness.CurrentVerdictKeepsApart | backend/control_plane/distinctness.py:160-174 | a tenant verified against the ledger as it stands meets no other on any leg, and its evidence is never refused |
| Distinctness.StaleVerdictMayShareSecret | backend/control_plane/distinctness.py:239-246 | concrete evidence of two tenants that two empty inventories verify and the ledger records, with one secret reference |
| Distinctness.InMemoryDistinctnessLedger.RecordEvidence | backend/control_plane/distinctness.py:239-246 | the write is refused exactly when another tenant holds the fingerprint; fingerprints stay unique |
| Distinctness.InMemoryDistinctnessLedger.EvidenceExcluding | backend/control_plane/distinctness.py:248-249 | all evidence but the tenant's own |
| Distinctness.InMemoryDistinctnessLedger.Remove | backend/control_plane/distinctness.py:251-252 | exactly that tenant's row goes |
| Lifecycle.ApplyInv | backend/control_plane/ports.py:46-61 | a lawful effect keeps records, holds and ledger, and moves one version by one along an edge |
| Lifecycle.ProcStable | backend/control_plane/ports.py:46-61 | what a process read stays a snapshot under everybody's writes: an unmoved version means an unmoved record |
| Lifecycle.AdvanceLawful | backend/control_plane/provisioning.py:156-288 | each next port call of each operation is lawful, and only the gate's last write, from Verifying, opens a tenant |
| Lifecycle.StepInv | backend/control_plane/registry.py:192-234 | every step of any interleaving, crashes at any call included, keeps the invariant and follows the lifecycle's edges |
| LifecycleSafety.EveryRunIsLawful | backend/control_plane/registry.py:192-234 | in every interleaving, processes dying at any call, in which registrations still find their tenant missing when they write: records stand under their own ids, anomalies are on hold, evidence is sound, fingerprints unique, and every process works on a snapshot |
| LifecycleSafety.HoldIsForEver | backend/control_plane/registry.py:142-161 | Quarantined leaves only to Decommissioned, and a decommissioned record is never written again |
| LifecycleSafety.AnomalyIsForEver | backend/control_plane/provisioning.py:388-418 | a tenant with an isolation anomaly on its trail is Quarantined or Decommissioned for ever after |
| LifecycleSafety.ReadyOnlyByTheGate | backend/control_plane/provisioning.py:249-288 | Ready is entered only from Verifying, by the gate's last write |
| LifecycleSafety.HoldLiftedIff | backend/control_plane/registry.py:84-110 | a step of any kind takes a tenant off hold exactly when it is a registration's write of that tenant |
| LifecycleSafety.RacedRegistrationResurrects | backend/control_plane/registry.py:84-110 | a raced registration takes a decommissioned tenant back to Registered |
| LifecycleSafety.SerialRunKeeps | backend/control_plane/provisioning.py:200-288 | when operations of one tenant do not overlap, each works on the current record and every Ready tenant not disabled is on the ledger |
| LifecycleSafety.ReadyTenantsAreDistinct | backend/control_plane/provisioning.py:200-288 | gate runs of different tenants interleaved in any way: every Ready tenant not disabled holds complete evidence of its own database off the Control DB on every leg, and no two recorded tenants share a fingerprint or target |
| LifecycleSafety.ApartKeptIff | backend/control_plane/provisioning.py:249-268 | a step keeps all recorded tenants apart on every leg exactly when it does not record evidence that clashes with the ledger as it now stands on a leg other than the fingerprint |
| LifecycleSafety.SerialGatesShareSecret | backend/control_plane/provisioning.py:237-278 | a run from the start, no operations of one tenant overlapping, that makes two tenants Ready on one store location registered under two versions |
| LifecycleSafety.EvidenceKeptIff | backend/control_plane/provisioning.py:388-418 | from a state with all Ready tenants evidenced, one step keeps that exactly when it neither drops a Ready tenant's row nor opens a tenant whose row is gone |
| LifecycleSafety.ConcurrentGatesLoseEvidence | backend/control_plane/provisioning.py:388-418 | two gate runs of one tenant can leave it Ready without evidence |
| LifecycleTrail.AnnouncementChainsIff | backend/control_plane/registry.py:98-110 | recording a registration continues the audit chain exactly when the trail tells no transition of that tenant yet |
| LifecycleTrail.EveryTrailIsTold | backend/control_plane/registry.py:98-110 | in every interleaving in which no tenant's registration is recorded twice, each tenant's transitions chain and end in its stage, its version counts its writes, and every registration finds its tenant missing when it writes |
| LifecycleTrail.TrailChainsIff | backend/control_plane/registry.py:98-110 | the trail of any run at all chains exactly when no tenant's registration was recorded while the trail already told of it |
| LifecycleTrail.SerialTrailIsTold | backend/control_plane/registry.py:61-110 | operations of one tenant that do not overlap, and registrations that do not die between their record and their write, are enough for that |
| LifecycleTrail.DiedRegistrationUnchains | backend/control_plane/registry.py:98-110 | a run without overlap: a registration dies between its record and its write, is repeated, and the trail of the tenant it registers does not chain |
| ControlPlane.InMemoryControlStore.CompareAndSwapTenant | backend/control_plane/adapters/providers/in_memory_store.py:45-53 | the write happens exactly when the stored version is the one expected, and adds one to it |
| ControlPlane.InMemoryControlStore.PutTenant | backend/control_plane/adapters/providers/in_memory_store.py:42-43 | a blind write of one record, whatever stood there |
| ControlPlane.Services.Commit | backend/control_plane/provisioning.py:347-371 | the version-checked write and its audit record happen together, or neither does when the record has moved |
| ControlPlane.Services.RegisterTenant | backend/control_plane/registry.py:61-110 | admission, idempotent return and blind create, with rivals between the calls, are a run of the lifecycle machine; an existing tenant is returned as found, and a new one announced and then written |
| ControlPlane.Services.Transition | backend/control_plane/registry.py:192-234 | so are the registry's guarded transitions; a result is in the target stage, one reached without a write is the record found there, and a write is from a stage listed for the move, with its own action |
| ControlPlane.Services.MoveTo | backend/control_plane/registry.py:204-234 | a same-target request returns the record found and changes nothing, as a refused one does; any other must come from an allowed stage and win its write |
| ControlPlane.MovesAre | backend/control_plane/registry.py:113-190 | the stages each move may leave, where it leads and what it is called |
| ControlPlane.Services.Enter | backend/control_plane/provisioning.py:156-199 | the gate's entry: only a missing, Decommissioned, Suspended or Quarantined tenant is refused at once, the version-checked start, the yield or single retry; what it gives is what it did to the tenant |
| ControlPlane.Services.Retry | backend/control_plane/provisioning.py:179-199 | a lost entry race yields to a tenant that left, is retried once for one in flight, and fails otherwise |
| ControlPlane.Services.Examine | backend/control_plane/provisioning.py:202-240 | unreachable, schema mismatch, shared secret reference and then the evidence, each with its own verdict |
| ControlPlane.Services.Decide | backend/control_plane/provisioning.py:241-288 | the verifier's verdict on the ledger as it stands: missing fields are incomplete, a foreign target or the Control DB an anomaly; the run closes accordingly |
| ControlPlane.Services.Emit | backend/control_plane/provisioning.py:373-382 | events are appended one by one, among rivals, and never overwrite the trail |
| ControlPlane.Services.Fail | backend/control_plane/provisioning.py:388-418 | ledger row first, then the record, then the anomaly markers, effect by effect; an anomaly leaves Quarantined and its event, any other refusal Failed and no such event, a lost write neither |
| ControlPlane.Services.RecordAndOpen | backend/control_plane/provisioning.py:249-278 | recording arbitrates between tenants; the loser is held as a collision, and the winner of the last write is opened and gets the verified outcome |
| ControlPlane.Services.Verify | backend/control_plane/provisioning.py:156-288 | a whole gate run among rivals is a run of the machine, and every verdict it gives, unless it yielded, is on the trail and is what the run did: one write from Verifying to Ready, Failed or Quarantined, the last with an IsolationAnomaly event, the others without; an error leaves none of these |
| ControlPlane.Services.Reassociate | backend/control_plane/provisioning.py:290-329 | so is a re-association: refused for a held tenant alone, it writes the new reference in Verifying, tells, and passes the gate again |
| ControlPlane.Services.DisableRouting | backend/control_plane/provisioning.py:331-338 | so is disabling routing: the ledger row goes, then two events |
| ControlPlane.Services.Recover | backend/control_plane/onboarding.py:168-205 | so is recovery, refused but for a Failed tenant, announced first; one with an anomaly on its trail is never resumed, any other passes the gate |
| ControlPlane.RivalsPlay | backend/control_plane/ports.py:46-61 | rivals act on the shared state as if the process were not there |
| ControlPlane.CallExtendsRun | backend/control_plane/provisioning.py:156-288 | a call extends the run that led to its world, so every theorem on runs speaks about the services |
| Recovery.ClassifyContent | backend/control_plane/recovery.py:236-269 | the census loop: evidence exactly when a table lies outside the bootstrap set, an ordinary table has a row, the seed is not the single system-primary agent, or the version rows are uncounted, missing or unsupported; empty exactly without tables |
| Recovery.EvidenceIff | backend/control_plane/recovery.py:236-269 | the rule the drop and the report rest on is that same condition in counts |
| Recovery.UncountableIsEvidenceIff | backend/control_plane/recovery.py:236-269 | an uncountable table turns a droppable database into evidence exactly when it is not the sentinel table |
| Recovery.RecoveryCompensationService.NonContentProof | backend/control_plane/recovery.py:479-518 | passes only after fresh reads of record, Control-DB identity and ledger that all hold; in an unchanging world it names the first element that fails |
| Recovery.RecoveryCompensationService.Identify | backend/control_plane/recovery.py:420-433 | the non-content proof and then the canonical reference, from a fresh record |
| Recovery.RecoveryCompensationService.Fail | backend/control_plane/recovery.py:520-547 | a hold where it applies, then one terminal refusal; never a drop |
| Recovery.RecoveryCompensationService.Census | backend/control_plane/recovery.py:444-456 | inspection, own evidence and content come before the last proof; a failed one refuses without a drop |
| Recovery.RecoveryCompensationService.Destroy | backend/control_plane/recovery.py:453-476 | drops only right after the re-validation passed; a successful drop is reported completed and nothing else |
| Recovery.RecoveryCompensationService.Proven | backend/control_plane/recovery.py:411-476 | the proof-gated body: every drop justified, at most one terminal, and in an unchanging world one determined reason and trail |
| Recovery.RecoveryCompensationService.Deprovision | backend/control_plane/recovery.py:378-409 | Requested, at most a hold, then exactly one terminal attempt whatever raises; a successful drop is followed by Completed only, and every drop is of the tenant's own database after an inspection whose counts hold no evidence and, right before it, a Provisioning, Failed or Quarantined record, a different Control DB, no other tenant's evidence and agreeing own evidence; in an unchanging world outcome, reason, hold and terminal are determined |
| Recovery.DropIsSafe | backend/control_plane/recovery.py:445-468 | if re-validation and drop meet one moment, then at it the record is eligible, the target is the tenant's own and not the Control DB, no other evidence names it, own evidence agrees, and its inspected content was empty or bootstrap-only |
| Recovery.DropsIffDroppable | backend/control_plane/recovery.py:411-476 | in an unchanging world a request drops exactly when all five proofs hold of a database that exists, and is a no-op exactly when they hold of one that is absent, whatever the order of the checks |
| Recovery.RefusalIff | backend/control_plane/recovery.py:479-518 | which refusal record, stage, Control DB, other targets and reference lead to, each exactly under its own condition |
| Recovery.ContentRefusalIff | backend/control_plane/recovery.py:411-476 | the same for existence, inspection, own evidence, content and fingerprint |
| Recovery.TrailIff | backend/control_plane/recovery.py:306-315 | a hold is marked exactly for a Provisioning or Failed tenant and the six reasons that tell of a foreign or used database |
| OrphanScan.LedgerFindings | backend/control_plane/recovery.py:705-714 | one pass finds another tenant's claim and the tenant's own mismatch, both exactly |
| OrphanScan.ClassifyDatabase | backend/control_plane/recovery.py:676-784 | the row of one candidate database |
| OrphanScan.DatabaseRows | backend/control_plane/recovery.py:635-640 | one row for each candidate database |
| OrphanScan.SweepRegistry | backend/control_plane/recovery.py:642-665 | one row for each record whose database is no candidate |
| OrphanScan.ScanForOrphans | backend/control_plane/recovery.py:628-666 | one row for each candidate and each record without a database, no database twice, and no report without inventory and Control-DB identity |
| OrphanScan.RowAgrees | backend/control_plane/recovery.py:716-769 | a tenant's row is marked safe exactly when the compensation would drop its database |
| OrphanScan.ClassIff | backend/control_plane/recovery.py:716-769 | the class of a tenant's database, each exactly under its own condition in fields and counts |
| OrphanScan.AdviceIff | backend/control_plane/recovery.py:716-784 | advice and safe mark follow from the class; the row of an absent database is for manual review and never safe |
| OrphanScan.ScanThenDeprovision | backend/control_plane/recovery.py:606-784 | asked in one unchanging state, the report marks a tenant safe exactly when its deprovisioning then drops |

## Left out

- Cryptography: the HMAC is an uninterpreted function, and JWTs, base64, JSON, UTF-8 and key rotation are not modelled; emit and verify use one key per tenant.
- Onboarding as a whole (`onboard`, `_resume`, provisioning and schema ports): it sequences registry and gate operations that are modelled one by one.
- ControlPlane.Services.Recover: does not model the closing OnboardingRecoveryCompleted, OnboardingRecoveryFailed and TenantQuarantined events, which change no state and no tenant's hold.
- Lifecycle.ApplyInv: organisation, federation and timestamp fields of a tenant record are not modelled; no modelled branch reads them.
- ControlPlane.Services.RegisterTenant: an existing tenant is returned and an id refused as in the code, but error texts are not modelled.
- LifecycleSafety.ReadyTenantsAreDistinct: speaks of recorded evidence; a tenant whose routing was disabled has none, and a shared secret reference can escape a stale inventory (LifecycleSafety.SerialGatesShareSecret).
- ConnectionPool.ConnectionPoolManager.Acquire: pools are values in the manager's dictionary, so the identity check before the clean-up, which always holds when opening does not re-enter the pool, is not modelled; neither are raising liveness or close calls and the thread lock.
- Pool.EveryConnectionAccounted: a connection is handed back once, by its holder, and every opened connection is new.
- Router.DatabaseRouter.Route: generated event ids, timestamps and fixed source fields are not modelled; exactly one event is minted unless the cache has no room for one entry, when the code lets an unaudited error out.
- RoutingCache.RoutingViewCache.Put: the error of a cache bound below one is a refused store.
- Staleness.StalenessIsBounded: one cache and one clock; each cache call is one atomic step.
- Recovery.RecoveryCompensationService.Deprovision: quarantining is one port call that succeeds or raises; its registry transition is modelled in Lifecycle.
- OrphanScan.ScanForOrphans: reads one state and leaves out the final sort.
- OrphanScan.ScanThenDeprovision: assumes records stored under their own non-empty ids, as admission makes them, no evidence under the empty id, and that the two ways of asking which databases exist agree.
- Import.ImportService.StartImport: source adapters and validation are an input (the valid records and the number rejected), batch size below one and the operational audit events are not modelled, and the target table is not one of the bookkeeping tables.
- ImportOverlap.LateRunRepeatsIff: overlap is modelled where a run reads the operation key; runs whose batches alternate with each other's are not.
- ImportRefinement.HistoryRefinesOneRun: runs under one operation key follow one another (ImportOverlap says what an overlapping begin does); it speaks of table, checkpoints and lineage; the counts returned by a resumed run cover that run only, as in the code.
- Emit.EveryHistoryVerifies: the advisory lock is not used, since the code does not rely on it; row identifiers are arbitrary.
- TenantSession.Session.UpsertCopy: SQL text, quoting and column types are not modelled, nor the unique keys of checkpoints and lineage ids.
- Query.WalkIsSnapshot: the recursive parent traversal is not modelled; acyclicity of parents is not enforced by the code.
- Segmentation.Summary: `current_segment`, archiving and its audit are not modelled.
- Naming.EnvKeysDistinct: letters and digits beyond ASCII, which admission refuses, and file-form secrets are not modelled.
- TenantData.InMemoryTenantTable.List: connection grants and the PostgreSQL table are not modelled.
- HTTP edges, transport clients, composition roots, the API gateway, memberships, federation, directories and profile validation: plumbing or single-branch rules.
- `backend/control_plane/lifecycle.py`: dormant by its own comments, and it re-reads state after its probe without checking it again.
