/** What an import writes of each record, and what a run reports: its counts are those of the checkpoints it
    wrote, and a replay repeats them. */
module ImportCounts {
  import opened Prelude
  import opened Canonical
  import opened LineageTable
  import Emit
  import opened TenantSession
  import opened Import
  import opened ImportRefinement

  /** One record overwrites its own fields and natural key of one row of the target table, and nothing else. */
  lemma RecordLands(mac: Mac, s: Store, req: Request, jobId: string, rec: ImportRecord, plan: Plan)
    ensures var s' := ApplyRecord(mac, s, req, jobId, rec, plan);
      var before, after := Copies(s, req.targetTable), Copies(s', req.targetTable);
      && rec.naturalKey in after
      && Column(after[rec.naturalKey], req.naturalKeyField) == Value.Text(rec.naturalKey)
      && (forall c :: c in rec.fields && c != req.naturalKeyField ==>
            Column(after[rec.naturalKey], c) == rec.fields[c])
      && (forall c :: c !in rec.fields && c != req.naturalKeyField ==>
            Column(after[rec.naturalKey], c)
            == if rec.naturalKey in before then Column(before[rec.naturalKey], c) else Null)
      && (forall k :: k != rec.naturalKey ==> (k in after <==> k in before) && (k in before ==> after[k] == before[k]))
      && (forall table :: table != req.targetTable ==> Copies(s', table) == Copies(s, table))
  {
    hide Emit.Emitted, Upserted;
    UpsertLeaves(Copies(s, req.targetTable), rec.naturalKey, RecordRow(req, rec));
    UpsertIdempotent(Copies(s, req.targetTable), rec.naturalKey, RecordRow(req, rec));
  }

  /** Its lineage row names the job, the source, the row it went to and whether it changed anything. */
  lemma RecordTraced(mac: Mac, s: Store, req: Request, jobId: string, rec: ImportRecord, plan: Plan)
    requires Emit.Chained(mac, s.lineage)
    ensures var t, n := ApplyRecord(mac, s, req, jobId, rec, plan).lineage, |s.lineage| + 1;
      && t.Keys == s.lineage.Keys + {n}
      && t[n].fields.lineageId == plan.lineageIds(n) && t[n].fields.eventType == "import"
      && t[n].fields.occurredAt == plan.clock(n) && t[n].fields.actorRef == req.actorRef
      && t[n].fields.sourceRef == rec.sourceRef && t[n].fields.schemaVersion == req.schemaVersion
      && t[n].fields.targetRef == req.tenantId + ":" + req.targetTable + ":" + rec.naturalKey
      && t[n].fields.operation == (if Holds(Copies(s, req.targetTable), rec.naturalKey, RecordRow(req, rec))
                                   then "noop" else "created")
      && t[n].fields.derivationRef == Some(jobId) && t[n].fields.parentRef == None
      && t[n].correlationId == Some(req.correlationId)
  {
    hide Emit.Chained, Emit.EmitRow, Upserted, Holds, Emit.Latest, RecordRow;
    Emit.LatestOfChained(mac, s.lineage);
    var n := |s.lineage| + 1;
    var intent := RecordIntent(req, jobId, rec, RecordChanges(s, req, rec), plan.clock(n));
    Emit.EmitChains(mac, s.lineage, intent, plan.lineageIds(n));
    Emit.EmittedSays(mac, s.lineage, intent, plan.lineageIds(n));
  }

  /** A batch that raises leaves nothing but the failure mark: the job and the status, the counts as stored. */
  lemma RaisedBatchMarks(mac: Mac, s: Store, req: Request, jobId: string, batchSeq: int, batch: seq<ImportRecord>,
          batchSize: nat, plan: Plan, applied: int, noop: int)
    requires plan.batches(batchSeq).Raises?
    ensures var s' := OneBatch(mac, s, req, jobId, batchSeq, batch, batchSize, plan, applied, noop).store;
      && s'.copies == s.copies && s'.lineage == s.lineage && s'.checkpoints == s.checkpoints && s'.jobs == s.jobs
      && (plan.batches(batchSeq).mark == DiesBefore ==> s'.idem == s.idem)
      && (plan.batches(batchSeq).mark != DiesBefore ==>
            && req.operationKey in s'.idem
            && s'.idem[req.operationKey].jobId == jobId && s'.idem[req.operationKey].status == "failed"
            && (req.operationKey in s.idem ==>
                  && s'.idem[req.operationKey].applied == s.idem[req.operationKey].applied
                  && s'.idem[req.operationKey].noop == s.idem[req.operationKey].noop
                  && s'.idem[req.operationKey].rejected == s.idem[req.operationKey].rejected)
            && forall k :: k != req.operationKey ==>
                 (k in s'.idem <==> k in s.idem) && (k in s.idem ==> s'.idem[k] == s.idem[k]))
  {
  }

  /** The records that the checkpoints say changed something. */
  function AppliedSum(facts: seq<CheckpointFacts>): int {
    if facts == [] then 0 else AppliedSum(facts[..|facts| - 1]) + facts[|facts| - 1].appliedCount
  }

  lemma AppliedSumSnoc(facts: seq<CheckpointFacts>, fact: CheckpointFacts)
    ensures AppliedSum(facts + [fact]) == AppliedSum(facts) + fact.appliedCount
  {
    assert (facts + [fact])[..|facts|] == facts;
  }

  function AppliedOf(s: Store, jobId: string): int { AppliedSum(JobCheckpoints(s.checkpoints, jobId)) }

  function TracedOf(s: Store, jobId: string): nat { |JobLineage(s.lineage, jobId)| }

  /** Between two stores of a job: so many records were applied and so many changed nothing. */
  predicate Grew(s: Store, s': Store, jobId: string, applied: int, noop: int) {
    && applied == AppliedOf(s', jobId) - AppliedOf(s, jobId)
    && applied + noop == TracedOf(s', jobId) - TracedOf(s, jobId)
  }

  lemma BatchGrows(mac: Mac, s: Store, req: Request, jobId: string, batchSeq: int, batch: seq<ImportRecord>,
          batchSize: nat, plan: Plan, applied: int, noop: int)
    requires WellKeyed(s.lineage)
    ensures var one := OneBatch(mac, s, req, jobId, batchSeq, batch, batchSize, plan, applied, noop);
      && (one.ended == None ==>
            WellKeyed(one.store.lineage) && Grew(s, one.store, jobId, one.count, |batch| - one.count))
      && (one.ended.Some? && one.ended.value.Finished? ==>
            && Grew(s, one.store, jobId, 0, 0)
            && one.ended.value.status == Status(jobId, "failed", applied, noop, 0, "batch_failed", false))
  {
    hide JobLineage, TracesOf, ApplyRecords, JobCheckpoints, Created, AppliedSum, FailedRow, CopiesAfter;
    RecordsStep(mac, s, req, jobId, batch, plan);
    var done := ApplyRecords(mac, s, req, jobId, batch, plan);
    var row := CheckpointRow(jobId, batchSeq, batchSize, done.count, plan);
    NextCheckpoint(s.checkpoints, row);
    AppliedSumSnoc(JobCheckpoints(s.checkpoints, jobId),
                   CheckpointFacts(row.batchSeq, row.lastOffset, row.appliedCount, row.status));
  }

  /** The counters move with checkpoints and lineage, and a run that ends failed reports them. */
  lemma {:induction false} BatchesGrow(mac: Mac, s: Store, req: Request, jobId: string, valid: seq<ImportRecord>,
          batchSize: nat, startSeq: int, plan: Plan, i: nat, batchSeq: int, applied: int, noop: int)
    requires batchSize >= 1 && WellKeyed(s.lineage)
    ensures var r := RunBatches(mac, s, req, jobId, valid, batchSize, startSeq, plan, i, batchSeq, applied, noop);
      && (r.ended == None ==> Grew(s, r.store, jobId, r.applied - applied, r.noop - noop))
      && (r.ended.Some? && r.ended.value.Finished? ==>
            var st := r.ended.value.status;
            && Grew(s, r.store, jobId, st.applied - applied, st.noop - noop)
            && st == Status(jobId, "failed", st.applied, st.noop, 0, "batch_failed", false))
    decreases |valid| - i
  {
    hide OneBatch, AppliedOf, TracedOf;
    if i < |valid| {
      if batchSeq < startSeq {
        BatchesGrow(mac, s, req, jobId, valid, batchSize, startSeq, plan, i + batchSize, batchSeq + 1, applied, noop);
      } else {
        var batch := valid[i..Min(i + batchSize, |valid|)];
        var one := OneBatch(mac, s, req, jobId, batchSeq, batch, batchSize, plan, applied, noop);
        BatchGrows(mac, s, req, jobId, batchSeq, batch, batchSize, plan, applied, noop);
        if one.ended == None {
          BatchesGrow(mac, one.store, req, jobId, valid, batchSize, startSeq, plan, i + batchSize, batchSeq + 1,
                      applied + one.count, noop + |batch| - one.count);
        }
      }
    }
  }

  /** A run that is no replay and reports at all reports what its checkpoints and lineage rows say, with the
      store row to match; a failed one says so with no rejected records and is no replay. */
  lemma RunReports(mac: Mac, s: Store, req: Request, valid: seq<ImportRecord>, rejected: nat, batchSize: nat,
          plan: Plan)
    requires batchSize >= 1 && WellKeyed(s.lineage) && !Replayable(s, req)
    requires ImportRun(mac, s, req, valid, rejected, batchSize, plan).ending.Finished?
    ensures var r := ImportRun(mac, s, req, valid, rejected, batchSize, plan);
      var st, jobId := r.ending.status, if req.operationKey in s.idem then s.idem[req.operationKey].jobId
          else plan.jobId;
      && Grew(s, r.store, jobId, st.applied, st.noop) && !st.replayed
      && (if st.state == "applied" then
            && st.importId == jobId && st.rejected == rejected && st.lastError == ""
            && req.operationKey in r.store.idem
            && r.store.idem[req.operationKey] == IdemRow(jobId, "applied", st.applied, st.noop, rejected)
            && jobId in r.store.jobs
            && r.store.jobs[jobId] == JobRow(req.operationKey, req.tenantId, "applied", req.correlationId)
          else
            && st.state == "failed" && st.rejected == 0 && st.lastError == "batch_failed"
            && st.importId == (if plan.source.NoAdapter? then "unknown" else jobId))
  {
    hide RunBatches, StartSeq, AppliedSum, JobCheckpoints, JobLineage;
    var begun, jobId := Begun(s, req, plan), JobOf(s, req, plan);
    BatchesGrow(mac, begun, req, jobId, valid, batchSize, StartSeq(begun, jobId), plan, 0, 1, 0, 0);
  }

  /** A first run that dies right after its begin leaves its job and key, in progress, and nothing else. */
  lemma BeginLeaves(mac: Mac, s: Store, req: Request, valid: seq<ImportRecord>, rejected: nat, batchSize: nat,
          plan: Plan)
    requires batchSize >= 1 && req.operationKey !in s.idem && plan.begin == DiesAfter
    ensures var s' := ImportRun(mac, s, req, valid, rejected, batchSize, plan).store;
      && s'.jobs == s.jobs[plan.jobId := JobRow(req.operationKey, req.tenantId, "in_progress", req.correlationId)]
      && s'.idem == s.idem[req.operationKey := IdemRow(plan.jobId, "in_progress", 0, 0, 0)]
      && s'.copies == s.copies && s'.lineage == s.lineage && s'.checkpoints == s.checkpoints
  {
    hide RunBatches;
  }

  /** In a store of the operation, the checkpoints' counts add up to the records that changed something. */
  lemma {:induction false} ExpectedSum(rows: map<string, Columns>, req: Request, valid: seq<ImportRecord>,
          batchSize: nat, c: nat)
    ensures AppliedSum(ExpectedCheckpoints(rows, req, valid, batchSize, c))
            == Created(TracesOf(rows, req, valid[..Upto(|valid|, batchSize, c)]))
  {
    hide CopiesAfter, TracesOf, Created, Upto, AppliedSum;
    NothingYet(rows, req, valid, batchSize);
    if c > 0 {
      ExpectedSum(rows, req, valid, batchSize, c - 1);
      UptoMonotone(|valid|, batchSize, c - 1, c);
      var lo, hi := Upto(|valid|, batchSize, c - 1), Upto(|valid|, batchSize, c);
      var before := TracesOf(rows, req, valid[..lo]);
      assert valid[..lo] + valid[lo..hi] == valid[..hi];
      CopiesAfterConcat(rows, req, valid[..lo], valid[lo..hi]);
      CreatedConcat(before, TracesOf(CopiesAfter(rows, req, valid[..lo]), req, valid[lo..hi]));
      AppliedSumSnoc(ExpectedCheckpoints(rows, req, valid, batchSize, c - 1),
                     ExpectedCheckpoints(rows, req, valid, batchSize, c)[c - 1]);
    }
  }

  lemma {:induction false} CreatedConcat(a: seq<Trace>, b: seq<Trace>)
    ensures Created(a + b) == Created(a) + Created(b)
  {
    if b == [] {
      assert a + b == a;
    } else {
      assert (a + b)[..|a + b| - 1] == a + b[..|b| - 1];
      CreatedConcat(a, b[..|b| - 1]);
    }
  }

  /** A first run that nothing stops returns and stores the number of records that changed something, and the
      rest as no-ops. */
  lemma FirstRunCounts(mac: Mac, s: Store, req: Request, valid: seq<ImportRecord>, rejected: nat, batchSize: nat,
          plan: Plan)
    requires batchSize >= 1 && WellKeyed(s.lineage) && req.operationKey !in s.idem
    requires FreshJob(s, plan.jobId) && NeverStopped(plan)
    ensures var r := ImportRun(mac, s, req, valid, rejected, batchSize, plan);
      var applied := Created(TracesOf(Copies(s, req.targetTable), req, valid));
      && r.ending == Finished(Status(plan.jobId, "applied", applied, |valid| - applied, rejected, "", false))
      && req.operationKey in r.store.idem
      && r.store.idem[req.operationKey] == IdemRow(plan.jobId, "applied", applied, |valid| - applied, rejected)
  {
    hide ImportRun, AppliedSum, JobCheckpoints, JobLineage, TracesOf, Created, CopiesAfter, ExpectedCheckpoints,
      NeverStopped, Upto;
    var rows := Copies(s, req.targetTable);
    UninterruptedRunApplies(mac, s, req, valid, rejected, batchSize, plan);
    RunReports(mac, s, req, valid, rejected, batchSize, plan);
    var r := ImportRun(mac, s, req, valid, rejected, batchSize, plan);
    FreshInv(s, req, valid, batchSize);
    RunKeepsInv(mac, s, rows, req, valid, rejected, batchSize, plan);
    var total := BatchTotal(|valid|, batchSize);
    AppliedPinsTheOutcome(r.store, rows, req, valid, batchSize, total);
    ExpectedSum(rows, req, valid, batchSize, total);
    assert valid[..|valid|] == valid;
    NothingYet(rows, req, valid, batchSize);
  }

  lemma NothingYet(rows: map<string, Columns>, req: Request, valid: seq<ImportRecord>, batchSize: nat)
    ensures AppliedSum([]) == 0 && Created(TracesOf(rows, req, valid[..Upto(|valid|, batchSize, 0)])) == 0
  {
    assert valid[..0] == [];
  }

  /** A replay answers with the stored row, field by field. */
  lemma ReplayCounts(mac: Mac, s: Store, req: Request, valid: seq<ImportRecord>, rejected: nat, batchSize: nat,
          plan: Plan)
    requires batchSize >= 1 && req.operationKey in s.idem && s.idem[req.operationKey].status == "applied"
    requires ImportRun(mac, s, req, valid, rejected, batchSize, plan).ending.Finished?
    ensures var st, row :=
      ImportRun(mac, s, req, valid, rejected, batchSize, plan).ending.status, s.idem[req.operationKey];
      && st.importId == row.jobId && st.state == "applied"
      && st.applied == row.applied && st.noop == row.noop && st.rejected == row.rejected
      && st.lastError == "" && st.replayed
  {
    hide RunBatches;
  }
}
