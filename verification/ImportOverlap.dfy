/** Two import runs under one operation key that overlap in their first transaction: each reads the key
    without locking it, so a run may commit its begin on a store that has moved since it read. */
module ImportOverlap {
  import opened Prelude
  import opened Canonical
  import opened LineageTable
  import opened TenantSession
  import opened Import
  import opened ImportRefinement

  /** The store once a run that read the key in `seen` commits its begin on `s`: a row it read is joined,
      and otherwise a job of its own is bound to the key, over whatever row stands there by now. */
  function LateBegun(seen: Store, s: Store, req: Request, plan: Plan): Store {
    if req.operationKey in seen.idem then s
    else
      var row := if req.operationKey in s.idem then s.idem[req.operationKey] else IdemRow("", "", 0, 0, 0);
      s.(jobs := s.jobs[plan.jobId := JobRow(req.operationKey, req.tenantId, "in_progress", req.correlationId)],
         idem := s.idem[req.operationKey := row.(jobId := plan.jobId, status := "in_progress")])
  }

  /** A run whose first transaction read `seen` and commits on `s`. */
  function LateRun(mac: Mac, seen: Store, s: Store, req: Request, valid: seq<ImportRecord>, rejected: nat,
          batchSize: nat, plan: Plan): RunResult
    requires batchSize >= 1
  {
    if plan.begin.DiesBefore? then RunResult(s, Dead)
    else if Replayable(seen, req) then
      RunResult(s, if plan.begin.Commits? then Finished(ReplayStatus(seen.idem[req.operationKey])) else Dead)
    else
      var jobId := JobOf(seen, req, plan);
      var begun := LateBegun(seen, s, req, plan);
      if plan.begin.DiesAfter? || plan.source.ReadRaises? then RunResult(begun, Dead)
      else if plan.source.NoAdapter? then RunResult(begun, Finished(FailedStatus("unknown", 0, 0)))
      else if !plan.resume.Commits? then RunResult(begun, Dead)
      else
        var r := RunBatches(mac, begun, req, jobId, valid, batchSize, StartSeq(begun, jobId), plan, 0, 1, 0, 0);
        if r.ended.Some? then RunResult(r.store, r.ended.value)
        else if plan.finish.DiesBefore? then RunResult(r.store, Dead)
        else
          RunResult(Finalized(r.store, req, jobId, r.applied, r.noop, rejected),
                    if plan.finish.DiesAfter? then Dead
                    else Finished(Status(jobId, "applied", r.applied, r.noop, rejected, "", false)))
  }

  /** The key's row is still as it was read. */
  predicate KeyUnmoved(seen: Store, s: Store, req: Request) {
    && (req.operationKey in seen.idem <==> req.operationKey in s.idem)
    && (req.operationKey in seen.idem ==> seen.idem[req.operationKey] == s.idem[req.operationKey])
  }

  /** A run whose key nobody wrote between its read and its commit is a run on the store it commits on. */
  lemma OnTimeRun(mac: Mac, seen: Store, s: Store, req: Request, valid: seq<ImportRecord>, rejected: nat,
          batchSize: nat, plan: Plan)
    requires batchSize >= 1 && KeyUnmoved(seen, s, req)
    ensures LateRun(mac, seen, s, req, valid, rejected, batchSize, plan)
            == ImportRun(mac, s, req, valid, rejected, batchSize, plan)
  {
    hide RunBatches, StartSeq;
    assert LateBegun(seen, s, req, plan) == Begun(s, req, plan);
  }

  /** `s` is a later store of the operation than `seen`: a key once bound stays bound to its job. */
  predicate Later(seen: Store, s: Store, req: Request) {
    req.operationKey in seen.idem ==>
      req.operationKey in s.idem && s.idem[req.operationKey].jobId == seen.idem[req.operationKey].jobId
  }

  /** A begin keeps what the operation's checkpoints say exactly when it saw the key, or nothing has
      been imported under it. */
  lemma LateBeginKeepsIff(seen: Store, s: Store, rows: map<string, Columns>, req: Request, valid: seq<ImportRecord>,
          batchSize: nat, plan: Plan)
    requires OperationInv(s, rows, req, valid, batchSize) && Later(seen, s, req) && FreshJob(s, plan.jobId)
    ensures OperationInv(LateBegun(seen, s, req, plan), rows, req, valid, batchSize) <==>
      req.operationKey in seen.idem || Copies(s, req.targetTable) == rows
  {
    hide JobLineage, JobCheckpoints, Progress;
    var begun := LateBegun(seen, s, req, plan);
    if req.operationKey !in seen.idem {
      if Copies(s, req.targetTable) == rows {
        NothingDone(begun, rows, req, plan.jobId, valid, batchSize);
      } else if OperationInv(begun, rows, req, valid, batchSize) {
        var c: nat :| Progress(begun, rows, req, plan.jobId, valid, batchSize, c);
        ProgressReadsOff(begun, rows, req, plan.jobId, valid, batchSize, c);
        assert false;
      }
    }
  }

  // ----- a late run over an applied import ---------------------------------------------------------

  /** Every batch lies below the resume point. */
  lemma {:induction false} AllSkipped(mac: Mac, s: Store, req: Request, jobId: string, valid: seq<ImportRecord>,
          batchSize: nat, c: nat, plan: Plan, i: nat, batchSeq: nat)
    requires batchSize >= 1 && Complete(|valid|, batchSize, c)
    requires batchSeq >= 1 && Min(i, |valid|) == Upto(|valid|, batchSize, batchSeq - 1)
    ensures RunBatches(mac, s, req, jobId, valid, batchSize, c + 1, plan, i, batchSeq, 0, 0)
            == BatchesResult(s, 0, 0, None)
    decreases |valid| - i
  {
    hide OneBatch, Upto;
    if i < |valid| {
      NextOffset(|valid|, batchSize, i, batchSeq - 1);
      if batchSeq > c {
        UptoMonotone(|valid|, batchSize, c, batchSeq - 1);
        assert false;
      } else {
        AllSkipped(mac, s, req, jobId, valid, batchSize, c, plan, i + batchSize, batchSeq + 1);
      }
    }
  }

  /** A run that joins the applied job finds every batch done. */
  lemma JoiningAddsNothing(mac: Mac, seen: Store, s: Store, rows: map<string, Columns>, req: Request,
          valid: seq<ImportRecord>, rejected: nat, batchSize: nat, plan: Plan)
    requires batchSize >= 1 && OperationInv(s, rows, req, valid, batchSize) && Replayable(s, req)
    requires req.operationKey in seen.idem && Later(seen, s, req) && NeverStopped(plan)
    ensures var r := LateRun(mac, seen, s, req, valid, rejected, batchSize, plan).store;
      r.lineage == s.lineage && r.copies == s.copies && r.checkpoints == s.checkpoints
  {
    hide RunBatches, Progress, StartSeq, Complete;
    var jobId := s.idem[req.operationKey].jobId;
    var c: nat :| Progress(s, rows, req, jobId, valid, batchSize, c) && Complete(|valid|, batchSize, c);
    StartAfterLast(s, rows, req, jobId, valid, batchSize, c);
    AllSkipped(mac, s, req, jobId, valid, batchSize, c, plan, 0, 1);
  }

  /** A run that saw no key imports everything once more, under a job of its own. */
  lemma RebindingRepeats(mac: Mac, seen: Store, s: Store, req: Request, valid: seq<ImportRecord>, rejected: nat,
          batchSize: nat, plan: Plan)
    requires batchSize >= 1 && WellKeyed(s.lineage) && req.operationKey !in seen.idem
    requires FreshJob(s, plan.jobId) && NeverStopped(plan)
    ensures var r := LateRun(mac, seen, s, req, valid, rejected, batchSize, plan).store;
      && Copies(r, req.targetTable) == CopiesAfter(Copies(s, req.targetTable), req, valid)
      && JobLineage(r.lineage, plan.jobId) == TracesOf(Copies(s, req.targetTable), req, valid)
  {
    hide RunBatches, Progress, StartSeq, Complete, JobLineage, JobCheckpoints, Upto, TracesOf, CopiesAfter;
    var rows, begun := Copies(s, req.targetTable), LateBegun(seen, s, req, plan);
    NothingDone(begun, rows, req, plan.jobId, valid, batchSize);
    StartAfterLast(begun, rows, req, plan.jobId, valid, batchSize, 0);
    AllBatchesRun(mac, begun, req, plan.jobId, valid, batchSize, 1, plan, 0, 1, 0, 0);
    BatchesFromStart(mac, begun, rows, req, plan.jobId, valid, batchSize, plan, 0);
    var b := RunBatches(mac, begun, req, plan.jobId, valid, batchSize, 1, plan, 0, 1, 0, 0);
    var d: nat :| Progress(b.store, rows, req, plan.jobId, valid, batchSize, d) && Complete(|valid|, batchSize, d);
    ProgressReadsOff(b.store, rows, req, plan.jobId, valid, batchSize, d);
    CompleteIsAll(|valid|, batchSize, d);
    assert valid[..|valid|] == valid;
  }

  lemma CompleteIsAll(n: nat, batchSize: nat, d: nat)
    requires Complete(n, batchSize, d)
    ensures Upto(n, batchSize, d) == n
  {
  }

  /** Over an applied import, a run that nothing stops leaves the lineage as it is exactly when it saw
      the key, or there is nothing to import; otherwise every record is traced a second time. */
  lemma LateRunRepeatsIff(mac: Mac, seen: Store, s: Store, rows: map<string, Columns>, req: Request,
          valid: seq<ImportRecord>, rejected: nat, batchSize: nat, plan: Plan)
    requires batchSize >= 1 && OperationInv(s, rows, req, valid, batchSize) && Replayable(s, req)
    requires Later(seen, s, req) && FreshJob(s, plan.jobId) && NeverStopped(plan)
    ensures var r := LateRun(mac, seen, s, req, valid, rejected, batchSize, plan).store;
      && (r.lineage == s.lineage <==> req.operationKey in seen.idem || valid == [])
      && (req.operationKey !in seen.idem ==>
            JobLineage(r.lineage, plan.jobId) == TracesOf(Copies(s, req.targetTable), req, valid))
  {
    hide RunBatches, Progress, StartSeq, Complete, JobLineage, JobCheckpoints, LateRun, NeverStopped;
    if req.operationKey in seen.idem {
      JoiningAddsNothing(mac, seen, s, rows, req, valid, rejected, batchSize, plan);
    } else {
      RebindingRepeats(mac, seen, s, req, valid, rejected, batchSize, plan);
      if valid == [] {
        NothingToImport(mac, seen, s, req, rejected, batchSize, plan);
      }
    }
  }

  lemma NothingToImport(mac: Mac, seen: Store, s: Store, req: Request, rejected: nat, batchSize: nat, plan: Plan)
    requires batchSize >= 1
    ensures LateRun(mac, seen, s, req, [], rejected, batchSize, plan).store.lineage == s.lineage
  {
  }

  /** Two records of one key, in batches of one. A run that saw no key and dies after its first batch puts
      the earlier record's column back, under an import already reported applied. */
  lemma LateRunUndoes(mac: Mac, seen: Store, s: Store, rows: map<string, Columns>, req: Request, one: ImportRecord,
          two: ImportRecord, column: string, plan: Plan)
    requires OperationInv(s, rows, req, [one, two], 1) && Replayable(s, req)
    requires req.operationKey !in seen.idem && FreshJob(s, plan.jobId)
    requires one.naturalKey == two.naturalKey && column != req.naturalKeyField
    requires column in one.fields && column in two.fields && one.fields[column] != two.fields[column]
    requires plan.begin.Commits? && plan.source.Reads? && plan.resume.Commits? && plan.batches(1) == Reaches(DiesAfter)
    ensures var r := LateRun(mac, seen, s, req, [one, two], 0, 1, plan);
      && one.naturalKey in Copies(s, req.targetTable) && one.naturalKey in Copies(r.store, req.targetTable)
      && Column(Copies(s, req.targetTable)[one.naturalKey], column) == two.fields[column]
      && Column(Copies(r.store, req.targetTable)[one.naturalKey], column) == one.fields[column]
  {
    hide LateRun, Progress, OperationInv, CopiesAfter, FreshJob, Column;
    var now := Copies(s, req.targetTable);
    AppliedTwo(s, rows, req, one, two);
    LastHolds(rows, req, [one], two, column);
    OperationKeyed(s, rows, req, [one, two], 1);
    FirstBatchLands(mac, seen, s, req, [one, two], plan);
    LastHolds(now, req, [], one, column);
    assert [one, two][..1] == [] + [one];
  }

  /** A run that saw no key and dies after its first batch of one leaves just that record's columns. */
  lemma FirstBatchLands(mac: Mac, seen: Store, s: Store, req: Request, valid: seq<ImportRecord>, plan: Plan)
    requires WellKeyed(s.lineage) && req.operationKey !in seen.idem && FreshJob(s, plan.jobId) && valid != []
    requires plan.begin.Commits? && plan.source.Reads? && plan.resume.Commits? && plan.batches(1) == Reaches(DiesAfter)
    ensures Copies(LateRun(mac, seen, s, req, valid, 0, 1, plan).store, req.targetTable)
            == CopiesAfter(Copies(s, req.targetTable), req, valid[..1])
  {
    hide Progress, StartSeq, FreshJob, RunBatches, ApplyBatch, CopiesAfter;
    var begun := LateBegun(seen, s, req, plan);
    FreshAfter(s, begun, plan.jobId);
    FirstBatchOf(mac, begun, Copies(s, req.targetTable), req, plan.jobId, valid, plan);
    DiesAfterFirst(mac, begun, req, plan.jobId, valid, plan);
  }

  lemma DiesAfterFirst(mac: Mac, s: Store, req: Request, jobId: string, valid: seq<ImportRecord>, plan: Plan)
    requires valid != [] && plan.batches(1) == Reaches(DiesAfter)
    ensures RunBatches(mac, s, req, jobId, valid, 1, 1, plan, 0, 1, 0, 0)
            == BatchesResult(ApplyBatch(mac, s, req, jobId, 1, valid[..1], 1, plan).store, 0, 0, Some(Dead))
  {
    hide ApplyBatch;
    assert valid[0..1] == valid[..1];
  }

  lemma FirstBatchOf(mac: Mac, s: Store, rows: map<string, Columns>, req: Request, jobId: string,
          valid: seq<ImportRecord>, plan: Plan)
    requires WellKeyed(s.lineage) && FreshJob(s, jobId) && valid != [] && rows == Copies(s, req.targetTable)
    ensures StartSeq(s, jobId) == 1
    ensures Copies(ApplyBatch(mac, s, req, jobId, 1, valid[..1], 1, plan).store, req.targetTable)
            == CopiesAfter(rows, req, valid[..1])
  {
    hide Progress, StartSeq, FreshJob, RunBatches, ApplyBatch, CopiesAfter, Upto, JobLineage, JobCheckpoints, Complete;
    NothingDone(s, rows, req, jobId, valid, 1);
    StartAfterLast(s, rows, req, jobId, valid, 1, 0);
    UptoIsProduct(|valid|, 1, 0);
    UptoIsProduct(|valid|, 1, 1);
    BatchStep(mac, s, rows, req, jobId, valid, 1, 0, plan);
    assert valid[0..1] == valid[..1];
    ProgressReadsOff(ApplyBatch(mac, s, req, jobId, 1, valid[..1], 1, plan).store, rows, req, jobId, valid, 1, 1);
  }

  lemma OperationKeyed(s: Store, rows: map<string, Columns>, req: Request, valid: seq<ImportRecord>, batchSize: nat)
    requires OperationInv(s, rows, req, valid, batchSize)
    ensures WellKeyed(s.lineage)
  {
  }

  lemma FreshAfter(s: Store, s': Store, jobId: string)
    requires FreshJob(s, jobId) && s'.lineage == s.lineage && s'.checkpoints == s.checkpoints
    ensures FreshJob(s', jobId)
  {
  }

  lemma AppliedTwo(s: Store, rows: map<string, Columns>, req: Request, one: ImportRecord, two: ImportRecord)
    requires OperationInv(s, rows, req, [one, two], 1) && Replayable(s, req)
    ensures Copies(s, req.targetTable) == CopiesAfter(rows, req, [one] + [two])
  {
    hide OperationInv, CopiesAfter, JobLineage, JobCheckpoints;
    var total := BatchTotal(2, 1);
    AppliedPinsTheOutcome(s, rows, req, [one, two], 1, total);
    assert [one] + [two] == [one, two];
  }

  /** The last record's columns stand. */
  lemma LastHolds(rows: map<string, Columns>, req: Request, recs: seq<ImportRecord>, rec: ImportRecord, column: string)
    requires column in rec.fields && column != req.naturalKeyField
    ensures var after := CopiesAfter(rows, req, recs + [rec]);
      rec.naturalKey in after && Column(after[rec.naturalKey], column) == rec.fields[column]
  {
    hide Upserted, Holds;
    assert (recs + [rec])[..|recs|] == recs;
    UpsertIdempotent(CopiesAfter(rows, req, recs), rec.naturalKey, RecordRow(req, rec));
    HeldColumn(CopiesAfter(rows, req, recs + [rec]), rec.naturalKey, RecordRow(req, rec), column);
  }

  lemma HeldColumn(rows: map<string, Columns>, key: string, row: Columns, column: string)
    requires Holds(rows, key, row) && column in row
    ensures key in rows && Column(rows[key], column) == row[column]
  {
  }
}
