/** The import unit of work: batches, checkpoints, failure, resumption and replay. */
module Import {
  import opened Prelude
  import opened Canonical
  import opened LineageTable
  import Emit
  import opened TenantSession

  datatype Request = Request(
    tenantId: string,
    operationKey: string,
    correlationId: string,
    actorRef: string,
    sourceRef: string,
    naturalKeyField: string,
    targetTable: string,
    schemaVersion: string)

  datatype ImportRecord = ImportRecord(naturalKey: string, fields: Columns, sourceRef: string)

  datatype Status = Status(
    importId: string,
    state: string,
    applied: int,
    noop: int,
    rejected: int,
    lastError: string,
    replayed: bool)

  // ----- what may happen to a run -----------------------------------------------------------

  /** A commit either lands and the run goes on, or the process ends just before or after it. */
  datatype CommitFate = Commits | DiesBefore | DiesAfter

  /** A batch reaches its commit, or a port raises at its `at`-th write and the failure is marked. */
  datatype BatchFate = Reaches(commit: CommitFate) | Raises(at: nat, mark: CommitFate)

  datatype SourceFate = Reads | NoAdapter | ReadRaises

  /** Everything one run receives from outside: identifiers, clock, and where it is cut short. */
  datatype Plan = Plan(
    jobId: string,
    clock: int -> string,
    checkpointClock: int -> string,
    lineageIds: int -> string,
    begin: CommitFate,
    source: SourceFate,
    resume: CommitFate,
    batches: int -> BatchFate,
    finish: CommitFate)

  datatype Ending = Finished(status: Status) | Dead

  datatype RunResult = RunResult(store: Store, ending: Ending)

  // ----- one batch --------------------------------------------------------------------------

  function RecordRow(req: Request, rec: ImportRecord): Columns {
    rec.fields[req.naturalKeyField := Text(rec.naturalKey)]
  }

  function RecordIntent(req: Request, jobId: string, rec: ImportRecord, changed: bool, now: string): Emit.Intent {
    Emit.Intent("import", now, req.actorRef, rec.sourceRef,
                req.tenantId + ":" + req.targetTable + ":" + rec.naturalKey,
                if changed then "created" else "noop",
                req.schemaVersion, Some(jobId), None, Some(req.correlationId))
  }

  function RecordChanges(s: Store, req: Request, rec: ImportRecord): bool {
    !Holds(Copies(s, req.targetTable), rec.naturalKey, RecordRow(req, rec))
  }

  /** The tenant copy and its lineage row, together. */
  function ApplyRecord(mac: Mac, s: Store, req: Request, jobId: string, rec: ImportRecord, plan: Plan): Store {
    var n := Emit.NextSeq(Emit.Latest(s.lineage));
    var intent := RecordIntent(req, jobId, rec, RecordChanges(s, req, rec), plan.clock(n));
    s.(copies := s.copies[req.targetTable :=
                   Upserted(Copies(s, req.targetTable), rec.naturalKey, RecordRow(req, rec))],
       lineage := Emit.Emitted(mac, s.lineage, intent, plan.lineageIds(n)))
  }

  datatype Applied = Applied(store: Store, count: nat)

  function ApplyRecords(mac: Mac, s: Store, req: Request, jobId: string, recs: seq<ImportRecord>, plan: Plan): Applied {
    if recs == [] then Applied(s, 0)
    else
      var rec := recs[|recs| - 1];
      var before := ApplyRecords(mac, s, req, jobId, recs[..|recs| - 1], plan);
      Applied(ApplyRecord(mac, before.store, req, jobId, rec, plan),
              before.count + if RecordChanges(before.store, req, rec) then 1 else 0)
  }

  lemma NoRecords(mac: Mac, s: Store, req: Request, jobId: string, plan: Plan)
    ensures ApplyRecords(mac, s, req, jobId, [], plan) == Applied(s, 0)
  {
  }

  lemma OneRecordMore(mac: Mac, s: Store, req: Request, jobId: string, recs: seq<ImportRecord>, j: nat, plan: Plan)
    requires j < |recs|
    ensures var before := ApplyRecords(mac, s, req, jobId, recs[..j], plan);
      ApplyRecords(mac, s, req, jobId, recs[..j + 1], plan)
      == Applied(ApplyRecord(mac, before.store, req, jobId, recs[j], plan),
                 before.count + if RecordChanges(before.store, req, recs[j]) then 1 else 0)
  {
    hide ApplyRecord, RecordChanges;
    assert recs[..j + 1][..j] == recs[..j];
  }

  function CheckpointRow(jobId: string, batchSeq: int, batchSize: nat, applied: nat, plan: Plan): Checkpoint {
    Checkpoint(jobId, batchSeq, batchSeq * batchSize, applied, "applied", plan.checkpointClock(batchSeq))
  }

  function ApplyBatch(mac: Mac, s: Store, req: Request, jobId: string, batchSeq: int, batch: seq<ImportRecord>,
          batchSize: nat, plan: Plan): Applied
  {
    var done := ApplyRecords(mac, s, req, jobId, batch, plan);
    Applied(done.store.(checkpoints := done.store.checkpoints
                                       + [CheckpointRow(jobId, batchSeq, batchSize, done.count, plan)]), done.count)
  }

  // ----- one run ----------------------------------------------------------------------------

  /** The failure mark overwrites the job and the status; counts stay what they were. */
  function FailedRow(s: Store, req: Request, jobId: string): IdemRow {
    var row := if req.operationKey in s.idem then s.idem[req.operationKey] else IdemRow("", "", 0, 0, 0);
    row.(jobId := jobId, status := "failed")
  }

  function MarkFailed(s: Store, req: Request, jobId: string): Store {
    s.(idem := s.idem[req.operationKey := FailedRow(s, req, jobId)])
  }

  function FailedStatus(jobId: string, applied: int, noop: int): Status {
    Status(jobId, "failed", applied, noop, 0, "batch_failed", false)
  }

  datatype BatchResult = BatchResult(store: Store, count: nat, ended: Option<Ending>)

  /** One batch, from its transaction's start to the commit, or to the failure mark. */
  function OneBatch(mac: Mac, s: Store, req: Request, jobId: string, batchSeq: int, batch: seq<ImportRecord>,
          batchSize: nat, plan: Plan, applied: int, noop: int): BatchResult
  {
    match plan.batches(batchSeq)
    case Raises(_, mark) =>
      BatchResult(if mark.DiesBefore? then s else MarkFailed(s, req, jobId), 0,
                  Some(if mark.Commits? then Finished(FailedStatus(jobId, applied, noop)) else Dead))
    case Reaches(fate) =>
      var done := ApplyBatch(mac, s, req, jobId, batchSeq, batch, batchSize, plan);
      BatchResult(if fate.DiesBefore? then s else done.store, done.count, if fate.Commits? then None else Some(Dead))
  }

  datatype BatchesResult = BatchesResult(store: Store, applied: int, noop: int, ended: Option<Ending>)

  /** The batches from offset `i` on, numbered from `batchSeq`; those below `startSeq` are skipped. */
  function RunBatches(mac: Mac, s: Store, req: Request, jobId: string, valid: seq<ImportRecord>, batchSize: nat,
          startSeq: int, plan: Plan, i: nat, batchSeq: int, applied: int, noop: int): BatchesResult
    requires batchSize >= 1
    decreases |valid| - i
  {
    if i >= |valid| then BatchesResult(s, applied, noop, None)
    else if batchSeq < startSeq then
      RunBatches(mac, s, req, jobId, valid, batchSize, startSeq, plan, i + batchSize, batchSeq + 1, applied, noop)
    else
      var batch := valid[i..Min(i + batchSize, |valid|)];
      var r := OneBatch(mac, s, req, jobId, batchSeq, batch, batchSize, plan, applied, noop);
      if r.ended.Some? then BatchesResult(r.store, applied, noop, r.ended)
      else
        RunBatches(mac, r.store, req, jobId, valid, batchSize, startSeq, plan, i + batchSize, batchSeq + 1,
                   applied + r.count, noop + |batch| - r.count)
  }

  predicate Replayable(s: Store, req: Request) {
    req.operationKey in s.idem && s.idem[req.operationKey].status == "applied"
  }

  function ReplayStatus(row: IdemRow): Status {
    Status(row.jobId, "applied", row.applied, row.noop, row.rejected, "", true)
  }

  function JobOf(s: Store, req: Request, plan: Plan): string {
    if req.operationKey in s.idem then s.idem[req.operationKey].jobId else plan.jobId
  }

  /** The store once the job is registered (nothing is written when it already is). */
  function Begun(s: Store, req: Request, plan: Plan): Store {
    if req.operationKey in s.idem then s
    else
      s.(jobs := s.jobs[plan.jobId := JobRow(req.operationKey, req.tenantId, "in_progress", req.correlationId)],
         idem := s.idem[req.operationKey := IdemRow(plan.jobId, "in_progress", 0, 0, 0)])
  }

  function StartSeq(s: Store, jobId: string): int {
    LatestBatch(s.checkpoints, jobId).GetOr(0) + 1
  }

  function Finalized(s: Store, req: Request, jobId: string, applied: int, noop: int, rejected: int): Store {
    s.(jobs := s.jobs[jobId := JobRow(req.operationKey, req.tenantId, "applied", req.correlationId)],
       idem := s.idem[req.operationKey := IdemRow(jobId, "applied", applied, noop, rejected)])
  }

  function ImportRun(mac: Mac, s: Store, req: Request, valid: seq<ImportRecord>, rejected: nat, batchSize: nat,
          plan: Plan): RunResult
    requires batchSize >= 1
  {
    if plan.begin.DiesBefore? then RunResult(s, Dead)
    else if Replayable(s, req) then
      RunResult(s, if plan.begin.Commits? then Finished(ReplayStatus(s.idem[req.operationKey])) else Dead)
    else
      var jobId := JobOf(s, req, plan);
      var begun := Begun(s, req, plan);
      if plan.begin.DiesAfter? || plan.source.ReadRaises? then RunResult(begun, Dead)
      else if plan.source.NoAdapter? then RunResult(begun, Finished(FailedStatus("unknown", 0, 0)))
      else if !plan.resume.Commits? then RunResult(begun, Dead)
      else
        var r := RunBatches(mac, begun, req, jobId, valid, batchSize, StartSeq(begun, jobId), plan, 0, 1, 0, 0);
        if r.ended.Some? then RunResult(r.store, r.ended.value)
        else if plan.finish.DiesBefore? then RunResult(r.store, Dead)
        else
          RunResult(Finalized(r.store, req, jobId, r.applied, r.noop, rejected),
                    if plan.finish.DiesAfter? then Dead
                    else Finished(Status(jobId, "applied", r.applied, r.noop, rejected, "", false)))
  }

  // ----- the service ------------------------------------------------------------------------

  class ImportService {
    const batchSize: nat

    constructor (batchSize: nat)
      requires batchSize >= 1
      ensures this.batchSize == batchSize
    {
      this.batchSize := batchSize;
    }

    /** The tenant copy and its lineage row, in the open transaction. */
    method ApplyOneRecord(session: Session, req: Request, jobId: string, rec: ImportRecord, plan: Plan)
      returns (changed: bool)
      requires session.working.Some?
      modifies session
      ensures session.committed == old(session.committed)
      ensures session.working == Some(ApplyRecord(session.mac, old(session.working.value), req, jobId, rec, plan))
      ensures changed == RecordChanges(old(session.working.value), req, rec)
    {
      hide Emit.Emitted, Upserted, Holds, RecordRow;
      var n := Emit.NextSeq(Emit.Latest(session.working.value.lineage));
      changed := session.UpsertCopy(req.targetTable, rec.naturalKey, RecordRow(req, rec));
      session.EmitLineage(RecordIntent(req, jobId, rec, changed, plan.clock(n)), plan.lineageIds(n));
    }

    /** Write the batch into the open transaction; `raised` when a port gives up part-way. */
    method ApplyOneBatch(session: Session, req: Request, jobId: string, batchSeq: int, batch: seq<ImportRecord>,
            plan: Plan)
      returns (count: nat, raised: bool)
      requires session.working.Some?
      modifies session
      ensures session.committed == old(session.committed) && session.working.Some?
      ensures raised <==> plan.batches(batchSeq).Raises?
      ensures !raised ==>
        var done := ApplyBatch(session.mac, old(session.working.value), req, jobId, batchSeq, batch, batchSize, plan);
        session.working == Some(done.store) && count == done.count
    {
      ghost var s0 := session.working.value;
      hide ApplyRecord, ApplyRecords, RecordChanges, CheckpointRow;
      NoRecords(session.mac, s0, req, jobId, plan);
      var fate := plan.batches(batchSeq);
      count := 0;
      for j := 0 to |batch|
        invariant session.committed == old(session.committed) && session.working.Some?
        invariant fate.Raises? ==> j <= fate.at
        invariant Applied(session.working.value, count) == ApplyRecords(session.mac, s0, req, jobId, batch[..j], plan)
      {
        OneRecordMore(session.mac, s0, req, jobId, batch, j, plan);
        if fate.Raises? && fate.at == j {
          return count, true;
        }
        var changed := ApplyOneRecord(session, req, jobId, batch[j], plan);
        if changed {
          count := count + 1;
        }
      }
      assert batch[..|batch|] == batch;
      if fate.Raises? {
        return count, true;
      }
      session.AppendCheckpoint(CheckpointRow(jobId, batchSeq, batchSize, count, plan));
      raised := false;
    }

    /** One batch as a transaction; `ended` is how the run ended, if it did. */
    method CommitBatch(session: Session, req: Request, jobId: string, batchSeq: int, batch: seq<ImportRecord>,
            plan: Plan, applied: int, noop: int)
      returns (count: nat, ended: Option<Ending>)
      requires session.working == None
      modifies session
      ensures session.working == None
      ensures var r :=
        OneBatch(session.mac, old(session.committed), req, jobId, batchSeq, batch, batchSize, plan, applied, noop);
        session.committed == r.store && ended == r.ended && (ended == None ==> count == r.count)
    {
      hide ApplyBatch, FailedRow;
      var fate := plan.batches(batchSeq);
      session.Begin();
      var raised;
      count, raised := ApplyOneBatch(session, req, jobId, batchSeq, batch, plan);
      if raised {
        session.Rollback();
        session.Begin();
        session.UpsertIdem(req.operationKey, FailedRow(session.working.value, req, jobId));
        if fate.mark.DiesBefore? {
          session.Rollback();
          return count, Some(Dead);
        }
        session.Commit();
        return count, Some(if fate.mark.DiesAfter? then Dead else Finished(FailedStatus(jobId, applied, noop)));
      }
      if fate.commit.DiesBefore? {
        session.Rollback();
        return count, Some(Dead);
      }
      session.Commit();
      ended := if fate.commit.DiesAfter? then Some(Dead) else None;
    }

    /** `ended` is `None` when every batch is in; otherwise how the run ended. */
    method ApplyBatches(session: Session, req: Request, jobId: string, valid: seq<ImportRecord>, startSeq: int,
            plan: Plan)
      returns (applied: int, noop: int, ended: Option<Ending>)
      requires batchSize >= 1 && session.working == None
      modifies session
      ensures session.working == None
      ensures BatchesResult(session.committed, applied, noop, ended)
        == RunBatches(session.mac, old(session.committed), req, jobId, valid, batchSize, startSeq, plan, 0, 1, 0, 0)
    {
      hide OneBatch;
      ghost var all :=
          RunBatches(session.mac, session.committed, req, jobId, valid, batchSize, startSeq, plan, 0, 1, 0, 0);
      applied, noop, ended := 0, 0, None;
      var i, batchSeq := 0, 1;
      while i < |valid|
        invariant session.working == None && ended == None
        invariant all == RunBatches(session.mac, session.committed, req, jobId, valid, batchSize, startSeq, plan,
                                    i, batchSeq, applied, noop)
        decreases |valid| - i
      {
        if batchSeq >= startSeq {
          var batch := valid[i..Min(i + batchSize, |valid|)];
          var count;
          count, ended := CommitBatch(session, req, jobId, batchSeq, batch, plan, applied, noop);
          if ended.Some? {
            return;
          }
          applied, noop := applied + count, noop + |batch| - count;
        }
        i, batchSeq := i + batchSize, batchSeq + 1;
      }
    }

    /** One run from start to end, whatever happens to it. */
    method StartImport(session: Session, req: Request, valid: seq<ImportRecord>, rejected: nat, plan: Plan)
      returns (ending: Ending)
      requires batchSize >= 1 && session.working == None
      modifies session
      ensures session.working == None
      ensures RunResult(session.committed, ending)
              == ImportRun(session.mac, old(session.committed), req, valid, rejected, batchSize, plan)
    {
      hide RunBatches;
      session.Begin();
      var s := session.working.value;
      var jobId := JobOf(s, req, plan);
      if req.operationKey !in s.idem {
        session.UpsertJob(jobId, JobRow(req.operationKey, req.tenantId, "in_progress", req.correlationId));
        session.UpsertIdem(req.operationKey, IdemRow(jobId, "in_progress", 0, 0, 0));
      }
      if plan.begin.DiesBefore? {
        session.Rollback();
        return Dead;
      }
      session.Commit();
      if plan.begin.DiesAfter? {
        return Dead;
      }
      if Replayable(s, req) {
        return Finished(ReplayStatus(s.idem[req.operationKey]));
      }
      if plan.source.ReadRaises? {
        return Dead;
      }
      if plan.source.NoAdapter? {
        return Finished(FailedStatus("unknown", 0, 0));
      }
      session.Begin();
      var startSeq := StartSeq(session.working.value, jobId);
      session.Commit();
      if !plan.resume.Commits? {
        return Dead;
      }
      var applied, noop, ended := ApplyBatches(session, req, jobId, valid, startSeq, plan);
      if ended.Some? {
        return ended.value;
      }
      session.Begin();
      session.UpsertJob(jobId, JobRow(req.operationKey, req.tenantId, "applied", req.correlationId));
      session.UpsertIdem(req.operationKey, IdemRow(jobId, "applied", applied, noop, rejected));
      if plan.finish.DiesBefore? {
        session.Rollback();
        return Dead;
      }
      session.Commit();
      if plan.finish.DiesAfter? {
        return Dead;
      }
      ending := Finished(Status(jobId, "applied", applied, noop, rejected, "", false));
    }
  }
}
