/** Any history of failed, killed and resumed import runs ends where one uninterrupted run does. */
module ImportRefinement {
  import opened Prelude
  import opened Canonical
  import opened LineageTable
  import Emit
  import Verification
  import opened TenantSession
  import opened Import

  // ----- what the first records of a source amount to ---------------------------------------

  /** What a lineage row says about one record, identifiers and times aside. */
  datatype Trace = Trace(targetRef: string, sourceRef: string, operation: string)

  datatype CheckpointFacts = CheckpointFacts(batchSeq: int, lastOffset: int, appliedCount: int, status: string)

  function CopiesAfter(rows: map<string, Columns>, req: Request, recs: seq<ImportRecord>): map<string, Columns> {
    if recs == [] then rows
    else
      var rec := recs[|recs| - 1];
      Upserted(CopiesAfter(rows, req, recs[..|recs| - 1]), rec.naturalKey, RecordRow(req, rec))
  }

  function TraceOf(rows: map<string, Columns>, req: Request, rec: ImportRecord): Trace {
    Trace(req.tenantId + ":" + req.targetTable + ":" + rec.naturalKey, rec.sourceRef,
          if Holds(rows, rec.naturalKey, RecordRow(req, rec)) then "noop" else "created")
  }

  function TracesOf(rows: map<string, Columns>, req: Request, recs: seq<ImportRecord>): (ts: seq<Trace>)
    ensures |ts| == |recs|
  {
    if recs == [] then []
    else
      var init := recs[..|recs| - 1];
      TracesOf(rows, req, init) + [TraceOf(CopiesAfter(rows, req, init), req, recs[|recs| - 1])]
  }

  function Created(ts: seq<Trace>): nat {
    if ts == [] then 0 else Created(ts[..|ts| - 1]) + if ts[|ts| - 1].operation == "created" then 1 else 0
  }

  lemma {:induction false} CopiesAfterConcat(rows: map<string, Columns>, req: Request, a: seq<ImportRecord>,
          b: seq<ImportRecord>)
    ensures CopiesAfter(rows, req, a + b) == CopiesAfter(CopiesAfter(rows, req, a), req, b)
    ensures TracesOf(rows, req, a + b) == TracesOf(rows, req, a) + TracesOf(CopiesAfter(rows, req, a), req, b)
  {
    hide TraceOf, Upserted, RecordRow;
    if b == [] {
      assert a + b == a;
    } else {
      var init := b[..|b| - 1];
      CopiesAfterConcat(rows, req, a, init);
      assert (a + b)[..|a + b| - 1] == a + init;
    }
  }

  /** Where batch `c` ends among `n` records: `min(c * batchSize, n)`. */
  function Upto(n: nat, batchSize: nat, c: nat): (m: nat)
    ensures m <= n
  {
    if c == 0 then 0 else Min(Upto(n, batchSize, c - 1) + batchSize, n)
  }

  lemma {:induction false} UptoIsProduct(n: nat, batchSize: nat, c: nat)
    ensures Upto(n, batchSize, c) == Min(c * batchSize, n)
  {
    if c > 0 {
      UptoIsProduct(n, batchSize, c - 1);
      assert c * batchSize == (c - 1) * batchSize + batchSize;
    }
  }

  lemma {:induction false} UptoMonotone(n: nat, batchSize: nat, c: nat, d: nat)
    requires c <= d
    ensures Upto(n, batchSize, c) <= Upto(n, batchSize, d)
  {
    if c < d {
      UptoMonotone(n, batchSize, c, d - 1);
    }
  }

  /** Batch `c` is one of the source's batches. */
  predicate Reached(n: nat, batchSize: nat, c: nat) {
    c > 0 ==> Upto(n, batchSize, c - 1) < n
  }

  /** `c` is the number of batches of the whole source. */
  predicate Complete(n: nat, batchSize: nat, c: nat) {
    Reached(n, batchSize, c) && Upto(n, batchSize, c) == n
  }

  lemma CompleteUnique(n: nat, batchSize: nat, c: nat, d: nat)
    requires Complete(n, batchSize, c) && Complete(n, batchSize, d)
    ensures c == d
  {
    if c < d {
      UptoMonotone(n, batchSize, c, d - 1);
    } else if d < c {
      UptoMonotone(n, batchSize, d, c - 1);
    }
  }

  function ExpectedCheckpoints(rows: map<string, Columns>, req: Request, valid: seq<ImportRecord>, batchSize: nat,
          c: nat):
    (facts: seq<CheckpointFacts>)
    ensures |facts| == c
  {
    if c == 0 then []
    else
      var lo, hi := Upto(|valid|, batchSize, c - 1), Upto(|valid|, batchSize, c);
      ExpectedCheckpoints(rows, req, valid, batchSize, c - 1)
      + [CheckpointFacts(c, c * batchSize,
                         Created(TracesOf(CopiesAfter(rows, req, valid[..lo]), req, valid[Min(lo, hi)..hi])),
                         "applied")]
  }

  // ----- what the store says about one job ----------------------------------------------------

  function OfJob(jobId: string): Match {
    (r: Row) => r.fields.derivationRef == Some(jobId)
  }

  function RowTrace(r: Row): Trace {
    Trace(r.fields.targetRef, r.fields.sourceRef, r.fields.operation)
  }

  function JobLineage(t: Table, jobId: string): seq<Trace> {
    Map(RowTrace, Scan(t, OfJob(jobId)))
  }

  function JobCheckpoints(checkpoints: seq<Checkpoint>, jobId: string): seq<CheckpointFacts> {
    if checkpoints == [] then []
    else
      var last := checkpoints[|checkpoints| - 1];
      JobCheckpoints(checkpoints[..|checkpoints| - 1], jobId)
      + if last.jobId == jobId
        then [CheckpointFacts(last.batchSeq, last.lastOffset, last.appliedCount, last.status)] else []
  }

  /** `c` committed batches mean exactly the first `min(c * batchSize, n)` records, in the tenant
      table, in the job's lineage and in its checkpoints alike. */
  predicate Progress(s: Store, rows: map<string, Columns>, req: Request, jobId: string, valid: seq<ImportRecord>,
          batchSize: nat, c: nat)
  {
    var done := valid[..Upto(|valid|, batchSize, c)];
    && WellKeyed(s.lineage)
    && Copies(s, req.targetTable) == CopiesAfter(rows, req, done)
    && JobLineage(s.lineage, jobId) == TracesOf(rows, req, done)
    && JobCheckpoints(s.checkpoints, jobId) == ExpectedCheckpoints(rows, req, valid, batchSize, c)
    && Reached(|valid|, batchSize, c)
  }

  // ----- one emit, one record, one batch --------------------------------------------------------

  lemma LatestIsGreatest(t: Table)
    requires WellKeyed(t)
    ensures forall k :: k in t ==> k < Emit.NextSeq(Emit.Latest(t))
  {
    if t != map[] {
      var ks := Ascending(t.Keys);
      assert t.Keys != {};
      forall k | k in t ensures k <= ks[|ks| - 1] {
        var i :| 0 <= i < |ks| && ks[i] == k;
      }
    }
  }

  lemma AddingGreatest(s: set<int>, k: int)
    requires forall j :: j in s ==> j < k
    ensures Ascending(s + {k}) == Ascending(s) + [k]
  {
    hide Ascending;
    AscendingUnique(Ascending(s + {k}), Ascending(s) + [k]);
  }

  lemma MatchingWithGreatest(t: Table, r: Row, where: Match)
    requires WellKeyed(t) && r.fields.seqNo !in t
    ensures Matching(t[r.fields.seqNo := r], where) == Matching(t, where) + (if where(r) then {r.fields.seqNo} else {})
  {
  }

  lemma RowsUntouched(t: Table, k: int, r: Row, ks: seq<int>)
    requires forall i :: 0 <= i < |ks| ==> ks[i] in t && ks[i] != k
    ensures RowsAt(t[k := r], ks) == RowsAt(t, ks)
    ensures RowsAt(t[k := r], ks + [k]) == RowsAt(t, ks) + [r]
  {
  }

  lemma ScanWithGreatest(t: Table, r: Row, where: Match)
    requires WellKeyed(t) && forall k :: k in t ==> k < r.fields.seqNo
    ensures Scan(t[r.fields.seqNo := r], where) == Scan(t, where) + (if where(r) then [r] else [])
  {
    var s, k := Matching(t, where), r.fields.seqNo;
    var ks := Ascending(s);
    assert forall i :: 0 <= i < |ks| ==> ks[i] in t && ks[i] != k;
    hide Ascending, RowsAt, Matching;
    MatchingWithGreatest(t, r, where);
    RowsUntouched(t, k, r, ks);
    if where(r) {
      AddingGreatest(s, k);
      assert Matching(t[k := r], where) == s + {k};
    } else {
      assert Matching(t[k := r], where) == s;
    }
  }

  /** On any table an emit adds one row at the end of every scan it matches. */
  lemma EmitAppendsToScan(mac: Mac, t: Table, intent: Emit.Intent, id: string, where: Match)
    requires WellKeyed(t)
    ensures var r := Emit.EmitRow(mac, t, intent, id); var t' := Emit.Emitted(mac, t, intent, id);
      && WellKeyed(t')
      && Scan(t', where) == Scan(t, where) + (if where(r) then [r] else [])
  {
    hide Scan, Emit.Latest, Emit.LinkedRow;
    LatestIsGreatest(t);
    Emit.LinkedRowIsAuthentic(mac, Emit.Latest(t), intent, id);
    ScanWithGreatest(t, Emit.EmitRow(mac, t, intent, id), where);
  }

  lemma RecordStep(mac: Mac, s: Store, req: Request, jobId: string, rec: ImportRecord, plan: Plan)
    requires WellKeyed(s.lineage)
    ensures var s' := ApplyRecord(mac, s, req, jobId, rec, plan); var rows := Copies(s, req.targetTable);
      && WellKeyed(s'.lineage)
      && Copies(s', req.targetTable) == Upserted(rows, rec.naturalKey, RecordRow(req, rec))
      && JobLineage(s'.lineage, jobId) == JobLineage(s.lineage, jobId) + [TraceOf(rows, req, rec)]
      && s'.checkpoints == s.checkpoints && s'.idem == s.idem && s'.jobs == s.jobs
      && (RecordChanges(s, req, rec) <==> TraceOf(rows, req, rec).operation == "created")
  {
    hide Emit.Emitted, Upserted, RecordRow, Scan, Emit.Latest, Holds;
    var n := Emit.NextSeq(Emit.Latest(s.lineage));
    var intent := RecordIntent(req, jobId, rec, RecordChanges(s, req, rec), plan.clock(n));
    EmitAppendsToScan(mac, s.lineage, intent, plan.lineageIds(n), OfJob(jobId));
    var r := Emit.EmitRow(mac, s.lineage, intent, plan.lineageIds(n));
    assert r.fields.derivationRef == Some(jobId);
    assert RowTrace(r) == TraceOf(Copies(s, req.targetTable), req, rec);
    MapSnoc(Scan(s.lineage, OfJob(jobId)), r);
  }

  lemma MapSnoc(rows: seq<Row>, r: Row)
    ensures Map(RowTrace, rows + [r]) == Map(RowTrace, rows) + [RowTrace(r)]
  {
  }

  lemma {:induction false} RecordsStep(mac: Mac, s: Store, req: Request, jobId: string, recs: seq<ImportRecord>,
          plan: Plan)
    requires WellKeyed(s.lineage)
    ensures var done := ApplyRecords(mac, s, req, jobId, recs, plan); var rows := Copies(s, req.targetTable);
      && WellKeyed(done.store.lineage)
      && Copies(done.store, req.targetTable) == CopiesAfter(rows, req, recs)
      && JobLineage(done.store.lineage, jobId) == JobLineage(s.lineage, jobId) + TracesOf(rows, req, recs)
      && done.store.checkpoints == s.checkpoints && done.store.idem == s.idem && done.store.jobs == s.jobs
      && done.count == Created(TracesOf(rows, req, recs)) <= |recs|
  {
    hide ApplyRecord, Upserted, RecordRow, RecordChanges, TraceOf, JobLineage;
    if recs != [] {
      var init := recs[..|recs| - 1];
      RecordsStep(mac, s, req, jobId, init, plan);
      var before := ApplyRecords(mac, s, req, jobId, init, plan);
      RecordStep(mac, before.store, req, jobId, recs[|recs| - 1], plan);
    }
  }

  lemma NextCheckpoint(checkpoints: seq<Checkpoint>, row: Checkpoint)
    ensures JobCheckpoints(checkpoints + [row], row.jobId)
            == JobCheckpoints(checkpoints, row.jobId)
                + [CheckpointFacts(row.batchSeq, row.lastOffset, row.appliedCount, row.status)]
  {
    assert (checkpoints + [row])[..|checkpoints|] == checkpoints;
  }

  lemma BatchStep(mac: Mac, s: Store, rows: map<string, Columns>, req: Request, jobId: string, valid: seq<ImportRecord>,
          batchSize: nat, c: nat, plan: Plan)
    requires batchSize >= 1 && Progress(s, rows, req, jobId, valid, batchSize, c)
    requires Upto(|valid|, batchSize, c) < |valid|
    ensures var lo, hi := Upto(|valid|, batchSize, c), Upto(|valid|, batchSize, c + 1);
      && lo <= hi
      && var done := ApplyBatch(mac, s, req, jobId, c + 1, valid[lo..hi], batchSize, plan);
      && Progress(done.store, rows, req, jobId, valid, batchSize, c + 1)
      && done.store.idem == s.idem && done.store.jobs == s.jobs
      && done.count <= hi - lo
  {
    hide JobLineage, CopiesAfter, TracesOf, ApplyRecords, JobCheckpoints, Created, Upto;
    UptoMonotone(|valid|, batchSize, c, c + 1);
    var lo, hi := Upto(|valid|, batchSize, c), Upto(|valid|, batchSize, c + 1);
    var batch := valid[lo..hi];
    RecordsStep(mac, s, req, jobId, batch, plan);
    var done := ApplyBatch(mac, s, req, jobId, c + 1, batch, batchSize, plan);
    CopiesAfterConcat(rows, req, valid[..lo], batch);
    assert valid[..lo] + batch == valid[..hi];
    NextCheckpoint(s.checkpoints, CheckpointRow(jobId, c + 1, batchSize, done.count, plan));
  }

  // ----- resumption -------------------------------------------------------------------------

  /** The resume point is the batch after the last checkpoint. */
  lemma {:induction false} LatestFromFacts(checkpoints: seq<Checkpoint>, jobId: string, rows: map<string, Columns>,
          req: Request, valid: seq<ImportRecord>, batchSize: nat, c: nat)
    requires JobCheckpoints(checkpoints, jobId) == ExpectedCheckpoints(rows, req, valid, batchSize, c)
    ensures LatestBatch(checkpoints, jobId) == if c == 0 then None else Some(c)
  {
    hide CopiesAfter, TracesOf, Created;
    if checkpoints != [] {
      var init, last := checkpoints[..|checkpoints| - 1], checkpoints[|checkpoints| - 1];
      if last.jobId == jobId {
        var facts := ExpectedCheckpoints(rows, req, valid, batchSize, c);
        var mine := JobCheckpoints(init, jobId);
        assert JobCheckpoints(checkpoints, jobId)[..|mine|] == mine;
        assert c > 0 && facts[..c - 1] == ExpectedCheckpoints(rows, req, valid, batchSize, c - 1);
        assert facts[c - 1].batchSeq == c;
        LatestFromFacts(init, jobId, rows, req, valid, batchSize, c - 1);
      } else {
        LatestFromFacts(init, jobId, rows, req, valid, batchSize, c);
      }
    }
  }

  /** What every ending of the batches leaves behind. */
  ghost predicate BatchesLeave(s: Store, r: BatchesResult, rows: map<string, Columns>, req: Request, jobId: string,
          valid: seq<ImportRecord>, batchSize: nat)
  {
    && (exists c: nat :: Progress(r.store, rows, req, jobId, valid, batchSize, c)
                         && (r.ended == None ==> Complete(|valid|, batchSize, c)))
    && (r.store.idem == s.idem || r.store.idem == s.idem[req.operationKey := FailedRow(s, req, jobId)])
    && (r.ended == None ==> r.store.idem == s.idem)
    && (r.ended.Some? && r.ended.value.Finished? ==> r.ended.value.status.state == "failed")
  }

  lemma LeavesNow(s: Store, r: BatchesResult, rows: map<string, Columns>, req: Request, jobId: string,
          valid: seq<ImportRecord>, batchSize: nat, c: nat)
    requires Progress(r.store, rows, req, jobId, valid, batchSize, c)
    requires r.ended == None ==> Complete(|valid|, batchSize, c) && r.store.idem == s.idem
    requires r.store.idem == s.idem || r.store.idem == s.idem[req.operationKey := FailedRow(s, req, jobId)]
    requires r.ended.Some? && r.ended.value.Finished? ==> r.ended.value.status.state == "failed"
    ensures BatchesLeave(s, r, rows, req, jobId, valid, batchSize)
  {
  }

  lemma MarkingKeepsProgress(s: Store, rows: map<string, Columns>, req: Request, jobId: string,
          valid: seq<ImportRecord>, batchSize: nat, c: nat)
    requires Progress(s, rows, req, jobId, valid, batchSize, c)
    ensures Progress(MarkFailed(s, req, jobId), rows, req, jobId, valid, batchSize, c)
  {
    hide JobLineage, CopiesAfter, TracesOf, ExpectedCheckpoints, FailedRow, Upto;
  }

  /** A batch that ends the run leaves either the old or the new number of checkpoints. */
  lemma EndingBatchLeaves(mac: Mac, s: Store, rows: map<string, Columns>, req: Request, jobId: string,
          valid: seq<ImportRecord>, batchSize: nat, c: nat, plan: Plan, applied: int, noop: int)
    requires batchSize >= 1 && Progress(s, rows, req, jobId, valid, batchSize, c)
    requires Upto(|valid|, batchSize, c) < |valid|
    ensures var lo, hi := Upto(|valid|, batchSize, c), Upto(|valid|, batchSize, c + 1);
      && lo <= hi
      && var one := OneBatch(mac, s, req, jobId, c + 1, valid[lo..hi], batchSize, plan, applied, noop);
      && (one.ended.Some? ==>
            BatchesLeave(s, BatchesResult(one.store, applied, noop, one.ended), rows, req, jobId, valid, batchSize))
      && (one.ended == None ==>
            Progress(one.store, rows, req, jobId, valid, batchSize, c + 1) && one.store.idem == s.idem)
  {
    hide Progress, ApplyBatch, FailedRow, BatchesLeave, Upto;
    BatchStep(mac, s, rows, req, jobId, valid, batchSize, c, plan);
    MarkingKeepsProgress(s, rows, req, jobId, valid, batchSize, c);
    MarkedIdem(s, req, jobId);
    var lo, hi := Upto(|valid|, batchSize, c), Upto(|valid|, batchSize, c + 1);
    var one := OneBatch(mac, s, req, jobId, c + 1, valid[lo..hi], batchSize, plan, applied, noop);
    if one.ended.Some? {
      var r := BatchesResult(one.store, applied, noop, one.ended);
      match plan.batches(c + 1)
      case Reaches(DiesAfter) => LeavesNow(s, r, rows, req, jobId, valid, batchSize, c + 1);
      case _ => LeavesNow(s, r, rows, req, jobId, valid, batchSize, c);
    }
  }

  /** What the later batches leave, the whole leaves. */
  lemma LeavesLater(s: Store, mid: Store, r: BatchesResult, rows: map<string, Columns>, req: Request, jobId: string,
          valid: seq<ImportRecord>, batchSize: nat)
    requires BatchesLeave(mid, r, rows, req, jobId, valid, batchSize) && mid.idem == s.idem
    ensures BatchesLeave(s, r, rows, req, jobId, valid, batchSize)
  {
    hide Progress, Complete;
  }

  lemma NextOffset(n: nat, batchSize: nat, i: nat, c: nat)
    requires i < n && Min(i, n) == Upto(n, batchSize, c)
    ensures Upto(n, batchSize, c) == i && Upto(n, batchSize, c + 1) == Min(i + batchSize, n)
  {
  }

  /** Skipped batches are exactly the committed ones; the rest advance one checkpoint at a time. */
  lemma {:induction false} BatchesKeepProgress(mac: Mac, s: Store, rows: map<string, Columns>, req: Request,
          jobId: string, valid: seq<ImportRecord>, batchSize: nat, startSeq: int, plan: Plan, i: nat, batchSeq: nat,
          applied: int, noop: int, c: nat)
    requires batchSize >= 1 && Progress(s, rows, req, jobId, valid, batchSize, c)
    requires batchSeq >= 1 && Min(i, |valid|) == Upto(|valid|, batchSize, batchSeq - 1)
    requires if batchSeq < startSeq then startSeq == c + 1 else batchSeq == c + 1
    ensures var r := RunBatches(mac, s, req, jobId, valid, batchSize, startSeq, plan, i, batchSeq, applied, noop);
      && BatchesLeave(s, r, rows, req, jobId, valid, batchSize)
      && (r.ended == None ==> r.applied + r.noop == applied + noop + |valid| - Upto(|valid|, batchSize, c))
    decreases |valid| - i
  {
    hide Progress, OneBatch, Complete, Upto, BatchesLeave;
    var n := |valid|;
    var r := RunBatches(mac, s, req, jobId, valid, batchSize, startSeq, plan, i, batchSeq, applied, noop);
    if i >= n {
      EndOfBatches(s, rows, req, jobId, valid, batchSize, batchSeq - 1, c);
      LeavesNow(s, r, rows, req, jobId, valid, batchSize, c);
    } else {
      NextOffset(n, batchSize, i, batchSeq - 1);
      if batchSeq < startSeq {
        BatchesKeepProgress(mac, s, rows, req, jobId, valid, batchSize, startSeq, plan, i + batchSize, batchSeq + 1,
                            applied, noop, c);
      } else {
        var batch := valid[i..Min(i + batchSize, n)];
        var one := OneBatch(mac, s, req, jobId, batchSeq, batch, batchSize, plan, applied, noop);
        EndingBatchLeaves(mac, s, rows, req, jobId, valid, batchSize, c, plan, applied, noop);
        if one.ended == None {
          BatchesKeepProgress(mac, one.store, rows, req, jobId, valid, batchSize, startSeq, plan, i + batchSize,
                              batchSeq + 1, applied + one.count, noop + |batch| - one.count, c + 1);
          LeavesLater(s, one.store, r, rows, req, jobId, valid, batchSize);
        }
      }
    }
  }

  lemma MarkedIdem(s: Store, req: Request, jobId: string)
    ensures MarkFailed(s, req, jobId).idem == s.idem[req.operationKey := FailedRow(s, req, jobId)]
  {
  }

  lemma EndOfBatches(s: Store, rows: map<string, Columns>, req: Request, jobId: string, valid: seq<ImportRecord>,
          batchSize: nat, j: nat, c: nat)
    requires Progress(s, rows, req, jobId, valid, batchSize, c)
    requires Upto(|valid|, batchSize, j) == |valid| && j <= c
    ensures Complete(|valid|, batchSize, c) && Upto(|valid|, batchSize, c) == |valid|
  {
    hide JobLineage, CopiesAfter, TracesOf, ExpectedCheckpoints;
    UptoMonotone(|valid|, batchSize, j, c);
  }

  // ----- histories ----------------------------------------------------------------------------

  /** The job's identifier is new: nothing in the store mentions it. */
  predicate FreshJob(s: Store, jobId: string) {
    JobLineage(s.lineage, jobId) == [] && JobCheckpoints(s.checkpoints, jobId) == []
  }

  /** Between runs other work may change anything but this operation's own rows. */
  predicate Unrelated(s: Store, s': Store, req: Request) {
    && WellKeyed(s'.lineage)
    && Copies(s', req.targetTable) == Copies(s, req.targetTable)
    && (req.operationKey in s'.idem <==> req.operationKey in s.idem)
    && (req.operationKey in s.idem ==>
          && s'.idem[req.operationKey] == s.idem[req.operationKey]
          && var jobId := s.idem[req.operationKey].jobId;
          && JobLineage(s'.lineage, jobId) == JobLineage(s.lineage, jobId)
          && JobCheckpoints(s'.checkpoints, jobId) == JobCheckpoints(s.checkpoints, jobId))
  }

  datatype Turn = ARun(plan: Plan, rejected: nat) | OtherWork(after: Store)

  function Play(mac: Mac, s: Store, req: Request, valid: seq<ImportRecord>, batchSize: nat, turns: seq<Turn>): Store
    requires batchSize >= 1
  {
    if turns == [] then s
    else
      var before := Play(mac, s, req, valid, batchSize, turns[..|turns| - 1]);
      match turns[|turns| - 1]
      case ARun(plan, rejected) => ImportRun(mac, before, req, valid, rejected, batchSize, plan).store
      case OtherWork(after) => after
  }

  predicate Legit(mac: Mac, s: Store, req: Request, valid: seq<ImportRecord>, batchSize: nat, turns: seq<Turn>)
    requires batchSize >= 1
  {
    turns != [] ==>
      && Legit(mac, s, req, valid, batchSize, turns[..|turns| - 1])
      && var before := Play(mac, s, req, valid, batchSize, turns[..|turns| - 1]);
      match turns[|turns| - 1]
      case ARun(plan, _) => req.operationKey !in before.idem ==> FreshJob(before, plan.jobId)
      case OtherWork(after) => Unrelated(before, after, req)
  }

  /** Between runs: not begun and the table untouched, or begun with some batches in; and
      "applied" means all of them. */
  ghost predicate OperationInv(s: Store, rows: map<string, Columns>, req: Request, valid: seq<ImportRecord>,
          batchSize: nat) {
    && WellKeyed(s.lineage)
    && (req.operationKey !in s.idem ==> Copies(s, req.targetTable) == rows)
    && (req.operationKey in s.idem ==>
          var jobId := s.idem[req.operationKey].jobId;
          exists c: nat :: Progress(s, rows, req, jobId, valid, batchSize, c)
                           && (Replayable(s, req) ==> Complete(|valid|, batchSize, c)))
  }

  lemma NothingDone(s: Store, rows: map<string, Columns>, req: Request, jobId: string, valid: seq<ImportRecord>,
          batchSize: nat)
    requires WellKeyed(s.lineage) && Copies(s, req.targetTable) == rows && FreshJob(s, jobId)
    ensures Progress(s, rows, req, jobId, valid, batchSize, 0)
  {
    assert valid[..0] == [];
  }

  lemma SameViews(s: Store, s': Store, rows: map<string, Columns>, req: Request, jobId: string,
          valid: seq<ImportRecord>, batchSize: nat, c: nat)
    requires Progress(s, rows, req, jobId, valid, batchSize, c)
    requires WellKeyed(s'.lineage) && Copies(s', req.targetTable) == Copies(s, req.targetTable)
    requires JobLineage(s'.lineage, jobId) == JobLineage(s.lineage, jobId)
    requires JobCheckpoints(s'.checkpoints, jobId) == JobCheckpoints(s.checkpoints, jobId)
    ensures Progress(s', rows, req, jobId, valid, batchSize, c)
  {
    hide JobLineage, JobCheckpoints, CopiesAfter, TracesOf, ExpectedCheckpoints, Upto;
  }

  /** The state of a run between `begin` and its batches. */
  lemma BegunInv(s: Store, rows: map<string, Columns>, req: Request, valid: seq<ImportRecord>, batchSize: nat,
          plan: Plan)
    returns (c: nat)
    requires OperationInv(s, rows, req, valid, batchSize) && !Replayable(s, req)
    requires req.operationKey !in s.idem ==> FreshJob(s, plan.jobId)
    ensures var begun, jobId := Begun(s, req, plan), JobOf(s, req, plan);
      && Progress(begun, rows, req, jobId, valid, batchSize, c)
      && req.operationKey in begun.idem && begun.idem[req.operationKey].jobId == jobId && !Replayable(begun, req)
      && StartSeq(begun, jobId) == c + 1
      && (req.operationKey !in s.idem ==> c == 0)
  {
    hide Progress, JobLineage, JobCheckpoints;
    var begun, jobId := Begun(s, req, plan), JobOf(s, req, plan);
    if req.operationKey in s.idem {
      c :| Progress(s, rows, req, jobId, valid, batchSize, c);
    } else {
      c := 0;
      NothingDone(s, rows, req, jobId, valid, batchSize);
      SameViews(s, begun, rows, req, jobId, valid, batchSize, 0);
    }
    StartAfterLast(begun, rows, req, jobId, valid, batchSize, c);
  }

  lemma StartAfterLast(s: Store, rows: map<string, Columns>, req: Request, jobId: string, valid: seq<ImportRecord>,
          batchSize: nat, c: nat)
    requires Progress(s, rows, req, jobId, valid, batchSize, c)
    ensures StartSeq(s, jobId) == c + 1
  {
    hide JobLineage, CopiesAfter, TracesOf;
    LatestFromFacts(s.checkpoints, jobId, rows, req, valid, batchSize, c);
  }

  lemma InvFrom(s: Store, rows: map<string, Columns>, req: Request, valid: seq<ImportRecord>, batchSize: nat,
          jobId: string, c: nat)
    requires req.operationKey in s.idem && s.idem[req.operationKey].jobId == jobId
    requires Progress(s, rows, req, jobId, valid, batchSize, c)
    requires Replayable(s, req) ==> Complete(|valid|, batchSize, c)
    ensures OperationInv(s, rows, req, valid, batchSize)
  {
    hide JobLineage, JobCheckpoints, CopiesAfter, TracesOf, ExpectedCheckpoints, Upto, Complete;
  }

  /** A run keeps the invariant wherever it stops, and reports "applied" only when it is. */
  lemma RunKeepsInv(mac: Mac, s: Store, rows: map<string, Columns>, req: Request, valid: seq<ImportRecord>,
          rejected: nat, batchSize: nat, plan: Plan)
    requires batchSize >= 1 && OperationInv(s, rows, req, valid, batchSize)
    requires req.operationKey !in s.idem ==> FreshJob(s, plan.jobId)
    ensures var r := ImportRun(mac, s, req, valid, rejected, batchSize, plan);
      && OperationInv(r.store, rows, req, valid, batchSize)
      && (r.ending.Finished? && r.ending.status.state == "applied" ==> Replayable(r.store, req))
  {
    hide ImportRun, Progress, RunBatches, FreshJob, Complete, OperationInv, Upto, StartSeq, FailedRow, Finalized;
    if plan.begin.DiesBefore? || Replayable(s, req) {
      RunStays(mac, s, req, valid, rejected, batchSize, plan);
    } else {
      var begun, jobId := Begun(s, req, plan), JobOf(s, req, plan);
      var c := BegunInv(s, rows, req, valid, batchSize, plan);
      InvFrom(begun, rows, req, valid, batchSize, jobId, c);
      RunIs(mac, s, req, valid, rejected, batchSize, plan);
      BatchesKeepInv(mac, begun, rows, req, valid, rejected, batchSize, plan, c);
    }
  }

  lemma RunStays(mac: Mac, s: Store, req: Request, valid: seq<ImportRecord>, rejected: nat, batchSize: nat, plan: Plan)
    requires batchSize >= 1 && (plan.begin.DiesBefore? || Replayable(s, req))
    ensures var r := ImportRun(mac, s, req, valid, rejected, batchSize, plan);
      r.store == s && (r.ending.Finished? ==> Replayable(s, req))
  {
  }

  /** Where a run that is no replay can stop. */
  lemma RunIs(mac: Mac, s: Store, req: Request, valid: seq<ImportRecord>, rejected: nat, batchSize: nat, plan: Plan)
    requires batchSize >= 1 && !plan.begin.DiesBefore? && !Replayable(s, req)
    ensures var begun, jobId := Begun(s, req, plan), JobOf(s, req, plan);
      var b := RunBatches(mac, begun, req, jobId, valid, batchSize, StartSeq(begun, jobId), plan, 0, 1, 0, 0);
      var r := ImportRun(mac, s, req, valid, rejected, batchSize, plan);
      || (r.store == begun && (r.ending.Finished? ==> r.ending.status.state == "failed"))
      || (r.store == b.store && r.ending == b.ended.GetOr(Dead))
      || (r.store == Finalized(b.store, req, jobId, b.applied, b.noop, rejected) && b.ended == None)
  {
    hide RunBatches, StartSeq, Begun, JobOf, Finalized;
  }

  lemma BatchesKeepInv(mac: Mac, s: Store, rows: map<string, Columns>, req: Request, valid: seq<ImportRecord>,
          rejected: nat, batchSize: nat, plan: Plan, c: nat)
    requires batchSize >= 1 && req.operationKey in s.idem && !Replayable(s, req)
    requires Progress(s, rows, req, s.idem[req.operationKey].jobId, valid, batchSize, c)
    ensures var jobId := s.idem[req.operationKey].jobId;
      var b := RunBatches(mac, s, req, jobId, valid, batchSize, c + 1, plan, 0, 1, 0, 0);
      && OperationInv(b.store, rows, req, valid, batchSize)
      && (b.ended.Some? && b.ended.value.Finished? ==> b.ended.value.status.state == "failed")
      && (b.ended == None ==>
            var f := Finalized(b.store, req, jobId, b.applied, b.noop, rejected);
            OperationInv(f, rows, req, valid, batchSize) && Replayable(f, req))
  {
    hide Progress, RunBatches, Complete, OperationInv, Upto, FailedRow;
    var jobId := s.idem[req.operationKey].jobId;
    BatchesFromStart(mac, s, rows, req, jobId, valid, batchSize, plan, c);
    var b := RunBatches(mac, s, req, jobId, valid, batchSize, c + 1, plan, 0, 1, 0, 0);
    var d: nat :| Progress(b.store, rows, req, jobId, valid, batchSize, d)
                  && (b.ended == None ==> Complete(|valid|, batchSize, d));
    FailedKeepsJob(s, req, jobId);
    InvFrom(b.store, rows, req, valid, batchSize, jobId, d);
    if b.ended == None {
      var f := Finalized(b.store, req, jobId, b.applied, b.noop, rejected);
      ProgressWellKeyed(b.store, rows, req, jobId, valid, batchSize, d);
      SameViews(b.store, f, rows, req, jobId, valid, batchSize, d);
      InvFrom(f, rows, req, valid, batchSize, jobId, d);
    }
  }

  lemma FailedKeepsJob(s: Store, req: Request, jobId: string)
    ensures FailedRow(s, req, jobId).jobId == jobId && FailedRow(s, req, jobId).status == "failed"
  {
  }

  lemma ProgressWellKeyed(s: Store, rows: map<string, Columns>, req: Request, jobId: string, valid: seq<ImportRecord>,
          batchSize: nat, c: nat)
    requires Progress(s, rows, req, jobId, valid, batchSize, c)
    ensures WellKeyed(s.lineage)
  {
  }

  lemma BatchesFromStart(mac: Mac, s: Store, rows: map<string, Columns>, req: Request, jobId: string,
          valid: seq<ImportRecord>, batchSize: nat, plan: Plan, c: nat)
    requires batchSize >= 1 && Progress(s, rows, req, jobId, valid, batchSize, c)
    ensures var r := RunBatches(mac, s, req, jobId, valid, batchSize, c + 1, plan, 0, 1, 0, 0);
      && BatchesLeave(s, r, rows, req, jobId, valid, batchSize)
      && (r.ended == None ==> r.applied + r.noop == |valid| - Upto(|valid|, batchSize, c))
  {
    hide Progress, RunBatches, BatchesLeave;
    BatchesKeepProgress(mac, s, rows, req, jobId, valid, batchSize, c + 1, plan, 0, 1, 0, 0, c);
  }

  lemma {:induction false} HistoryKeepsInv(mac: Mac, s: Store, req: Request, valid: seq<ImportRecord>, batchSize: nat,
          turns: seq<Turn>)
    requires batchSize >= 1 && WellKeyed(s.lineage) && req.operationKey !in s.idem
    requires Legit(mac, s, req, valid, batchSize, turns)
    ensures OperationInv(Play(mac, s, req, valid, batchSize, turns), Copies(s, req.targetTable), req, valid, batchSize)
  {
    hide Progress, ImportRun, JobLineage, JobCheckpoints, FreshJob, Complete;
    if turns != [] {
      var rows := Copies(s, req.targetTable);
      var init := turns[..|turns| - 1];
      HistoryKeepsInv(mac, s, req, valid, batchSize, init);
      var before := Play(mac, s, req, valid, batchSize, init);
      match turns[|turns| - 1]
      case ARun(plan, rejected) =>
        RunKeepsInv(mac, before, rows, req, valid, rejected, batchSize, plan);
      case OtherWork(after) =>
        if req.operationKey in before.idem {
          var jobId := before.idem[req.operationKey].jobId;
          var c: nat :| Progress(before, rows, req, jobId, valid, batchSize, c)
                        && (Replayable(before, req) ==> Complete(|valid|, batchSize, c));
          SameViews(before, after, rows, req, jobId, valid, batchSize, c);
        }
    }
  }

  // ----- the theorems ---------------------------------------------------------------------------

  lemma ProgressReadsOff(s: Store, rows: map<string, Columns>, req: Request, jobId: string, valid: seq<ImportRecord>,
          batchSize: nat, c: nat)
    requires Progress(s, rows, req, jobId, valid, batchSize, c)
    ensures |JobCheckpoints(s.checkpoints, jobId)| == c
    ensures Copies(s, req.targetTable) == CopiesAfter(rows, req, valid[..Upto(|valid|, batchSize, c)])
    ensures JobLineage(s.lineage, jobId) == TracesOf(rows, req, valid[..Upto(|valid|, batchSize, c)])
  {
    hide JobLineage, JobCheckpoints, CopiesAfter, TracesOf, Upto, ExpectedCheckpoints;
  }

  /** The number of the job's checkpoints says exactly which records are in. */
  predicate Truthful(s: Store, rows: map<string, Columns>, req: Request, valid: seq<ImportRecord>, batchSize: nat) {
    if req.operationKey !in s.idem then Copies(s, req.targetTable) == rows
    else
      var jobId := s.idem[req.operationKey].jobId;
      var done := valid[..Upto(|valid|, batchSize, |JobCheckpoints(s.checkpoints, jobId)|)];
      && Copies(s, req.targetTable) == CopiesAfter(rows, req, done)
      && JobLineage(s.lineage, jobId) == TracesOf(rows, req, done)
  }

  /** At every point of every history, checkpoints, tenant table and lineage tell one story. */
  lemma CheckpointsTellTheTruth(mac: Mac, s: Store, req: Request, valid: seq<ImportRecord>, batchSize: nat,
          turns: seq<Turn>)
    requires batchSize >= 1 && WellKeyed(s.lineage) && req.operationKey !in s.idem
    requires Legit(mac, s, req, valid, batchSize, turns)
    ensures Truthful(Play(mac, s, req, valid, batchSize, turns), Copies(s, req.targetTable), req, valid, batchSize)
  {
    hide JobLineage, JobCheckpoints, CopiesAfter, TracesOf, Play, Legit, Progress, Upto;
    HistoryKeepsInv(mac, s, req, valid, batchSize, turns);
    var f := Play(mac, s, req, valid, batchSize, turns);
    if req.operationKey in f.idem {
      var jobId := f.idem[req.operationKey].jobId;
      var c: nat :| Progress(f, Copies(s, req.targetTable), req, jobId, valid, batchSize, c);
      ProgressReadsOff(f, Copies(s, req.targetTable), req, jobId, valid, batchSize, c);
    }
  }

  predicate Uninterrupted(plan: Plan) {
    && plan.begin.Commits? && plan.source.Reads? && plan.resume.Commits? && plan.finish.Commits?
  }

  ghost predicate NeverStopped(plan: Plan) {
    Uninterrupted(plan) && forall j :: plan.batches(j) == Reaches(Commits)
  }

  lemma {:induction false} AllBatchesRun(mac: Mac, s: Store, req: Request, jobId: string, valid: seq<ImportRecord>,
          batchSize: nat, startSeq: int, plan: Plan, i: nat, batchSeq: int, applied: int, noop: int)
    requires batchSize >= 1 && NeverStopped(plan)
    ensures RunBatches(mac, s, req, jobId, valid, batchSize, startSeq, plan, i, batchSeq, applied, noop).ended == None
    decreases |valid| - i
  {
    hide ApplyBatch;
    if i < |valid| {
      if batchSeq < startSeq {
        AllBatchesRun(mac, s, req, jobId, valid, batchSize, startSeq, plan, i + batchSize, batchSeq + 1, applied, noop);
      } else {
        var batch := valid[i..Min(i + batchSize, |valid|)];
        var one := OneBatch(mac, s, req, jobId, batchSeq, batch, batchSize, plan, applied, noop);
        AllBatchesRun(mac, one.store, req, jobId, valid, batchSize, startSeq, plan, i + batchSize, batchSeq + 1,
                      applied + one.count, noop + |batch| - one.count);
      }
    }
  }

  /** A run that nothing stops ends applied, and counts every record of the source once. */
  lemma UninterruptedRunApplies(mac: Mac, s: Store, req: Request, valid: seq<ImportRecord>, rejected: nat,
          batchSize: nat, plan: Plan)
    requires batchSize >= 1 && WellKeyed(s.lineage) && req.operationKey !in s.idem
    requires FreshJob(s, plan.jobId) && NeverStopped(plan)
    ensures var r := ImportRun(mac, s, req, valid, rejected, batchSize, plan);
      && Replayable(r.store, req) && r.store.idem[req.operationKey].jobId == plan.jobId
      && r.ending.Finished? && r.ending.status.state == "applied" && !r.ending.status.replayed
      && r.ending.status.applied + r.ending.status.noop == |valid| && r.ending.status.rejected == rejected
  {
    hide Progress, RunBatches, FreshJob, Upto;
    var rows := Copies(s, req.targetTable);
    var begun := Begun(s, req, plan);
    var c := BegunInv(s, rows, req, valid, batchSize, plan);
    AllBatchesRun(mac, begun, req, plan.jobId, valid, batchSize, c + 1, plan, 0, 1, 0, 0);
    BatchesFromStart(mac, begun, rows, req, plan.jobId, valid, batchSize, plan, c);
    assert Upto(|valid|, batchSize, 0) == 0 by { UptoIsProduct(|valid|, batchSize, 0); }
  }

  lemma AppliedPinsTheOutcome(s: Store, rows: map<string, Columns>, req: Request, valid: seq<ImportRecord>,
          batchSize: nat, total: nat)
    requires OperationInv(s, rows, req, valid, batchSize) && Replayable(s, req)
    requires Complete(|valid|, batchSize, total)
    ensures var jobId := s.idem[req.operationKey].jobId;
      && Copies(s, req.targetTable) == CopiesAfter(rows, req, valid)
      && JobLineage(s.lineage, jobId) == TracesOf(rows, req, valid)
      && JobCheckpoints(s.checkpoints, jobId) == ExpectedCheckpoints(rows, req, valid, batchSize, total)
  {
    hide JobLineage, JobCheckpoints, CopiesAfter, TracesOf, ExpectedCheckpoints, Upto;
    var jobId := s.idem[req.operationKey].jobId;
    var c: nat :| Progress(s, rows, req, jobId, valid, batchSize, c) && Complete(|valid|, batchSize, c);
    CompleteUnique(|valid|, batchSize, c, total);
    assert valid[..|valid|] == valid;
  }

  /** Crash/resume refinement: once any history of runs under one operation key has ended applied,
      the tenant table, the job's checkpoints and its lineage are those of one uninterrupted run. */
  lemma HistoryRefinesOneRun(mac: Mac, s: Store, req: Request, valid: seq<ImportRecord>, batchSize: nat,
          turns: seq<Turn>, rejected: nat, plan: Plan)
    requires batchSize >= 1 && WellKeyed(s.lineage) && req.operationKey !in s.idem
    requires Legit(mac, s, req, valid, batchSize, turns)
    requires FreshJob(s, plan.jobId) && NeverStopped(plan)
    requires Replayable(Play(mac, s, req, valid, batchSize, turns), req)
    ensures var f, one :=
      Play(mac, s, req, valid, batchSize, turns), ImportRun(mac, s, req, valid, rejected, batchSize, plan).store;
      && Replayable(one, req)
      && Copies(f, req.targetTable) == Copies(one, req.targetTable)
      && JobLineage(f.lineage, f.idem[req.operationKey].jobId) == JobLineage(one.lineage, plan.jobId)
      && JobCheckpoints(f.checkpoints, f.idem[req.operationKey].jobId) == JobCheckpoints(one.checkpoints, plan.jobId)
  {
    hide Progress, ImportRun, FreshJob, JobLineage, JobCheckpoints, Play, Legit, Complete, OperationInv, CopiesAfter,
         TracesOf, ExpectedCheckpoints, NeverStopped;
    var rows := Copies(s, req.targetTable);
    HistoryKeepsInv(mac, s, req, valid, batchSize, turns);
    UninterruptedRunApplies(mac, s, req, valid, rejected, batchSize, plan);
    FreshInv(s, req, valid, batchSize);
    RunKeepsInv(mac, s, rows, req, valid, rejected, batchSize, plan);
    var total := BatchTotal(|valid|, batchSize);
    AppliedPinsTheOutcome(Play(mac, s, req, valid, batchSize, turns), rows, req, valid, batchSize, total);
    AppliedPinsTheOutcome(ImportRun(mac, s, req, valid, rejected, batchSize, plan).store, rows, req, valid, batchSize,
                          total);
  }

  lemma FreshInv(s: Store, req: Request, valid: seq<ImportRecord>, batchSize: nat)
    requires WellKeyed(s.lineage) && req.operationKey !in s.idem
    ensures OperationInv(s, Copies(s, req.targetTable), req, valid, batchSize)
  {
  }

  lemma BatchTotal(n: nat, batchSize: nat) returns (total: nat)
    requires batchSize >= 1
    ensures Complete(n, batchSize, total)
  {
    total := 0;
    while Upto(n, batchSize, total) < n
      invariant Reached(n, batchSize, total)
      decreases n - Upto(n, batchSize, total)
    {
      total := total + 1;
    }
  }

  /** A repeated request after success changes nothing and repeats the stored answer. */
  lemma ReplayIsInert(mac: Mac, s: Store, req: Request, valid: seq<ImportRecord>, rejected: nat, batchSize: nat,
          plan: Plan)
    requires batchSize >= 1 && Replayable(s, req)
    ensures var r := ImportRun(mac, s, req, valid, rejected, batchSize, plan);
      && r.store == s
      && (r.ending.Finished? ==> r.ending.status == ReplayStatus(s.idem[req.operationKey]) && r.ending.status.replayed)
      && (plan.begin.Commits? <==> r.ending.Finished?)
  {
  }

  // ----- the chain under imports --------------------------------------------------------------

  lemma {:induction false} RecordsKeepChain(mac: Mac, s: Store, req: Request, jobId: string, recs: seq<ImportRecord>,
          plan: Plan)
    requires Emit.Chained(mac, s.lineage)
    ensures Emit.Chained(mac, ApplyRecords(mac, s, req, jobId, recs, plan).store.lineage)
  {
    hide Emit.Chained, Emit.Emitted, Upserted, RecordRow;
    if recs != [] {
      var init := recs[..|recs| - 1];
      RecordsKeepChain(mac, s, req, jobId, init, plan);
      var before := ApplyRecords(mac, s, req, jobId, init, plan).store;
      var n := Emit.NextSeq(Emit.Latest(before.lineage));
      var rec := recs[|recs| - 1];
      Emit.EmitChains(mac, before.lineage,
                      RecordIntent(req, jobId, rec, RecordChanges(before, req, rec), plan.clock(n)),
                      plan.lineageIds(n));
    }
  }

  lemma {:induction false} BatchesKeepChain(mac: Mac, s: Store, req: Request, jobId: string, valid: seq<ImportRecord>,
          batchSize: nat, startSeq: int, plan: Plan, i: nat, batchSeq: int, applied: int, noop: int)
    requires batchSize >= 1 && Emit.Chained(mac, s.lineage)
    ensures Emit.Chained(mac, RunBatches(mac, s, req, jobId, valid, batchSize, startSeq, plan, i, batchSeq, applied,
                                         noop).store.lineage)
    decreases |valid| - i
  {
    hide Emit.Chained, ApplyRecords, FailedRow;
    if i < |valid| {
      if batchSeq < startSeq {
        BatchesKeepChain(mac, s, req, jobId, valid, batchSize, startSeq, plan, i + batchSize, batchSeq + 1, applied,
                         noop);
      } else {
        var batch := valid[i..Min(i + batchSize, |valid|)];
        RecordsKeepChain(mac, s, req, jobId, batch, plan);
        var one := OneBatch(mac, s, req, jobId, batchSeq, batch, batchSize, plan, applied, noop);
        if one.ended == None {
          BatchesKeepChain(mac, one.store, req, jobId, valid, batchSize, startSeq, plan, i + batchSize, batchSeq + 1,
                           applied + one.count, noop + |batch| - one.count);
        }
      }
    }
  }

  /** Wherever a run is cut short, the lineage chain it leaves still verifies in full. */
  lemma RunKeepsChain(mac: Mac, s: Store, req: Request, valid: seq<ImportRecord>, rejected: nat, batchSize: nat,
          plan: Plan)
    requires batchSize >= 1 && Emit.Chained(mac, s.lineage)
    ensures var t := ImportRun(mac, s, req, valid, rejected, batchSize, plan).store.lineage;
      Emit.Chained(mac, t) && WellKeyed(t) && Verification.ValidChain(mac, Scan(t, AnyRow()))
  {
    hide Emit.Chained, RunBatches, StartSeq, Scan, Verification.ValidChain, WellKeyed;
    var begun, jobId := Begun(s, req, plan), JobOf(s, req, plan);
    BatchesKeepChain(mac, begun, req, jobId, valid, batchSize, StartSeq(begun, jobId), plan, 0, 1, 0, 0);
    Emit.ChainedScan(mac, ImportRun(mac, s, req, valid, rejected, batchSize, plan).store.lineage);
  }
}
