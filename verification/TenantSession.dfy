/** One tenant database, and a routed session on it with a caller-controlled transaction. */
module TenantSession {
  import opened Prelude
  import opened Canonical
  import opened LineageTable
  import Emit

  datatype Value = Null | Text(text: string) | Number(number: int) | Flag(flag: bool)

  /** A record's columns; a column that is not there reads as null. */
  type Columns = map<string, Value>

  function Column(row: Columns, name: string): Value {
    if name in row then row[name] else Null
  }

  datatype JobRow = JobRow(operationKey: string, tenantId: string, state: string, correlationId: string)

  datatype IdemRow = IdemRow(jobId: string, status: string, applied: int, noop: int, rejected: int)

  datatype Checkpoint = Checkpoint(
    jobId: string,
    batchSeq: int,
    lastOffset: int,
    appliedCount: int,
    status: string,
    updatedAt: string)

  /** Tenant copies by table and natural key, the lineage chain, and the import bookkeeping. */
  datatype Store = Store(
    copies: map<string, map<string, Columns>>,
    lineage: Table,
    jobs: map<string, JobRow>,
    idem: map<string, IdemRow>,
    checkpoints: seq<Checkpoint>)

  function Copies(s: Store, table: string): map<string, Columns> {
    if table in s.copies then s.copies[table] else map[]
  }

  // ----- upsert ---------------------------------------------------------------------------

  /** The write changes nothing: the row exists and already holds every column. */
  predicate Holds(rows: map<string, Columns>, key: string, row: Columns) {
    key in rows && forall c :: c in row ==> Column(rows[key], c) == row[c]
  }

  /** Insert, or overwrite just the given columns. */
  function Upserted(rows: map<string, Columns>, key: string, row: Columns): map<string, Columns> {
    if Holds(rows, key, row) then rows
    else rows[key := (if key in rows then rows[key] else map[]) + row]
  }

  /** A second identical upsert is a no-op, and the row then holds what was written. */
  lemma UpsertIdempotent(rows: map<string, Columns>, key: string, row: Columns)
    ensures Holds(Upserted(rows, key, row), key, row)
    ensures Upserted(Upserted(rows, key, row), key, row) == Upserted(rows, key, row)
    ensures forall k :: k != key ==> (k in Upserted(rows, key, row) <==> k in rows)
                                     && (k in rows ==> Upserted(rows, key, row)[k] == rows[k])
  {
  }

  /** An upsert writes the given columns and leaves the row's others; a new row has those columns alone. */
  lemma UpsertLeaves(rows: map<string, Columns>, key: string, row: Columns)
    ensures var after := Upserted(rows, key, row);
      && key in after && (forall c :: c in row ==> Column(after[key], c) == row[c])
      && (key in rows ==> forall c :: c !in row ==> Column(after[key], c) == Column(rows[key], c))
      && (key !in rows ==> after[key] == row)
  {
    assert map[] + row == row;
  }

  function LatestBatch(checkpoints: seq<Checkpoint>, jobId: string): Option<int> {
    if checkpoints == [] then None
    else
      var rest := LatestBatch(checkpoints[..|checkpoints| - 1], jobId);
      var last := checkpoints[|checkpoints| - 1];
      if last.jobId != jobId then rest
      else if rest.Some? then Some(Max(rest.value, last.batchSeq)) else Some(last.batchSeq)
  }

  /** A committed snapshot and, inside a transaction, the working copy of it. */
  class Session {
    const mac: Mac
    var committed: Store
    var working: Option<Store>

    constructor (mac: Mac, committed: Store)
      ensures this.mac == mac && this.committed == committed && working == None
    {
      this.mac := mac;
      this.committed := committed;
      working := None;
    }

    method Begin()
      requires working == None
      modifies this
      ensures committed == old(committed) && working == Some(committed)
    {
      working := Some(committed);
    }

    method Commit()
      requires working.Some?
      modifies this
      ensures committed == old(working.value) && working == None
    {
      committed := working.value;
      working := None;
    }

    method Rollback()
      modifies this
      ensures committed == old(committed) && working == None
    {
      working := None;
    }

    method UpsertCopy(table: string, key: string, row: Columns) returns (changed: bool)
      requires working.Some?
      modifies this
      ensures committed == old(committed)
      ensures working == Some(old(working.value).(copies := old(working.value).copies[
                table := Upserted(Copies(old(working.value), table), key, row)]))
      ensures changed == !Holds(Copies(old(working.value), table), key, row)
    {
      var s := working.value;
      var rows := Copies(s, table);
      changed := !Holds(rows, key, row);
      working := Some(s.(copies := s.copies[table := Upserted(rows, key, row)]));
    }

    method UpsertJob(jobId: string, row: JobRow)
      requires working.Some?
      modifies this
      ensures committed == old(committed)
      ensures working == Some(old(working.value).(jobs := old(working.value).jobs[jobId := row]))
    {
      working := Some(working.value.(jobs := working.value.jobs[jobId := row]));
    }

    method UpsertIdem(operationKey: string, row: IdemRow)
      requires working.Some?
      modifies this
      ensures committed == old(committed)
      ensures working == Some(old(working.value).(idem := old(working.value).idem[operationKey := row]))
    {
      working := Some(working.value.(idem := working.value.idem[operationKey := row]));
    }

    method AppendCheckpoint(row: Checkpoint)
      requires working.Some?
      modifies this
      ensures committed == old(committed)
      ensures working == Some(old(working.value).(checkpoints := old(working.value).checkpoints + [row]))
    {
      working := Some(working.value.(checkpoints := working.value.checkpoints + [row]));
    }

    /** Append one lineage row to the chain as this transaction sees it. */
    method EmitLineage(intent: Emit.Intent, lineageId: string)
      requires working.Some?
      modifies this
      ensures committed == old(committed)
      ensures working == Some(old(working.value).(
                lineage := Emit.Emitted(mac, old(working.value).lineage, intent, lineageId)))
    {
      var s := working.value;
      var head := Emit.Latest(s.lineage);
      var r := Emit.LinkedRow(mac, head, intent, lineageId);
      working := Some(s.(lineage := s.lineage[r.fields.seqNo := r]));
    }
  }
}
