/** Appending to the lineage chain, and every history of concurrent transactions that do so. */
module Emit {
  import opened Prelude
  import opened Canonical
  import opened LineageTable
  import opened Verification

  const FIRST_SEGMENT := 1

  /** What the caller asks to record. */
  datatype Intent = Intent(
    eventType: string,
    occurredAt: string,
    actorRef: string,
    sourceRef: string,
    targetRef: string,
    operation: string,
    schemaVersion: string,
    derivationRef: Option<string>,
    parentRef: Option<string>,
    correlationId: Option<string>)

  /** The chain head: the row with the greatest `seq`. */
  function Latest(t: Table): Option<Row> {
    if t == map[] then None
    else
      var ks := Ascending(t.Keys);
      Some(t[ks[|ks| - 1]])
  }

  function NextSeq(head: Option<Row>): int {
    if head.Some? then head.value.fields.seqNo + 1 else 1
  }

  /** The row that `emit` builds on a head: next number, linked and keyed. */
  function LinkedRow(mac: Mac, head: Option<Row>, intent: Intent, lineageId: string): Row {
    var prevMarker := if head.Some? then head.value.marker else "";
    var fields := Fields(lineageId, NextSeq(head), intent.eventType, intent.occurredAt, intent.actorRef,
                         intent.sourceRef, intent.targetRef, intent.operation, intent.schemaVersion,
                         intent.derivationRef, intent.parentRef);
    Row(fields,
        Some(if head.Some? && head.value.segmentId.Some? then head.value.segmentId.value else FIRST_SEGMENT),
        intent.correlationId, Some(MARKER_VERSION_V1), Some(prevMarker), mac(Content(fields, prevMarker)))
  }

  function EmitRow(mac: Mac, t: Table, intent: Intent, lineageId: string): Row {
    LinkedRow(mac, Latest(t), intent, lineageId)
  }

  /** The table after one emit on it. */
  function Emitted(mac: Mac, t: Table, intent: Intent, lineageId: string): Table {
    var r := EmitRow(mac, t, intent, lineageId);
    t[r.fields.seqNo := r]
  }

  // ----- chained tables -----------------------------------------------------------------

  /** Row k is authentic and carries the marker of row k-1 (nothing, for row 1). */
  predicate ChainedAt(mac: Mac, t: Table, k: int)
    requires k in t
  {
    && t[k].fields.seqNo == k
    && Authentic(mac, t[k])
    && (k - 1 in t ==> StoredPrev(t[k]) == t[k - 1].marker)
    && (k - 1 !in t ==> StoredPrev(t[k]) == "")
  }

  /** Keys 1..n, each row chained on the one before. */
  ghost predicate Chained(mac: Mac, t: Table) {
    && (forall k :: k in t <==> 1 <= k <= |t|)
    && (forall k {:trigger ChainedAt(mac, t, k)} :: k in t ==> ChainedAt(mac, t, k))
  }

  lemma AscendingFromOne(s: set<int>, n: nat)
    requires forall k :: k in s <==> 1 <= k <= n
    ensures Ascending(s) == seq(n, i requires 0 <= i < n => i + 1)
  {
    var ks := seq(n, i requires 0 <= i < n => i + 1);
    forall k | k in s ensures k in ks {
      assert ks[k - 1] == k;
    }
    AscendingUnique(Ascending(s), ks);
  }

  /** A chained table read in order is a valid chain numbered from 1. */
  lemma ChainedScan(mac: Mac, t: Table)
    requires Chained(mac, t)
    ensures WellKeyed(t)
    ensures var rows := Scan(t, AnyRow()); |rows| == |t| && forall i :: 0 <= i < |t| ==> rows[i] == t[i + 1]
    ensures ValidChain(mac, Scan(t, AnyRow()))
  {
    hide Authentic, Ascending;
    AscendingFromOne(Matching(t, AnyRow()), |t|);
    var rows := Scan(t, AnyRow());
    forall k | k in t ensures t[k].fields.seqNo == k {
      assert ChainedAt(mac, t, k);
    }
    forall i | 0 <= i < |t| ensures GoodRow(mac, rows, i) {
      assert ChainedAt(mac, t, i + 1);
    }
  }

  lemma LatestOfChained(mac: Mac, t: Table)
    requires Chained(mac, t)
    ensures Latest(t) == if t == map[] then None else Some(t[|t|])
    ensures NextSeq(Latest(t)) == |t| + 1
  {
    hide Authentic, Ascending;
    AscendingFromOne(t.Keys, |t|);
    if t != map[] {
      assert |t| >= 1;
      assert ChainedAt(mac, t, |t|);
    }
  }

  lemma AppendingChains(mac: Mac, t: Table, r: Row)
    requires Chained(mac, t)
    requires r.fields.seqNo == |t| + 1 && Authentic(mac, r)
    requires StoredPrev(r) == if |t| in t then t[|t|].marker else ""
    ensures Chained(mac, t[|t| + 1 := r])
  {
    hide Authentic, StoredPrev;
    var t' := t[|t| + 1 := r];
    assert |t| + 1 !in t;
    assert |t'| == |t| + 1;
    forall k {:trigger ChainedAt(mac, t', k)} | k in t' ensures ChainedAt(mac, t', k) {
      if k in t {
        assert ChainedAt(mac, t, k);
      }
    }
  }

  lemma LinkedRowIsAuthentic(mac: Mac, head: Option<Row>, intent: Intent, lineageId: string)
    ensures var r := LinkedRow(mac, head, intent, lineageId);
      && Authentic(mac, r)
      && r.fields.seqNo == NextSeq(head)
      && StoredPrev(r) == if head.Some? then head.value.marker else ""
  {
    hide Content;
  }

  /** One emit extends a chained table by exactly one row, at the next number. */
  lemma EmitChains(mac: Mac, t: Table, intent: Intent, lineageId: string)
    requires Chained(mac, t)
    ensures Chained(mac, Emitted(mac, t, intent, lineageId))
    ensures |t| + 1 !in t
    ensures Emitted(mac, t, intent, lineageId) == t[|t| + 1 := EmitRow(mac, t, intent, lineageId)]
  {
    hide LinkedRow, Latest, Authentic, StoredPrev;
    LatestOfChained(mac, t);
    LinkedRowIsAuthentic(mac, Latest(t), intent, lineageId);
    AppendingChains(mac, t, EmitRow(mac, t, intent, lineageId));
  }

  /** The row emitted on a chained table says what was asked, under the next number, in the segment of the
      last row, or in the first segment when there is none. */
  lemma EmittedSays(mac: Mac, t: Table, intent: Intent, lineageId: string)
    requires Chained(mac, t)
    ensures var r := EmitRow(mac, t, intent, lineageId);
      && r.fields.lineageId == lineageId && r.fields.seqNo == |t| + 1
      && r.fields.eventType == intent.eventType && r.fields.occurredAt == intent.occurredAt
      && r.fields.actorRef == intent.actorRef && r.fields.sourceRef == intent.sourceRef
      && r.fields.targetRef == intent.targetRef && r.fields.operation == intent.operation
      && r.fields.schemaVersion == intent.schemaVersion
      && r.fields.derivationRef == intent.derivationRef && r.fields.parentRef == intent.parentRef
      && r.correlationId == intent.correlationId && r.markerVersion == Some(1)
      && r.segmentId == Some(if |t| in t && t[|t|].segmentId.Some? then t[|t|].segmentId.value else 1)
  {
    hide Chained, Latest, Content, ChainedAt;
    LatestOfChained(mac, t);
    ChainedKeys(mac, t);
  }

  lemma ChainedKeys(mac: Mac, t: Table)
    requires Chained(mac, t)
    ensures t != map[] ==> |t| in t
    ensures t == map[] ==> |t| == 0 && 0 !in t
  {
    hide ChainedAt;
  }

  // ----- histories of concurrent transactions -------------------------------------------

  /** Committed rows, and the rows each open transaction has appended but not committed. */
  datatype Chain = Chain(committed: Table, open: map<nat, Table>)

  datatype Op =
    | Begin(tx: nat)
    | Append(tx: nat, intent: Intent, lineageId: string)
    | Commit(tx: nat)
    | Rollback(tx: nat)

  /** A transaction sees committed rows and its own. */
  function View(c: Chain, tx: nat): Table
    requires tx in c.open
  {
    c.committed + c.open[tx]
  }

  /** UNIQUE(seq): a commit that would put a second row under one number is refused. */
  predicate Forked(c: Chain, tx: nat)
    requires tx in c.open
  {
    exists k :: k in c.open[tx] && k in c.committed
  }

  function Step(mac: Mac, c: Chain, op: Op): Chain {
    match op
    case Begin(tx) => if tx in c.open then c else c.(open := c.open[tx := map[]])
    case Append(tx, intent, id) =>
      if tx !in c.open then c
      else
        var r := EmitRow(mac, View(c, tx), intent, id);
        c.(open := c.open[tx := c.open[tx][r.fields.seqNo := r]])
    case Commit(tx) =>
      if tx !in c.open then c
      else if Forked(c, tx) then c.(open := c.open - {tx})
      else Chain(View(c, tx), c.open - {tx})
    case Rollback(tx) => c.(open := c.open - {tx})
  }

  function Run(mac: Mac, c: Chain, ops: seq<Op>): Chain {
    if ops == [] then c else Step(mac, Run(mac, c, ops[..|ops| - 1]), ops[|ops| - 1])
  }

  /** An open transaction either continues the committed chain or is bound to be refused. */
  ghost predicate TxSound(mac: Mac, c: Chain, tx: nat)
    requires tx in c.open
  {
    Forked(c, tx) || Chained(mac, View(c, tx))
  }

  ghost predicate Sound(mac: Mac, c: Chain) {
    && Chained(mac, c.committed)
    && forall tx :: tx in c.open ==> TxSound(mac, c, tx)
  }

  /** Without a fork, a transaction with rows of its own holds the next free number. */
  lemma OwnRowsFollow(mac: Mac, c: Chain, tx: nat)
    requires Chained(mac, c.committed) && tx in c.open && !Forked(c, tx) && Chained(mac, View(c, tx))
    ensures c.open[tx] == map[] || |c.committed| + 1 in c.open[tx]
  {
    hide ChainedAt;
    if c.open[tx] != map[] {
      assert c.open[tx].Keys != {};
      var k := Pick(c.open[tx].Keys);
      assert k in View(c, tx);
      assert |c.committed| < k;
      assert |c.committed| + 1 in View(c, tx);
    }
  }

  /** A transaction whose own rows and whose committed base did not change stays sound. */
  lemma TxUnchanged(mac: Mac, c: Chain, c': Chain, tx: nat)
    requires tx in c.open && tx in c'.open && TxSound(mac, c, tx)
    requires c'.open[tx] == c.open[tx] && c'.committed == c.committed
    ensures TxSound(mac, c', tx)
  {
    hide Chained;
    assert View(c', tx) == View(c, tx);
    assert Forked(c', tx) == Forked(c, tx);
  }

  lemma UnionUpdate(a: Table, b: Table, k: int, r: Row)
    ensures a + b[k := r] == (a + b)[k := r]
  {
  }

  lemma AppendSound(mac: Mac, c: Chain, tx: nat, intent: Intent, id: string)
    requires tx in c.open && TxSound(mac, c, tx)
    ensures TxSound(mac, Step(mac, c, Append(tx, intent, id)), tx)
  {
    hide LinkedRow, Latest, Chained;
    var c' := Step(mac, c, Append(tx, intent, id));
    var r := EmitRow(mac, View(c, tx), intent, id);
    if Forked(c, tx) {
      var k :| k in c.open[tx] && k in c.committed;
      assert k in c'.open[tx] && k in c'.committed;
    } else {
      EmitChains(mac, View(c, tx), intent, id);
      UnionUpdate(c.committed, c.open[tx], r.fields.seqNo, r);
      assert View(c', tx) == Emitted(mac, View(c, tx), intent, id);
    }
  }

  lemma SharedNumberForks(c: Chain, tx: nat, k: int)
    requires tx in c.open && k in c.open[tx] && k in c.committed
    ensures Forked(c, tx)
  {
  }

  lemma ForkStays(c: Chain, c': Chain, tx: nat)
    requires tx in c.open && tx in c'.open && c'.open[tx] == c.open[tx] && Forked(c, tx)
    requires forall k :: k in c.committed ==> k in c'.committed
    ensures Forked(c', tx)
  {
    var k :| k in c.open[tx] && k in c.committed;
    assert k in c'.open[tx];
  }

  /** When one transaction commits, every other open one that has rows is forked from then on. */
  lemma CommitOther(mac: Mac, c: Chain, c': Chain, tx: nat, u: nat)
    requires Chained(mac, c.committed) && tx in c.open && u in c.open && u in c'.open
    requires !Forked(c, tx) && TxSound(mac, c, tx) && TxSound(mac, c, u)
    requires c'.committed == View(c, tx) && c'.open[u] == c.open[u]
    ensures TxSound(mac, c', u)
    ensures c.open[tx] != map[] && c.open[u] != map[] ==> Forked(c', u)
  {
    hide Chained, Forked, View;
    if Forked(c, u) {
      assert forall k :: k in c.committed ==> k in c'.committed by { ViewGrows(c, tx); }
      ForkStays(c, c', u);
      assert TxSound(mac, c', u);
    } else if c.open[tx] == map[] {
      assert c'.committed == c.committed by { EmptyView(c, tx); }
      TxUnchanged(mac, c, c', u);
    } else if c.open[u] == map[] {
      FreshTxSound(mac, c', u);
    } else {
      OwnRowsFollow(mac, c, tx);
      OwnRowsFollow(mac, c, u);
      assert |c.committed| + 1 in c'.committed by { ViewHolds(c, tx, |c.committed| + 1); }
      SharedNumberForks(c', u, |c.committed| + 1);
      assert TxSound(mac, c', u);
    }
  }

  lemma ViewGrows(c: Chain, tx: nat)
    requires tx in c.open
    ensures forall k :: k in c.committed ==> k in View(c, tx)
  {
  }

  lemma ViewHolds(c: Chain, tx: nat, k: int)
    requires tx in c.open && k in c.open[tx]
    ensures k in View(c, tx)
  {
  }

  lemma EmptyView(c: Chain, tx: nat)
    requires tx in c.open && c.open[tx] == map[]
    ensures View(c, tx) == c.committed
  {
  }

  lemma CommitSound(mac: Mac, c: Chain, tx: nat)
    requires Sound(mac, c) && tx in c.open && !Forked(c, tx)
    ensures Sound(mac, Step(mac, c, Commit(tx)))
  {
    hide Chained, Forked, View;
    var c' := Step(mac, c, Commit(tx));
    assert TxSound(mac, c, tx);
    forall u | u in c'.open ensures TxSound(mac, c', u) {
      assert TxSound(mac, c, u) && c'.open[u] == c.open[u];
      CommitOther(mac, c, c', tx, u);
    }
  }

  lemma StepSound(mac: Mac, c: Chain, op: Op)
    requires Sound(mac, c)
    ensures Sound(mac, Step(mac, c, op))
  {
    hide EmitRow, Chained, Forked, TxSound;
    var c' := Step(mac, c, op);
    if op.Commit? && op.tx in c.open && !Forked(c, op.tx) {
      CommitSound(mac, c, op.tx);
    } else {
      assert c'.committed == c.committed;
      forall u | u in c'.open ensures TxSound(mac, c', u) {
        if op.Append? && op.tx == u {
          AppendSound(mac, c, u, op.intent, op.lineageId);
        } else if u in c.open {
          TxUnchanged(mac, c, c', u);
        } else {
          FreshTxSound(mac, c', u);
        }
      }
    }
  }

  lemma FreshTxSound(mac: Mac, c: Chain, tx: nat)
    requires Chained(mac, c.committed) && tx in c.open && c.open[tx] == map[]
    ensures TxSound(mac, c, tx)
  {
    hide Chained;
    assert View(c, tx) == c.committed;
  }

  /** What a transaction appended is committed with it, unless another took one of its numbers first; then,
      and when it rolls back, nothing of it is. */
  lemma CommitLands(mac: Mac, c: Chain, tx: nat)
    requires tx in c.open
    ensures var after := Step(mac, c, Commit(tx));
      && tx !in after.open
      && (if exists k :: k in c.open[tx] && k in c.committed then after.committed == c.committed
          else
            && (forall k :: k in c.open[tx] ==> k in after.committed && after.committed[k] == c.open[tx][k])
            && (forall k :: k in after.committed ==> k in c.committed || k in c.open[tx]))
    ensures Step(mac, c, Rollback(tx)).committed == c.committed && tx !in Step(mac, c, Rollback(tx)).open
    ensures forall intent, id :: Step(mac, c, Append(tx, intent, id)).committed == c.committed
  {
    hide EmitRow;
  }

  /** Committed rows are never changed or removed. */
  lemma CommittedRowsStay(mac: Mac, c: Chain, op: Op, k: int)
    requires k in c.committed
    ensures k in Step(mac, c, op).committed && Step(mac, c, op).committed[k] == c.committed[k]
  {
    hide EmitRow;
  }

  lemma {:induction false} RunSound(mac: Mac, ops: seq<Op>)
    ensures Sound(mac, Run(mac, Chain(map[], map[]), ops))
  {
    if ops != [] {
      RunSound(mac, ops[..|ops| - 1]);
      StepSound(mac, Run(mac, Chain(map[], map[]), ops[..|ops| - 1]), ops[|ops| - 1]);
    }
  }

  /** Whatever transactions emit, commit, roll back or collide, the committed table verifies,
      in full and cut to any prefix, and every row is looked at. */
  lemma EveryHistoryVerifies(mac: Mac, ops: seq<Op>, scanPage: nat, maxRecords: Option<int>)
    ensures var t := Run(mac, Chain(map[], map[]), ops).committed;
      && Chained(mac, t) && WellKeyed(t)
      && ValidChain(mac, Scanned(t, scanPage, maxRecords))
      && (scanPage > 0 && maxRecords == None ==> |Scanned(t, scanPage, maxRecords)| == |t|)
      && (scanPage > 0 && maxRecords.Some? && maxRecords.value >= 0 ==>
            |Scanned(t, scanPage, maxRecords)| == Min(maxRecords.value, |t|))
  {
    hide ValidChain, Chained, Scan;
    RunSound(mac, ops);
    var t := Run(mac, Chain(map[], map[]), ops).committed;
    ChainedScan(mac, t);
    var rows := Scan(t, AnyRow());
    var looked := Scanned(t, scanPage, maxRecords);
    assert looked == rows[..|looked|];
    PrefixValid(mac, rows, |looked|);
  }
}
