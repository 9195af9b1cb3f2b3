/** Cursor-paged lineage queries, and whole walks over a table that grows between pages. */
module Query {
  import opened Prelude
  import opened Canonical
  import opened LineageTable
  import Emit

  datatype QueryPage = QueryPage(items: seq<Row>, nextCursor: Option<int>)

  function PageSize(limit: int, pageLimitMax: int): (n: nat)
    ensures n >= 1
  {
    Max(1, Min(limit, pageLimitMax))
  }

  /** No page is larger than the caller's limit or the service's, where these are at least one, and one that
      is smaller than both has no rows after it. */
  lemma PageWithinLimits(t: Table, where: Match, after: Option<int>, limit: int, pageLimitMax: int)
    ensures var page := PageOf(t, where, after, limit, pageLimitMax);
      && |page.items| <= Max(1, pageLimitMax) && |page.items| <= Max(1, limit)
      && (page.nextCursor.Some? <==> |page.items| == Max(1, Min(limit, pageLimitMax)))
      && (page.nextCursor.Some? ==> page.nextCursor.value == page.items[|page.items| - 1].fields.seqNo)
  {
  }

  /** One page, newest first; a short page carries no cursor. */
  function PageOf(t: Table, where: Match, after: Option<int>, limit: int, pageLimitMax: int): QueryPage {
    var n := PageSize(limit, pageLimitMax);
    var items := Page(t, where, true, after, n);
    QueryPage(items, if |items| == n then Some(items[|items| - 1].fields.seqNo) else None)
  }

  // ----- a table that only grows at its head ----------------------------------------------

  /** `later` holds all rows of `t`, and every further row above them. */
  ghost predicate GrowsTo(t: Table, later: Table) {
    && WellKeyed(t) && WellKeyed(later)
    && (forall k :: k in t ==> k in later && later[k] == t[k])
    && (forall j, k :: j in later && j !in t && k in t ==> k < j)
  }

  /** The table as each successive page finds it. */
  ghost predicate GrowingHistory(h: nat -> Table) {
    forall i: nat :: GrowsTo(h(0), h(i))
  }

  lemma ChainedGrows(mac: Mac, t: Table, later: Table)
    requires Emit.Chained(mac, t) && Emit.Chained(mac, later)
    requires forall k :: k in t ==> k in later && later[k] == t[k]
    ensures GrowsTo(t, later)
  {
    hide Emit.ChainedAt, Scan;
    Emit.ChainedScan(mac, t);
    Emit.ChainedScan(mac, later);
  }

  /** Committed emits grow the table in just this way. */
  lemma EmitsGrow(mac: Mac, c: Emit.Chain, op: Emit.Op)
    requires Emit.Sound(mac, c)
    ensures GrowsTo(c.committed, Emit.Step(mac, c, op).committed)
  {
    hide Emit.Step, Emit.Chained;
    Emit.StepSound(mac, c, op);
    var later := Emit.Step(mac, c, op).committed;
    forall k | k in c.committed ensures k in later && later[k] == c.committed[k] {
      Emit.CommittedRowsStay(mac, c, op, k);
    }
    ChainedGrows(mac, c.committed, later);
  }

  /** The committed table after a run of transaction steps. */
  function After(mac: Mac, ops: seq<Emit.Op>): Table {
    Emit.Run(mac, Emit.Chain(map[], map[]), ops).committed
  }

  /** Whatever a longer run does after a shorter one, it keeps the rows and adds only above them. */
  lemma {:induction false} RunGrows(mac: Mac, ops: seq<Emit.Op>, n: nat)
    requires n <= |ops|
    ensures GrowsTo(After(mac, ops[..n]), After(mac, ops))
  {
    hide GrowsTo, Emit.Sound, Emit.Chained;
    RowsStay(mac, ops, n);
    Emit.RunSound(mac, ops[..n]);
    Emit.RunSound(mac, ops);
    SoundIsChained(mac, Emit.Run(mac, Emit.Chain(map[], map[]), ops[..n]));
    SoundIsChained(mac, Emit.Run(mac, Emit.Chain(map[], map[]), ops));
    ChainedGrows(mac, After(mac, ops[..n]), After(mac, ops));
  }

  lemma SoundIsChained(mac: Mac, c: Emit.Chain)
    requires Emit.Sound(mac, c)
    ensures Emit.Chained(mac, c.committed)
  {
  }

  lemma {:induction false} RowsStay(mac: Mac, ops: seq<Emit.Op>, n: nat)
    requires n <= |ops|
    ensures forall k :: k in After(mac, ops[..n]) ==>
      k in After(mac, ops) && After(mac, ops)[k] == After(mac, ops[..n])[k]
  {
    hide Emit.Step;
    if n == |ops| {
      assert ops[..n] == ops;
    } else {
      var init, op := ops[..|ops| - 1], ops[|ops| - 1];
      assert init[..n] == ops[..n];
      RowsStay(mac, init, n);
      forall k | k in After(mac, init) ensures k in After(mac, ops) && After(mac, ops)[k] == After(mac, init)[k] {
        Emit.CommittedRowsStay(mac, Emit.Run(mac, Emit.Chain(map[], map[]), init), op, k);
      }
    }
  }

  /** Below a row of the first table, nothing ever changes. */
  lemma PageBelowIsStable(t: Table, later: Table, where: Match, a: int, n: nat)
    requires GrowsTo(t, later) && a in t
    ensures Page(later, where, true, Some(a), n) == Page(t, where, true, Some(a), n)
  {
    hide Ascending;
    var p, q := Past(t, where, true, Some(a)), Past(later, where, true, Some(a));
    forall k ensures k in p <==> k in q {
    }
    assert p == q;
    var ks := Reverse(Ascending(p));
    assert RowsAt(t, ks) == RowsAt(later, ks);
  }

  function Below(t: Table, where: Match, cursor: Option<int>): set<int> {
    Past(t, where, true, cursor)
  }

  lemma FewerBelow(t: Table, where: Match, cursor: Option<int>, n: nat)
    requires WellKeyed(t) && n >= 1
    requires |Page(t, where, true, cursor, n)| == n
    ensures var a := Page(t, where, true, cursor, n)[n - 1].fields.seqNo;
      a in t && a in Below(t, where, cursor) && Below(t, where, Some(a)) < Below(t, where, cursor)
  {
    hide Ascending;
    var ks := Reverse(Ascending(Below(t, where, cursor)));
    var page := Page(t, where, true, cursor, n);
    assert page[n - 1] == t[ks[n - 1]];
    var a := page[n - 1].fields.seqNo;
    assert ks[n - 1] in Ascending(Below(t, where, cursor));
    hide Page, RowsAt;
    assert a in Below(t, where, cursor);
    assert a !in Below(t, where, Some(a));
  }

  lemma SmallerSet(a: set<int>, b: set<int>)
    requires a < b
    ensures |a| < |b|
  {
    var d := b - a;
    assert b == a + d;
    assert d != {};
  }

  /** Following the cursors: the k-th request reads `h(k)`. */
  ghost function Walk(h: nat -> Table, k: nat, where: Match, cursor: Option<int>, limit: int,
          pageLimitMax: int): seq<Row>
    requires GrowingHistory(h)
    requires if k == 0 then cursor == None else cursor.Some? && cursor.value in h(0)
    decreases |Below(h(0), where, cursor)|
  {
    var page := PageOf(h(k), where, cursor, limit, pageLimitMax);
    WalkStep(h, k, where, cursor, limit, pageLimitMax);
    if page.nextCursor == None then page.items
    else page.items + Walk(h, k + 1, where, page.nextCursor, limit, pageLimitMax)
  }

  /** Each request reads what the first table held below the cursor, and moves the cursor down. */
  lemma WalkStep(h: nat -> Table, k: nat, where: Match, cursor: Option<int>, limit: int, pageLimitMax: int)
    requires GrowingHistory(h)
    requires if k == 0 then cursor == None else cursor.Some? && cursor.value in h(0)
    ensures PageOf(h(k), where, cursor, limit, pageLimitMax) == PageOf(h(0), where, cursor, limit, pageLimitMax)
    ensures var next := PageOf(h(k), where, cursor, limit, pageLimitMax).nextCursor;
      next.Some? ==> next.value in h(0) && |Below(h(0), where, next)| < |Below(h(0), where, cursor)|
  {
    hide Page, Past;
    var n := PageSize(limit, pageLimitMax);
    assert GrowsTo(h(0), h(k));
    if k > 0 {
      PageBelowIsStable(h(0), h(k), where, cursor.value, n);
    }
    if |Page(h(0), where, true, cursor, n)| == n {
      FewerBelow(h(0), where, cursor, n);
      var a := Page(h(0), where, true, cursor, n)[n - 1].fields.seqNo;
      SmallerSet(Below(h(0), where, Some(a)), Below(h(0), where, cursor));
    }
  }

  lemma FrontReversed(all: seq<Row>, i: nat, n: nat)
    requires n <= i <= |all|
    ensures Reverse(all[..i]) == Reverse(all[..i])[..n] + Reverse(all[..i - n])
    ensures n >= 1 ==> Reverse(all[..i])[n - 1] == all[i - n]
  {
  }

  lemma {:induction false} WalkFrom(h: nat -> Table, k: nat, where: Match, cursor: Option<int>, limit: int,
          pageLimitMax: int, i: nat)
    requires GrowingHistory(h)
    requires i <= |Scan(h(0), where)|
    requires if k == 0 then cursor == None && i == |Scan(h(0), where)|
             else i < |Scan(h(0), where)| && cursor == Some(Scan(h(0), where)[i].fields.seqNo) && cursor.value in h(0)
    ensures Walk(h, k, where, cursor, limit, pageLimitMax) == Reverse(Scan(h(0), where)[..i])
    decreases i
  {
    hide Page, Scan;
    var n := PageSize(limit, pageLimitMax);
    var all := Scan(h(0), where);
    assert GrowsTo(h(0), h(0));
    WalkStep(h, k, where, cursor, limit, pageLimitMax);
    DescendingPage(h(0), where, cursor, i, n);
    var page := PageOf(h(0), where, cursor, limit, pageLimitMax);
    assert page.items == SliceTo(Reverse(all[..i]), n);
    if page.nextCursor.Some? {
      FrontReversed(all, i, n);
      WalkFrom(h, k + 1, where, page.nextCursor, limit, pageLimitMax, i - n);
    }
  }

  lemma NewestFirst(t: Table, where: Match)
    requires WellKeyed(t)
    ensures var walk := Reverse(Scan(t, where));
      && (forall k :: k in t && where(t[k]) ==> t[k] in walk)
      && (forall i :: 0 <= i < |walk| ==> var k := walk[i].fields.seqNo; k in t && where(t[k]) && t[k] == walk[i])
      && (forall i, j :: 0 <= i < j < |walk| ==> walk[i].fields.seqNo > walk[j].fields.seqNo)
  {
    hide Scan;
    var all := Scan(t, where);
    var walk := Reverse(all);
    ScanAt(t, where);
    forall k | k in t && where(t[k]) ensures t[k] in walk {
      assert k in Matching(t, where);
      var i :| 0 <= i < |all| && all[i] == t[k];
      assert walk[|all| - 1 - i] == t[k];
    }
    forall i | 0 <= i < |walk|
      ensures var k := walk[i].fields.seqNo; k in t && where(t[k]) && t[k] == walk[i]
    {
      assert walk[i] == all[|all| - 1 - i];
      assert all[|all| - 1 - i].fields.seqNo in Matching(t, where);
    }
  }

  /** A walk returns the rows that matched when it began, each once, newest first, whatever is
      appended meanwhile. */
  lemma WalkIsSnapshot(h: nat -> Table, where: Match, limit: int, pageLimitMax: int)
    requires GrowingHistory(h)
    ensures var walk := Walk(h, 0, where, None, limit, pageLimitMax);
      && walk == Reverse(Scan(h(0), where))
      && (forall k :: k in h(0) && where(h(0)[k]) ==> h(0)[k] in walk)
      && (forall i :: 0 <= i < |walk| ==>
            var k := walk[i].fields.seqNo; k in h(0) && where(h(0)[k]) && h(0)[k] == walk[i])
      && (forall i, j :: 0 <= i < j < |walk| ==> walk[i].fields.seqNo > walk[j].fields.seqNo)
  {
    hide Page, Scan, Walk;
    assert GrowsTo(h(0), h(0));
    var all := Scan(h(0), where);
    WalkFrom(h, 0, where, None, limit, pageLimitMax, |all|);
    assert all[..|all|] == all;
    NewestFirst(h(0), where);
  }

  /** What the k-th page request of a walk reads when `seen(k)` steps of a run have been made by then. */
  function Reads(mac: Mac, ops: seq<Emit.Op>, seen: nat -> nat): nat -> Table {
    (k: nat) => After(mac, ops[..Min(seen(k), |ops|)])
  }

  /** A walk beside any run of concurrent emits, commits and rollbacks, page by page at any later
      point of it, returns exactly what matched when it began. */
  lemma WalkBesideEmits(mac: Mac, ops: seq<Emit.Op>, seen: nat -> nat, where: Match, limit: int, pageLimitMax: int)
    requires forall k: nat :: seen(0) <= seen(k)
    ensures GrowingHistory(Reads(mac, ops, seen))
    ensures var start := After(mac, ops[..Min(seen(0), |ops|)]);
      var walk := Walk(Reads(mac, ops, seen), 0, where, None, limit, pageLimitMax);
      && walk == Reverse(Scan(start, where))
      && (forall i :: 0 <= i < |walk| ==> var k := walk[i].fields.seqNo;
          k in start && where(start[k]) && start[k] == walk[i])
      && (forall i, j :: 0 <= i < j < |walk| ==> walk[i].fields.seqNo > walk[j].fields.seqNo)
  {
    hide GrowsTo, After, Scan, Walk;
    var h := Reads(mac, ops, seen);
    forall k: nat ensures GrowsTo(h(0), h(k)) {
      var n, m := Min(seen(0), |ops|), Min(seen(k), |ops|);
      assert seen(0) <= seen(k);
      assert ops[..m][..n] == ops[..n];
      RunGrows(mac, ops[..m], n);
    }
    WalkIsSnapshot(h, where, limit, pageLimitMax);
  }
}
