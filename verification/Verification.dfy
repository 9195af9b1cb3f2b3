/** Verification of the lineage hash chain, and what a successful verification binds. */
module Verification {
  import opened Prelude
  import opened Canonical
  import opened LineageTable

  datatype Kind = MarkerMismatch | BrokenLink | SeqGap

  datatype Finding = Finding(kind: Kind, seqNo: int, lineageId: string, detail: string)

  datatype Report = Report(
    scanned: nat,
    ok: bool,
    firstSeq: Option<int>,
    lastSeq: Option<int>,
    findings: seq<Finding>)

  const UNKNOWN_VERSION := "unknown marker_version"
  const TAMPERED := "recomputed marker != stored (tamper-evident)"
  const UNLINKED := "prev_marker != prior record integrity_marker"
  const GAP := "non-contiguous seq"

  /** The stored previous marker; an absent one counts as empty. */
  function StoredPrev(r: Row): string { Text(r.prevMarker) }

  /** The stored marker version; an absent one and zero count as version 1. */
  function Version(r: Row): int {
    if r.markerVersion == None || r.markerVersion == Some(0) then MARKER_VERSION_V1 else r.markerVersion.value
  }

  function RowContent(r: Row): string { Content(r.fields, StoredPrev(r)) }

  // ----- what a valid chain is ----------------------------------------------------------

  predicate Authentic(mac: Mac, r: Row) {
    Version(r) == MARKER_VERSION_V1 && r.marker == mac(RowContent(r))
  }

  /** The marker the i-th row must chain on. */
  function MarkerBefore(rows: seq<Row>, i: nat): string
    requires i <= |rows|
  {
    if i == 0 then "" else rows[i - 1].marker
  }

  /** The i-th row is authentic, chains on its predecessor and takes the next number. */
  predicate GoodRow(mac: Mac, rows: seq<Row>, i: nat)
    requires i < |rows|
  {
    && Authentic(mac, rows[i])
    && StoredPrev(rows[i]) == MarkerBefore(rows, i)
    && (i > 0 ==> rows[i].fields.seqNo == rows[i - 1].fields.seqNo + 1)
  }

  predicate ValidChain(mac: Mac, rows: seq<Row>) {
    forall i :: 0 <= i < |rows| ==> GoodRow(mac, rows, i)
  }

  // ----- the findings, row by row -------------------------------------------------------

  function MarkerFindings(mac: Mac, r: Row): seq<Finding> {
    if Version(r) != MARKER_VERSION_V1 then
      [Finding(MarkerMismatch, r.fields.seqNo, r.fields.lineageId, UNKNOWN_VERSION)]
    else if mac(RowContent(r)) != r.marker then
      [Finding(MarkerMismatch, r.fields.seqNo, r.fields.lineageId, TAMPERED)]
    else []
  }

  function RowFindings(mac: Mac, rows: seq<Row>, i: nat): seq<Finding>
    requires i < |rows|
  {
    var r := rows[i];
    MarkerFindings(mac, r)
    + (if StoredPrev(r) != MarkerBefore(rows, i)
       then [Finding(BrokenLink, r.fields.seqNo, r.fields.lineageId, UNLINKED)] else [])
    + (if i > 0 && r.fields.seqNo != rows[i - 1].fields.seqNo + 1
       then [Finding(SeqGap, r.fields.seqNo, r.fields.lineageId, GAP)] else [])
  }

  function Findings(mac: Mac, rows: seq<Row>, n: nat): seq<Finding>
    requires n <= |rows|
  {
    if n == 0 then [] else Findings(mac, rows, n - 1) + RowFindings(mac, rows, n - 1)
  }

  lemma {:induction false} CleanRows(mac: Mac, rows: seq<Row>, n: nat)
    requires n <= |rows|
    ensures Findings(mac, rows, n) == [] <==> forall i :: 0 <= i < n ==> RowFindings(mac, rows, i) == []
  {
    hide RowFindings;
    if n > 0 {
      CleanRows(mac, rows, n - 1);
    }
  }

  lemma CleanRowIsGood(mac: Mac, rows: seq<Row>, i: nat)
    requires i < |rows|
    ensures RowFindings(mac, rows, i) == [] <==> GoodRow(mac, rows, i)
  {
    hide RowContent;
  }

  /** No finding is reported exactly when the chain is valid. */
  lemma NoFindingsIffValid(mac: Mac, rows: seq<Row>)
    ensures Findings(mac, rows, |rows|) == [] <==> ValidChain(mac, rows)
  {
    hide RowFindings, GoodRow;
    CleanRows(mac, rows, |rows|);
    forall i | 0 <= i < |rows| ensures RowFindings(mac, rows, i) == [] <==> GoodRow(mac, rows, i) {
      CleanRowIsGood(mac, rows, i);
    }
  }

  /** What a finding of a kind says of the i-th row. */
  predicate Fault(mac: Mac, rows: seq<Row>, i: nat, kind: Kind)
    requires i < |rows|
  {
    var r := rows[i];
    match kind
    case MarkerMismatch =>
      r.markerVersion !in {None, Some(0), Some(1)} || r.marker != mac(Content(r.fields, r.prevMarker.GetOr("")))
    case BrokenLink => r.prevMarker.GetOr("") != if i == 0 then "" else rows[i - 1].marker
    case SeqGap => i > 0 && r.fields.seqNo != rows[i - 1].fields.seqNo + 1
  }

  predicate Reported(findings: seq<Finding>, kind: Kind, seqNo: int) {
    exists j :: 0 <= j < |findings| && findings[j].kind == kind && findings[j].seqNo == seqNo
  }

  lemma ReportedConcat(a: seq<Finding>, b: seq<Finding>, kind: Kind, seqNo: int)
    ensures Reported(a + b, kind, seqNo) <==> Reported(a, kind, seqNo) || Reported(b, kind, seqNo)
  {
    if Reported(a, kind, seqNo) {
      var j :| 0 <= j < |a| && a[j].kind == kind && a[j].seqNo == seqNo;
      assert (a + b)[j] == a[j];
    }
    if Reported(b, kind, seqNo) {
      var j :| 0 <= j < |b| && b[j].kind == kind && b[j].seqNo == seqNo;
      assert (a + b)[|a| + j] == b[j];
    }
  }

  lemma RowReports(mac: Mac, rows: seq<Row>, i: nat, kind: Kind, seqNo: int)
    requires i < |rows|
    ensures Reported(RowFindings(mac, rows, i), kind, seqNo) <==>
      rows[i].fields.seqNo == seqNo && Fault(mac, rows, i, kind)
  {
    hide Content;
    var r := rows[i];
    var marker := MarkerFindings(mac, r);
    var link := if StoredPrev(r) != MarkerBefore(rows, i)
                then [Finding(BrokenLink, r.fields.seqNo, r.fields.lineageId, UNLINKED)] else [];
    var gap := if i > 0 && r.fields.seqNo != rows[i - 1].fields.seqNo + 1
               then [Finding(SeqGap, r.fields.seqNo, r.fields.lineageId, GAP)] else [];
    ReportedConcat(marker + link, gap, kind, seqNo);
    ReportedConcat(marker, link, kind, seqNo);
    OneReported(marker, kind, seqNo);
    OneReported(link, kind, seqNo);
    OneReported(gap, kind, seqNo);
  }

  lemma OneReported(findings: seq<Finding>, kind: Kind, seqNo: int)
    requires |findings| <= 1
    ensures Reported(findings, kind, seqNo) <==>
      findings != [] && findings[0].kind == kind && findings[0].seqNo == seqNo
  {
  }

  /** Each kind is reported of a number exactly when its own condition fails at a row of that number. */
  lemma {:induction false} ReportedIff(mac: Mac, rows: seq<Row>, n: nat, kind: Kind, seqNo: int)
    requires n <= |rows|
    ensures Reported(Findings(mac, rows, n), kind, seqNo) <==>
      exists i :: 0 <= i < n && rows[i].fields.seqNo == seqNo && Fault(mac, rows, i, kind)
  {
    hide RowFindings, Fault, Reported;
    if n > 0 {
      ReportedIff(mac, rows, n - 1, kind, seqNo);
      ReportedConcat(Findings(mac, rows, n - 1), RowFindings(mac, rows, n - 1), kind, seqNo);
      RowReports(mac, rows, n - 1, kind, seqNo);
    } else {
      OneReported([], kind, seqNo);
    }
  }

  // ----- the service --------------------------------------------------------------------

  /** The rows a verification looks at: a prefix of the table in `seq` order. */
  function Scanned(t: Table, scanPage: nat, maxRecords: Option<int>): seq<Row> {
    var all := Scan(t, AnyRow());
    if scanPage == 0 then []
    else
      match maxRecords
      case None => all
      case Some(m) => if m >= 0 then SliceTo(all, m) else SliceTo(SliceTo(all, scanPage), m)
  }

  /** A page continues the rows read so far, and a short one is the last. */
  lemma NextPage(all: seq<Row>, n: nat, rows: seq<Row>, limit: nat)
    requires n <= |all| && rows == SliceTo(all[n..], limit)
    ensures n + |rows| <= |all| && all[..n] + rows == all[..n + |rows|]
    ensures |rows| < limit ==> n + |rows| == |all|
    ensures rows != [] ==> rows[|rows| - 1] == all[..n + |rows|][n + |rows| - 1]
    ensures rows == [] ==> limit == 0 || n == |all|
  {
  }

  lemma CutIsScanned(t: Table, scanPage: nat, m: int, k: nat)
    requires scanPage > 0 && k <= |Scan(t, AnyRow())|
    requires if m >= 0 then k >= m else Scan(t, AnyRow())[..k] == SliceTo(Scan(t, AnyRow()), scanPage)
    ensures SliceTo(Scan(t, AnyRow())[..k], m) == Scanned(t, scanPage, Some(m))
  {
    hide Scan;
  }

  lemma EndIsScanned(t: Table, scanPage: nat, maxRecords: Option<int>, out: seq<Row>)
    requires if scanPage == 0 then out == [] else out == Scan(t, AnyRow())
    requires maxRecords.Some? && out != [] ==> |out| < maxRecords.value
    ensures out == Scanned(t, scanPage, maxRecords)
  {
    hide Scan;
  }

  class LineageVerifier {
    const mac: Mac
    const scanPage: nat

    constructor (mac: Mac, scanPage: nat)
      ensures this.mac == mac && this.scanPage == scanPage
    {
      this.mac := mac;
      this.scanPage := scanPage;
    }

    /** Keyset paging to the end of the table, or to `maxRecords`. */
    method ScanAscending(t: Table, maxRecords: Option<int>) returns (out: seq<Row>)
      requires WellKeyed(t)
      ensures out == Scanned(t, scanPage, maxRecords)
    {
      hide Scan, Page, WellKeyed, Scanned, SliceTo;
      ghost var all := Scan(t, AnyRow());
      out := [];
      var after: Option<int> := None;
      while true
        invariant |out| <= |all| && out == all[..|out|]
        invariant if out == [] then after == None else after == Some(out[|out| - 1].fields.seqNo)
        invariant maxRecords.Some? && out != [] ==> |out| < maxRecords.value
        invariant out != [] ==> scanPage > 0
        decreases |all| - |out|
      {
        AscendingPage(t, AnyRow(), after, |out|, scanPage);
        var rows := Page(t, AnyRow(), false, after, scanPage);
        NextPage(all, |out|, rows, scanPage);
        assert out == [] ==> all[|out|..] == all;
        if rows == [] {
          break;
        }
        out := out + rows;
        after := Some(rows[|rows| - 1].fields.seqNo);
        if maxRecords.Some? && |out| >= maxRecords.value {
          CutIsScanned(t, scanPage, maxRecords.value, |out|);
          return SliceTo(out, maxRecords.value);
        }
        if |rows| < scanPage {
          break;
        }
      }
      EndIsScanned(t, scanPage, maxRecords, out);
    }

    /** The marker is recomputed from the row under its stated version, and compared. */
    method Recompute(r: Row) returns (found: seq<Finding>)
      ensures found == MarkerFindings(mac, r)
    {
      hide Content;
      var expected: Option<string> := None;
      found := [];
      if Version(r) == MARKER_VERSION_V1 {
        expected := Some(mac(Content(r.fields, StoredPrev(r))));
      } else {
        found := found + [Finding(MarkerMismatch, r.fields.seqNo, r.fields.lineageId, UNKNOWN_VERSION)];
      }
      if expected != None && expected != Some(r.marker) {
        found := found + [Finding(MarkerMismatch, r.fields.seqNo, r.fields.lineageId, TAMPERED)];
      }
    }

    method Verify(t: Table, maxRecords: Option<int>) returns (report: Report)
      requires WellKeyed(t)
      ensures var rows := Scanned(t, scanPage, maxRecords);
        && report.scanned == |rows|
        && report.findings == Findings(mac, rows, |rows|)
        && (forall kind, seqNo :: Reported(report.findings, kind, seqNo) <==>
              exists i :: 0 <= i < |rows| && rows[i].fields.seqNo == seqNo && Fault(mac, rows, i, kind))
        && (report.ok <==> ValidChain(mac, rows))
        && report.firstSeq == (if rows == [] then None else Some(rows[0].fields.seqNo))
        && report.lastSeq == (if rows == [] then None else Some(rows[|rows| - 1].fields.seqNo))
    {
      hide Scan, Scanned, ValidChain, MarkerFindings, StoredPrev, Reported, Fault;
      var rows := ScanAscending(t, maxRecords);
      var findings: seq<Finding> := [];
      var prevMarker := "";
      var prevSeq: Option<int> := None;
      var firstSeq: Option<int> := None;
      var lastSeq: Option<int> := None;
      for i := 0 to |rows|
        invariant findings == Findings(mac, rows, i)
        invariant prevMarker == MarkerBefore(rows, i)
        invariant prevSeq == lastSeq == (if i == 0 then None else Some(rows[i - 1].fields.seqNo))
        invariant firstSeq == if i == 0 then None else Some(rows[0].fields.seqNo)
      {
        var r := rows[i];
        var seqNo := r.fields.seqNo;
        firstSeq := if firstSeq == None then Some(seqNo) else firstSeq;
        lastSeq := Some(seqNo);
        var found := Recompute(r);
        if StoredPrev(r) != prevMarker {
          found := found + [Finding(BrokenLink, seqNo, r.fields.lineageId, UNLINKED)];
        }
        if prevSeq.Some? && seqNo != prevSeq.value + 1 {
          found := found + [Finding(SeqGap, seqNo, r.fields.lineageId, GAP)];
        }
        assert found == RowFindings(mac, rows, i);
        findings := findings + found;
        prevMarker := r.marker;
        prevSeq := Some(seqNo);
      }
      NoFindingsIffValid(mac, rows);
      forall kind, seqNo
        ensures Reported(findings, kind, seqNo) <==>
          exists i :: 0 <= i < |rows| && rows[i].fields.seqNo == seqNo && Fault(mac, rows, i, kind) {
        ReportedIff(mac, rows, |rows|, kind, seqNo);
      }
      report := Report(|rows|, findings == [], firstSeq, lastSeq, findings);
    }
  }

  /** A valid chain stays valid when the scan is cut short. */
  lemma PrefixValid(mac: Mac, rows: seq<Row>, n: nat)
    requires n <= |rows| && ValidChain(mac, rows)
    ensures ValidChain(mac, rows[..n])
  {
    hide Authentic;
    var cut := rows[..n];
    forall i | 0 <= i < n ensures GoodRow(mac, cut, i) {
      assert GoodRow(mac, rows, i);
    }
  }

  // ----- what a marker binds ------------------------------------------------------------

  predicate Agree(rows: seq<Row>, others: seq<Row>) {
    && |rows| == |others|
    && forall i :: 0 <= i < |rows| ==> SameV1(rows[i].fields, others[i].fields)
  }

  predicate TableSeparatorFree(rows: seq<Row>) {
    forall i :: 0 <= i < |rows| ==> FieldsSeparatorFree(rows[i].fields)
  }

  ghost predicate CollisionBetween(mac: Mac, rows: seq<Row>, others: seq<Row>) {
    exists i: nat, j: nat :: 0 <= i < |rows| && 0 <= j < |others|
                   && Collision(mac, RowContent(rows[i]), RowContent(others[j]))
  }

  lemma AgreeSnoc(rows: seq<Row>, others: seq<Row>)
    requires rows != [] && others != []
    requires Agree(rows[..|rows| - 1], others[..|others| - 1])
    requires SameV1(rows[|rows| - 1].fields, others[|others| - 1].fields)
    ensures Agree(rows, others)
  {
    hide SameV1;
    var m := |rows| - 1;
    forall i | 0 <= i < |rows| ensures SameV1(rows[i].fields, others[i].fields) {
      if i < m {
        assert SameV1(rows[..m][i].fields, others[..m][i].fields);
      }
    }
  }

  lemma CollisionInPrefix(mac: Mac, rows: seq<Row>, others: seq<Row>, m: nat, n: nat)
    requires m <= |rows| && n <= |others|
    requires CollisionBetween(mac, rows[..m], others[..n])
    ensures CollisionBetween(mac, rows, others)
  {
    hide RowContent;
    var i, j :| 0 <= i < m && 0 <= j < n
                && Collision(mac, RowContent(rows[..m][i]), RowContent(others[..n][j]));
    assert Collision(mac, RowContent(rows[i]), RowContent(others[j]));
  }

  lemma LastMarker(mac: Mac, rows: seq<Row>)
    requires NonEmptyMac(mac) && ValidChain(mac, rows)
    ensures MarkerBefore(rows, |rows|) == "" <==> rows == []
  {
    hide RowContent;
    if rows != [] {
      assert GoodRow(mac, rows, |rows| - 1);
    }
  }

  /** The marker a row of a valid chain is chained on is empty or a digest. */
  lemma PrevIsDigest(mac: Mac, rows: seq<Row>, i: nat)
    requires ValidChain(mac, rows) && i < |rows| && SeparatorFreeDigests(mac)
    ensures SeparatorFree(StoredPrev(rows[i]))
  {
    hide RowContent;
    assert GoodRow(mac, rows, i);
    if i > 0 {
      assert GoodRow(mac, rows, i - 1);
    }
  }

  /** Equal contents of two such rows are equal rows, although the other table may hold anything. */
  lemma SameContentSameRow(mac: Mac, rows: seq<Row>, others: seq<Row>, m: nat, n: nat)
    requires ValidChain(mac, rows) && m < |rows| && n < |others| && TableSeparatorFree(rows)
    requires TableSeparatorFree(others) || SeparatorFreeDigests(mac)
    requires RowContent(rows[m]) == RowContent(others[n])
    ensures StoredPrev(rows[m]) == StoredPrev(others[n]) && SameV1(rows[m].fields, others[n].fields)
  {
    hide Content, SameV1, FieldsSeparatorFree, ValidChain;
    var r, o := rows[m], others[n];
    if TableSeparatorFree(others) {
      ContentDetermines(r.fields, StoredPrev(r), o.fields, StoredPrev(o));
    } else {
      PrevIsDigest(mac, rows, m);
      FreeContentDetermines(r.fields, StoredPrev(r), o.fields, StoredPrev(o));
    }
  }

  /** Two valid chains that end in one marker are the same history, or they exhibit two different
      contents with one marker. One separator-free table is enough when digests hold no separators,
      as hexadecimal ones do: a forged table may abuse them at will. */
  lemma {:induction false} ChainBinding(mac: Mac, rows: seq<Row>, others: seq<Row>)
    requires NonEmptyMac(mac)
    requires ValidChain(mac, rows) && ValidChain(mac, others)
    requires TableSeparatorFree(rows) && (TableSeparatorFree(others) || SeparatorFreeDigests(mac))
    requires MarkerBefore(rows, |rows|) == MarkerBefore(others, |others|)
    ensures Agree(rows, others) || CollisionBetween(mac, rows, others)
  {
    hide Content, SameV1, FieldsSeparatorFree;
    LastMarker(mac, rows);
    LastMarker(mac, others);
    if rows != [] {
      var m, n := |rows| - 1, |others| - 1;
      assert GoodRow(mac, rows, m) && GoodRow(mac, others, n);
      var r, o := rows[m], others[n];
      if RowContent(r) != RowContent(o) {
        assert Collision(mac, RowContent(r), RowContent(o));
      } else {
        SameContentSameRow(mac, rows, others, m, n);
        PrefixValid(mac, rows, m);
        PrefixValid(mac, others, n);
        ChainBinding(mac, rows[..m], others[..n]);
        if CollisionBetween(mac, rows[..m], others[..n]) {
          CollisionInPrefix(mac, rows, others, m, n);
        } else {
          AgreeSnoc(rows, others);
        }
      }
    }
  }

  /** Without a collision the final marker identifies the whole history, and conversely. */
  lemma MarkerIdentifiesHistory(mac: Mac, rows: seq<Row>, others: seq<Row>)
    requires NonEmptyMac(mac)
    requires ValidChain(mac, rows) && ValidChain(mac, others)
    requires TableSeparatorFree(rows) && (TableSeparatorFree(others) || SeparatorFreeDigests(mac))
    requires !CollisionBetween(mac, rows, others)
    ensures MarkerBefore(rows, |rows|) == MarkerBefore(others, |others|) <==> Agree(rows, others)
  {
    if MarkerBefore(rows, |rows|) == MarkerBefore(others, |others|) {
      ChainBinding(mac, rows, others);
    }
    if Agree(rows, others) {
      AgreeSameMarkers(mac, rows, others, |rows|);
    }
  }

  /** Histories that agree carry the same markers, whatever their columns hold. */
  lemma {:induction false} AgreeSameMarkers(mac: Mac, rows: seq<Row>, others: seq<Row>, n: nat)
    requires ValidChain(mac, rows) && ValidChain(mac, others)
    requires Agree(rows, others) && n <= |rows|
    ensures MarkerBefore(rows, n) == MarkerBefore(others, n)
  {
    if n > 0 {
      hide SameV1, Parts;
      AgreeSameMarkers(mac, rows, others, n - 1);
      var r, o := rows[n - 1], others[n - 1];
      assert GoodRow(mac, rows, n - 1) && GoodRow(mac, others, n - 1);
      assert SameV1(r.fields, o.fields);
      SamePartsSameFields(r.fields, o.fields);
    }
  }

  // ----- deletion -----------------------------------------------------------------------

  function Keep(t: Table, ks: set<int>): Table {
    map k | k in t && k in ks :: t[k]
  }

  /** What is kept is everything up to some point of the chain. */
  predicate DownClosed(t: Table, ks: set<int>) {
    forall j, k :: j in t && k in t && k in ks && j < k ==> j in ks
  }

  lemma {:induction false} ContiguousSeq(mac: Mac, rows: seq<Row>, i: nat)
    requires ValidChain(mac, rows) && i < |rows|
    ensures rows[i].fields.seqNo == rows[0].fields.seqNo + i
  {
    if i > 0 {
      hide Authentic;
      ContiguousSeq(mac, rows, i - 1);
      assert GoodRow(mac, rows, i);
    }
  }

  /** The only row of a valid chain that opens it is its first row. */
  lemma OpeningRowIsFirst(mac: Mac, rows: seq<Row>, i: nat)
    requires NonEmptyMac(mac) && ValidChain(mac, rows) && i < |rows|
    ensures StoredPrev(rows[i]) == "" <==> i == 0
  {
    hide RowContent;
    assert GoodRow(mac, rows, i);
    if i > 0 {
      assert GoodRow(mac, rows, i - 1);
    }
  }

  lemma RowIndex(t: Table, k: int) returns (i: nat)
    requires WellKeyed(t) && k in t
    ensures i < |Scan(t, AnyRow())| && Scan(t, AnyRow())[i] == t[k]
  {
    ScanAt(t, AnyRow());
    assert k in Matching(t, AnyRow());
    i :| 0 <= i < |Scan(t, AnyRow())| && Scan(t, AnyRow())[i] == t[k];
  }

  lemma KeptValidIsDownClosed(mac: Mac, t: Table, ks: set<int>)
    requires NonEmptyMac(mac) && WellKeyed(t)
    requires ValidChain(mac, Scan(t, AnyRow())) && ValidChain(mac, Scan(Keep(t, ks), AnyRow()))
    ensures DownClosed(t, ks)
  {
    hide Scan, RowContent;
    var rows, kept := Scan(t, AnyRow()), Scan(Keep(t, ks), AnyRow());
    forall j, k | j in t && k in t && k in ks && j < k
      ensures j in ks
    {
      var b := RowIndex(Keep(t, ks), k);
      ScanAt(Keep(t, ks), AnyRow());
      ScanAt(t, AnyRow());
      var first := kept[0].fields.seqNo;
      assert t[first] == kept[0];
      var o := RowIndex(t, first);
      OpeningRowIsFirst(mac, kept, 0);
      OpeningRowIsFirst(mac, rows, o);
      var a := RowIndex(t, j);
      ContiguousSeq(mac, rows, a);
      ContiguousSeq(mac, kept, b);
      ContiguousSeq(mac, kept, j - first);
      var k' := kept[j - first].fields.seqNo;
      assert k' in Matching(Keep(t, ks), AnyRow());
      assert k' == j;
    }
  }

  lemma KeptBelow(all: set<int>, some: set<int>, i: nat)
    requires i <= |Ascending(all)| && some <= all
    requires forall j :: 0 <= j < i ==> Ascending(all)[j] in some
    requires i < |Ascending(all)| ==> forall k :: k in some ==> k < Ascending(all)[i]
    ensures Ascending(some) == Ascending(all)[..i]
  {
    hide Ascending;
    var a := Ascending(all);
    forall k | k in some ensures k in a[..i] {
      var x :| 0 <= x < |a| && a[x] == k;
      assert x < i;
    }
    AscendingUnique(Ascending(some), a[..i]);
  }

  lemma DownClosedKeepsPrefix(mac: Mac, t: Table, ks: set<int>)
    requires WellKeyed(t) && DownClosed(t, ks)
    ensures Scan(Keep(t, ks), AnyRow()) <= Scan(t, AnyRow())
  {
    hide Ascending;
    var all, some := Matching(t, AnyRow()), Matching(Keep(t, ks), AnyRow());
    var a := Ascending(all);
    var i := FirstDropped(a, ks);
    KeptBelow(all, some, i);
  }

  lemma {:induction false} FirstDropped(a: seq<int>, ks: set<int>) returns (i: nat)
    ensures i <= |a| && (i < |a| ==> a[i] !in ks) && forall j :: 0 <= j < i ==> a[j] in ks
  {
    if a == [] || a[0] !in ks {
      i := 0;
    } else {
      var r := FirstDropped(a[1..], ks);
      i := r + 1;
      assert forall x :: 1 <= x < i ==> a[x] == a[1..][x - 1];
    }
  }

  /** Deleting rows from a valid chain goes unnoticed exactly when only a tail was deleted. */
  lemma DeletionDetected(mac: Mac, t: Table, ks: set<int>)
    requires NonEmptyMac(mac) && WellKeyed(t) && ValidChain(mac, Scan(t, AnyRow()))
    ensures ValidChain(mac, Scan(Keep(t, ks), AnyRow())) <==> DownClosed(t, ks)
    ensures DownClosed(t, ks) <==> Scan(Keep(t, ks), AnyRow()) <= Scan(t, AnyRow())
  {
    hide Scan, DownClosed, ValidChain;
    var rows, kept := Scan(t, AnyRow()), Scan(Keep(t, ks), AnyRow());
    if ValidChain(mac, kept) {
      KeptValidIsDownClosed(mac, t, ks);
    }
    if DownClosed(t, ks) {
      DownClosedKeepsPrefix(mac, t, ks);
    }
    if kept <= rows {
      PrefixValid(mac, rows, |kept|);
      assert rows[..|kept|] == kept;
    }
  }
}
