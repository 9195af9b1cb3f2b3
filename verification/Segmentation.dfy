/** Segment summaries over one continuous chain. */
module Segmentation {
  import opened Prelude
  import opened Canonical
  import opened LineageTable
  import opened Verification
  import Emit

  const COUNT_PAGE: nat := 1000

  datatype SegmentInfo = SegmentInfo(
    segmentId: int,
    firstSeq: int,
    lastSeq: int,
    openingPrevMarker: string,
    closingMarker: string,
    count: nat)

  function InSegment(segmentId: int): Match {
    (r: Row) => r.segmentId == Some(segmentId)
  }

  predicate VerifyContinuity(prior: SegmentInfo, next: SegmentInfo) {
    next.openingPrevMarker == prior.closingMarker
  }

  /** Counting page by page counts every row of the segment once. */
  method Count(t: Table, segmentId: int) returns (total: nat)
    requires WellKeyed(t)
    ensures total == |Scan(t, InSegment(segmentId))|
  {
    hide Scan, Page;
    var where := InSegment(segmentId);
    ghost var all := Scan(t, where);
    total := 0;
    var after: Option<int> := None;
    while true
      invariant total <= |all|
      invariant if total == 0 then after == None else after == Some(all[total - 1].fields.seqNo)
      decreases |all| - total
    {
      AscendingPage(t, where, after, total, COUNT_PAGE);
      var rows := Page(t, where, false, after, COUNT_PAGE);
      if rows == [] {
        break;
      }
      total := total + |rows|;
      after := Some(rows[|rows| - 1].fields.seqNo);
      if |rows| < COUNT_PAGE {
        break;
      }
    }
  }

  /** The summary of a segment, read off its rows in order. */
  function SummaryOf(rows: seq<Row>, segmentId: int): Option<SegmentInfo> {
    if rows == [] then None
    else
      var first, last := rows[0], rows[|rows| - 1];
      Some(SegmentInfo(segmentId, first.fields.seqNo, last.fields.seqNo, StoredPrev(first), last.marker, |rows|))
  }

  method Summary(t: Table, segmentId: int) returns (info: Option<SegmentInfo>)
    requires WellKeyed(t)
    ensures info == SummaryOf(Scan(t, InSegment(segmentId)), segmentId)
  {
    hide Scan, Page;
    var where := InSegment(segmentId);
    ghost var all := Scan(t, where);
    AscendingPage(t, where, None, 0, 1);
    assert all[0..] == all && all[..|all|] == all;
    var first := Page(t, where, false, None, 1);
    if first == [] {
      return None;
    }
    DescendingPage(t, where, None, |all|, 1);
    var last := Page(t, where, true, None, 1);
    var count := Count(t, segmentId);
    info := Some(SegmentInfo(segmentId, first[0].fields.seqNo, last[0].fields.seqNo,
                             StoredPrev(first[0]), last[0].marker, count));
  }

  // ----- labels over a valid chain ------------------------------------------------------

  /** Every row carries a label, and labels never decrease along the chain. */
  predicate Labelled(rows: seq<Row>) {
    && (forall i :: 0 <= i < |rows| ==> rows[i].segmentId.Some?)
    && (forall i, j :: 0 <= i < j < |rows| ==> rows[i].segmentId.value <= rows[j].segmentId.value)
  }

  /** The rows of one segment are one run of the chain. */
  lemma {:induction false} SegmentIsRun(rows: seq<Row>, segmentId: int) returns (lo: nat, hi: nat)
    requires Labelled(rows)
    ensures lo <= hi <= |rows|
    ensures forall i :: 0 <= i < |rows| ==> (lo <= i < hi <==> rows[i].segmentId == Some(segmentId))
    ensures lo < hi ==> forall i :: hi <= i < |rows| ==> rows[i].segmentId.value > segmentId
  {
    if rows == [] {
      lo, hi := 0, 0;
    } else {
      var n := |rows| - 1;
      var init := rows[..n];
      assert forall i :: 0 <= i < n ==> init[i] == rows[i];
      lo, hi := SegmentIsRun(init, segmentId);
      if rows[n].segmentId == Some(segmentId) {
        if lo == hi {
          lo, hi := n, n + 1;
        } else {
          NothingAbove(rows, segmentId, hi);
          hi := n + 1;
        }
      } else if lo < hi {
        assert rows[lo].segmentId == Some(segmentId);
      }
    }
  }

  /** If the last row has the label, no row before it has a greater one. */
  lemma NothingAbove(rows: seq<Row>, segmentId: int, hi: nat)
    requires Labelled(rows) && rows != [] && rows[|rows| - 1].segmentId == Some(segmentId)
    requires forall i :: hi <= i < |rows| - 1 ==> rows[i].segmentId.value > segmentId
    ensures hi >= |rows| - 1
  {
    var i := Min(hi, |rows| - 1);
    assert rows[i].segmentId.value <= rows[|rows| - 1].segmentId.value;
  }

  lemma RunOfKeys(all: set<int>, some: set<int>, lo: nat, hi: nat)
    requires some <= all && lo <= hi <= |Ascending(all)|
    requires forall i :: 0 <= i < |Ascending(all)| ==> (lo <= i < hi <==> Ascending(all)[i] in some)
    ensures Ascending(some) == Ascending(all)[lo..hi]
  {
    hide Ascending;
    var ks := Ascending(all);
    forall k | k in some ensures k in ks[lo..hi] {
      var i :| 0 <= i < |ks| && ks[i] == k;
      assert ks[lo..hi][i - lo] == k;
    }
    AscendingUnique(Ascending(some), ks[lo..hi]);
  }

  /** Reading one segment yields its run of the whole scan. */
  lemma ScanSegment(t: Table, segmentId: int) returns (lo: nat, hi: nat)
    requires WellKeyed(t) && Labelled(Scan(t, AnyRow()))
    ensures var rows := Scan(t, AnyRow());
      && lo <= hi <= |rows|
      && Scan(t, InSegment(segmentId)) == rows[lo..hi]
      && (forall i :: 0 <= i < |rows| ==> (lo <= i < hi <==> rows[i].segmentId == Some(segmentId)))
      && (lo < hi ==> forall i :: hi <= i < |rows| ==> rows[i].segmentId.value > segmentId)
  {
    hide Ascending, Labelled;
    var rows := Scan(t, AnyRow());
    lo, hi := SegmentIsRun(rows, segmentId);
    var all, mine := Matching(t, AnyRow()), Matching(t, InSegment(segmentId));
    var ks := Ascending(all);
    forall i | 0 <= i < |ks| ensures lo <= i < hi <==> ks[i] in mine {
      assert rows[i] == t[ks[i]];
    }
    RunOfKeys(all, mine, lo, hi);
    assert RowsAt(t, ks[lo..hi]) == RowsAt(t, ks)[lo..hi];
  }

  /** A segment of a valid chain has no gaps: its count is its span of numbers. */
  lemma CountIsSpan(mac: Mac, t: Table, segmentId: int)
    requires WellKeyed(t) && ValidChain(mac, Scan(t, AnyRow())) && Labelled(Scan(t, AnyRow()))
    ensures match SummaryOf(Scan(t, InSegment(segmentId)), segmentId)
      case None => forall i :: 0 <= i < |Scan(t, AnyRow())| ==> Scan(t, AnyRow())[i].segmentId != Some(segmentId)
      case Some(info) => info.count == info.lastSeq - info.firstSeq + 1
  {
    hide Scan, GoodRow, Labelled;
    var rows := Scan(t, AnyRow());
    var lo, hi := ScanSegment(t, segmentId);
    if lo < hi {
      ContiguousSeq(mac, rows, lo);
      ContiguousSeq(mac, rows, hi - 1);
    }
  }

  /** Neighbouring segments of a valid chain join: the next opens on the marker the prior closed with. */
  lemma NeighboursAreContinuous(mac: Mac, t: Table, prior: int, next: int)
    requires WellKeyed(t) && ValidChain(mac, Scan(t, AnyRow())) && Labelled(Scan(t, AnyRow()))
    requires Scan(t, InSegment(prior)) != [] && Scan(t, InSegment(next)) != [] && prior < next
    requires forall i :: 0 <= i < |Scan(t, AnyRow())| ==>
      var tag := Scan(t, AnyRow())[i].segmentId.value; tag <= prior || next <= tag
    ensures VerifyContinuity(SummaryOf(Scan(t, InSegment(prior)), prior).value,
                             SummaryOf(Scan(t, InSegment(next)), next).value)
  {
    hide Scan, Authentic;
    var rows := Scan(t, AnyRow());
    var lo, hi := ScanSegment(t, prior);
    var lo', hi' := ScanSegment(t, next);
    assert rows[lo].segmentId == Some(prior) && rows[lo'].segmentId == Some(next);
    assert hi <= lo';
    assert rows[hi].segmentId.value > prior && rows[hi].segmentId.value <= rows[lo'].segmentId.value;
    assert rows[hi].segmentId == Some(next);
    assert lo' == hi;
    assert GoodRow(mac, rows, hi);
  }

  /** The summary spans its segment: both ends are rows of it, no row lies outside them, and the markers are
      those that lead into the first and close the last. */
  lemma SummarySpans(t: Table, segmentId: int, info: SegmentInfo)
    requires WellKeyed(t) && SummaryOf(Scan(t, InSegment(segmentId)), segmentId) == Some(info)
    ensures info.segmentId == segmentId
    ensures info.firstSeq in t && t[info.firstSeq].segmentId == Some(segmentId)
    ensures info.lastSeq in t && t[info.lastSeq].segmentId == Some(segmentId)
    ensures forall k :: k in t && t[k].segmentId == Some(segmentId) ==> info.firstSeq <= k <= info.lastSeq
    ensures info.closingMarker == t[info.lastSeq].marker
    ensures info.openingPrevMarker == t[info.firstSeq].prevMarker.GetOr("")
  {
    var ks := Ascending(Matching(t, InSegment(segmentId)));
    assert ks[0] in Matching(t, InSegment(segmentId)) && ks[|ks| - 1] in Matching(t, InSegment(segmentId));
    forall k | k in t && t[k].segmentId == Some(segmentId) ensures info.firstSeq <= k <= info.lastSeq {
      assert k in Matching(t, InSegment(segmentId));
      var i :| 0 <= i < |ks| && ks[i] == k;
    }
  }

  /** An emit on a chained, labelled table keeps it labelled: the new row has the last row's segment. */
  lemma EmitKeepsLabels(mac: Mac, t: Table, intent: Emit.Intent, lineageId: string)
    requires Emit.Chained(mac, t) && Labelled(Scan(t, AnyRow()))
    ensures Labelled(Scan(Emit.Emitted(mac, t, intent, lineageId), AnyRow()))
  {
    hide Emit.Chained, Emit.EmitRow, Scan, ValidChain;
    var r, t' := Emit.EmitRow(mac, t, intent, lineageId), Emit.Emitted(mac, t, intent, lineageId);
    Emit.EmitChains(mac, t, intent, lineageId);
    Emit.EmittedSays(mac, t, intent, lineageId);
    Emit.ChainedScan(mac, t);
    Emit.ChainedScan(mac, t');
    var rows, rows' := Scan(t, AnyRow()), Scan(t', AnyRow());
    assert |t'| == |t| + 1;
    assert forall i :: 0 <= i < |rows| ==> rows'[i] == rows[i];
    assert rows'[|rows|] == r;
    if |t| > 0 {
      Emit.ChainedKeys(mac, t);
      assert rows[|t| - 1] == t[|t|];
    }
  }
}
