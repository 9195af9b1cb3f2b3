/** The tenant lineage table, and the keyset page over it that every reader uses. */
module LineageTable {
  import opened Prelude
  import opened Canonical

  datatype Row = Row(
    fields: Fields,
    segmentId: Option<int>,
    correlationId: Option<string>,
    markerVersion: Option<int>,
    prevMarker: Option<string>,
    marker: string)

  /** The table by its unique `seq` column. */
  type Table = map<int, Row>

  predicate WellKeyed(t: Table) {
    forall k :: k in t ==> t[k].fields.seqNo == k
  }

  type Match = Row -> bool

  function AnyRow(): Match { _ => true }

  // ----- keys in order ------------------------------------------------------------------

  ghost predicate StrictlyAscending(ks: seq<int>) {
    forall i, j :: 0 <= i < j < |ks| ==> ks[i] < ks[j]
  }

  lemma {:induction false} LeastExists(s: set<int>)
    requires s != {}
    ensures exists m :: m in s && forall k :: k in s ==> m <= k
  {
    var x := Pick(s);
    var rest := s - {x};
    if rest == {} {
      assert s == {x};
    } else {
      LeastExists(rest);
      var m :| m in rest && forall k :: k in rest ==> m <= k;
      var least := Min(m, x);
      assert forall k :: k in s ==> k == x || k in rest;
      assert least in s && forall k :: k in s ==> least <= k;
    }
  }

  function Least(s: set<int>): (m: int)
    requires s != {}
    ensures m in s && forall k :: k in s ==> m <= k
  {
    LeastExists(s);
    var m :| m in s && forall k :: k in s ==> m <= k;
    m
  }

  function Drain(s: set<int>): seq<int> {
    if s == {} then [] else [Least(s)] + Drain(s - {Least(s)})
  }

  lemma {:induction false} DrainOrders(s: set<int>)
    ensures StrictlyAscending(Drain(s))
    ensures forall i :: 0 <= i < |Drain(s)| ==> Drain(s)[i] in s
    ensures forall k :: k in s ==> k in Drain(s)
    ensures |Drain(s)| == |s|
  {
    if s != {} {
      DrainOrders(s - {Least(s)});
    }
  }

  /** The elements of a set of keys, least first. */
  function Ascending(s: set<int>): (ks: seq<int>)
    ensures StrictlyAscending(ks)
    ensures forall i :: 0 <= i < |ks| ==> ks[i] in s
    ensures forall k :: k in s ==> k in ks
    ensures |ks| == |s|
  {
    DrainOrders(s);
    Drain(s)
  }

  lemma {:induction false} AscendingUnique(ks: seq<int>, ls: seq<int>)
    requires StrictlyAscending(ks) && StrictlyAscending(ls)
    requires forall k :: k in ks <==> k in ls
    ensures ks == ls
  {
    if ls != [] {
      assert ls[0] in ls;
    }
    if ks != [] {
      assert ks[0] in ks;
      assert ls != [];
      assert ks[0] == ls[0];
      forall k ensures k in ks[1..] <==> k in ls[1..] {
        assert k in ks[1..] <==> k in ks && k != ks[0];
        assert k in ls[1..] <==> k in ls && k != ls[0];
      }
      AscendingUnique(ks[1..], ls[1..]);
    }
  }

  lemma AscendingAbove(s: set<int>, i: nat)
    requires i < |Ascending(s)|
    ensures Ascending(set k | k in s && k > Ascending(s)[i]) == Ascending(s)[i + 1..]
  {
    var ks := Ascending(s);
    AscendingUnique(Ascending(set k | k in s && k > ks[i]), ks[i + 1..]);
  }

  lemma AscendingBelow(s: set<int>, i: nat)
    requires i < |Ascending(s)|
    ensures Ascending(set k | k in s && k < Ascending(s)[i]) == Ascending(s)[..i]
  {
    var ks := Ascending(s);
    AscendingUnique(Ascending(set k | k in s && k < ks[i]), ks[..i]);
  }

  // ----- rows and pages -----------------------------------------------------------------

  function RowsAt(t: Table, ks: seq<int>): (rows: seq<Row>)
    requires forall i :: 0 <= i < |ks| ==> ks[i] in t
    ensures |rows| == |ks|
    ensures forall i :: 0 <= i < |ks| ==> rows[i] == t[ks[i]]
  {
    seq(|ks|, i requires 0 <= i < |ks| => t[ks[i]])
  }

  function Matching(t: Table, where: Match): set<int> {
    set k | k in t && where(t[k])
  }

  /** All matching rows in ascending `seq`. */
  function Scan(t: Table, where: Match): seq<Row> {
    RowsAt(t, Ascending(Matching(t, where)))
  }

  function Reverse<T>(xs: seq<T>): (r: seq<T>)
    ensures |r| == |xs|
    ensures forall i :: 0 <= i < |xs| ==> r[i] == xs[|xs| - 1 - i]
  {
    seq(|xs|, i requires 0 <= i < |xs| => xs[|xs| - 1 - i])
  }

  /** Matching keys strictly past the cursor, in the requested direction. */
  function Past(t: Table, where: Match, descending: bool, after: Option<int>): set<int> {
    match after
    case None => Matching(t, where)
    case Some(a) =>
      if descending then set k | k in Matching(t, where) && k < a
      else set k | k in Matching(t, where) && k > a
  }

  function Page(t: Table, where: Match, descending: bool, after: Option<int>, limit: nat): seq<Row> {
    var ks := Ascending(Past(t, where, descending, after));
    SliceTo(RowsAt(t, if descending then Reverse(ks) else ks), limit)
  }

  lemma ScanAt(t: Table, where: Match)
    requires WellKeyed(t)
    ensures |Scan(t, where)| == |Matching(t, where)|
    ensures forall i, j :: 0 <= i < j < |Scan(t, where)| ==>
      Scan(t, where)[i].fields.seqNo < Scan(t, where)[j].fields.seqNo
    ensures forall i :: 0 <= i < |Scan(t, where)| ==>
      var k := Scan(t, where)[i].fields.seqNo; k in Matching(t, where) && t[k] == Scan(t, where)[i]
    ensures forall k :: k in Matching(t, where) ==> t[k] in Scan(t, where)
  {
    var ks := Ascending(Matching(t, where));
    var rows := Scan(t, where);
    forall i | 0 <= i < |rows|
      ensures rows[i].fields.seqNo == ks[i] && ks[i] in Matching(t, where)
    {
      assert ks[i] in ks;
    }
    forall k | k in Matching(t, where) ensures t[k] in rows {
      var i :| 0 <= i < |ks| && ks[i] == k;
      assert rows[i] == t[k];
    }
  }

  lemma KeysAboveCursor(t: Table, where: Match, after: Option<int>, i: nat)
    requires WellKeyed(t) && i <= |Scan(t, where)|
    requires if i == 0 then after == None else after == Some(Scan(t, where)[i - 1].fields.seqNo)
    ensures Ascending(Past(t, where, false, after)) == Ascending(Matching(t, where))[i..]
  {
    var s := Matching(t, where);
    if i > 0 {
      var k := Ascending(s)[i - 1];
      assert k in s;
      assert Past(t, where, false, after) == set x | x in s && x > k;
      AscendingAbove(s, i - 1);
    }
  }

  lemma KeysBelowCursor(t: Table, where: Match, after: Option<int>, i: nat)
    requires WellKeyed(t) && i <= |Scan(t, where)|
    requires if i == |Scan(t, where)| then after == None else after == Some(Scan(t, where)[i].fields.seqNo)
    ensures Ascending(Past(t, where, true, after)) == Ascending(Matching(t, where))[..i]
  {
    var s := Matching(t, where);
    if i < |Ascending(s)| {
      var k := Ascending(s)[i];
      assert k in s;
      assert Past(t, where, true, after) == set x | x in s && x < k;
      AscendingBelow(s, i);
    }
  }

  /** An ascending page whose cursor is the i-th matching row continues right after it. */
  lemma AscendingPage(t: Table, where: Match, after: Option<int>, i: nat, limit: nat)
    requires WellKeyed(t) && i <= |Scan(t, where)|
    requires if i == 0 then after == None else after == Some(Scan(t, where)[i - 1].fields.seqNo)
    ensures Page(t, where, false, after, limit) == SliceTo(Scan(t, where)[i..], limit)
  {
    hide Ascending, Past, WellKeyed;
    KeysAboveCursor(t, where, after, i);
    var ks := Ascending(Matching(t, where));
    assert RowsAt(t, ks[i..]) == RowsAt(t, ks)[i..];
  }

  /** A descending page below the i-th matching row returns the rows before it, newest first. */
  lemma DescendingPage(t: Table, where: Match, after: Option<int>, i: nat, limit: nat)
    requires WellKeyed(t) && i <= |Scan(t, where)|
    requires if i == |Scan(t, where)| then after == None else after == Some(Scan(t, where)[i].fields.seqNo)
    ensures Page(t, where, true, after, limit) == SliceTo(Reverse(Scan(t, where)[..i]), limit)
  {
    hide Ascending, Past, WellKeyed;
    KeysBelowCursor(t, where, after, i);
    var ks := Ascending(Matching(t, where));
    assert RowsAt(t, Reverse(ks[..i])) == Reverse(RowsAt(t, ks)[..i]);
  }
}
