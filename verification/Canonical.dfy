/** Canonical lineage content and the integrity marker over it (marker version 1). */
module Canonical {
  import opened Prelude
  import Decimal

  const MARKER_VERSION_V1: int := 1

  /** Unit separator, U+001F. */
  const SEP: char := '\U{1F}'

  /** The eleven digested columns, in their frozen order. */
  datatype Fields = Fields(
    lineageId: string,
    seqNo: int,
    eventType: string,
    occurredAt: string,
    actorRef: string,
    sourceRef: string,
    targetRef: string,
    operation: string,
    schemaVersion: string,
    derivationRef: Option<string>,
    parentRef: Option<string>)

  /** The text of one column: an absent value is written as the empty text. */
  function Text(value: Option<string>): string { value.GetOr("") }

  function Parts(f: Fields): (parts: seq<string>)
    ensures |parts| == 11
  {
    [f.lineageId, Decimal.OfInt(f.seqNo), f.eventType, f.occurredAt, f.actorRef, f.sourceRef, f.targetRef,
     f.operation, f.schemaVersion, Text(f.derivationRef), Text(f.parentRef)]
  }

  function Join(parts: seq<string>): string
    requires parts != []
  {
    if |parts| == 1 then parts[0]
    else Join(parts[..|parts| - 1]) + [SEP] + parts[|parts| - 1]
  }

  /** The twelve texts of a record: the previous marker and the columns. */
  function Texts(f: Fields, prevMarker: string): (ts: seq<string>)
    ensures |ts| == 12
  {
    [prevMarker] + Parts(f)
  }

  function Content(f: Fields, prevMarker: string): string {
    Join(Texts(f, prevMarker))
  }

  predicate SeparatorFree(s: string) { SEP !in s }

  predicate FieldsSeparatorFree(f: Fields) {
    forall p :: p in Parts(f) ==> SeparatorFree(p)
  }

  /** Equality of all digested columns, an absent column counting as an empty one. */
  predicate SameV1(f: Fields, g: Fields) {
    && f.lineageId == g.lineageId && f.seqNo == g.seqNo && f.eventType == g.eventType
    && f.occurredAt == g.occurredAt && f.actorRef == g.actorRef && f.sourceRef == g.sourceRef
    && f.targetRef == g.targetRef && f.operation == g.operation && f.schemaVersion == g.schemaVersion
    && Text(f.derivationRef) == Text(g.derivationRef) && Text(f.parentRef) == Text(g.parentRef)
  }

  /** A fixed-key keyed hash: from a content to its digest in hexadecimal text. */
  type Mac = string -> string

  ghost predicate NonEmptyMac(mac: Mac) {
    forall c :: mac(c) != ""
  }

  ghost predicate SeparatorFreeDigests(mac: Mac) {
    forall c :: SeparatorFree(mac(c))
  }

  predicate Collision(mac: Mac, c: string, d: string) {
    c != d && mac(c) == mac(d)
  }

  // ----- the serialization is injective -------------------------------------------------

  lemma EarlierSeparatorShows(x: string, a: string, y: string, b: string)
    requires x + [SEP] + a == y + [SEP] + b
    requires |x| < |y|
    ensures !SeparatorFree(a)
  {
    assert (y + [SEP] + b)[|y|] == SEP;
    assert (x + [SEP] + a)[|y|] == a[|y| - |x| - 1];
  }

  lemma LastSeparatorSplits(x: string, a: string, y: string, b: string)
    requires SeparatorFree(a) && SeparatorFree(b)
    requires x + [SEP] + a == y + [SEP] + b
    ensures x == y && a == b
  {
    if |x| < |y| {
      EarlierSeparatorShows(x, a, y, b);
    } else if |y| < |x| {
      EarlierSeparatorShows(y, b, x, a);
    }
    var s, t := x + [SEP] + a, y + [SEP] + b;
    assert s[..|x|] == x && t[..|x|] == y;
    assert s[|x| + 1..] == a && t[|x| + 1..] == b;
  }

  /** Only the first part may contain separators: the rest are cut off from the right. */
  lemma {:induction false} JoinInjective(ps: seq<string>, qs: seq<string>)
    requires |ps| == |qs| >= 1
    requires forall i :: 1 <= i < |ps| ==> SeparatorFree(ps[i]) && SeparatorFree(qs[i])
    requires Join(ps) == Join(qs)
    ensures ps == qs
  {
    if |ps| > 1 {
      var n := |ps| - 1;
      LastSeparatorSplits(Join(ps[..n]), ps[n], Join(qs[..n]), qs[n]);
      JoinInjective(ps[..n], qs[..n]);
      assert ps == ps[..n] + [ps[n]] && qs == qs[..n] + [qs[n]];
    }
  }

  lemma SamePartsSameFields(f: Fields, g: Fields)
    ensures Parts(f) == Parts(g) <==> SameV1(f, g)
  {
    if Parts(f) == Parts(g) {
      var p, q := Parts(f), Parts(g);
      assert p[0] == q[0] && p[1] == q[1] && p[2] == q[2] && p[3] == q[3] && p[4] == q[4] && p[5] == q[5];
      assert p[6] == q[6] && p[7] == q[7] && p[8] == q[8] && p[9] == q[9] && p[10] == q[10];
      Decimal.OfIntInjective(f.seqNo, g.seqNo);
    }
  }

  /** Canonical content determines the previous marker and every digested column, and nothing else. */
  lemma ContentDetermines(f: Fields, p: string, g: Fields, q: string)
    requires FieldsSeparatorFree(f) && FieldsSeparatorFree(g)
    ensures Content(f, p) == Content(g, q) <==> p == q && SameV1(f, g)
  {
    var ps, qs := Texts(f, p), Texts(g, q);
    SamePartsSameFields(f, g);
    if Content(f, p) == Content(g, q) {
      forall i | 1 <= i < |ps|
        ensures SeparatorFree(ps[i]) && SeparatorFree(qs[i])
      {
        assert ps[i] == Parts(f)[i - 1] && qs[i] == Parts(g)[i - 1];
      }
      JoinInjective(ps, qs);
      assert ps[1..] == Parts(f) && qs[1..] == Parts(g);
      assert ps[0] == qs[0];
    }
  }

  // ----- one separator-free side is enough ----------------------------------------------

  function Separators(s: string): nat {
    if s == "" then 0 else Separators(s[..|s| - 1]) + if s[|s| - 1] == SEP then 1 else 0
  }

  function AllSeparators(ps: seq<string>): nat {
    if ps == [] then 0 else AllSeparators(ps[..|ps| - 1]) + Separators(ps[|ps| - 1])
  }

  lemma {:induction false} SeparatorsConcat(a: string, b: string)
    ensures Separators(a + b) == Separators(a) + Separators(b)
  {
    if b == "" {
      assert a + b == a;
    } else {
      assert (a + b)[..|a + b| - 1] == a + b[..|b| - 1];
      SeparatorsConcat(a, b[..|b| - 1]);
    }
  }

  lemma {:induction false} NoSeparators(s: string)
    ensures Separators(s) == 0 <==> SeparatorFree(s)
  {
    if s != "" {
      NoSeparators(s[..|s| - 1]);
      assert s == s[..|s| - 1] + [s[|s| - 1]];
    }
  }

  lemma {:induction false} NoSeparatorsInAny(ps: seq<string>)
    ensures AllSeparators(ps) == 0 <==> forall p :: p in ps ==> SeparatorFree(p)
  {
    if ps != [] {
      var init, last := ps[..|ps| - 1], ps[|ps| - 1];
      NoSeparatorsInAny(init);
      NoSeparators(last);
      assert ps == init + [last];
    }
  }

  /** A join holds one separator between any two parts, and those of the parts themselves. */
  lemma {:induction false} JoinSeparators(ps: seq<string>)
    requires ps != []
    ensures Separators(Join(ps)) == |ps| - 1 + AllSeparators(ps)
  {
    if |ps| > 1 {
      var init, last := ps[..|ps| - 1], ps[|ps| - 1];
      JoinSeparators(init);
      SeparatorsConcat(Join(init) + [SEP], last);
      SeparatorsConcat(Join(init), [SEP]);
      assert [SEP][..0] == "";
    }
  }

  /** A separator-free list is told apart from every list of its length. */
  lemma FreeJoinInjective(ps: seq<string>, qs: seq<string>)
    requires |ps| == |qs| >= 1 && Join(ps) == Join(qs)
    requires forall p :: p in ps ==> SeparatorFree(p)
    ensures ps == qs
  {
    NoSeparatorsInAny(ps);
    JoinSeparators(ps);
    JoinSeparators(qs);
    NoSeparatorsInAny(qs);
    forall i | 1 <= i < |ps| ensures SeparatorFree(ps[i]) && SeparatorFree(qs[i]) {
      assert ps[i] in ps && qs[i] in qs;
    }
    JoinInjective(ps, qs);
  }

  /** A separator-free record is told apart from every record, forged ones with separators included. */
  lemma FreeContentDetermines(f: Fields, p: string, g: Fields, q: string)
    requires SeparatorFree(p) && FieldsSeparatorFree(f)
    ensures Content(f, p) == Content(g, q) <==> p == q && SameV1(f, g)
  {
    var ps, qs := Texts(f, p), Texts(g, q);
    SamePartsSameFields(f, g);
    if Content(f, p) == Content(g, q) {
      FreeJoinInjective(ps, qs);
      assert ps[1..] == Parts(f) && qs[1..] == Parts(g);
      assert ps[0] == qs[0];
    }
  }

  // ----- and without it the content says less ---------------------------------------------

  /** The record and previous marker with one text replaced; the number is no free text. */
  function WithText(f: Fields, p: string, i: nat, x: string): (Fields, string)
    requires i < 12 && i != 2
  {
    match i
    case 0 => (f, x)
    case 1 => (f.(lineageId := x), p)
    case 3 => (f.(eventType := x), p)
    case 4 => (f.(occurredAt := x), p)
    case 5 => (f.(actorRef := x), p)
    case 6 => (f.(sourceRef := x), p)
    case 7 => (f.(targetRef := x), p)
    case 8 => (f.(operation := x), p)
    case 9 => (f.(schemaVersion := x), p)
    case 10 => (f.(derivationRef := Some(x)), p)
    case _ => (f.(parentRef := Some(x)), p)
  }

  lemma WithTextReplaces(f: Fields, p: string, i: nat, x: string)
    requires i < 12 && i != 2
    ensures var (g, q) := WithText(f, p, i, x); Texts(g, q) == Texts(f, p)[i := x]
  {
    var (g, q) := WithText(f, p, i, x);
    var ts, us := Texts(f, p)[i := x], Texts(g, q);
    assert us[0] == ts[0] && us[1] == ts[1] && us[2] == ts[2] && us[3] == ts[3] && us[4] == ts[4] && us[5] == ts[5];
    assert us[6] == ts[6] && us[7] == ts[7] && us[8] == ts[8] && us[9] == ts[9] && us[10] == ts[10] && us[11] == ts[11];
  }

  /** Moving the boundary between two neighbouring parts leaves their join as it was. */
  lemma {:induction false} ResplitJoin(ps: seq<string>, qs: seq<string>, i: nat)
    requires |ps| == |qs| && i + 1 < |ps|
    requires forall k :: 0 <= k < |ps| && k != i && k != i + 1 ==> ps[k] == qs[k]
    requires ps[i] + [SEP] + ps[i + 1] == qs[i] + [SEP] + qs[i + 1]
    ensures Join(ps) == Join(qs)
  {
    var n := |ps| - 1;
    if i + 1 < n {
      ResplitJoin(ps[..n], qs[..n], i);
    } else {
      assert ps[..i] == qs[..i];
      LastTwo(ps, i);
      LastTwo(qs, i);
    }
  }

  /** A join by its front and its last two parts. */
  lemma LastTwo(ps: seq<string>, i: nat)
    requires |ps| == i + 2
    ensures Join(ps) == (if i == 0 then "" else Join(ps[..i]) + [SEP]) + (ps[i] + [SEP] + ps[i + 1])
  {
    var most := ps[..i + 1];
    assert Join(ps) == Join(most) + [SEP] + ps[i + 1];
    if i == 0 {
      assert Join(most) == ps[0];
    } else {
      assert most[..i] == ps[..i];
      assert Join(most) == Join(ps[..i]) + [SEP] + ps[i];
    }
  }

  /** The content fixes the record: no other record and marker share it. */
  ghost predicate Determined(f: Fields, p: string) {
    forall g, q :: Content(g, q) == Content(f, p) ==> q == p && SameV1(f, g)
  }

  /** A text with a separator can give one side of it to its neighbour. */
  lemma ResplitAt(f: Fields, p: string, i: nat, at: nat) returns (g: Fields, q: string)
    requires i < 12 && i != 2 && at < |Texts(f, p)[i]| && Texts(f, p)[i][at] == SEP
    ensures Content(g, q) == Content(f, p) && !(q == p && SameV1(f, g))
  {
    hide Content, Parts, WithText, Join, Texts, SameV1;
    var ts := Texts(f, p);
    var left, right := ts[i][..at], ts[i][at + 1..];
    assert ts[i] == left + [SEP] + right;
    var toRight := i == 0 || 3 <= i < 11;
    var j := if toRight then i + 1 else i - 1;
    var mine := if toRight then left else right;
    var theirs := if toRight then right + [SEP] + ts[j] else ts[j] + [SEP] + left;
    var (g1, q1) := WithText(f, p, i, mine);
    WithTextReplaces(f, p, i, mine);
    g, q := WithText(g1, q1, j, theirs).0, WithText(g1, q1, j, theirs).1;
    WithTextReplaces(g1, q1, j, theirs);
    var us := Texts(g, q);
    assert us == ts[i := mine][j := theirs];
    if toRight {
      Regroup(left, [SEP], right, ts[j]);
      ResplitJoin(ts, us, i);
    } else {
      Regroup(ts[j], [SEP], left, right);
      ResplitJoin(ts, us, j);
    }
    assert us[i] != ts[i];
    SameTexts(f, p, g, q);
    JoinsTexts(f, p);
    JoinsTexts(g, q);
  }

  lemma Regroup(a: string, sep: string, b: string, c: string)
    ensures a + sep + (b + sep + c) == (a + sep + b) + sep + c
  {
  }

  lemma JoinsTexts(f: Fields, p: string)
    ensures Content(f, p) == Join(Texts(f, p))
  {
  }

  lemma SameTexts(f: Fields, p: string, g: Fields, q: string)
    ensures q == p && SameV1(f, g) ==> Texts(g, q) == Texts(f, p)
  {
    hide Parts;
    SamePartsSameFields(f, g);
  }

  /** The number is written without separators. */
  lemma NumberIsFree(f: Fields, p: string)
    ensures SeparatorFree(Texts(f, p)[2])
  {
    var n := f.seqNo;
    assert Texts(f, p)[2] == Decimal.OfInt(n);
    if n < 0 {
      assert Decimal.Digits(Decimal.OfNat(-n));
    } else {
      assert Decimal.Digits(Decimal.OfNat(n));
    }
  }

  /** The content fixes record and previous marker exactly when none of them holds a separator. */
  lemma DeterminedIff(f: Fields, p: string)
    ensures Determined(f, p) <==> SeparatorFree(p) && FieldsSeparatorFree(f)
  {
    hide Content, Parts, SameV1;
    var ts := Texts(f, p);
    if SeparatorFree(p) && FieldsSeparatorFree(f) {
      forall g, q | Content(g, q) == Content(f, p) ensures q == p && SameV1(f, g) {
        FreeContentDetermines(f, p, g, q);
      }
    } else {
      TextsFree(f, p);
      var i :| 0 <= i < 12 && !SeparatorFree(ts[i]);
      NumberIsFree(f, p);
      var at :| 0 <= at < |ts[i]| && ts[i][at] == SEP;
      var g, q := ResplitAt(f, p, i, at);
    }
  }

  lemma TextsFree(f: Fields, p: string)
    ensures (SeparatorFree(p) && FieldsSeparatorFree(f)) <==> forall i :: 0 <= i < 12 ==> SeparatorFree(Texts(f, p)[i])
  {
    hide Parts;
    var ts := Texts(f, p);
    assert ts[0] == p && ts[1..] == Parts(f);
    if forall i :: 0 <= i < 12 ==> SeparatorFree(ts[i]) {
      forall x | x in Parts(f) ensures SeparatorFree(x) {
        var k :| 0 <= k < 11 && Parts(f)[k] == x;
        assert ts[k + 1] == x;
      }
    }
    if SeparatorFree(p) && FieldsSeparatorFree(f) {
      forall i | 0 <= i < 12 ensures SeparatorFree(ts[i]) {
        assert i > 0 ==> ts[i] == Parts(f)[i - 1];
      }
    }
  }

  /** Separators in the columns themselves break this: two different records, one content. */
  lemma SeparatorsAlias()
    ensures exists f: Fields, g: Fields :: !SameV1(f, g) && Content(f, "") == Content(g, "")
  {
    var f := Fields("a", 1, [SEP], "", "", "", "", "", "", None, None);
    var g := f.(eventType := "", occurredAt := [SEP]);
    var ps, qs := Texts(f, ""), Texts(g, "");
    assert ps[..4] == ["", "a", "1", [SEP]] by { assert Decimal.OfInt(1) == "1"; }
    assert ps[..4][..3] == ["", "a", "1"] && qs[..4][..3] == ["", "a", "1"];
    JoinTail(ps, 5);
    JoinTail(qs, 5);
    assert ps[5..] == qs[5..];
    calc {
      Join(ps[..5]);
      { assert ps[..5][..4] == ps[..4]; }
      Join(ps[..4]) + [SEP] + "";
      Join(["", "a", "1"]) + [SEP] + [SEP] + [SEP] + "";
      Join(["", "a", "1"]) + [SEP] + "" + [SEP] + [SEP];
      { assert qs[..5][..4] == qs[..4]; }
      Join(qs[..5]);
    }
    assert !SameV1(f, g);
  }

  /** Joining a longer list only appends to the join of its front. */
  lemma {:induction false} JoinTail(ps: seq<string>, k: nat)
    requires 1 <= k <= |ps|
    ensures Join(ps) == Join(ps[..k]) + Tail(ps[k..])
  {
    if k == |ps| {
      assert ps[..k] == ps;
    } else {
      var n := |ps| - 1;
      JoinTail(ps[..n], k);
      assert ps[..n][..k] == ps[..k] && ps[..n][k..] == ps[k..][..|ps[k..]| - 1];
    }
  }

  function Tail(ps: seq<string>): string {
    if ps == [] then "" else Tail(ps[..|ps| - 1]) + [SEP] + ps[|ps| - 1]
  }
}
