/** The tenant-partitioned row store, its listing order, and record references. */
module TenantData {
  import opened Prelude
  import Decimal

  type RowFields = map<string, Option<string>>

  /** Rows of one tenant: identities in insertion order, and the row under each. */
  datatype Bucket = Bucket(order: seq<string>, rows: map<string, RowFields>)

  // ----- sorting by (length, text) --------------------------------------------------------------

  function InsertSorted(id: string, ids: seq<string>): seq<string> {
    if ids == [] then [id]
    else if Decimal.ShortlexLess(id, ids[0]) then [id] + ids
    else [ids[0]] + InsertSorted(id, ids[1..])
  }

  /** The identities by length, and by text among those of one length. */
  function Sorted(ids: seq<string>): seq<string> {
    if ids == [] then [] else InsertSorted(ids[|ids| - 1], Sorted(ids[..|ids| - 1]))
  }

  lemma {:induction false} InsertAtEnd(id: string, ids: seq<string>)
    requires forall i :: 0 <= i < |ids| ==> !Decimal.ShortlexLess(id, ids[i])
    ensures InsertSorted(id, ids) == ids + [id]
  {
    if ids != [] {
      assert forall i :: 0 <= i < |ids[1..]| ==> ids[1..][i] == ids[i + 1];
      InsertAtEnd(id, ids[1..]);
      assert ids == [ids[0]] + ids[1..];
    }
  }

  /** The identity of the k-th inserted row, counting from 0. */
  function Identity(k: nat): string { Decimal.OfNat(k + 1) }

  /** The identities `1..n` as they are handed out. */
  function Identities(n: nat): (ids: seq<string>)
    ensures |ids| == n
    ensures forall i :: 0 <= i < n ==> ids[i] == Identity(i)
  {
    seq(n, i requires 0 <= i < n => Identity(i))
  }

  /** Sorting by (length, text) keeps the order in which identities are handed out. */
  lemma {:induction false} SortKeepsInsertionOrder(n: nat)
    ensures Sorted(Identities(n)) == Identities(n)
  {
    if n > 0 {
      SortKeepsInsertionOrder(n - 1);
      assert Identities(n)[..n - 1] == Identities(n - 1);
      var ids := Identities(n - 1);
      forall i | 0 <= i < |ids| ensures !Decimal.ShortlexLess(Decimal.OfNat(n), ids[i]) {
        Decimal.ShortlexIsNumeric(n, i + 1);
      }
      InsertAtEnd(Decimal.OfNat(n), Identities(n - 1));
    }
  }

  // ----- the table -------------------------------------------------------------------------------

  /** The bucket holds identities `1..n`, in that order. */
  ghost predicate BucketValid(b: Bucket) {
    && b.order == Identities(|b.order|)
    && forall id :: id in b.rows <==> id in b.order
  }

  ghost function BucketRows(b: Bucket): (c: seq<RowFields>)
    requires BucketValid(b)
    ensures |c| == |b.order|
  {
    seq(|b.order|, i requires 0 <= i < |b.order| => assert b.order[i] in b.order; b.rows[b.order[i]])
  }

  lemma FreshIdentity(n: nat)
    ensures Decimal.OfNat(n + 1) !in Identities(n)
  {
    forall i | 0 <= i < n ensures Identities(n)[i] != Decimal.OfNat(n + 1) {
      Decimal.RoundTrip(i + 1);
      Decimal.RoundTrip(n + 1);
    }
  }

  lemma InsertIntoBucket(b: Bucket, row: RowFields)
    requires BucketValid(b)
    ensures var id := Decimal.OfNat(|b.order| + 1); var b' := Bucket(b.order + [id], b.rows[id := row]);
      BucketValid(b') && BucketRows(b') == BucketRows(b) + [row]
  {
    var id := Decimal.OfNat(|b.order| + 1);
    var b' := Bucket(b.order + [id], b.rows[id := row]);
    NextIdentity(|b.order|);
    FreshIdentity(|b.order|);
    hide Identities;
    forall i | 0 <= i < |b.order| ensures BucketRows(b')[i] == BucketRows(b)[i] {
      assert b.order[i] in b.order;
    }
  }

  lemma NextIdentity(n: nat)
    ensures Identities(n + 1) == Identities(n) + [Decimal.OfNat(n + 1)]
  {
  }

  lemma WhereIs(b: Bucket, identity: string)
    requires BucketValid(b)
    ensures identity in b.rows <==> exists k :: 0 <= k < |b.order| && identity == Identity(k)
  {
    assert forall k :: 0 <= k < |b.order| ==> b.order[k] == Identity(k);
  }

  lemma UpdateInBucket(b: Bucket, k: nat, row: RowFields)
    requires BucketValid(b) && k < |b.order|
    ensures var id := Identity(k); var b' := b.(rows := b.rows[id := row]);
      id in b.rows && b.rows[id] == BucketRows(b)[k] && BucketValid(b') && BucketRows(b') == BucketRows(b)[k := row]
  {
    var id := Identity(k);
    assert b.order[k] == id && id in b.order;
    var b' := b.(rows := b.rows[id := row]);
    forall i | 0 <= i < |b.order| ensures BucketRows(b')[i] == BucketRows(b)[k := row][i] {
      Decimal.RoundTrip(i + 1);
      Decimal.RoundTrip(k + 1);
    }
  }

  class InMemoryTenantTable {
    var rows: map<string, Bucket>
    var counters: map<string, nat>

    ghost predicate Valid()
      reads this
    {
      && (forall t :: t in rows ==> BucketValid(rows[t]) && |rows[t].order| == Counter(t))
      && (forall t :: t in counters ==> t in rows)
    }

    function Counter(tenantRef: string): nat
      reads this
    {
      if tenantRef in counters then counters[tenantRef] else 0
    }

    /** A tenant's rows in the order they were inserted. */
    ghost function Contents(tenantRef: string): seq<RowFields>
      requires Valid()
      reads this
    {
      if tenantRef in rows then BucketRows(rows[tenantRef]) else []
    }

    constructor ()
      ensures Valid() && forall t :: Contents(t) == []
    {
      rows := map[];
      counters := map[];
    }

    /** Asking for a tenant's bucket creates an empty one if there is none. */
    method BucketOf(tenantRef: string) returns (b: Bucket)
      requires Valid()
      modifies this
      ensures Valid() && tenantRef in rows && b == rows[tenantRef] && counters == old(counters)
      ensures forall t :: Contents(t) == old(Contents(t))
    {
      if tenantRef !in rows {
        rows := rows[tenantRef := Bucket([], map[])];
      }
      b := rows[tenantRef];
    }

    method Insert(tenantRef: string, fields: RowFields) returns (identity: string)
      requires Valid()
      modifies this
      ensures Valid()
      ensures identity == Decimal.OfNat(|old(Contents(tenantRef))| + 1)
      ensures Contents(tenantRef) == old(Contents(tenantRef)) + [fields]
      ensures forall t :: t != tenantRef ==> Contents(t) == old(Contents(t))
    {
      var b := BucketOf(tenantRef);
      identity := Decimal.OfNat(Counter(tenantRef) + 1);
      InsertIntoBucket(b, fields);
      counters := counters[tenantRef := Counter(tenantRef) + 1];
      rows := rows[tenantRef := Bucket(b.order + [identity], b.rows[identity := fields])];
    }

    method Get(tenantRef: string, identity: string) returns (row: Option<RowFields>)
      requires Valid()
      modifies this
      ensures Valid() && forall t :: Contents(t) == old(Contents(t))
      ensures forall k :: 0 <= k < |Contents(tenantRef)| && identity == Identity(k) ==>
        row == Some(Contents(tenantRef)[k])
      ensures row.Some? ==> exists k :: 0 <= k < |Contents(tenantRef)| && identity == Identity(k)
    {
      var b := BucketOf(tenantRef);
      row := if identity in b.rows then Some(b.rows[identity]) else None;
      forall k | 0 <= k < |b.order| && identity == Identity(k)
        ensures row == Some(BucketRows(b)[k])
      {
        UpdateInBucket(b, k, map[]);
      }
    }

    /** Overwrites the given fields of one existing row; an unknown identity changes nothing. */
    method Update(tenantRef: string, identity: string, fields: RowFields) returns (row: Option<RowFields>)
      requires Valid()
      modifies this
      ensures Valid()
      ensures row == None ==> forall t :: Contents(t) == old(Contents(t))
      ensures row.Some? ==>
        (exists k :: 0 <= k < |old(Contents(tenantRef))| && identity == Identity(k)
                     && row == Some(old(Contents(tenantRef))[k] + fields)
                     && Contents(tenantRef) == old(Contents(tenantRef))[k := row.value])
      ensures forall t :: t != tenantRef ==> Contents(t) == old(Contents(t))
      ensures row == None <==> forall k :: 0 <= k < |old(Contents(tenantRef))| ==> identity != Identity(k)
    {
      hide BucketValid, BucketRows, Identity;
      var b := BucketOf(tenantRef);
      WhereIs(b, identity);
      if identity !in b.rows {
        return None;
      }
      var merged := b.rows[identity] + fields;
      ghost var k :| 0 <= k < |b.order| && identity == Identity(k);
      UpdateInBucket(b, k, merged);
      rows := rows[tenantRef := b.(rows := b.rows[identity := merged])];
      row := Some(merged);
    }

    /** The first `limit` rows in insertion order. */
    method List(tenantRef: string, limit: int) returns (listed: seq<(string, RowFields)>)
      requires Valid()
      modifies this
      ensures Valid() && forall t :: Contents(t) == old(Contents(t))
      ensures |listed| == |SliceTo(Contents(tenantRef), limit)|
      ensures forall i :: 0 <= i < |listed| ==> listed[i] == (Identity(i), Contents(tenantRef)[i])
    {
      var b := BucketOf(tenantRef);
      SortKeepsInsertionOrder(|b.order|);
      hide Sorted, Identity;
      var identities := SliceTo(Sorted(b.order), limit);
      assert forall i :: 0 <= i < |identities| ==> identities[i] in b.rows;
      listed := seq(|identities|, i requires 0 <= i < |identities| => (identities[i], b.rows[identities[i]]));
    }
  }

  // ----- record references ------------------------------------------------------------------------

  function ComposeRecordRef(tenantRef: string, family: string, identity: string): string {
    "ref:" + tenantRef + ":" + family + ":" + identity
  }

  function ParseRecordRef(tenantRef: string, family: string, recordRef: string): Option<string> {
    var prefix := ComposeRecordRef(tenantRef, family, "");
    if |recordRef| < |prefix| || recordRef[..|prefix|] != prefix then None
    else if recordRef[|prefix|..] == "" then None
    else Some(recordRef[|prefix|..])
  }

  /** Two texts up to their first colon. */
  lemma FirstColonSplits(a: string, x: string, b: string, y: string)
    requires ':' !in a && ':' !in b && a + ":" + x == b + ":" + y
    ensures a == b && x == y
  {
    if |a| < |b| {
      EarlierColonShows(a, x, b, y);
    } else if |b| < |a| {
      EarlierColonShows(b, y, a, x);
    }
    var s, t := a + ":" + x, b + ":" + y;
    assert s[..|a|] == a && t[..|b|] == b;
    assert s[|a| + 1..] == x && t[|b| + 1..] == y;
  }

  lemma EarlierColonShows(a: string, x: string, b: string, y: string)
    requires a + ":" + x == b + ":" + y && |a| < |b|
    ensures ':' in b
  {
    assert (a + ":" + x)[|a|] == ':';
    assert (b + ":" + y)[|a|] == b[|a|];
  }

  /** What a reference opens to is the rest of its text after the prefix asked for, if there is any. */
  lemma OpensTo(tenantRef: string, family: string, identity: string, otherTenant: string, otherFamily: string,
          rest: string)
    ensures ParseRecordRef(otherTenant, otherFamily, ComposeRecordRef(tenantRef, family, identity)) == Some(rest) <==>
      rest != "" && tenantRef + ":" + family + ":" + identity == otherTenant + ":" + otherFamily + ":" + rest
  {
    var r := ComposeRecordRef(tenantRef, family, identity);
    var prefix := ComposeRecordRef(otherTenant, otherFamily, "");
    var body, otherBody := tenantRef + ":" + family + ":" + identity, otherTenant + ":" + otherFamily + ":" + rest;
    assert r == "ref:" + body && prefix + rest == "ref:" + otherBody;
    assert r[4..] == body && (prefix + rest)[4..] == otherBody;
    assert r == prefix + rest <==> body == otherBody;
    if |r| >= |prefix| && r[..|prefix|] == prefix {
      assert r == prefix + r[|prefix|..];
    }
    assert (prefix + rest)[..|prefix|] == prefix && (prefix + rest)[|prefix|..] == rest;
  }

  /** The reference opens for no other tenant or family. */
  ghost predicate Bound(tenantRef: string, family: string, identity: string) {
    forall t, f :: ParseRecordRef(t, f, ComposeRecordRef(tenantRef, family, identity)).Some? ==>
      t == tenantRef && f == family
  }

  function Colons(s: string): nat {
    if s == "" then 0 else Colons(s[..|s| - 1]) + if s[|s| - 1] == ':' then 1 else 0
  }

  lemma {:induction false} ColonsConcat(a: string, b: string)
    ensures Colons(a + b) == Colons(a) + Colons(b)
  {
    if b == "" {
      assert a + b == a;
    } else {
      assert (a + b)[..|a + b| - 1] == a + b[..|b| - 1];
      ColonsConcat(a, b[..|b| - 1]);
    }
  }

  lemma {:induction false} NoColons(s: string)
    ensures Colons(s) == 0 <==> ':' !in s
  {
    if s != "" {
      NoColons(s[..|s| - 1]);
      assert s == s[..|s| - 1] + [s[|s| - 1]];
    }
  }

  lemma ColonsOfThree(a: string, b: string, c: string)
    ensures Colons(a + ":" + b + ":" + c) == Colons(a) + Colons(b) + Colons(c) + 2
  {
    assert Colons(":") == 1 by { assert ":"[..0] == ""; }
    ColonsConcat(a, ":");
    ColonsConcat(a + ":", b);
    ColonsConcat(a + ":" + b, ":");
    ColonsConcat(a + ":" + b + ":", c);
  }

  /** No colon but perhaps the last character. */
  predicate ColonAtMostLast(s: string) { s == "" || ':' !in s[..|s| - 1] }

  /** A last colon is all the colons such a text has. */
  lemma LastColon(s: string)
    requires ColonAtMostLast(s)
    ensures Colons(s) == if s != "" && s[|s| - 1] == ':' then 1 else 0
  {
    if s != "" { NoColons(s[..|s| - 1]); }
  }

  lemma SameLast(a: string, x: string, b: string, y: string)
    requires a + ":" + x == b + ":" + y && y != ""
    ensures y[|y| - 1] == if x == "" then ':' else x[|x| - 1]
  {
    var s := a + ":" + x;
    assert s[|s| - 1] == (b + ":" + y)[|s| - 1] == y[|y| - 1];
  }

  /** Two colons, and perhaps one at the end, leave no boundary for another tenant or family. */
  lemma ColonFreeIsBound(tenantRef: string, family: string, identity: string, t: string, f: string, rest: string)
    requires ':' !in tenantRef && ':' !in family && ColonAtMostLast(identity)
    requires rest != "" && tenantRef + ":" + family + ":" + identity == t + ":" + f + ":" + rest
    ensures t == tenantRef && f == family
  {
    hide Colons, ColonAtMostLast;
    ColonsOfThree(tenantRef, family, identity);
    ColonsOfThree(t, f, rest);
    NoColons(tenantRef);
    NoColons(family);
    NoColons(rest);
    NoColons(t);
    NoColons(f);
    LastColon(identity);
    SameLast(tenantRef + ":" + family, identity, t + ":" + f, rest);
    assert ':' !in t && ':' !in f;
    SplitsTwice(tenantRef, family, identity, t, f, rest);
  }

  lemma SplitsTwice(a: string, b: string, x: string, c: string, d: string, y: string)
    requires ':' !in a && ':' !in b && ':' !in c && ':' !in d && a + ":" + b + ":" + x == c + ":" + d + ":" + y
    ensures a == c && b == d && x == y
  {
    assert a + ":" + (b + ":" + x) == a + ":" + b + ":" + x == c + ":" + (d + ":" + y);
    FirstColonSplits(a, b + ":" + x, c, d + ":" + y);
    FirstColonSplits(b, x, d, y);
  }

  /** A colon anywhere but at the very end moves a boundary, and another reader goes on from there. */
  lemma ColonOpensElsewhere(tenantRef: string, family: string, identity: string)
    returns (t: string, f: string, rest: string)
    requires ':' in tenantRef || ':' in family || !ColonAtMostLast(identity)
    ensures !(t == tenantRef && f == family)
      && ParseRecordRef(t, f, ComposeRecordRef(tenantRef, family, identity)) == Some(rest)
  {
    var body := tenantRef + ":" + family + ":" + identity;
    if ':' in tenantRef {
      var i :| 0 <= i < |tenantRef| && tenantRef[i] == ':';
      var a, b := tenantRef[..i], tenantRef[i + 1..];
      assert tenantRef == a + ":" + b;
      t, f, rest := a, b, family + ":" + identity;
      assert body == t + ":" + f + ":" + rest;
    } else if ':' in family {
      var i :| 0 <= i < |family| && family[i] == ':';
      var a, b := family[..i], family[i + 1..];
      assert family == a + ":" + b;
      t, f, rest := tenantRef, a, b + ":" + identity;
      assert body == t + ":" + f + ":" + rest;
    } else {
      var i :| 0 <= i < |identity| - 1 && identity[i] == ':';
      var a, b := identity[..i], identity[i + 1..];
      assert identity == a + ":" + b;
      t, f, rest := tenantRef + ":" + family, a, b;
      assert body == t + ":" + f + ":" + rest;
    }
    OpensTo(tenantRef, family, identity, t, f, rest);
  }

  /** A reference opens to its identity for its own tenant and family. It opens for no other exactly
      when tenant and family hold no colon, nor the identity but at its very end: decimal identities,
      which are all that rows have, hold none. */
  lemma RecordRefBound(tenantRef: string, family: string, identity: string)
    ensures ParseRecordRef(tenantRef, family, ComposeRecordRef(tenantRef, family, identity))
            == if identity != "" then Some(identity) else None
    ensures Bound(tenantRef, family, identity) <==> ':' !in tenantRef && ':' !in family && ColonAtMostLast(identity)
  {
    hide ParseRecordRef, ComposeRecordRef, ColonAtMostLast;
    OpensTo(tenantRef, family, identity, tenantRef, family, identity);
    var r := ComposeRecordRef(tenantRef, family, identity);
    if ':' in tenantRef || ':' in family || !ColonAtMostLast(identity) {
      var t, f, rest := ColonOpensElsewhere(tenantRef, family, identity);
    } else {
      forall t, f | ParseRecordRef(t, f, r).Some? ensures t == tenantRef && f == family {
        var rest := ParseRecordRef(t, f, r).value;
        OpensTo(tenantRef, family, identity, t, f, rest);
        ColonFreeIsBound(tenantRef, family, identity, t, f, rest);
      }
    }
    if identity == "" && ParseRecordRef(tenantRef, family, r).Some? {
      OpensTo(tenantRef, family, identity, tenantRef, family, ParseRecordRef(tenantRef, family, r).value);
    }
  }

  /** The identities rows have. */
  lemma RowRefBound(tenantRef: string, family: string, k: nat)
    ensures Bound(tenantRef, family, Identity(k)) <==> ':' !in tenantRef && ':' !in family
  {
    RecordRefBound(tenantRef, family, Identity(k));
    assert Decimal.Digits(Decimal.OfNat(k + 1));
  }

  /** Among colon-free tenants and families a reference opens for its own only, whatever its identity. */
  lemma ColonFreeRefBound(tenantRef: string, family: string, identity: string, otherTenant: string, otherFamily: string)
    requires ':' !in tenantRef && ':' !in family && ':' !in otherTenant && ':' !in otherFamily
    ensures ParseRecordRef(otherTenant, otherFamily, ComposeRecordRef(tenantRef, family, identity))
            == if otherTenant == tenantRef && otherFamily == family && identity != "" then Some(identity) else None
  {
    var r := ComposeRecordRef(tenantRef, family, identity);
    var prefix := ComposeRecordRef(otherTenant, otherFamily, "");
    if |r| >= |prefix| && r[..|prefix|] == prefix {
      var rest := r[|prefix|..];
      assert r == prefix + rest;
      assert r[4..] == tenantRef + ":" + (family + ":" + identity);
      assert (prefix + rest)[4..] == otherTenant + ":" + (otherFamily + ":" + rest);
      FirstColonSplits(tenantRef, family + ":" + identity, otherTenant, otherFamily + ":" + rest);
      FirstColonSplits(family, identity, otherFamily, rest);
    }
    if otherTenant == tenantRef && otherFamily == family {
      assert r == prefix + identity;
    }
  }

  /** With a colon in the tenant reference the binding is lost. */
  lemma ColonsUnbind()
    ensures ParseRecordRef("a", "b", ComposeRecordRef("a:b", "c", "1")) == Some("c:1")
  {
    assert ComposeRecordRef("a:b", "c", "1") == "ref:a:b:c:1" == ComposeRecordRef("a", "b", "") + "c:1";
  }
}
