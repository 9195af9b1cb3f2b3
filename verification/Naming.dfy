/** Tenant identifiers, and the names derived from them: database, secret reference, secret key. */
module Naming {
  import opened Prelude
  import Decimal

  const TENANT_DB_PREFIX := "sp2_tenant_"
  const DSN_REF_PREFIX := "tenant/"
  const DSN_REF_SUFFIX := "/dsn"
  const ENV_KEY_PREFIX := "SNACKPORTAL_TENANT_SECRET_"

  // ----- admission --------------------------------------------------------------------------

  predicate AdmissibleChar(c: char) {
    'a' <= c <= 'z' || '0' <= c <= '9' || c == '_'
  }

  function LowerChar(c: char): char {
    if 'A' <= c <= 'Z' then ((c as int) + 32) as char else c
  }

  function Lower(s: string): string { Map(LowerChar, s) }

  /** The admission guard: not reserved, and one or more of `a-z 0-9 _` to the very end. */
  predicate Admitted(tenantId: string) {
    && Lower(tenantId) != "control"
    && tenantId != ""
    && forall i :: 0 <= i < |tenantId| ==> AdmissibleChar(tenantId[i])
  }

  /** Only one identifier of allowed letters is reserved: the other spellings of its name are not admissible. */
  lemma AdmittedIff(tenantId: string)
    ensures Admitted(tenantId) <==>
      && |tenantId| >= 1 && tenantId != "control"
      && forall i :: 0 <= i < |tenantId| ==>
           'a' <= tenantId[i] <= 'z' || '0' <= tenantId[i] <= '9' || tenantId[i] == '_'
  {
    if forall i :: 0 <= i < |tenantId| ==> AdmissibleChar(tenantId[i]) {
      assert Lower(tenantId) == tenantId;
    }
  }

  // ----- database name ------------------------------------------------------------------------

  function TenantDatabaseName(tenantId: string): string { TENANT_DB_PREFIX + tenantId }

  lemma PrefixCancels(p: string, a: string, b: string)
    ensures p + a == p + b <==> a == b
  {
    assert (p + a)[|p|..] == a && (p + b)[|p|..] == b;
  }

  lemma SuffixCancels(a: string, b: string, s: string)
    ensures a + s == b + s <==> a == b
  {
    if a + s == b + s {
      assert (a + s)[..|a|] == a && (b + s)[..|b|] == b;
    }
  }

  lemma DatabaseNamesDistinct(a: string, b: string)
    ensures TenantDatabaseName(a) == TenantDatabaseName(b) <==> a == b
  {
    PrefixCancels(TENANT_DB_PREFIX, a, b);
  }

  // ----- secret reference ---------------------------------------------------------------------

  /** Where a credential is kept and under which version: never the credential. */
  datatype SecretRef = SecretRef(storeRef: string, version: string)

  function TenantDsnRef(tenantId: string): string { DSN_REF_PREFIX + tenantId + DSN_REF_SUFFIX }

  predicate EndsWith(s: string, suffix: string) {
    |s| >= |suffix| && s[|s| - |suffix|..] == suffix
  }

  predicate StartsWith(s: string, prefix: string) {
    |s| >= |prefix| && s[..|prefix|] == prefix
  }

  /** The inverse: what lies between prefix and suffix, unless it is empty or holds a slash. */
  function TenantIdFromDsnRef(storeRef: string): Option<string> {
    if StartsWith(storeRef, DSN_REF_PREFIX) && EndsWith(storeRef, DSN_REF_SUFFIX) then
      var inner := if |storeRef| >= |DSN_REF_PREFIX| + |DSN_REF_SUFFIX|
                   then storeRef[|DSN_REF_PREFIX|..|storeRef| - |DSN_REF_SUFFIX|] else "";
      if inner != "" && '/' !in inner then Some(inner) else None
    else None
  }

  /** Canonical references and slash-free non-empty identifiers correspond one to one. */
  lemma DsnRefInverse(storeRef: string, tenantId: string)
    ensures TenantIdFromDsnRef(storeRef) == Some(tenantId)
            <==> storeRef == TenantDsnRef(tenantId) && tenantId != "" && '/' !in tenantId
  {
    var p, q := |DSN_REF_PREFIX|, |DSN_REF_SUFFIX|;
    if TenantIdFromDsnRef(storeRef) == Some(tenantId) {
      assert |storeRef| >= p + q;
      assert storeRef == storeRef[..p] + storeRef[p..|storeRef| - q] + storeRef[|storeRef| - q..];
    }
    if storeRef == TenantDsnRef(tenantId) {
      assert storeRef[..p] == DSN_REF_PREFIX && storeRef[|storeRef| - q..] == DSN_REF_SUFFIX;
      assert storeRef[p..|storeRef| - q] == tenantId;
    }
  }

  // ----- environment key ------------------------------------------------------------------------

  /** ASCII letters and digits upper-cased; everything else flattened to an underscore. */
  function EnvChar(c: char): char {
    if 'a' <= c <= 'z' then ((c as int) - 32) as char
    else if 'A' <= c <= 'Z' || '0' <= c <= '9' then c
    else '_'
  }

  function EnvKey(storeRef: string, version: string): string {
    ENV_KEY_PREFIX + Map(EnvChar, storeRef) + "_V" + version
  }

  lemma EnvCharInjective(c: char, d: char)
    requires AdmissibleChar(c) && AdmissibleChar(d) && EnvChar(c) == EnvChar(d)
    ensures c == d
  {
  }

  lemma FlattenInjective(a: string, b: string)
    requires Admitted(a) && Admitted(b) && Map(EnvChar, a) == Map(EnvChar, b)
    ensures a == b
  {
    forall i | 0 <= i < |a| ensures a[i] == b[i] {
      assert Map(EnvChar, a)[i] == Map(EnvChar, b)[i];
      EnvCharInjective(a[i], b[i]);
    }
    assert |Map(EnvChar, a)| == |Map(EnvChar, b)|;
  }

  lemma MapConcat(a: string, b: string)
    ensures Map(EnvChar, a + b) == Map(EnvChar, a) + Map(EnvChar, b)
  {
  }

  lemma LongerTailShowsV(x: string, v: string, y: string, w: string)
    requires x + "_V" + v == y + "_V" + w && |v| < |w|
    ensures !Decimal.Digits(w)
  {
    var s := x + "_V" + v;
    assert s[|x| + 1] == 'V';
    assert (y + "_V" + w)[|x| + 1] == w[|x| - |y| - 1 + 0];
  }

  lemma VersionSplits(x: string, v: string, y: string, w: string)
    requires Decimal.Digits(v) && Decimal.Digits(w)
    requires x + "_V" + v == y + "_V" + w
    ensures x == y && v == w
  {
    if |v| < |w| {
      LongerTailShowsV(x, v, y, w);
    } else if |w| < |v| {
      LongerTailShowsV(y, w, x, v);
    }
    var s, t := x + "_V" + v, y + "_V" + w;
    assert s[..|x|] == x && t[..|y|] == y;
    assert s[|x| + 2..] == v && t[|y| + 2..] == w;
  }

  /** Under decimal versions two identifiers of any kind share a key exactly when the versions are
      equal and the identifiers flatten to one text. */
  lemma EnvKeyIff(a: string, v: string, b: string, w: string)
    requires Decimal.Digits(v) && Decimal.Digits(w)
    ensures EnvKey(TenantDsnRef(a), v) == EnvKey(TenantDsnRef(b), w) <==> Map(EnvChar, a) == Map(EnvChar, b) && v == w
  {
    hide EnvChar, Map, Decimal.Digits, TenantDsnRef;
    KeyText(a, v);
    KeyText(b, w);
    var p := KEY_FRONT;
    if EnvKey(TenantDsnRef(a), v) == EnvKey(TenantDsnRef(b), w) {
      var fa, fb := Map(EnvChar, a) + "_DSN", Map(EnvChar, b) + "_DSN";
      assert (p + fa) + "_V" + v == EnvKey(TenantDsnRef(a), v) && (p + fb) + "_V" + w == EnvKey(TenantDsnRef(b), w);
      VersionSplits(p + fa, v, p + fb, w);
      PrefixCancels(p, fa, fb);
      SuffixCancels(Map(EnvChar, a), Map(EnvChar, b), "_DSN");
    }
  }

  /** Admitted identifiers and decimal versions never share a secret key. */
  lemma EnvKeysDistinct(a: string, v: string, b: string, w: string)
    requires Admitted(a) && Admitted(b) && Decimal.Digits(v) && Decimal.Digits(w)
    ensures EnvKey(TenantDsnRef(a), v) == EnvKey(TenantDsnRef(b), w) <==> a == b && v == w
  {
    EnvKeyIff(a, v, b, w);
    if Map(EnvChar, a) == Map(EnvChar, b) {
      FlattenInjective(a, b);
    }
  }

  /** What every tenant's key starts with. */
  const KEY_FRONT := ENV_KEY_PREFIX + "TENANT_"

  /** A tenant's key, spelled out. */
  lemma KeyText(a: string, v: string)
    ensures EnvKey(TenantDsnRef(a), v) == KEY_FRONT + (Map(EnvChar, a) + "_DSN_V" + v)
  {
    hide Map;
    FlattenedRef(a);
    ConstantsFlatten();
    Rejoin(ENV_KEY_PREFIX, "TENANT_", Map(EnvChar, a), "_DSN", "_V", v);
    assert "_DSN" + "_V" == "_DSN_V";
  }

  lemma ConstantsFlatten()
    ensures Map(EnvChar, DSN_REF_PREFIX) == "TENANT_" && Map(EnvChar, DSN_REF_SUFFIX) == "_DSN"
  {
  }

  lemma Rejoin(a: string, b: string, c: string, d: string, e: string, f: string)
    ensures a + (b + c + d) + e + f == a + b + (c + (d + e) + f)
  {
  }

  lemma FlattenedRef(a: string)
    ensures Map(EnvChar, TenantDsnRef(a))
      == Map(EnvChar, DSN_REF_PREFIX) + Map(EnvChar, a) + Map(EnvChar, DSN_REF_SUFFIX)
  {
    MapConcat(DSN_REF_PREFIX + a, DSN_REF_SUFFIX);
    MapConcat(DSN_REF_PREFIX, a);
  }

  /** The key that names the current version is no version's own key. */
  lemma CurrentKeyDistinct(a: string, b: string, w: string)
    requires Decimal.Digits(w) && w != ""
    ensures EnvKey(TenantDsnRef(a), "current") != EnvKey(TenantDsnRef(b), w)
  {
    var s, t := EnvKey(TenantDsnRef(a), "current"), EnvKey(TenantDsnRef(b), w);
    assert s[|s| - 1] == 't' && t[|t| - 1] == w[|w| - 1];
  }

  /** Without the guard two identifiers share one key: case, and a trailing newline. */
  lemma UnguardedIdsAlias(v: string)
    ensures EnvKey(TenantDsnRef("A_b"), v) == EnvKey(TenantDsnRef("a_b"), v) && !Admitted("A_b")
    ensures EnvKey(TenantDsnRef("t1\n"), v) == EnvKey(TenantDsnRef("t1_"), v) && !Admitted("t1\n")
  {
    FlattenedRef("A_b");
    FlattenedRef("a_b");
    FlattenedRef("t1\n");
    FlattenedRef("t1_");
    assert Map(EnvChar, "A_b") == "A_B" == Map(EnvChar, "a_b");
    assert Map(EnvChar, "t1\n") == "T1_" == Map(EnvChar, "t1_");
    assert !AdmissibleChar("A_b"[0]) && !AdmissibleChar("t1\n"[2]);
  }

  // ----- versions that are not decimal ----------------------------------------------------------

  predicate FlatChar(c: char) { 'A' <= c <= 'Z' || '0' <= c <= '9' || c == '_' }

  predicate Flat(s: string) { forall i :: 0 <= i < |s| ==> FlatChar(s[i]) }

  /** `w` ends as if a key with version `v` had been written out in it. */
  predicate Imitates(w: string, v: string) {
    var n := |w| - |v| - 6;
    n >= 0 && w[n..] == "_DSN_V" + v && Flat(w[..n])
  }

  /** The version mark never overlaps itself. */
  lemma MarkIsApart(d: nat)
    requires 1 <= d < 6
    ensures "_DSN_V"[d] == '_' ==> d < 5 && "_DSN_V"[d + 1] != "_DSN_V"[1]
  {
    assert "_DSN_V"[1] == 'D' && "_DSN_V"[2] == 'S' && "_DSN_V"[3] == 'N' && "_DSN_V"[4] == '_' && "_DSN_V"[5] == 'V';
  }

  /** So two marks at different places of one text stand at least their length apart. */
  lemma ShiftIsLong(x: string, v: string, y: string, w: string)
    requires x + "_DSN_V" + v == y + "_DSN_V" + w && |v| < |w|
    ensures |w| - |v| >= 6
  {
    var s, t, d := x + "_DSN_V" + v, y + "_DSN_V" + w, |w| - |v|;
    assert |x| == |y| + d;
    assert s[|x|] == "_DSN_V"[0] && s[|x| + 1] == "_DSN_V"[1];
    if d < 6 {
      assert t[|y| + d] == "_DSN_V"[d];
      if d < 5 { assert t[|y| + d + 1] == "_DSN_V"[d + 1]; }
      MarkIsApart(d);
    }
  }

  /** Two key texts whose versions differ in length: the longer version holds the suffix of the other. */
  lemma LongerVersionImitates(x: string, v: string, y: string, w: string)
    requires x + "_DSN_V" + v == y + "_DSN_V" + w && |v| < |w| && Flat(x)
    ensures Imitates(w, v)
  {
    var s, t := x + "_DSN_V" + v, y + "_DSN_V" + w;
    var d := |w| - |v|;
    assert |x| == |y| + d;
    ShiftIsLong(x, v, y, w);
    assert w == t[|y| + 6..];
    assert w[d - 6..] == s[|x|..] == "_DSN_V" + v;
    var front := w[..d - 6];
    forall i | 0 <= i < |front| ensures FlatChar(front[i]) {
      assert front[i] == w[i] == t[|y| + 6 + i] == s[|y| + 6 + i] == x[|y| + 6 + i];
    }
  }

  function Unflat(c: char): char {
    if 'A' <= c <= 'Z' then ((c as int) + 32) as char else c
  }

  lemma FlattenedIsFlat(a: string)
    ensures Flat(Map(EnvChar, a))
  {
  }

  /** An imitating version is met by an admitted identifier that holds the rest. */
  lemma ImitationAliases(w: string, v: string) returns (a: string)
    requires Imitates(w, v)
    ensures Admitted(a) && a != "a" && EnvKey(TenantDsnRef(a), v) == EnvKey(TenantDsnRef("a"), w)
  {
    var front := w[..|w| - |v| - 6];
    assert w == front + ("_DSN_V" + v);
    a := "a_dsn_v" + Map(Unflat, front);
    ImitatorAdmitted(front);
    assert |a| >= 7;
    hide Imitates, Admitted, EnvKey, TenantDsnRef, Unflat, Flat, Map;
    FrontFlattens(front);
    KeyText(a, v);
    KeyText("a", w);
    assert Map(EnvChar, "a") == "A" by { AFlattens(); }
    Shifted(front, v);
  }

  lemma AFlattens()
    ensures Map(EnvChar, "a") == "A"
  {
  }

  lemma Shifted(front: string, v: string)
    ensures "A_DSN_V" + front + "_DSN_V" + v == "A" + "_DSN_V" + (front + ("_DSN_V" + v))
  {
    assert "A_DSN_V" == "A" + "_DSN_V";
  }

  lemma ImitatorAdmitted(front: string)
    requires Flat(front)
    ensures Admitted("a_dsn_v" + Map(Unflat, front))
  {
    var a := "a_dsn_v" + Map(Unflat, front);
    assert a[1] == '_' && Lower(a)[1] == '_' && "control"[1] == 'o';
    forall i | 0 <= i < |a| ensures AdmissibleChar(a[i]) {
      if i >= 7 { assert a[i] == Unflat(front[i - 7]); }
    }
  }

  lemma FrontFlattens(front: string)
    requires Flat(front)
    ensures Map(EnvChar, "a_dsn_v" + Map(Unflat, front)) == "A_DSN_V" + front
  {
    MapConcat("a_dsn_v", Map(Unflat, front));
    assert Map(EnvChar, "a_dsn_v") == "A_DSN_V";
    assert Map(EnvChar, Map(Unflat, front)) == front;
  }

  /** Some two admitted tenants' keys meet under these versions. */
  ghost predicate SomeKeysMeet(v: string, w: string) {
    exists a, b :: KeysMeet(a, v, b, w)
  }

  predicate KeysMeet(a: string, v: string, b: string, w: string) {
    Admitted(a) && Admitted(b) && !(a == b && v == w) && EnvKey(TenantDsnRef(a), v) == EnvKey(TenantDsnRef(b), w)
  }

  /** Two versions let keys of admitted tenants meet exactly when one of them imitates the other:
      decimal ones never do. */
  lemma VersionsMeetIff(v: string, w: string)
    ensures SomeKeysMeet(v, w) <==> Imitates(w, v) || Imitates(v, w)
  {
    hide Imitates, Admitted, Map, EnvChar, EnvKey, TenantDsnRef, Flat;
    if SomeKeysMeet(v, w) {
      var a, b :| KeysMeet(a, v, b, w);
      MeetingImitates(a, v, b, w);
    }
    if Imitates(w, v) {
      var a := ImitationAliases(w, v);
      AdmittedA();
      assert KeysMeet(a, v, "a", w);
    } else if Imitates(v, w) {
      var a := ImitationAliases(v, w);
      AdmittedA();
      assert KeysMeet("a", v, a, w);
    }
  }

  lemma AdmittedA()
    ensures Admitted("a")
  {
    assert |Lower("a")| == 1;
  }

  lemma MeetingImitates(a: string, v: string, b: string, w: string)
    requires KeysMeet(a, v, b, w)
    ensures Imitates(w, v) || Imitates(v, w)
  {
    hide Imitates, Map, EnvChar, EnvKey, TenantDsnRef, Flat, Admitted;
    KeyText(a, v);
    KeyText(b, w);
    var x, y := Map(EnvChar, a), Map(EnvChar, b);
    PrefixCancels(KEY_FRONT, x + "_DSN_V" + v, y + "_DSN_V" + w);
    FlattenedIsFlat(a);
    FlattenedIsFlat(b);
    if |v| < |w| {
      LongerVersionImitates(x, v, y, w);
    } else if |w| < |v| {
      LongerVersionImitates(y, w, x, v);
    } else {
      SuffixesEqual(x + "_DSN_V", v, y + "_DSN_V", w);
      SuffixCancels(x, y, "_DSN_V");
      FlattenInjective(a, b);
    }
  }

  lemma SuffixesEqual(x: string, v: string, y: string, w: string)
    requires x + v == y + w && |v| == |w|
    ensures x == y && v == w
  {
    assert (x + v)[..|x|] == x && (y + w)[..|y|] == y;
    assert (x + v)[|x|..] == v && (y + w)[|y|..] == w;
  }

  lemma ImitatedSuffix()
    ensures Map(EnvChar, "a") == "A" && Map(EnvChar, "a_dsn_vx") == "A_DSN_VX"
    ensures Admitted("a") && Admitted("a_dsn_vx")
  {
    assert |Lower("a")| == 1 && |Lower("a_dsn_vx")| == 8;
  }

  /** Versions must be decimal: a version text that imitates the suffix makes admitted ids collide. */
  lemma UndecimalVersionsAlias()
    ensures Admitted("a") && Admitted("a_dsn_vx")
    ensures EnvKey(TenantDsnRef("a"), "X_DSN_V1") == EnvKey(TenantDsnRef("a_dsn_vx"), "1")
  {
    hide EnvChar, AdmissibleChar, Lower, Map, EnvKey, TenantDsnRef;
    KeyText("a", "X_DSN_V1");
    KeyText("a_dsn_vx", "1");
    ImitatedSuffix();
    assert "A" + "_DSN_V" + "X_DSN_V1" == "A_DSN_VX" + "_DSN_V" + "1";
  }
}
