/** Physical distinctness of tenant databases: the evidence, the verdict and the ledger. */
module Distinctness {
  import opened Prelude

  datatype Evidence = Evidence(
    systemIdentifier: string, databaseIdentity: string, observedTarget: string, secretRefKey: string,
    sentinelNamespace: string, sentinelToken: Option<string>, sentinelWritten: bool)
  {
    function Fingerprint(): string { systemIdentifier + "::" + databaseIdentity }
  }

  datatype Verdict = Verified | VerificationFailed | VerificationIncomplete | IsolationAnomaly

  datatype Outcome = Outcome(result: Verdict, reason: string)

  // ----- what distinctness demands ---------------------------------------------------------------

  /** Both identity layers are present and the sentinel was written and read back. */
  predicate Complete(e: Evidence) {
    && e.systemIdentifier != "" && e.databaseIdentity != ""
    && e.sentinelWritten && e.sentinelToken.Some? && e.sentinelToken.value != ""
  }

  /** On none of the five legs does the evidence meet the Control DB's. */
  predicate AvoidsControl(e: Evidence, control: Evidence) {
    && e.Fingerprint() != control.Fingerprint()
    && e.observedTarget != control.observedTarget
    && e.secretRefKey != control.secretRefKey
    && e.sentinelNamespace != control.sentinelNamespace
    && (control.sentinelToken.Some? ==> e.sentinelToken != control.sentinelToken)
  }

  predicate Clashes(e: Evidence, other: Evidence) {
    || e.Fingerprint() == other.Fingerprint()
    || e.observedTarget == other.observedTarget
    || e.secretRefKey == other.secretRefKey
    || (other.sentinelToken.Some? && e.sentinelToken == other.sentinelToken)
  }

  // ----- the verifier ----------------------------------------------------------------------------------

  type Ledger = map<string, Evidence>

  /** Another tenant's evidence clashes. */
  predicate Collides(tenantId: string, e: Evidence, inventory: Ledger) {
    exists other :: other in inventory && other != tenantId && Clashes(e, inventory[other])
  }

  /** The inventory is a mapping that `order` lists. */
  method Verify(tenantId: string, candidate: Option<Evidence>, intended: string, control: Evidence, order: seq<string>,
          inventory: Ledger)
    returns (outcome: Outcome)
    requires forall t :: t in order <==> t in inventory
    ensures outcome == Judged(tenantId, candidate, intended, control, inventory)
    ensures outcome.result.VerificationIncomplete? <==> Lacking(candidate)
    ensures outcome.result.IsolationAnomaly? <==>
      (!Lacking(candidate)
       && (candidate.value.observedTarget != intended || MeetsControl(candidate.value, control)
           || MeetsAnother(tenantId, candidate.value, inventory)))
    ensures outcome.result.Verified? || outcome.result.IsolationAnomaly? || outcome.result.VerificationIncomplete?
  {
    VerdictIff(tenantId, candidate, intended, control, inventory);
    if candidate.None? {
      return Outcome(VerificationIncomplete, "incomplete_evidence");
    }
    var e := candidate.value;
    if e.systemIdentifier == "" || e.databaseIdentity == "" {
      return Outcome(VerificationIncomplete, if e.systemIdentifier != "" then "system_identifier_insufficient"
                     else "incomplete_evidence");
    }
    if !e.sentinelWritten || e.sentinelToken.None? || e.sentinelToken.value == "" {
      return Outcome(VerificationIncomplete, "sentinel_failure");
    }
    if e.observedTarget != intended {
      return Outcome(IsolationAnomaly, "misrouted_target");
    }
    if || e.Fingerprint() == control.Fingerprint()
       || e.observedTarget == control.observedTarget
       || e.secretRefKey == control.secretRefKey
       || e.sentinelNamespace == control.sentinelNamespace
       || (control.sentinelToken.Some? && e.sentinelToken == control.sentinelToken)
    {
      return Outcome(IsolationAnomaly, "control_db_collision");
    }
    var i := 0;
    while i < |order|
      invariant i <= |order|
      invariant forall j :: 0 <= j < i && order[j] != tenantId ==> !Clashes(e, inventory[order[j]])
    {
      if order[i] != tenantId && Clashes(e, inventory[order[i]]) {
        return Outcome(IsolationAnomaly, "tenant_collision");
      }
      i := i + 1;
    }
    return Outcome(Verdict.Verified, "verified");
  }

  /** The verdict: incomplete evidence first, then misrouting, then the Control DB, then other tenants. */
  function Judged(tenantId: string, candidate: Option<Evidence>, intended: string, control: Evidence,
          inventory: Ledger): Outcome {
    if candidate.None? then Outcome(VerificationIncomplete, "incomplete_evidence")
    else
      var e := candidate.value;
      if !Complete(e) then
        Outcome(VerificationIncomplete,
                if e.systemIdentifier == "" then "incomplete_evidence"
                else if e.databaseIdentity == "" then "system_identifier_insufficient"
                else "sentinel_failure")
      else if e.observedTarget != intended then Outcome(IsolationAnomaly, "misrouted_target")
      else if !AvoidsControl(e, control) then Outcome(IsolationAnomaly, "control_db_collision")
      else if Collides(tenantId, e, inventory) then Outcome(IsolationAnomaly, "tenant_collision")
      else Outcome(Verdict.Verified, "verified")
  }

  /** Something the verdict needs is missing. */
  predicate Lacking(candidate: Option<Evidence>) {
    candidate == None ||
    var e := candidate.value;
    || |e.systemIdentifier| == 0 || |e.databaseIdentity| == 0
    || !e.sentinelWritten || e.sentinelToken == None || e.sentinelToken == Some("")
  }

  /** On one of the five legs the evidence is the Control DB's. */
  predicate MeetsControl(e: Evidence, control: Evidence) {
    || e.systemIdentifier + "::" + e.databaseIdentity == control.systemIdentifier + "::" + control.databaseIdentity
    || e.observedTarget == control.observedTarget
    || e.secretRefKey == control.secretRefKey
    || e.sentinelNamespace == control.sentinelNamespace
    || (control.sentinelToken != None && e.sentinelToken == control.sentinelToken)
  }

  /** On one of the four legs the evidence is another listed tenant's. */
  predicate MeetsAnother(tenantId: string, e: Evidence, inventory: Ledger) {
    exists u :: u in inventory && u != tenantId &&
      var other := inventory[u];
      || e.systemIdentifier + "::" + e.databaseIdentity == other.systemIdentifier + "::" + other.databaseIdentity
      || e.observedTarget == other.observedTarget
      || e.secretRefKey == other.secretRefKey
      || (other.sentinelToken != None && e.sentinelToken == other.sentinelToken)
  }

  /** Which verdict, and for which reason, in fields of the evidence. */
  lemma VerdictIff(tenantId: string, candidate: Option<Evidence>, intended: string, control: Evidence,
          inventory: Ledger)
    ensures var outcome := Judged(tenantId, candidate, intended, control, inventory);
      && (outcome.result.VerificationIncomplete? <==> Lacking(candidate))
      && !outcome.result.VerificationFailed?
      && (!Lacking(candidate) ==>
            var e := candidate.value;
            && (outcome.result.IsolationAnomaly? <==>
                  (e.observedTarget != intended || MeetsControl(e, control) || MeetsAnother(tenantId, e, inventory)))
            && (outcome.reason == "misrouted_target" <==> e.observedTarget != intended)
            && (outcome.reason == "control_db_collision" <==>
                  (e.observedTarget == intended && MeetsControl(e, control)))
            && (outcome.reason == "tenant_collision" <==>
                  (e.observedTarget == intended && !MeetsControl(e, control)
                   && MeetsAnother(tenantId, e, inventory))))
      && (Lacking(candidate) ==>
            && (outcome.reason == "sentinel_failure" <==>
                  (candidate.Some? && candidate.value.systemIdentifier != "" && candidate.value.databaseIdentity != ""))
            && (outcome.reason == "system_identifier_insufficient" <==>
                  (candidate.Some? && candidate.value.systemIdentifier != ""
                   && candidate.value.databaseIdentity == "")))
  {
    hide Clashes, MeetsAnother, Collides;
    ReasonsDiffer();
    if candidate.Some? {
      MeetsIff(tenantId, candidate.value, inventory);
    }
  }

  lemma MeetsIff(tenantId: string, e: Evidence, inventory: Ledger)
    ensures Collides(tenantId, e, inventory) <==> MeetsAnother(tenantId, e, inventory)
  {
  }

  lemma ReasonsDiffer()
    ensures |"misrouted_target"| == 16 && |"control_db_collision"| == 20 && |"verified"| == 8
    ensures "tenant_collision"[0] != "misrouted_target"[0] && |"sentinel_failure"| == 16
    ensures |"system_identifier_insufficient"| == 30 && |"incomplete_evidence"| == 19
  {
  }

  // ----- the ledger ---------------------------------------------------------------------------------------

  predicate Taken(ledger: Ledger, tenantId: string, e: Evidence) {
    exists other :: other in ledger && other != tenantId && ledger[other].Fingerprint() == e.Fingerprint()
  }

  /** No two tenants hold the same fingerprint. */
  predicate UniqueFingerprints(ledger: Ledger) {
    forall a, b :: a in ledger && b in ledger && a != b ==> ledger[a].Fingerprint() != ledger[b].Fingerprint()
  }

  /** No two tenants meet on any leg. */
  predicate Apart(ledger: Ledger) {
    forall a, b :: a in ledger && b in ledger && a != b ==> !Clashes(ledger[a], ledger[b])
  }

  /** Recording complete evidence keeps all tenants apart exactly when it clashes with no other tenant's
      on the ledger it is recorded in. */
  lemma ApartIff(tenantId: string, e: Evidence, ledger: Ledger)
    requires Apart(ledger) && Complete(e)
    ensures Apart(ledger[tenantId := e]) <==> !Collides(tenantId, e, ledger - {tenantId})
  {
    var after := ledger[tenantId := e];
    if Collides(tenantId, e, ledger - {tenantId}) {
      var other :| other in ledger && other != tenantId && Clashes(e, ledger[other]);
      assert tenantId in after && other in after && Clashes(after[tenantId], after[other]);
    } else {
      forall a, b | a in after && b in after && a != b ensures !Clashes(after[a], after[b]) {
        if a == tenantId {
          assert b in ledger - {tenantId};
        } else if b == tenantId {
          assert a in ledger - {tenantId};
          ClashesIsMutual(e, ledger[a]);
        }
      }
    }
  }

  /** Complete evidence is met by what it meets. */
  lemma ClashesIsMutual(e: Evidence, other: Evidence)
    requires Complete(e)
    ensures Clashes(other, e) ==> Clashes(e, other)
  {
  }

  /** A complete candidate on its own target and off the Control DB is verified exactly when recording
      it would keep all tenants apart: a refused one would have broken that. */
  lemma VerifiedIffKeepsApart(tenantId: string, e: Evidence, control: Evidence, ledger: Ledger)
    requires Apart(ledger) && Complete(e) && AvoidsControl(e, control)
    ensures Judged(tenantId, Some(e), e.observedTarget, control, ledger - {tenantId}).result == Verdict.Verified
      <==> Apart(ledger[tenantId := e])
  {
    ApartIff(tenantId, e, ledger);
  }

  /** A verdict on the ledger as it stands keeps all tenants apart on every leg, and is never refused
      when recorded. */
  lemma CurrentVerdictKeepsApart(tenantId: string, e: Evidence, intended: string, control: Evidence, ledger: Ledger)
    requires Apart(ledger)
    requires Judged(tenantId, Some(e), intended, control, ledger - {tenantId}).result == Verdict.Verified
    ensures Apart(ledger[tenantId := e]) && !Taken(ledger, tenantId, e)
  {
    forall other | other in ledger && other != tenantId
      ensures !Clashes(e, ledger[other]) && !Clashes(ledger[other], e) && ledger[other].Fingerprint() != e.Fingerprint()
    {
      assert other in ledger - {tenantId};
    }
  }

  /** On a stale inventory the arbiter guards the fingerprint only: a verified tenant can be recorded
      beside one with the same secret reference, and is when neither was listed for the other. */
  lemma StaleVerdictMayShareSecret(control: Evidence, secret: string)
    requires control == Evidence("0", "control:0", "control", "control/dsn", "dv_sentinel_control", None, false)
    requires secret != control.secretRefKey
    ensures var a := Evidence("1", "a:1", "sp2_tenant_a", secret, "dv_sentinel_a", Some("x"), true);
      var b := Evidence("1", "b:2", "sp2_tenant_b", secret, "dv_sentinel_b", Some("y"), true);
      && Judged("a", Some(a), "sp2_tenant_a", control, map[]).result == Verdict.Verified
      && Judged("b", Some(b), "sp2_tenant_b", control, map[]).result == Verdict.Verified
      && !Taken(map["a" := a], "b", b) && UniqueFingerprints(map["a" := a, "b" := b]) && !Apart(map["a" := a, "b" := b])
  {
    var a := Evidence("1", "a:1", "sp2_tenant_a", secret, "dv_sentinel_a", Some("x"), true);
    var b := Evidence("1", "b:2", "sp2_tenant_b", secret, "dv_sentinel_b", Some("y"), true);
    assert a.Fingerprint()[3] == 'a' && b.Fingerprint()[3] == 'b' && control.Fingerprint()[0] == '0';
    assert a.observedTarget[0] == 's' && a.sentinelNamespace[12] == 'a' && b.sentinelNamespace[12] == 'b';
    var both := map["a" := a, "b" := b];
    assert "a"[0] != "b"[0];
    assert "a" in both && "b" in both && Clashes(both["a"], both["b"]);
  }

  /** The dictionary of latest evidence, in the order tenants were first recorded. */
  class InMemoryDistinctnessLedger {
    var order: seq<string>
    var byTenant: Ledger

    ghost predicate Valid()
      reads this
    {
      && (forall t :: t in order <==> t in byTenant)
      && NoRepeats(order)
      && UniqueFingerprints(byTenant)
    }

    constructor ()
      ensures Valid() && byTenant == map[]
    {
      order, byTenant := [], map[];
    }

    /** The write is the arbiter: it is refused exactly when another tenant holds the fingerprint. */
    method RecordEvidence(tenantId: string, evidence: Evidence) returns (refused: bool)
      requires Valid()
      modifies this
      ensures Valid()
      ensures refused <==> Taken(old(byTenant), tenantId, evidence)
      ensures byTenant == if refused then old(byTenant) else old(byTenant)[tenantId := evidence]
    {
      var i := 0;
      while i < |order|
        invariant i <= |order|
        invariant forall j :: 0 <= j < i && order[j] != tenantId ==>
          byTenant[order[j]].Fingerprint() != evidence.Fingerprint()
      {
        if order[i] != tenantId && byTenant[order[i]].Fingerprint() == evidence.Fingerprint() {
          return true;
        }
        i := i + 1;
      }
      if tenantId !in byTenant {
        order := order + [tenantId];
      }
      byTenant := byTenant[tenantId := evidence];
      return false;
    }

    method EvidenceExcluding(tenantId: string) returns (listed: seq<string>, inventory: Ledger)
      requires Valid()
      ensures inventory == byTenant - {tenantId} && forall t :: t in listed <==> t in inventory
    {
      listed, inventory := [], map[];
      var i := 0;
      while i < |order|
        invariant i <= |order|
        invariant forall t :: t in listed <==> t in order[..i] && t != tenantId
        invariant forall t :: t in inventory <==> t in listed
        invariant forall t :: t in inventory ==> t in byTenant && inventory[t] == byTenant[t]
      {
        assert order[..i + 1] == order[..i] + [order[i]];
        if order[i] != tenantId {
          listed, inventory := listed + [order[i]], inventory[order[i] := byTenant[order[i]]];
        }
        i := i + 1;
      }
      assert order[..i] == order;
      assert forall t :: t in inventory <==> t in byTenant - {tenantId};
    }

    method Remove(tenantId: string)
      requires Valid()
      modifies this
      ensures Valid() && byTenant == old(byTenant) - {tenantId}
    {
      order := Filter(order, OtherThan(tenantId));
      FilterMembers(old(order), OtherThan(tenantId));
      FilterDistinct(old(order), tenantId);
      byTenant := byTenant - {tenantId};
    }
  }

  function OtherThan(x: string): string -> bool { t => t != x }

  predicate NoRepeats(xs: seq<string>) {
    forall i, j :: 0 <= i < j < |xs| ==> xs[i] != xs[j]
  }

  lemma {:induction false} FilterDistinct(xs: seq<string>, x: string)
    requires NoRepeats(xs)
    ensures NoRepeats(Filter(xs, OtherThan(x)))
  {
    if xs != [] {
      var init, last := xs[..|xs| - 1], xs[|xs| - 1];
      FilterDistinct(init, x);
      FilterMembers(init, OtherThan(x));
      assert last !in init;
      var kept := Filter(init, OtherThan(x));
      assert last !in kept && NoRepeats(kept + [last]) && kept + [] == kept;
    }
  }
}
