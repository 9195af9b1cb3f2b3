/** The compensation that drops a tenant database: five proofs of ownership, read through ports that
    may fail at any call while everything else changes in between. */
module Recovery {
  import opened Prelude
  import opened Naming
  import opened Lifecycle
  import Distinctness

  // ----- the content census ------------------------------------------------------------------------

  datatype Inspection = Inspection(
    systemIdentifier: string, databaseIdentity: string, userTables: map<string, int>,
    agentsTotal: int, agentsSystemPrimary: int, schemaVersions: seq<string>)
  {
    function Fingerprint(): string { systemIdentifier + "::" + databaseIdentity }
  }

  datatype Content = Empty | BootstrapOnly | NonEmpty

  const SEED_TABLE := "public.agents"
  const SENTINEL_TABLE := "dv_sentinel.marker"
  const VERSION_TABLE := "public.schema_version"

  const BOOTSTRAP_TABLE_SET: set<string> := {
    VERSION_TABLE, SENTINEL_TABLE,
    "public.lineage", "public.lineage_segment", "public.import_job", "public.import_idempotency",
    "public.import_checkpoint",
    SEED_TABLE, "public.ai_agents", "public.startups", "public.investors", "public.deals",
    "public.startup_ownership", "public.investor_ownership", "public.deal_ownership",
    "public.startup_ai_ownership", "public.investor_ai_ownership", "public.deal_ai_ownership",
    "public.startup_contacts", "public.investor_contacts", "public.startup_investors"}

  /** What one table of an untouched bootstrap may hold. */
  predicate BootstrapTable(i: Inspection, supported: set<string>, name: string)
    requires name in i.userTables
  {
    && name in BOOTSTRAP_TABLE_SET
    && (name == SEED_TABLE ==> i.userTables[name] == 1 && i.agentsTotal == 1 && i.agentsSystemPrimary == 1)
    && (name == VERSION_TABLE ==>
          i.userTables[name] >= 0 && i.schemaVersions != [] && forall v :: v in i.schemaVersions ==> v in supported)
    && (name !in {SEED_TABLE, VERSION_TABLE, SENTINEL_TABLE} ==> i.userTables[name] == 0)
  }

  function ContentOf(i: Inspection, supported: set<string>): Content {
    if i.userTables == map[] then Empty
    else if forall name :: name in i.userTables ==> BootstrapTable(i, supported, name) then BootstrapOnly
    else NonEmpty
  }

  /** In counts: a table no bootstrap makes, rows in an ordinary one, a seed other than the single
      system-primary agent, or version rows that are unreadable, missing or unsupported. */
  predicate HoldsEvidence(i: Inspection, supported: set<string>) {
    || (exists name :: name in i.userTables && name !in BOOTSTRAP_TABLE_SET)
    || (exists name :: name in i.userTables && i.userTables[name] != 0
                       && name != "public.agents" && name != "public.schema_version" && name != "dv_sentinel.marker")
    || ("public.agents" in i.userTables
        && (i.userTables["public.agents"] != 1 || i.agentsTotal != 1 || i.agentsSystemPrimary != 1))
    || ("public.schema_version" in i.userTables
        && (i.userTables["public.schema_version"] < 0 || |i.schemaVersions| == 0
            || exists v :: v in i.schemaVersions && v !in supported))
  }

  /** The census rules keep exactly what holds no evidence. */
  lemma EvidenceIff(i: Inspection, supported: set<string>)
    ensures ContentOf(i, supported) == NonEmpty <==> HoldsEvidence(i, supported)
    ensures ContentOf(i, supported) == Empty <==> |i.userTables| == 0
  {
    if HoldsEvidence(i, supported) {
      assert exists name :: name in i.userTables && !BootstrapTable(i, supported, name);
    }
  }

  method ClassifyContent(i: Inspection, supported: set<string>) returns (content: Content)
    ensures content == ContentOf(i, supported)
    ensures content == NonEmpty <==> HoldsEvidence(i, supported)
    ensures content == Empty <==> |i.userTables| == 0
  {
    hide HoldsEvidence;
    EvidenceIff(i, supported);
    if i.userTables == map[] {
      return Empty;
    }
    if !(i.userTables.Keys <= BOOTSTRAP_TABLE_SET) {
      ghost var name :| name in i.userTables.Keys && name !in BOOTSTRAP_TABLE_SET;
      assert !BootstrapTable(i, supported, name);
      return NonEmpty;
    }
    var todo := i.userTables.Keys;
    while todo != {}
      invariant todo <= i.userTables.Keys <= BOOTSTRAP_TABLE_SET
      invariant forall name :: name in i.userTables && name !in todo ==> BootstrapTable(i, supported, name)
      decreases |todo|
    {
      var name :| name in todo;
      var count := i.userTables[name];
      todo := todo - {name};
      if name == SENTINEL_TABLE {
        continue;
      }
      if name == SEED_TABLE {
        if count != 1 || i.agentsTotal != 1 || i.agentsSystemPrimary != 1 {
          assert !BootstrapTable(i, supported, name);
          return NonEmpty;
        }
        continue;
      }
      if name == VERSION_TABLE {
        if count < 0 || i.schemaVersions == [] || exists v :: v in i.schemaVersions && v !in supported {
          assert !BootstrapTable(i, supported, name);
          return NonEmpty;
        }
        continue;
      }
      if count != 0 {
        assert !BootstrapTable(i, supported, name);
        return NonEmpty;
      }
    }
    return BootstrapOnly;
  }

  /** A table that could not be counted (-1) makes a droppable database evidence, except the sentinel
      table, whose count is never looked at. */
  lemma UncountableIsEvidenceIff(i: Inspection, supported: set<string>, name: string)
    requires ContentOf(i, supported) != NonEmpty
    ensures ContentOf(i.(userTables := i.userTables[name := -1]), supported) == NonEmpty <==> name != SENTINEL_TABLE
  {
    var j := i.(userTables := i.userTables[name := -1]);
    assert name in j.userTables;
    if name == SENTINEL_TABLE {
      forall other | other in j.userTables ensures BootstrapTable(j, supported, other) {
        if other != name {
          assert other in i.userTables && BootstrapTable(i, supported, other);
        }
      }
    } else {
      assert !BootstrapTable(j, supported, name);
    }
  }

  // ----- the world the ports look at -----------------------------------------------------------------

  /** Registry, ledger, Control-DB identity and live databases at one moment; `None` is a port that
      cannot tell. */
  datatype Moment = Moment(
    records: map<string, Record>, ledger: Ledger, control: Option<string>, candidates: Option<set<string>>,
    present: string -> Option<bool>, inspected: string -> Option<Inspection>)

  datatype Terminal = Requested | Held | Completed | Refused

  datatype Port = ReadRecord | ReadControl | ReadLedger | Exists | Inspect | Quarantine | Drop(target: string)
      | Emit(event: Terminal)

  /** A port call, the moment it met, and whether it returned. */
  datatype Call = Call(port: Port, at: nat, ok: bool)

  datatype Reason =
    | Deprovisioned | AbsentNoop | UnknownTenant | IneligibleState | OutsideNamespace | ControlTarget
    | ControlUnavailable
    | NonCanonicalRef | ContentNotEmpty | LedgerCollision | FingerprintMismatch | InspectionUnavailable
    | DeprovisionFailed

  datatype Outcome = Outcome(target: string, dropped: bool, completed: bool, reason: Reason)

  datatype Result<T> = Returns(value: T) | Raises

  const ELIGIBLE: set<Stage> := {Provisioning, Failed, Quarantined}
  const ANOMALIES: set<Reason> :=
      {OutsideNamespace, ControlTarget, NonCanonicalRef, ContentNotEmpty, LedgerCollision, FingerprintMismatch}

  predicate EligibleRecord(m: Moment, t: string) { t in m.records && m.records[t].stage in ELIGIBLE }

  predicate NotControl(m: Moment, target: string) { m.control.Some? && m.control.value != target }

  predicate NoOtherEvidence(m: Moment, t: string, target: string, fingerprint: Option<string>) {
    forall u :: u in m.ledger && u != t ==>
      m.ledger[u].observedTarget != target && Some(m.ledger[u].Fingerprint()) != fingerprint
  }

  /** The tenant's own row, as the full inventory shows it: the empty id is always left out. */
  predicate OwnEvidenceAgrees(m: Moment, t: string, target: string, fingerprint: string) {
    t in m.ledger && t != "" ==> m.ledger[t].Fingerprint() == fingerprint && m.ledger[t].observedTarget == target
  }

  predicate CanonicalRef(m: Moment, t: string) {
    t in m.records && TenantIdFromDsnRef(m.records[t].association.storeRef) == Some(t)
  }

  // ----- what a trace may show -----------------------------------------------------------------------------

  /** The emits attempted in a trace, in order. */
  function Emits(trace: seq<Call>): seq<Terminal> {
    if trace == [] then []
    else Emits(trace[..|trace| - 1]) + if trace[|trace| - 1].port.Emit? then [trace[|trace| - 1].port.event] else []
  }

  /** How many drops succeeded. */
  function Drops(trace: seq<Call>): nat {
    if trace == [] then 0
    else Drops(trace[..|trace| - 1]) + if trace[|trace| - 1].port.Drop? && trace[|trace| - 1].ok then 1 else 0
  }

  predicate NoDropSince(trace: seq<Call>, n: nat) { forall i :: n <= i < |trace| ==> !trace[i].port.Drop? }

  /** The four reads of the final re-validation end right before position `d`, and all passed. */
  predicate Revalidated(moments: nat -> Moment, trace: seq<Call>, d: nat, t: string, target: string,
          fingerprint: string)
    requires d <= |trace|
  {
    && d >= 4 && (forall k :: d - 4 <= k < d ==> trace[k].ok)
    && trace[d - 4].port == ReadRecord && EligibleRecord(moments(trace[d - 4].at), t)
    && trace[d - 3].port == ReadControl && NotControl(moments(trace[d - 3].at), target)
    && trace[d - 2].port == ReadLedger && NoOtherEvidence(moments(trace[d - 2].at), t, target, Some(fingerprint))
    && trace[d - 1].port == ReadLedger && OwnEvidenceAgrees(moments(trace[d - 1].at), t, target, fingerprint)
  }

  predicate InspectedAt(moments: nat -> Moment, trace: seq<Call>, k: nat, target: string, i: Inspection,
          supported: set<string>)
    requires k < |trace|
  {
    trace[k].port == Inspect && trace[k].ok && moments(trace[k].at).inspected(target) == Some(i)
        && ContentOf(i, supported) != NonEmpty
  }

  predicate CanonicalAt(moments: nat -> Moment, trace: seq<Call>, k: nat, t: string)
    requires k < |trace|
  {
    trace[k].port == ReadRecord && trace[k].ok && CanonicalRef(moments(trace[k].at), t)
  }

  /** A drop, if made at `d`, is of the tenant's own database: its reference was canonical, its content
      then empty or bootstrap-only, and all else re-proven right before. */
  ghost predicate Justified(moments: nat -> Moment, supported: set<string>, trace: seq<Call>, from: nat, d: nat,
          t: string)
    requires from <= d < |trace|
  {
    trace[d].port.Drop? ==>
      && trace[d].port.target == TenantDatabaseName(t)
      && exists j, k, i ::
           && from <= j < k < d - 4 && CanonicalAt(moments, trace, j, t)
           && InspectedAt(moments, trace, k, TenantDatabaseName(t), i, supported)
           && Revalidated(moments, trace, d, t, TenantDatabaseName(t), i.Fingerprint())
  }

  ghost predicate AllJustified(moments: nat -> Moment, supported: set<string>, trace: seq<Call>, from: nat, t: string) {
    forall d :: from <= d < |trace| ==> Justified(moments, supported, trace, from, d, t)
  }

  /** The final re-validation in fields: the four reads right before `d`, what each met, and the tenant
      they leave to be dropped. */
  predicate Reproven(moments: nat -> Moment, trace: seq<Call>, d: nat, t: string, i: Inspection)
    requires 4 <= d <= |trace|
  {
    var a, b, c, e :=
      moments(trace[d - 4].at), moments(trace[d - 3].at), moments(trace[d - 2].at), moments(trace[d - 1].at);
    && trace[d - 4].ok && trace[d - 3].ok && trace[d - 2].ok && trace[d - 1].ok
    && trace[d - 4].port == ReadRecord && trace[d - 3].port == ReadControl
    && trace[d - 2].port == ReadLedger && trace[d - 1].port == ReadLedger
    && t in a.records
    && (a.records[t].stage == Provisioning || a.records[t].stage == Failed || a.records[t].stage == Quarantined)
    && b.control.Some? && b.control.value != "sp2_tenant_" + t
    && (forall u :: u in c.ledger && u != t ==>
          && c.ledger[u].observedTarget != "sp2_tenant_" + t
          && c.ledger[u].systemIdentifier + "::" + c.ledger[u].databaseIdentity
             != i.systemIdentifier + "::" + i.databaseIdentity)
    && (t in e.ledger && t != "" ==>
          && e.ledger[t].observedTarget == "sp2_tenant_" + t
          && e.ledger[t].systemIdentifier + "::" + e.ledger[t].databaseIdentity
             == i.systemIdentifier + "::" + i.databaseIdentity)
  }

  /** A drop in fields: of the tenant's own database, after a read of its canonical reference and an
      inspection without evidence, and right after the re-validation. */
  predicate ProvenDrop(moments: nat -> Moment, supported: set<string>, trace: seq<Call>, from: nat, d: nat, t: string)
    requires from <= d < |trace|
  {
    && trace[d].port == Drop("sp2_tenant_" + t)
    && exists j, k ::
         && from <= j < k < d - 4
         && trace[j].port == ReadRecord && trace[j].ok && t in moments(trace[j].at).records
         && moments(trace[j].at).records[t].association.storeRef == "tenant/" + t + "/dsn"
         && trace[k].port == Inspect && trace[k].ok && moments(trace[k].at).inspected("sp2_tenant_" + t).Some?
         && var i := moments(trace[k].at).inspected("sp2_tenant_" + t).value;
         && !HoldsEvidence(i, supported) && Reproven(moments, trace, d, t, i)
  }

  ghost predicate EveryDropProven(moments: nat -> Moment, supported: set<string>, trace: seq<Call>, from: nat,
          t: string) {
    forall d :: from <= d < |trace| && trace[d].port.Drop? ==> ProvenDrop(moments, supported, trace, from, d, t)
  }

  lemma JustifiedIsProven(moments: nat -> Moment, supported: set<string>, trace: seq<Call>, from: nat, d: nat,
          t: string)
    requires from <= d < |trace| && trace[d].port.Drop? && Justified(moments, supported, trace, from, d, t)
    ensures ProvenDrop(moments, supported, trace, from, d, t)
  {
    hide HoldsEvidence, ContentOf, Reproven, Revalidated;
    var j, k, i :|
      && from <= j < k < d - 4 && CanonicalAt(moments, trace, j, t)
      && InspectedAt(moments, trace, k, TenantDatabaseName(t), i, supported)
      && Revalidated(moments, trace, d, t, TenantDatabaseName(t), i.Fingerprint());
    EvidenceIff(i, supported);
    DsnRefInverse(moments(trace[j].at).records[t].association.storeRef, t);
    RevalidatedInFields(moments, trace, d, t, i);
  }

  lemma RevalidatedInFields(moments: nat -> Moment, trace: seq<Call>, d: nat, t: string, i: Inspection)
    requires d <= |trace| && Revalidated(moments, trace, d, t, TenantDatabaseName(t), i.Fingerprint())
    ensures Reproven(moments, trace, d, t, i)
  {
    assert trace[d - 4].ok && trace[d - 3].ok && trace[d - 2].ok && trace[d - 1].ok;
  }

  lemma AllProven(moments: nat -> Moment, supported: set<string>, trace: seq<Call>, from: nat, t: string)
    requires AllJustified(moments, supported, trace, from, t)
    ensures EveryDropProven(moments, supported, trace, from, t)
  {
    hide Justified, ProvenDrop;
    forall d | from <= d < |trace| && trace[d].port.Drop?
      ensures ProvenDrop(moments, supported, trace, from, d, t) {
      JustifiedIsProven(moments, supported, trace, from, d, t);
    }
  }

  /** Everything the operator's drop relies on, at one moment. */
  predicate SafeToDrop(m: Moment, t: string, target: string, i: Inspection) {
    && EligibleRecord(m, t) && NotControl(m, target)
    && NoOtherEvidence(m, t, target, Some(i.Fingerprint())) && OwnEvidenceAgrees(m, t, target, i.Fingerprint())
  }

  /** When the re-validation and the drop meet one and the same moment, the drop is safe at it. */
  lemma DropIsSafe(moments: nat -> Moment, supported: set<string>, trace: seq<Call>, from: nat, d: nat, t: string)
    returns (k: nat, i: Inspection)
    requires from <= d < |trace| && AllJustified(moments, supported, trace, from, t) && trace[d].port.Drop?
    requires forall n :: 0 <= d - 4 <= n < d ==> moments(trace[n].at) == moments(trace[d].at)
    ensures trace[d].port.target == TenantDatabaseName(t)
    ensures SafeToDrop(moments(trace[d].at), t, TenantDatabaseName(t), i)
    ensures from <= k < d && InspectedAt(moments, trace, k, TenantDatabaseName(t), i, supported)
  {
    hide ContentOf, NoOtherEvidence, OwnEvidenceAgrees;
    assert Justified(moments, supported, trace, from, d, t);
    var j, k', i' :|
      && from <= j < k' < d - 4 && CanonicalAt(moments, trace, j, t)
      && InspectedAt(moments, trace, k', TenantDatabaseName(t), i', supported)
      && Revalidated(moments, trace, d, t, TenantDatabaseName(t), i'.Fingerprint());
    k, i := k', i';
    assert moments(trace[d - 1].at) == moments(trace[d].at) && moments(trace[d - 2].at) == moments(trace[d].at);
    assert moments(trace[d - 3].at) == moments(trace[d].at) && moments(trace[d - 4].at) == moments(trace[d].at);
  }

  // ----- a world that stands still ---------------------------------------------------------------------------

  /** The condition for dropping, in any order of checks. */
  predicate Droppable(m: Moment, supported: set<string>, t: string) {
    var target := TenantDatabaseName(t);
    && EligibleRecord(m, t) && CanonicalRef(m, t) && NotControl(m, target)
    && m.present(target) == Some(true)
    && m.inspected(target).Some? && ContentOf(m.inspected(target).value, supported) != NonEmpty
    && NoOtherEvidence(m, t, target, Some(m.inspected(target).value.Fingerprint()))
    && OwnEvidenceAgrees(m, t, target, m.inspected(target).value.Fingerprint())
  }

  /** The reason the ownership proof fails for, if it does: the first that applies. */
  function ProofFailure(m: Moment, t: string, target: string, fingerprint: Option<string>): (failure: Option<Reason>)
    ensures failure.None? <==>
      && EligibleRecord(m, t) && StartsWith(target, TENANT_DB_PREFIX) && NotControl(m, target)
      && NoOtherEvidence(m, t, target, fingerprint)
      && (fingerprint.Some? ==> OwnEvidenceAgrees(m, t, target, fingerprint.value))
    ensures failure.Some? ==> failure.value !in {Deprovisioned, AbsentNoop, DeprovisionFailed}
  {
    if t !in m.records then Some(UnknownTenant)
    else if m.records[t].stage !in ELIGIBLE then Some(IneligibleState)
    else if !StartsWith(target, TENANT_DB_PREFIX) then Some(OutsideNamespace)
    else if m.control.None? then Some(ControlUnavailable)
    else if m.control.value == target then Some(ControlTarget)
    else if !NoOtherEvidence(m, t, target, fingerprint) then Some(LedgerCollision)
    else if fingerprint.Some? && !OwnEvidenceAgrees(m, t, target, fingerprint.value) then Some(FingerprintMismatch)
    else None
  }

  /** The last step's reason; Deprovisioned when nothing stands against the drop. */
  function DestroyReason(m: Moment, t: string, target: string, i: Inspection): Reason {
    ProofFailure(m, t, target, Some(i.Fingerprint())).GetOr(Deprovisioned)
  }

  function CensusReason(m: Moment, supported: set<string>, t: string, target: string): Reason {
    if m.inspected(target).None? then InspectionUnavailable
    else
      var i := m.inspected(target).value;
      if !OwnEvidenceAgrees(m, t, target, i.Fingerprint()) then FingerprintMismatch
      else if ContentOf(i, supported) == NonEmpty then ContentNotEmpty
      else DestroyReason(m, t, target, i)
  }

  function IdentityFailure(m: Moment, t: string, target: string): (failure: Option<Reason>)
    ensures failure.Some? ==> failure.value !in {Deprovisioned, AbsentNoop, DeprovisionFailed}
  {
    var proof := ProofFailure(m, t, target, None);
    if proof.Some? then proof
    else if !CanonicalRef(m, t) then Some(NonCanonicalRef)
    else None
  }

  /** What a request ends with in a world that stands still. */
  function SteadyReason(m: Moment, supported: set<string>, t: string): Reason {
    var target := TenantDatabaseName(t);
    var failure := IdentityFailure(m, t, target);
    if failure.Some? then failure.value
    else if m.present(target).None? then InspectionUnavailable
    else if !m.present(target).value then AbsentNoop
    else CensusReason(m, supported, t, target)
  }

  function OutcomeFor(target: string, reason: Reason): Outcome {
    Outcome(target, reason == Deprovisioned, reason == Deprovisioned || reason == AbsentNoop, reason)
  }

  /** A refusal's trail: an anomaly puts a tenant on hold that is not there yet, before the refusal. */
  function FailTrail(m: Moment, t: string, reason: Reason, quarantine: bool): seq<Terminal> {
    if quarantine && reason in ANOMALIES && Holdable(m, t) then [Held, Refused] else [Refused]
  }

  predicate Holdable(m: Moment, t: string) { t in m.records && m.records[t].stage in {Provisioning, Failed} }

  function SteadyTrail(m: Moment, t: string, reason: Reason): seq<Terminal> {
    if reason == Deprovisioned || reason == AbsentNoop then [Completed] else FailTrail(m, t, reason, true)
  }

  /** It drops exactly the droppable, although it checks in an order of its own. */
  lemma DropsIffDroppable(m: Moment, supported: set<string>, t: string)
    ensures SteadyReason(m, supported, t) == Deprovisioned <==> Droppable(m, supported, t)
    ensures SteadyReason(m, supported, t) == AbsentNoop <==>
      && EligibleRecord(m, t) && CanonicalRef(m, t) && NotControl(m, TenantDatabaseName(t))
      && NoOtherEvidence(m, t, TenantDatabaseName(t), None) && m.present(TenantDatabaseName(t)) == Some(false)
  {
    hide ContentOf, TenantIdFromDsnRef;
    assert StartsWith(TenantDatabaseName(t), TENANT_DB_PREFIX);
  }

  /** In fields: the record may be compensated, the name is free of the Control DB and of other tenants'
      evidence, and the reference is the canonical one. */
  predicate OwnsName(m: Moment, t: string) {
    && t in m.records
    && (m.records[t].stage == Provisioning || m.records[t].stage == Failed || m.records[t].stage == Quarantined)
    && m.control.Some? && m.control.value != "sp2_tenant_" + t
    && (forall u :: u in m.ledger && u != t ==> m.ledger[u].observedTarget != "sp2_tenant_" + t)
    && m.records[t].association.storeRef == "tenant/" + t + "/dsn" && t != "" && '/' !in t
  }

  /** In fields: the tenant's own evidence, if recorded, is of the database seen. */
  predicate OwnRow(m: Moment, t: string, i: Inspection) {
    t in m.ledger && t != "" ==>
      && m.ledger[t].observedTarget == "sp2_tenant_" + t
      && m.ledger[t].systemIdentifier + "::" + m.ledger[t].databaseIdentity
         == i.systemIdentifier + "::" + i.databaseIdentity
  }

  /** Which refusal a request meets, in an unchanging world: each reason exactly under its own condition. */
  lemma RefusalIff(m: Moment, supported: set<string>, t: string)
    ensures var reason := SteadyReason(m, supported, t);
      && (reason == UnknownTenant <==> t !in m.records)
      && (reason == IneligibleState <==>
            (t in m.records && m.records[t].stage in {Registered, Verifying, Ready, Suspended, Decommissioned}))
      && reason != OutsideNamespace && reason != DeprovisionFailed
    ensures var reason := SteadyReason(m, supported, t);
      reason != UnknownTenant && reason != IneligibleState ==>
        && (reason == ControlUnavailable <==> m.control.None?)
        && (reason == ControlTarget <==> m.control == Some("sp2_tenant_" + t))
    ensures var reason := SteadyReason(m, supported, t);
      reason !in {UnknownTenant, IneligibleState, ControlUnavailable, ControlTarget}
      && (forall u :: u in m.ledger && u != t ==> m.ledger[u].observedTarget != "sp2_tenant_" + t) ==>
        (reason == NonCanonicalRef <==>
           !(m.records[t].association.storeRef == "tenant/" + t + "/dsn" && t != "" && '/' !in t))
    ensures (exists u :: u in m.ledger && u != t && m.ledger[u].observedTarget == "sp2_tenant_" + t) ==>
      SteadyReason(m, supported, t)
      in {UnknownTenant, IneligibleState, ControlUnavailable, ControlTarget, LedgerCollision}
  {
    hide ContentOf, TenantIdFromDsnRef;
    assert StartsWith(TenantDatabaseName(t), TENANT_DB_PREFIX);
    if t in m.records {
      IneligibleStages(m.records[t].stage);
      DsnRefInverse(m.records[t].association.storeRef, t);
    }
  }

  lemma IneligibleStages(stage: Stage)
    ensures stage !in ELIGIBLE <==> stage in {Registered, Verifying, Ready, Suspended, Decommissioned}
  {
  }

  /** The same for a request whose record, name and reference hold. */
  lemma ContentRefusalIff(m: Moment, supported: set<string>, t: string)
    requires OwnsName(m, t)
    ensures var reason, target := SteadyReason(m, supported, t), "sp2_tenant_" + t;
      && (reason == AbsentNoop <==> m.present(target) == Some(false))
      && (reason == InspectionUnavailable <==>
            m.present(target) == None || (m.present(target) == Some(true) && m.inspected(target) == None))
    ensures var reason, target := SteadyReason(m, supported, t), "sp2_tenant_" + t;
      m.present(target) == Some(true) && m.inspected(target).Some? ==>
        var i := m.inspected(target).value;
        && (reason == FingerprintMismatch <==> !OwnRow(m, t, i))
        && (reason == ContentNotEmpty <==> OwnRow(m, t, i) && HoldsEvidence(i, supported))
        && (reason == LedgerCollision <==>
              (OwnRow(m, t, i) && !HoldsEvidence(i, supported)
               && exists u :: u in m.ledger && u != t
                    && m.ledger[u].systemIdentifier + "::" + m.ledger[u].databaseIdentity
                       == i.systemIdentifier + "::" + i.databaseIdentity))
  {
    hide ContentOf, TenantIdFromDsnRef, HoldsEvidence;
    assert StartsWith(TenantDatabaseName(t), TENANT_DB_PREFIX);
    DsnRefInverse(m.records[t].association.storeRef, t);
    if m.inspected(TenantDatabaseName(t)).Some? {
      EvidenceIff(m.inspected(TenantDatabaseName(t)).value, supported);
    }
  }

  /** A hold is marked exactly for a tenant still Provisioning or Failed whose refusal tells of a database
      that is not its own or not untouched, and a success is Completed alone. */
  lemma TrailIff(m: Moment, t: string, reason: Reason)
    ensures var trail := SteadyTrail(m, t, reason);
      && (trail == [Completed] <==> reason == Deprovisioned || reason == AbsentNoop)
      && (trail == [Held, Refused] <==>
            && t in m.records && (m.records[t].stage == Provisioning || m.records[t].stage == Failed)
            && (reason == OutsideNamespace || reason == ControlTarget || reason == NonCanonicalRef
                || reason == ContentNotEmpty || reason == LedgerCollision || reason == FingerprintMismatch))
      && (trail == [Completed] || trail == [Held, Refused] || trail == [Refused])
  {
  }

  // ----- the service ----------------------------------------------------------------------------------------------

  class TerminalLatch {
    var attempted: bool

    constructor ()
      ensures !attempted
    {
      attempted := false;
    }
  }

  class RecoveryCompensationService {
    const moments: nat -> Moment
    const fails: nat -> bool
    const supported: set<string>
    var clock: nat
    ghost var trace: seq<Call>

    constructor (moments: nat -> Moment, fails: nat -> bool, supported: set<string>)
      ensures this.moments == moments && this.fails == fails && this.supported == supported && trace == []
    {
      this.moments, this.fails, this.supported := moments, fails, supported;
      clock, trace := 0, [];
    }

    /** Nothing changes and every port works. */
    ghost predicate Steady(m: Moment) {
      forall n: nat :: moments(n) == m && !fails(n)
    }

    method Ask(port: Port) returns (m: Moment, ok: bool)
      modifies this
      ensures clock == old(clock) + 1 && m == moments(old(clock)) && ok == !fails(old(clock))
      ensures trace == old(trace) + [Call(port, old(clock), ok)]
      ensures Emits(trace) == if port.Emit? then Emits(old(trace)) + [port.event] else Emits(old(trace))
      ensures Drops(trace) == Drops(old(trace)) + if port.Drop? && ok then 1 else 0
    {
      m, ok := moments(clock), !fails(clock);
      trace := trace + [Call(port, clock, ok)];
      assert trace[..|trace| - 1] == old(trace) && Emits(old(trace)) + [] == Emits(old(trace));
      clock := clock + 1;
    }

    /** Elements 1, 2 and 5 of the ownership proof; with the observed fingerprint, element 5 on both
        legs. */
    method NonContentProof(t: string, target: string, fingerprint: Option<string>) returns (r: Result<Option<Reason>>)
      modifies this
      ensures old(trace) <= trace && NoDropSince(trace, |old(trace)|)
      ensures Emits(trace) == Emits(old(trace)) && Drops(trace) == Drops(old(trace))
      ensures r == Returns(None) ==> |trace| >= |old(trace)| + 3
      ensures r == Returns(None) && fingerprint.Some? ==>
        |trace| == |old(trace)| + 4 && Revalidated(moments, trace, |trace|, t, target, fingerprint.value)
      ensures forall m :: Steady(m) ==> r == Returns(ProofFailure(m, t, target, fingerprint))
    {
      hide Emits, Drops, NoOtherEvidence, StartsWith, OwnEvidenceAgrees;
      var m, ok := Ask(ReadRecord);
      if !ok { return Raises; }
      if t !in m.records { return Returns(Some(UnknownTenant)); }
      if m.records[t].stage !in ELIGIBLE { return Returns(Some(IneligibleState)); }
      if !StartsWith(target, TENANT_DB_PREFIX) { return Returns(Some(OutsideNamespace)); }
      m, ok := Ask(ReadControl);
      if !ok { return Raises; }
      if m.control.None? { return Returns(Some(ControlUnavailable)); }
      if target == m.control.value { return Returns(Some(ControlTarget)); }
      m, ok := Ask(ReadLedger);
      if !ok { return Raises; }
      if !NoOtherEvidence(m, t, target, fingerprint) { return Returns(Some(LedgerCollision)); }
      if fingerprint.Some? {
        m, ok := Ask(ReadLedger);
        if !ok { return Raises; }
        if !OwnEvidenceAgrees(m, t, target, fingerprint.value) { return Returns(Some(FingerprintMismatch)); }
      }
      return Returns(None);
    }

    /** The hold, where it applies: an eligible tenant is quarantined and marked. */
    method Hold(t: string) returns (ok: bool)
      modifies this
      ensures old(trace) <= trace && NoDropSince(trace, |old(trace)|) && Drops(trace) == Drops(old(trace))
      ensures Emits(trace) == Emits(old(trace)) || Emits(trace) == Emits(old(trace)) + [Held]
      ensures forall m :: Steady(m) ==>
        ok && Emits(trace) == Emits(old(trace)) + if Holdable(m, t) then [Held] else []
    {
      hide Emits, Drops;
      var m;
      m, ok := Ask(ReadRecord);
      if !ok || !Holdable(m, t) { return; }
      m, ok := Ask(Quarantine);
      if !ok { return; }
      m, ok := Ask(Emit(Held));
    }

    /** The terminal refusal, after putting the tenant on hold where that applies. */
    method Fail(t: string, target: string, reason: Reason, quarantine: bool, latch: TerminalLatch)
      returns (r: Result<Outcome>)
      requires !latch.attempted
      modifies this, latch
      ensures old(trace) <= trace && NoDropSince(trace, |old(trace)|) && Drops(trace) == Drops(old(trace))
      ensures Ends(Emits(old(trace)), Emits(trace), latch.attempted, Refused)
      ensures Reported(old(trace), trace, latch.attempted, r)
      ensures r.Returns? ==> latch.attempted && r.value == Outcome(target, false, false, reason)
      ensures forall m :: Steady(m) ==>
        r.Returns? && Emits(trace) == Emits(old(trace)) + FailTrail(m, t, reason, quarantine)
    {
      hide Emits, Drops, Holdable;
      if quarantine && reason in ANOMALIES {
        var held := Hold(t);
        if !held { return Raises; }
      }
      latch.attempted := true;
      RefusedIsNotCompleted(Emits(old(trace)));
      TwoOnTop(Emits(old(trace)));
      var m, ok := Ask(Emit(Refused));
      if !ok { return Raises; }
      return Returns(Outcome(target, false, false, reason));
    }

    /** The last step: re-prove everything but the content, then drop. */
    method Destroy(t: string, target: string, i: Inspection, latch: TerminalLatch, ghost from: nat, ghost j: nat,
            ghost k: nat)
      returns (r: Result<Outcome>)
      requires !latch.attempted && target == TenantDatabaseName(t)
      requires from <= j < k < |trace| && CanonicalAt(moments, trace, j, t)
        && InspectedAt(moments, trace, k, target, i, supported)
      requires AllJustified(moments, supported, trace, from, t)
      modifies this, latch
      ensures old(trace) <= trace && AllJustified(moments, supported, trace, from, t)
      ensures Reported(old(trace), trace, latch.attempted, r)
      ensures forall m :: Steady(m) ==> Ended(m, t, target, old(trace), trace, r, DestroyReason(m, t, target, i))
    {
      hide Emits, Drops, ProofFailure, Justified, CanonicalAt, InspectedAt, Revalidated;
      ghost var start := trace;
      var proof := NonContentProof(t, target, Some(i.Fingerprint()));
      StillJustified(moments, supported, start, trace, from, t);
      ghost var proven := trace;
      if proof.Raises? { return Raises; }
      if proof.value.Some? {
        r := Fail(t, target, proof.value.value, true, latch);
        StillJustified(moments, supported, proven, trace, from, t);
        return;
      }
      CarriedOn(moments, supported, start, proven, j, k, i, t);
      var m, ok := Ask(Drop(target));
      DropJustified(moments, supported, proven, trace[|proven|], from, t, j, k, i);
      ghost var asked := trace;
      if !ok {
        r := Fail(t, target, DeprovisionFailed, false, latch);
        StillJustified(moments, supported, asked, trace, from, t);
        return;
      }
      latch.attempted := true;
      m, ok := Ask(Emit(Completed));
      StillJustified(moments, supported, asked, trace, from, t);
      if !ok { return Raises; }
      return Returns(Outcome(target, true, true, Deprovisioned));
    }

    /** The census of the live target, between the first proof and the last. */
    method Census(t: string, target: string, latch: TerminalLatch, ghost from: nat, ghost j: nat)
      returns (r: Result<Outcome>)
      requires !latch.attempted && target == TenantDatabaseName(t)
      requires from <= j < |trace| && CanonicalAt(moments, trace, j, t)
        && AllJustified(moments, supported, trace, from, t)
      modifies this, latch
      ensures old(trace) <= trace && AllJustified(moments, supported, trace, from, t)
      ensures Reported(old(trace), trace, latch.attempted, r)
      ensures forall m :: Steady(m) ==> Ended(m, t, target, old(trace), trace, r, CensusReason(m, supported, t, target))
    {
      hide Emits, Drops, Justified, CanonicalAt, Revalidated, ContentOf, OwnEvidenceAgrees, DestroyReason, FailTrail;
      ghost var start := trace;
      var m, ok := Ask(Inspect);
      ghost var k := |start|;
      StillJustified(moments, supported, start, trace, from, t);
      if !ok { return Raises; }
      var inspected := m.inspected(target);
      ghost var asked := trace;
      if inspected.None? {
        r := Fail(t, target, InspectionUnavailable, true, latch);
        StillJustified(moments, supported, asked, trace, from, t);
        return;
      }
      var i := inspected.value;
      m, ok := Ask(ReadLedger);
      StillJustified(moments, supported, asked, trace, from, t);
      ghost var read := trace;
      if !ok { return Raises; }
      if !OwnEvidenceAgrees(m, t, target, i.Fingerprint()) {
        r := Fail(t, target, FingerprintMismatch, true, latch);
        StillJustified(moments, supported, read, trace, from, t);
        return;
      }
      var content := ClassifyContent(i, supported);
      if content == NonEmpty {
        r := Fail(t, target, ContentNotEmpty, true, latch);
        StillJustified(moments, supported, read, trace, from, t);
        return;
      }
      CanonicalStays(moments, start, read, j, t);
      r := Destroy(t, target, i, latch, from, j, k);
    }

    /** Everything that must hold before the live database is looked at. */
    method Identify(t: string, target: string) returns (r: Result<Option<Reason>>)
      modifies this
      ensures old(trace) <= trace && NoDropSince(trace, |old(trace)|)
      ensures Emits(trace) == Emits(old(trace)) && Drops(trace) == Drops(old(trace))
      ensures r == Returns(None) ==> |old(trace)| < |trace| && CanonicalAt(moments, trace, |trace| - 1, t)
      ensures forall m :: Steady(m) ==> r == Returns(IdentityFailure(m, t, target))
    {
      hide Emits, Drops, ProofFailure;
      r := NonContentProof(t, target, None);
      if r.Raises? || r.value.Some? { return; }
      var m, ok := Ask(ReadRecord);
      if !ok { return Raises; }
      if t !in m.records { return Returns(Some(UnknownTenant)); }
      if TenantIdFromDsnRef(m.records[t].association.storeRef) != Some(t) { return Returns(Some(NonCanonicalRef)); }
      return Returns(None);
    }

    method Proven(t: string, target: string, latch: TerminalLatch) returns (r: Result<Outcome>)
      requires !latch.attempted && target == TenantDatabaseName(t)
      modifies this, latch
      ensures old(trace) <= trace && AllJustified(moments, supported, trace, |old(trace)|, t)
      ensures Reported(old(trace), trace, latch.attempted, r)
      ensures forall m :: Steady(m) ==> Ended(m, t, target, old(trace), trace, r, SteadyReason(m, supported, t))
    {
      hide Emits, Drops, Justified, Revalidated, CensusReason, CanonicalAt, IdentityFailure, FailTrail;
      ghost var from, start := |trace|, trace;
      var identity := Identify(t, target);
      StillJustified(moments, supported, start, trace, from, t);
      ghost var canonical := trace;
      if identity.Raises? { return Raises; }
      if identity.value.Some? {
        r := Fail(t, target, identity.value.value, true, latch);
        StillJustified(moments, supported, canonical, trace, from, t);
        return;
      }
      var m, ok;
      m, ok := Ask(Exists);
      StillJustified(moments, supported, canonical, trace, from, t);
      ghost var asked := trace;
      if !ok { return Raises; }
      if m.present(target).None? {
        r := Fail(t, target, InspectionUnavailable, true, latch);
        StillJustified(moments, supported, asked, trace, from, t);
        return;
      }
      if !m.present(target).value {
        latch.attempted := true;
        m, ok := Ask(Emit(Completed));
        StillJustified(moments, supported, asked, trace, from, t);
        if !ok { return Raises; }
        return Returns(Outcome(target, false, true, AbsentNoop));
      }
      CanonicalStays(moments, canonical, trace, |canonical| - 1, t);
      r := Census(t, target, latch, from, |canonical| - 1);
    }

    /** One explicit request. Its trail is Requested, then at most a hold marker, then exactly one
        terminal attempt, whatever raises and wherever; a successful drop is followed by Completed only. */
    method Deprovision(t: string) returns (r: Result<Outcome>)
      modifies this
      ensures old(trace) <= trace && AllJustified(moments, supported, trace, |old(trace)|, t)
      ensures EveryDropProven(moments, supported, trace, |old(trace)|, t)
      ensures var before, after := Emits(old(trace)), Emits(trace);
        if fails(old(clock)) then after == before + [Requested]
        else
          || after == before + [Requested] + [Completed]
          || after == before + [Requested] + [Refused]
          || after == before + [Requested] + [Held] + [Refused]
      ensures Drops(old(trace)) <= Drops(trace) <= Drops(old(trace)) + 1
      ensures Drops(trace) != Drops(old(trace)) ==> Emits(trace) == Emits(old(trace)) + [Requested] + [Completed]
      ensures r.Returns? ==> (r.value.dropped <==> Drops(trace) != Drops(old(trace)))
      ensures r.Returns? ==> (r.value.completed <==> Emits(trace) == Emits(old(trace)) + [Requested] + [Completed])
      ensures forall m :: Steady(m) ==>
        && r == Returns(OutcomeFor(TenantDatabaseName(t), SteadyReason(m, supported, t)))
        && Emits(trace) == Emits(old(trace)) + [Requested] + SteadyTrail(m, t, SteadyReason(m, supported, t))
    {
      hide Emits, Drops, Justified, SteadyReason, EveryDropProven;
      var target := TenantDatabaseName(t);
      ghost var start := trace;
      var m, ok := Ask(Emit(Requested));
      StillJustified(moments, supported, start, trace, |start|, t);
      if !ok {
        AllProven(moments, supported, trace, |start|, t);
        return Raises;
      }
      ghost var requested := trace;
      var latch := new TerminalLatch();
      r := Proven(t, target, latch);
      WholeTrace(moments, supported, requested, trace, |start|, t);
      if r.Raises? && !latch.attempted {
        ghost var raised := trace;
        latch.attempted := true;
        m, ok := Ask(Emit(Refused));
        StillJustified(moments, supported, raised, trace, |start|, t);
      }
      AllProven(moments, supported, trace, |start|, t);
    }
  }

  /** In a world that stands still a request ends with this reason, and leaves its trail. */
  predicate Ended(m: Moment, t: string, target: string, before: seq<Call>, after: seq<Call>, r: Result<Outcome>,
          reason: Reason) {
    r == Returns(OutcomeFor(target, reason)) && Emits(after) == Emits(before) + SteadyTrail(m, t, reason)
  }

  lemma TwoOnTop(emits: seq<Terminal>)
    ensures emits + [Held] + [Refused] == emits + [Held, Refused]
  {
  }

  lemma RefusedIsNotCompleted(emits: seq<Terminal>)
    ensures emits + [Refused] != emits + [Completed] && emits + [Held] + [Refused] != emits + [Completed]
  {
    assert (emits + [Refused])[|emits|] == Refused && (emits + [Completed])[|emits|] == Completed;
    assert |emits + [Held] + [Refused]| != |emits + [Completed]|;
  }

  lemma CanonicalStays(moments: nat -> Moment, before: seq<Call>, after: seq<Call>, j: nat, t: string)
    requires before <= after && j < |before| && CanonicalAt(moments, before, j, t)
    ensures CanonicalAt(moments, after, j, t)
  {
  }

  /** What is justified since a later call is justified since an earlier one. */
  lemma WholeTrace(moments: nat -> Moment, supported: set<string>, before: seq<Call>, after: seq<Call>, from: nat,
          t: string)
    requires before <= after && from <= |before| && NoDropSince(before, from)
    requires AllJustified(moments, supported, after, |before|, t)
    ensures AllJustified(moments, supported, after, from, t)
  {
    hide Justified;
    forall d | from <= d < |after| ensures Justified(moments, supported, after, from, d, t) {
      if d < |before| {
        assert after[d] == before[d];
        NotADrop(moments, supported, after, from, d, t);
      } else {
        SinceEarlier(moments, supported, after, from, |before|, d, t);
      }
    }
  }

  lemma SinceEarlier(moments: nat -> Moment, supported: set<string>, trace: seq<Call>, from: nat, later: nat, d: nat,
          t: string)
    requires from <= later <= d < |trace| && Justified(moments, supported, trace, later, d, t)
    ensures Justified(moments, supported, trace, from, d, t)
  {
    hide CanonicalAt, InspectedAt, Revalidated;
  }

  lemma CarriedOn(moments: nat -> Moment, supported: set<string>, before: seq<Call>, after: seq<Call>, j: nat, k: nat,
          i: Inspection, t: string)
    requires before <= after && j < |before| && k < |before|
    requires CanonicalAt(moments, before, j, t) && InspectedAt(moments, before, k, TenantDatabaseName(t), i, supported)
    ensures CanonicalAt(moments, after, j, t) && InspectedAt(moments, after, k, TenantDatabaseName(t), i, supported)
  {
  }

  /** From `before` to `after`: at most a hold marker and then, exactly when the latch is set, one
      terminal event. */
  predicate Ends(before: seq<Terminal>, after: seq<Terminal>, attempted: bool, terminal: Terminal) {
    if attempted then after == before + [terminal] || after == before + [Held] + [terminal]
    else after == before || after == before + [Held]
  }

  /** A database that was dropped is reported completed, and as nothing else; every other end is one
      terminal event, or none while an error is still on its way out. */
  predicate Reported(before: seq<Call>, after: seq<Call>, attempted: bool, r: Result<Outcome>) {
    && (Ends(Emits(before), Emits(after), attempted, Refused)
        || (attempted && Emits(after) == Emits(before) + [Completed]))
    && Drops(before) <= Drops(after) <= Drops(before) + 1
    && (Drops(after) != Drops(before) ==> attempted && Emits(after) == Emits(before) + [Completed])
    && (r.Returns? ==>
          && attempted && (r.value.dropped <==> Drops(after) != Drops(before))
          && (r.value.completed <==> Emits(after) == Emits(before) + [Completed]))
  }

  lemma StillJustified(moments: nat -> Moment, supported: set<string>, before: seq<Call>, after: seq<Call>, from: nat,
          t: string)
    requires before <= after && from <= |before| && NoDropSince(after, |before|)
      && AllJustified(moments, supported, before, from, t)
    ensures AllJustified(moments, supported, after, from, t)
  {
    hide Justified;
    StillJustifiedBefore(moments, supported, before, after, from, t);
    forall d | |before| <= d < |after| ensures Justified(moments, supported, after, from, d, t) {
      NotADrop(moments, supported, after, from, d, t);
    }
  }

  lemma NotADrop(moments: nat -> Moment, supported: set<string>, trace: seq<Call>, from: nat, d: nat, t: string)
    requires from <= d < |trace| && !trace[d].port.Drop?
    ensures Justified(moments, supported, trace, from, d, t)
  {
  }

  lemma DropJustified(moments: nat -> Moment, supported: set<string>, before: seq<Call>, drop: Call, from: nat,
          t: string, j: nat, k: nat, i: Inspection)
    requires from <= j < k < |before| - 4 && drop.port == Drop(TenantDatabaseName(t))
    requires CanonicalAt(moments, before, j, t) && InspectedAt(moments, before, k, TenantDatabaseName(t), i, supported)
    requires Revalidated(moments, before, |before|, t, TenantDatabaseName(t), i.Fingerprint())
    requires AllJustified(moments, supported, before, from, t)
    ensures AllJustified(moments, supported, before + [drop], from, t)
  {
    hide ContentOf, NoOtherEvidence, OwnEvidenceAgrees, CanonicalRef, EligibleRecord, NotControl;
    var after, d := before + [drop], |before|;
    StillJustifiedBefore(moments, supported, before, after, from, t);
    assert CanonicalAt(moments, after, j, t);
    assert InspectedAt(moments, after, k, TenantDatabaseName(t), i, supported);
    assert Revalidated(moments, after, d, t, TenantDatabaseName(t), i.Fingerprint());
  }

  lemma StillJustifiedBefore(moments: nat -> Moment, supported: set<string>, before: seq<Call>, after: seq<Call>,
          from: nat, t: string)
    requires before <= after && AllJustified(moments, supported, before, from, t)
    ensures forall d :: from <= d < |before| ==> Justified(moments, supported, after, from, d, t)
  {
    hide Justified;
    forall d | from <= d < |before| ensures Justified(moments, supported, after, from, d, t) {
      JustifiedPrefix(moments, supported, before, after, from, d, t);
    }
  }

  lemma JustifiedPrefix(moments: nat -> Moment, supported: set<string>, before: seq<Call>, after: seq<Call>, from: nat,
          d: nat, t: string)
    requires before <= after && from <= d < |before| && Justified(moments, supported, before, from, d, t)
    ensures Justified(moments, supported, after, from, d, t)
  {
    hide ContentOf, NoOtherEvidence, OwnEvidenceAgrees, CanonicalRef, EligibleRecord, NotControl;
    if after[d].port.Drop? {
      var j, k, i :|
        && from <= j < k < d - 4 && CanonicalAt(moments, before, j, t)
        && InspectedAt(moments, before, k, TenantDatabaseName(t), i, supported)
        && Revalidated(moments, before, d, t, TenantDatabaseName(t), i.Fingerprint());
      assert CanonicalAt(moments, after, j, t);
      assert InspectedAt(moments, after, k, TenantDatabaseName(t), i, supported);
      assert Revalidated(moments, after, d, t, TenantDatabaseName(t), i.Fingerprint());
    }
  }
}
