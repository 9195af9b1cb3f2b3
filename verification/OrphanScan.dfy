/** The read-only orphan report, and its agreement with the compensation it recommends. */
module OrphanScan {
  import opened Prelude
  import opened Naming
  import opened Lifecycle
  import opened Recovery

  datatype RefStatus = Canonical | NonCanonical | NoRecord

  datatype Class =
    | EligibleEmpty | EligibleBootstrapOnly | NonEmptyEvidence | ActiveTenant | NoRegistryRecord | RegistryNoDatabase
    | CollidesOnLedger | MismatchedFingerprint | ControlDbTarget | Uninspectable

  datatype Advice = ExplicitDeprovision | PreserveEvidence | ManualReview | NoAction

  datatype ReportRow = ReportRow(
    tenantId: Option<string>, database: string, stage: Option<Stage>, refStatus: RefStatus, content: Option<Content>,
    ledgerConflict: bool, fingerprintMismatch: bool, controlTarget: bool, kind: Class, advice: Advice, safe: bool,
    reason: string)

  /** The record a database name points at: its name without the tenant prefix, unless nothing is left. */
  function RecordOf(m: Moment, name: string): Option<Record> {
    if StartsWith(name, TENANT_DB_PREFIX) && name[|TENANT_DB_PREFIX|..] != ""
      && name[|TENANT_DB_PREFIX|..] in m.records then
      Some(m.records[name[|TENANT_DB_PREFIX|..]])
    else None
  }

  function StatusOf(r: Option<Record>): RefStatus {
    if r.None? then NoRecord
    else if TenantIdFromDsnRef(r.value.association.storeRef) == Some(r.value.id) then Canonical
    else NonCanonical
  }

  predicate Identifies(e: Evidence, name: string, i: Inspection) {
    e.observedTarget == name || e.Fingerprint() == i.Fingerprint()
  }

  predicate Conflict(m: Moment, r: Option<Record>, name: string, i: Inspection) {
    exists u :: u in m.ledger && u != "" && !(r.Some? && u == r.value.id) && Identifies(m.ledger[u], name, i)
  }

  predicate Mismatch(m: Moment, r: Option<Record>, name: string, i: Inspection) {
    && r.Some? && r.value.id != "" && r.value.id in m.ledger
    && (m.ledger[r.value.id].observedTarget != name || m.ledger[r.value.id].Fingerprint() != i.Fingerprint())
  }

  /** Both ledger findings in one pass over the evidence. */
  method LedgerFindings(m: Moment, r: Option<Record>, name: string, i: Inspection)
    returns (conflict: bool, mismatch: bool)
    ensures conflict == Conflict(m, r, name, i) && mismatch == Mismatch(m, r, name, i)
  {
    conflict, mismatch := false, false;
    var todo := m.ledger.Keys - {""};
    while todo != {}
      invariant todo <= m.ledger.Keys - {""}
      invariant conflict <==> exists u ::
        u in m.ledger && u != "" && u !in todo && !(r.Some? && u == r.value.id) && Identifies(m.ledger[u], name, i)
      invariant mismatch <==> Mismatch(m, r, name, i) && r.value.id !in todo
      decreases |todo|
    {
      var u :| u in todo;
      var e := m.ledger[u];
      ghost var rest := todo;
      todo := todo - {u};
      if r.Some? && u == r.value.id {
        if e.observedTarget != name || e.Fingerprint() != i.Fingerprint() {
          mismatch := true;
        }
        continue;
      }
      if e.observedTarget == name || e.Fingerprint() == i.Fingerprint() {
        assert Identifies(m.ledger[u], name, i);
        conflict := true;
      }
    }
  }

  function Judge(r: Option<Record>, controlTarget: bool, conflict: bool, mismatch: bool,
          content: Content): (j: (Class, Advice, bool))
    ensures j.2 <==>
      && !controlTarget && r.Some? && !conflict && !mismatch && r.value.stage in ELIGIBLE
      && content != NonEmpty && StatusOf(r) == Canonical
  {
    if controlTarget then (ControlDbTarget, ManualReview, false)
    else if r.None? then (NoRegistryRecord, ManualReview, false)
    else if conflict then (CollidesOnLedger, ManualReview, false)
    else if mismatch then (MismatchedFingerprint, ManualReview, false)
    else if r.value.stage !in ELIGIBLE then (ActiveTenant, NoAction, false)
    else if content == NonEmpty then (NonEmptyEvidence, PreserveEvidence, false)
    else if StatusOf(r) != Canonical then (Uninspectable, ManualReview, false)
    else (if content == Empty then EligibleEmpty else EligibleBootstrapOnly, ExplicitDeprovision, true)
  }

  /** The reason a judged row carries; here a tenant is uninspectable by its reference. */
  function Explanation(kind: Class): string {
    match kind
    case ControlDbTarget => "candidate resolves to the Control database (never droppable)"
    case NoRegistryRecord => "physical database has no registry record (report-only; never touched)"
    case CollidesOnLedger => "another tenant's distinctness evidence identifies this database"
    case MismatchedFingerprint => "recorded physical identity disagrees with the observed database"
    case ActiveTenant => "lifecycle state is not compensation-eligible"
    case NonEmptyEvidence => "content beyond bootstrap is evidence (never dropped)"
    case Uninspectable => "association reference is not canonical for this tenant"
    case RegistryNoDatabase => "registry record present; physical database absent"
    case _ => "ownership-proof preconditions hold (explicit deprovision only)"
  }

  function DatabaseRow(m: Moment, supported: set<string>, name: string, control: string): ReportRow {
    var r := RecordOf(m, name);
    var id, stage := if r.Some? then Some(r.value.id) else None, if r.Some? then Some(r.value.stage) else None;
    if m.inspected(name).None? then
      ReportRow(id, name, stage, StatusOf(r), None, false, false, name == control, Uninspectable, ManualReview, false,
                "content census unavailable (fail closed)")
    else
      var i := m.inspected(name).value;
      var judged := Judge(r, name == control, Conflict(m, r, name, i), Mismatch(m, r, name, i),
                          ContentOf(i, supported));
      ReportRow(id, name, stage, StatusOf(r), Some(ContentOf(i, supported)), Conflict(m, r, name, i),
                Mismatch(m, r, name, i), name == control, judged.0, judged.1, judged.2, Explanation(judged.0))
  }

  method ClassifyDatabase(m: Moment, supported: set<string>, name: string, control: string) returns (row: ReportRow)
    ensures row == DatabaseRow(m, supported, name, control)
  {
    var r := RecordOf(m, name);
    var id, stage := if r.Some? then Some(r.value.id) else None, if r.Some? then Some(r.value.stage) else None;
    var inspected := m.inspected(name);
    if inspected.None? {
      return ReportRow(id, name, stage, StatusOf(r), None, false, false, name == control, Uninspectable, ManualReview,
                       false, "content census unavailable (fail closed)");
    }
    var content := ClassifyContent(inspected.value, supported);
    var conflict, mismatch := LedgerFindings(m, r, name, inspected.value);
    var judged := Judge(r, name == control, conflict, mismatch, content);
    return ReportRow(id, name, stage, StatusOf(r), Some(content), conflict, mismatch,
                     name == control, judged.0, judged.1, judged.2, Explanation(judged.0));
  }

  function AbsentRow(t: string, r: Record, control: string): ReportRow {
    var target := TenantDatabaseName(t);
    ReportRow(Some(t), target, Some(r.stage), StatusOf(Some(r)), None, false, false, target == control,
              if target == control then ControlDbTarget else RegistryNoDatabase, ManualReview, false,
              Explanation(RegistryNoDatabase))
  }

  /** One row for each candidate database, and one for each record whose database is not a candidate. */
  method ScanForOrphans(m: Moment, supported: set<string>) returns (report: Result<seq<ReportRow>>)
    ensures report.Returns? <==> m.candidates.Some? && m.control.Some?
    ensures report.Returns? ==>
      && (forall name :: name in m.candidates.value ==>
          DatabaseRow(m, supported, name, m.control.value) in report.value)
      && (forall t :: t in m.records && TenantDatabaseName(t) !in m.candidates.value ==>
          AbsentRow(t, m.records[t], m.control.value) in report.value)
      && (forall k :: 0 <= k < |report.value| ==> Expected(m, supported, report.value[k]))
      && NoRepeats(report.value)
  {
    hide DatabaseRow, AbsentRow;
    if m.candidates.None? {
      return Raises;
    }
    if m.control.None? {
      return Raises;
    }
    var rows := DatabaseRows(m, supported, m.candidates.value, m.control.value);
    var more := SweepRegistry(m, m.candidates.value, m.control.value);
    assert forall j :: 0 <= j < |more| ==> more[j] in more && Absent(m, m.candidates.value, m.control.value, more[j]);
    assert forall j :: 0 <= j < |rows| ==> rows[j] in rows && rows[j].database in m.candidates.value;
    return Returns(rows + more);
  }

  predicate NoRepeats(rows: seq<ReportRow>) {
    forall j, k :: 0 <= j < k < |rows| ==> rows[j].database != rows[k].database
  }

  method DatabaseRows(m: Moment, supported: set<string>, names: set<string>, control: string)
    returns (rows: seq<ReportRow>)
    ensures forall name :: name in names ==> DatabaseRow(m, supported, name, control) in rows
    ensures forall row :: row in rows ==>
      row.database in names && row == DatabaseRow(m, supported, row.database, control)
    ensures NoRepeats(rows)
  {
    hide DatabaseRow;
    rows := [];
    var todo := names;
    while todo != {}
      invariant todo <= names
      invariant forall name :: name in names && name !in todo ==> DatabaseRow(m, supported, name, control) in rows
      invariant forall row :: row in rows ==>
        row.database in names - todo && row == DatabaseRow(m, supported, row.database, control)
      invariant NoRepeats(rows)
      decreases |todo|
    {
      var name :| name in todo;
      var row := ClassifyDatabase(m, supported, name, control);
      RowNamesDatabase(m, supported, name, control);
      rows, todo := rows + [row], todo - {name};
    }
  }

  lemma RowNamesDatabase(m: Moment, supported: set<string>, name: string, control: string)
    ensures DatabaseRow(m, supported, name, control).database == name
  {
  }

  /** Records whose database is not among the candidates. */
  method SweepRegistry(m: Moment, names: set<string>, control: string) returns (rows: seq<ReportRow>)
    ensures forall t :: t in m.records && TenantDatabaseName(t) !in names ==>
      AbsentRow(t, m.records[t], control) in rows
    ensures forall row :: row in rows ==> Absent(m, names, control, row)
    ensures NoRepeats(rows)
  {
    hide StatusOf;
    rows := [];
    var ids := m.records.Keys;
    while ids != {}
      invariant ids <= m.records.Keys
      invariant forall t :: t in m.records && t !in ids && TenantDatabaseName(t) !in names ==>
        AbsentRow(t, m.records[t], control) in rows
      invariant forall row :: row in rows ==> Absent(m, names, control, row)
      invariant forall row, t :: row in rows && t in ids ==> row.database != TenantDatabaseName(t)
      invariant NoRepeats(rows)
      decreases |ids|
    {
      var t :| t in ids;
      ids := ids - {t};
      if TenantDatabaseName(t) in names {
        continue;
      }
      forall u | u in ids ensures TenantDatabaseName(u) != TenantDatabaseName(t) {
        DatabaseNamesDistinct(u, t);
      }
      rows := rows + [AbsentRow(t, m.records[t], control)];
    }
  }

  predicate Absent(m: Moment, names: set<string>, control: string, row: ReportRow) {
    && row.database !in names
    && exists t :: t in m.records && row.database == TenantDatabaseName(t) && row == AbsentRow(t, m.records[t], control)
  }

  /** A row is one of the two kinds. */
  predicate Expected(m: Moment, supported: set<string>, row: ReportRow)
    requires m.candidates.Some? && m.control.Some?
  {
    || (row.database in m.candidates.value && row == DatabaseRow(m, supported, row.database, m.control.value))
    || Absent(m, m.candidates.value, m.control.value, row)
  }

  /** Records stand under their own, non-empty id, and no evidence stands under the empty one. */
  predicate WellKept(m: Moment) {
    (forall t :: t in m.records ==> m.records[t].id == t && t != "") && "" !in m.ledger
  }

  /** The two ways of asking which databases exist give one answer. */
  predicate Consistent(m: Moment) {
    m.candidates.Some? && m.control.Some?
    && forall t :: t in m.records ==>
      (TenantDatabaseName(t) in m.candidates.value <==> m.present(TenantDatabaseName(t)) == Some(true))
  }

  lemma RecordOfTarget(m: Moment, t: string)
    ensures RecordOf(m, TenantDatabaseName(t)) == if t in m.records && t != "" then Some(m.records[t]) else None
  {
    var name := TenantDatabaseName(t);
    assert name[|TENANT_DB_PREFIX|..] == t && StartsWith(name, TENANT_DB_PREFIX);
  }

  /** The row of a tenant's database is marked safe exactly when the compensation would drop it,
      although the two check in different orders. */
  lemma RowAgrees(m: Moment, supported: set<string>, t: string)
    requires WellKept(m) && Consistent(m) && t in m.records && TenantDatabaseName(t) in m.candidates.value
    ensures DatabaseRow(m, supported, TenantDatabaseName(t), m.control.value).safe <==> Droppable(m, supported, t)
    ensures DatabaseRow(m, supported, TenantDatabaseName(t), m.control.value).tenantId == Some(t)
  {
    hide Explanation, ContentOf, StartsWith, TenantIdFromDsnRef, Judge, Conflict, Mismatch, NoOtherEvidence,
      OwnEvidenceAgrees;
    RecordOfTarget(m, t);
    var name := TenantDatabaseName(t);
    var r := Some(m.records[t]);
    assert t in m.ledger ==> t != "";
    if m.inspected(name).Some? {
      var i := m.inspected(name).value;
      LedgerAgrees(m, t, name, i);
    }
  }

  lemma LedgerAgrees(m: Moment, t: string, name: string, i: Inspection)
    requires WellKept(m) && t in m.records
    ensures Conflict(m, Some(m.records[t]), name, i) <==> !NoOtherEvidence(m, t, name, Some(i.Fingerprint()))
    ensures Mismatch(m, Some(m.records[t]), name, i) <==> !OwnEvidenceAgrees(m, t, name, i.Fingerprint())
  {
    if !NoOtherEvidence(m, t, name, Some(i.Fingerprint())) {
      var u :| u in m.ledger && u != t
          && (m.ledger[u].observedTarget == name || Some(m.ledger[u].Fingerprint()) == Some(i.Fingerprint()));
      assert Identifies(m.ledger[u], name, i);
    }
  }

  /** Another tenant's evidence is of this database. */
  predicate ClaimedByAnother(m: Moment, t: string, name: string, i: Inspection) {
    exists u :: u in m.ledger && u != t
      && (m.ledger[u].observedTarget == name
          || m.ledger[u].systemIdentifier + "::" + m.ledger[u].databaseIdentity
             == i.systemIdentifier + "::" + i.databaseIdentity)
  }

  /** The class of a tenant's database, each exactly under its own condition: the first that applies of
      the Control DB, a missing record, another's claim, a mismatch, a live stage, evidence and a foreign
      reference. */
  lemma ClassIff(m: Moment, supported: set<string>, t: string, control: string)
    requires WellKept(m) && t != "" && '/' !in t && m.inspected("sp2_tenant_" + t).Some?
    ensures var name := "sp2_tenant_" + t;
      var row, i := DatabaseRow(m, supported, name, control), m.inspected(name).value;
      && (row.kind == ControlDbTarget <==> name == control)
      && (row.kind == NoRegistryRecord <==> (name != control && t !in m.records))
      && (name != control && t in m.records ==>
            && (row.kind == CollidesOnLedger <==> ClaimedByAnother(m, t, name, i))
            && (!ClaimedByAnother(m, t, name, i) ==>
                  && (row.kind == MismatchedFingerprint <==> !OwnRow(m, t, i))
                  && (OwnRow(m, t, i) ==>
                      ByStage(m.records[t], HoldsEvidence(i, supported), |i.userTables|, t, row.kind))))
  {
    hide ContentOf, HoldsEvidence, TenantIdFromDsnRef, Conflict, Mismatch, OwnEvidenceAgrees, NoOtherEvidence;
    var name := TenantDatabaseName(t);
    RecordOfTarget(m, t);
    EvidenceIff(m.inspected(name).value, supported);
    if t in m.records {
      DsnRefInverse(m.records[t].association.storeRef, t);
      LedgerAgrees(m, t, name, m.inspected(name).value);
      InFields(m, t, name, m.inspected(name).value);
      IneligibleStages(m.records[t].stage);
    }
  }

  /** The class once the ledger has nothing against the tenant. */
  predicate ByStage(r: Record, evidence: bool, tables: nat, t: string, kind: Class) {
    if r.stage in {Registered, Verifying, Ready, Suspended, Decommissioned} then kind == ActiveTenant
    else if evidence then kind == NonEmptyEvidence
    else if r.association.storeRef != "tenant/" + t + "/dsn" then kind == Uninspectable
    else if tables == 0 then kind == EligibleEmpty
    else kind == EligibleBootstrapOnly
  }

  lemma InFields(m: Moment, t: string, name: string, i: Inspection)
    requires name == "sp2_tenant_" + t
    ensures NoOtherEvidence(m, t, name, Some(i.Fingerprint())) <==> !ClaimedByAnother(m, t, name, i)
    ensures OwnEvidenceAgrees(m, t, name, i.Fingerprint()) <==> OwnRow(m, t, i)
  {
  }

  /** What a row advises follows from its class, and only a droppable one is marked safe. */
  lemma AdviceIff(m: Moment, supported: set<string>, name: string, control: string)
    ensures var row := DatabaseRow(m, supported, name, control);
      && (row.safe <==> row.kind == EligibleEmpty || row.kind == EligibleBootstrapOnly)
      && (row.advice == ExplicitDeprovision <==> row.safe)
      && (row.advice == PreserveEvidence <==> row.kind == NonEmptyEvidence)
      && (row.advice == NoAction <==> row.kind == ActiveTenant)
      && row.controlTarget == (name == control)
      && (m.inspected(name).None? ==> row.kind == Uninspectable && row.content == None)
    ensures forall t, r: Record :: var row := AbsentRow(t, r, control);
      && row.advice == ManualReview && !row.safe && row.content == None
      && (row.kind == ControlDbTarget <==> "sp2_tenant_" + t == control)
      && (row.kind == RegistryNoDatabase <==> "sp2_tenant_" + t != control)
  {
    hide ContentOf, StatusOf, RecordOf, Conflict, Mismatch, Judge, Explanation;
    if m.inspected(name).Some? {
      var i, r := m.inspected(name).value, RecordOf(m, name);
      JudgeAdvises(r, name == control, Conflict(m, r, name, i), Mismatch(m, r, name, i), ContentOf(i, supported));
    }
  }

  lemma JudgeAdvises(r: Option<Record>, controlTarget: bool, conflict: bool, mismatch: bool, content: Content)
    ensures var (kind, advice, safe) := Judge(r, controlTarget, conflict, mismatch, content);
      && (safe <==> kind == EligibleEmpty || kind == EligibleBootstrapOnly)
      && (advice == ExplicitDeprovision <==> safe)
      && (advice == PreserveEvidence <==> kind == NonEmptyEvidence)
      && (advice == NoAction <==> kind == ActiveTenant)
  {
    hide StatusOf;
  }

  /** What the report recommends for explicit deprovisioning is what an explicit deprovisioning, asked
      in the same state, drops: no more and no less. */
  method ScanThenDeprovision(m: Moment, service: RecoveryCompensationService, t: string)
    returns (safe: bool, outcome: Result<Outcome>)
    requires WellKept(m) && Consistent(m) && t in m.records && service.Steady(m)
    modifies service
    ensures outcome.Returns? && (safe <==> outcome.value.dropped)
  {
    hide DatabaseRow, AbsentRow, Droppable, Emits, Drops, Justified, StartsWith, SteadyReason, SteadyTrail;
    var report := ScanForOrphans(m, service.supported);
    var k := 0;
    safe := false;
    while k < |report.value|
      invariant k <= |report.value|
      invariant safe <==> exists n :: 0 <= n < k && report.value[n].tenantId == Some(t) && report.value[n].safe
    {
      if report.value[k].tenantId == Some(t) && report.value[k].safe {
        safe := true;
      }
      k := k + 1;
    }
    SafeRowIff(m, service.supported, report.value, t);
    DropsIffDroppable(m, service.supported, t);
    outcome := service.Deprovision(t);
  }

  lemma SafeRowIff(m: Moment, supported: set<string>, rows: seq<ReportRow>, t: string)
    requires WellKept(m) && Consistent(m) && t in m.records
    requires forall name :: name in m.candidates.value ==> DatabaseRow(m, supported, name, m.control.value) in rows
    requires forall k :: 0 <= k < |rows| ==> Expected(m, supported, rows[k])
    ensures (exists n :: 0 <= n < |rows| && rows[n].tenantId == Some(t) && rows[n].safe) <==> Droppable(m, supported, t)
  {
    hide ContentOf, StartsWith, TenantIdFromDsnRef, DatabaseRow, Droppable;
    var target := TenantDatabaseName(t);
    if target in m.candidates.value {
      RowAgrees(m, supported, t);
    } else {
      Undroppable(m, supported, t);
    }
    forall n | 0 <= n < |rows| && rows[n].tenantId == Some(t) && rows[n].safe
      ensures target in m.candidates.value && Droppable(m, supported, t) {
      SafeRowIsTarget(m, supported, rows[n], t);
    }
  }

  lemma Undroppable(m: Moment, supported: set<string>, t: string)
    requires Consistent(m) && t in m.records && TenantDatabaseName(t) !in m.candidates.value
    ensures !Droppable(m, supported, t)
  {
  }

  lemma SafeRowIsTarget(m: Moment, supported: set<string>, row: ReportRow, t: string)
    requires WellKept(m) && Consistent(m) && Expected(m, supported, row) && row.tenantId == Some(t) && row.safe
    ensures row.database == TenantDatabaseName(t) && row.database in m.candidates.value
    ensures row == DatabaseRow(m, supported, TenantDatabaseName(t), m.control.value)
  {
    hide Explanation, ContentOf, Conflict, Mismatch, Judge;
    var name := row.database;
    if StartsWith(name, TENANT_DB_PREFIX) {
      assert name == TENANT_DB_PREFIX + name[|TENANT_DB_PREFIX|..];
    }
  }
}
