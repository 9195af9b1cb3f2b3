/** The tenant lifecycle as its services write it: every registry operation, gate run, re-association
    and recovery is a process of single reads and writes, and any number of them interleave. */
module Lifecycle {
  import opened Prelude
  import opened Naming
  import Distinctness

  type Evidence = Distinctness.Evidence
  type Ledger = Distinctness.Ledger

  datatype Stage = Registered | Provisioning | Verifying | Ready | Suspended | Failed | Quarantined | Decommissioned

  datatype Record = Record(id: string, stage: Stage, schema: string, association: SecretRef, version: int)

  datatype Action =
    | RegisterTenant | MarkProvisioning | SuspendTenant | DecommissionTenant | QuarantineTenant
    | VerificationStarted | VerificationPassed | VerificationFailed | VerificationIncomplete | IsolationAnomaly
    | RoutingEnabled | RoutingDisabled | RouterCacheInvalidated | RegistryMappingChanged
    | DatabaseAssociated | SecretReferenceRegistered | TenantQuarantined | OnboardingRecoveryStarted

  /** An audit record; only transitions carry stages. */
  datatype Entry = Entry(tenantId: string, action: Action, from: Option<Stage>, to: Option<Stage>)

  /** The Control Database, the ledger, and which tenants had their routing disabled since their
      evidence was last recorded. */
  datatype System = System(records: map<string, Record>, audit: seq<Entry>, ledger: Ledger, disabled: set<string>)

  datatype Config = Config(control: Evidence, supported: set<string>)

  // ----- the operations, one port call at a time --------------------------------------------------

  datatype Move = ToProvisioning | ToSuspended | ToDecommissioned | ToQuarantined

  function Target(m: Move): Stage {
    match m
    case ToProvisioning => Provisioning
    case ToSuspended => Suspended
    case ToDecommissioned => Decommissioned
    case ToQuarantined => Quarantined
  }

  function AllowedFrom(m: Move): set<Stage> {
    match m
    case ToProvisioning => {Registered}
    case ToSuspended => {Ready}
    case ToDecommissioned => {Registered, Provisioning, Suspended, Failed, Quarantined}
    case ToQuarantined => {Provisioning, Failed}
  }

  function MoveAction(m: Move): Action {
    match m
    case ToProvisioning => MarkProvisioning
    case ToSuspended => SuspendTenant
    case ToDecommissioned => DecommissionTenant
    case ToQuarantined => QuarantineTenant
  }

  datatype After = Finish | ThenVerify | ThenClassify

  /** Where an operation stands; a `Record` is what it last read or wrote itself. */
  datatype Proc =
    | Registering(t: string, schema: string, association: SecretRef)
    | Announcing(r: Record)
    | Putting(r: Record)
    | Reading(t: string, move: Move)
    | Moving(r: Record, move: Move)
    | Entering(t: string)
    | Starting(r: Record, again: bool)
    | Rereading(t: string)
    | Probing(r: Record)
    | Gathering(r: Record)
    | Deciding(r: Record, candidate: Option<Evidence>)
    | Recording(r: Record, evidence: Evidence)
    | Opening(r: Record)
    | Dropping(r: Record, anomaly: bool, action: Action)
    | Failing(r: Record, anomaly: bool, action: Action)
    | Closing(r: Record, anomaly: bool, action: Action)
    | Reassociating(t: string, association: SecretRef)
    | Repointing(r: Record, association: SecretRef)
    | Disabling(t: string)
    | Recovering(t: string)
    | Classifying(t: string)
    | Noting(t: string, actions: seq<Action>, after: After)

  predicate HasRecord(p: Proc) {
    p.Moving? || p.Starting? || p.Probing? || p.Gathering? || p.Deciding? || p.Recording? || p.Opening?
    || p.Dropping? || p.Failing? || p.Closing? || p.Repointing?
  }

  function TenantOf(p: Proc): string {
    if HasRecord(p) || p.Announcing? || p.Putting? then p.r.id else p.t
  }

  /** What a port answers when asked: the probe, and the evidence gathered. */
  datatype Answer = Answer(reachable: bool, observedSchema: string, evidence: Option<Evidence>)

  datatype Effect =
    | Nothing
    | Announce(record: Record)
    | Put(record: Record)
    | Write(was: Record, updated: Record, action: Action)
    | Note(t: string, action: Action)
    | Forget(t: string)
    | Disable(t: string)
    | Remember(t: string, evidence: Evidence)

  datatype Next = Next(effect: Effect, proc: Option<Proc>)

  /** The compare-and-swap predicate: the stored version is the one read. */
  predicate Unmoved(s: System, r: Record) {
    r.id in s.records && s.records[r.id].version == r.version
  }

  predicate StageIn(s: System, t: string, stages: set<Stage>) {
    t in s.records && s.records[t].stage in stages
  }

  predicate HasAnomaly(audit: seq<Entry>, t: string) {
    exists i :: 0 <= i < |audit| && audit[i].tenantId == t && audit[i].action == IsolationAnomaly
  }

  function Stop(): Next { Next(Nothing, None) }

  function Goto(p: Proc): Next { Next(Nothing, Some(p)) }

  function Written(r: Record): Record { r.(version := r.version + 1) }

  function RegistryStep(s: System, p: Proc): Next
    requires p.Registering? || p.Announcing? || p.Putting? || p.Reading? || p.Moving?
  {
    match p
    case Registering(t, schema, association) =>
      if !Admitted(t) || t in s.records then Stop()
      else Goto(Announcing(Record(t, Registered, schema, association, 0)))
    case Announcing(r) => Next(Announce(r), Some(Putting(r)))
    case Putting(r) => Next(Put(r), None)
    case Reading(t, move) =>
      if StageIn(s, t, AllowedFrom(move)) then Goto(Moving(s.records[t], move)) else Stop()
    case Moving(r, move) =>
      if Unmoved(s, r) then Next(Write(r, r.(stage := Target(move)), MoveAction(move)), None) else Stop()
  }

  /** The readiness gate. A lost entry race is retried once, and only against a tenant still in flight. */
  function GateStep(s: System, c: Config, p: Proc, a: Answer): Next
    requires p.Entering? || p.Starting? || p.Rereading? || p.Probing? || p.Gathering? || p.Deciding?
          || p.Recording? || p.Opening? || p.Dropping? || p.Failing? || p.Closing?
  {
    match p
    case Entering(t) =>
      if t !in s.records || s.records[t].stage in {Decommissioned, Suspended, Quarantined} then Stop()
      else Goto(Starting(s.records[t], false))
    case Starting(r, again) =>
      var started := r.(stage := Verifying);
      if Unmoved(s, r) then Next(Write(r, started, VerificationStarted), Some(Probing(Written(started))))
      else if again then Stop()
      else Goto(Rereading(r.id))
    case Rereading(t) =>
      if StageIn(s, t, {Verifying, Provisioning}) then Goto(Starting(s.records[t], true)) else Stop()
    case Probing(r) =>
      if !a.reachable then Goto(Failing(r, false, VerificationIncomplete))
      else if a.observedSchema !in c.supported || a.observedSchema != r.schema
        then Goto(Failing(r, false, VerificationFailed))
      else if r.association.storeRef == c.control.secretRefKey then Goto(Failing(r, true, VerificationFailed))
      else Goto(Gathering(r))
    case Gathering(r) => Goto(Deciding(r, a.evidence))
    case Deciding(r, candidate) =>
      var verdict :=
          Distinctness.Judged(r.id, candidate, TenantDatabaseName(r.id), c.control, s.ledger - {r.id}).result;
      if verdict.Verified? then Goto(Recording(r, candidate.value))
      else if verdict.IsolationAnomaly? then Goto(Dropping(r, true, VerificationFailed))
      else Goto(Dropping(r, false, if verdict.VerificationIncomplete? then VerificationIncomplete
                         else VerificationFailed))
    case Recording(r, e) =>
      if Distinctness.Taken(s.ledger, r.id, e) then Goto(Failing(r, true, VerificationFailed))
      else Next(Remember(r.id, e), Some(Opening(r)))
    case Opening(r) =>
      if Unmoved(s, r)
        then Next(Write(r, r.(stage := Ready), VerificationPassed), Some(Noting(r.id, [RoutingEnabled], Finish)))
      else Stop()
    case Dropping(r, anomaly, action) => Next(Forget(r.id), Some(Failing(r, anomaly, action)))
    case Failing(r, anomaly, action) => Next(Forget(r.id), Some(Closing(r, anomaly, action)))
    case Closing(r, anomaly, action) =>
      if !Unmoved(s, r) then Stop()
      else if anomaly then
        Next(Write(r, r.(stage := Quarantined), action),
             Some(Noting(r.id, [TenantQuarantined, IsolationAnomaly], Finish)))
      else Next(Write(r, r.(stage := Failed), action), None)
  }

  function ServiceStep(s: System, p: Proc): Next
    requires p.Reassociating? || p.Repointing? || p.Disabling? || p.Recovering? || p.Classifying? || p.Noting?
  {
    match p
    case Reassociating(t, association) =>
      if t !in s.records || s.records[t].stage in {Quarantined, Decommissioned} then Stop()
      else Goto(Repointing(s.records[t], association))
    case Repointing(r, association) =>
      if !Unmoved(s, r) then Stop()
      else
        Next(Write(r, r.(stage := Verifying, association := association), DatabaseAssociated),
             Some(Noting(r.id, [SecretReferenceRegistered, RegistryMappingChanged, RouterCacheInvalidated],
                         ThenVerify)))
    case Disabling(t) => Next(Disable(t), Some(Noting(t, [RoutingDisabled, RouterCacheInvalidated], Finish)))
    case Recovering(t) =>
      if StageIn(s, t, {Failed}) then Goto(Noting(t, [OnboardingRecoveryStarted], ThenClassify)) else Stop()
    case Classifying(t) =>
      if HasAnomaly(s.audit, t) then Goto(Reading(t, ToQuarantined)) else Goto(Entering(t))
    case Noting(t, actions, after) =>
      if actions != [] then Next(Note(t, actions[0]), Some(Noting(t, actions[1..], after)))
      else
        match after
        case Finish => Stop()
        case ThenVerify => Goto(Entering(t))
        case ThenClassify => Goto(Classifying(t))
  }

  function Advanced(s: System, c: Config, p: Proc, a: Answer): Next {
    if p.Registering? || p.Announcing? || p.Putting? || p.Reading? || p.Moving? then RegistryStep(s, p)
    else if p.Reassociating? || p.Repointing? || p.Disabling? || p.Recovering? || p.Classifying? || p.Noting?
      then ServiceStep(s, p)
    else GateStep(s, c, p, a)
  }

  /** A version-checked write and its audit record commit together; a registration's record and its
      blind write are two commits. */
  function Apply(s: System, e: Effect): System {
    match e
    case Nothing => s
    case Announce(r) => s.(audit := s.audit + [Entry(r.id, RegisterTenant, None, Some(Registered))])
    case Put(r) => s.(records := s.records[r.id := r])
    case Write(was, updated, action) =>
      s.(records := s.records[was.id := Written(updated)],
         audit := s.audit + [Entry(was.id, action, Some(was.stage), Some(updated.stage))])
    case Note(t, action) => s.(audit := s.audit + [Entry(t, action, None, None)])
    case Forget(t) => s.(ledger := s.ledger - {t})
    case Disable(t) => s.(ledger := s.ledger - {t}, disabled := s.disabled + {t})
    case Remember(t, e) => s.(ledger := s.ledger[t := e], disabled := s.disabled - {t})
  }

  // ----- interleaving --------------------------------------------------------------------------------

  datatype World = World(sys: System, procs: map<int, Proc>)

  /** A process starts, makes its next step, or dies there because a port raised. */
  datatype Event = Start(pid: int, proc: Proc) | Advance(pid: int, answer: Answer) | Crash(pid: int)

  /** The points where a caller can enter. */
  predicate Enterable(p: Proc) {
    p.Registering? || p.Reading? || p.Entering? || p.Reassociating? || p.Disabling? || p.Recovering?
  }

  function Step(w: World, c: Config, e: Event): World {
    match e
    case Start(pid, p) => if pid in w.procs || !Enterable(p) then w else w.(procs := w.procs[pid := p])
    case Crash(pid) => w.(procs := w.procs - {pid})
    case Advance(pid, a) =>
      if pid !in w.procs then w
      else
        var n := Advanced(w.sys, c, w.procs[pid], a);
        World(Apply(w.sys, n.effect), if n.proc.Some? then w.procs[pid := n.proc.value] else w.procs - {pid})
  }

  const START := World(System(map[], [], map[], {}), map[])

  function Run(c: Config, events: seq<Event>): World {
    if events == [] then START else Step(Run(c, events[..|events| - 1]), c, events[|events| - 1])
  }

  /** `register_tenant` writes blindly: the tenant it found missing is still missing when it writes. */
  predicate Unraced(w: World, e: Event) {
    e.Advance? && e.pid in w.procs && w.procs[e.pid].Putting? ==> w.procs[e.pid].r.id !in w.sys.records
  }

  predicate UnracedRun(c: Config, events: seq<Event>) {
    events != [] ==>
      UnracedRun(c, events[..|events| - 1]) && Unraced(Run(c, events[..|events| - 1]), events[|events| - 1])
  }

  // ----- what every step keeps -------------------------------------------------------------------------

  predicate OnHold(stage: Stage) { stage == Quarantined || stage == Decommissioned }

  /** The lifecycle's edges. */
  predicate Edge(a: Stage, b: Stage) {
    match b
    case Registered => false
    case Provisioning => a == Registered
    case Verifying => !OnHold(a)
    case Ready => a == Verifying
    case Suspended => a == Ready
    case Failed => a == Verifying
    case Quarantined => a == Verifying || a == Provisioning || a == Failed
    case Decommissioned => a == Registered || a == Provisioning || a == Suspended || a == Failed || a == Quarantined
  }

  /** Evidence that may stand in the ledger for a tenant: complete, on its own target, off the Control DB. */
  predicate Sound(c: Config, t: string, e: Evidence) {
    Distinctness.Complete(e) && e.observedTarget == TenantDatabaseName(t) && Distinctness.AvoidsControl(e, c.control)
  }

  ghost predicate SystemInv(s: System, c: Config) {
    && (forall t :: t in s.records ==> s.records[t].id == t && s.records[t].version >= 0)
    && (forall t :: HasAnomaly(s.audit, t) ==> t in s.records && OnHold(s.records[t].stage))
    && (forall t :: t in s.ledger ==> Sound(c, t, s.ledger[t]))
    && Distinctness.UniqueFingerprints(s.ledger)
  }

  /** A record once read: if the version has not moved, nothing has. */
  predicate Snapshot(s: System, r: Record) {
    && r.id in s.records && r.version <= s.records[r.id].version
    && (r.version == s.records[r.id].version ==> s.records[r.id] == r)
  }

  predicate ProcInv(s: System, c: Config, p: Proc) {
    && (HasRecord(p) ==> Snapshot(s, p.r))
    && match p
       case Announcing(r) => r.stage == Registered && r.version == 0
       case Putting(r) => r.stage == Registered && r.version == 0
       case Moving(r, move) => r.stage in AllowedFrom(move)
       case Starting(r, again) => r.stage !in {Decommissioned, Suspended, Quarantined}
       case Probing(r) => r.stage == Verifying
       case Gathering(r) => r.stage == Verifying
       case Deciding(r, _) => r.stage == Verifying
       case Recording(r, e) => r.stage == Verifying && Sound(c, r.id, e)
       case Opening(r) => r.stage == Verifying
       case Dropping(r, _, action) => r.stage == Verifying && action != IsolationAnomaly
       case Failing(r, _, action) => r.stage == Verifying && action != IsolationAnomaly
       case Closing(r, _, action) => r.stage == Verifying && action != IsolationAnomaly
       case Repointing(r, _) => !OnHold(r.stage)
       case Noting(t, actions, _) => IsolationAnomaly in actions ==> t in s.records && OnHold(s.records[t].stage)
       case _ => true
  }

  ghost predicate Inv(w: World, c: Config) {
    && SystemInv(w.sys, c)
    && (forall pid :: pid in w.procs ==> ProcInv(w.sys, c, w.procs[pid]))
  }

  // ----- one effect ------------------------------------------------------------------------------------------

  /** What an effect must satisfy to be harmless. */
  predicate Lawful(s: System, c: Config, e: Effect) {
    match e
    case Nothing => true
    case Announce(r) => true
    case Put(r) => r.id !in s.records && r.stage == Registered && r.version == 0
    case Write(was, updated, action) =>
      && was.id in s.records && s.records[was.id] == was && updated.id == was.id && updated.version == was.version
      && Edge(was.stage, updated.stage) && action != IsolationAnomaly
    case Note(t, action) => action == IsolationAnomaly ==> t in s.records && OnHold(s.records[t].stage)
    case Forget(t) => true
    case Disable(t) => true
    case Remember(t, evidence) => Sound(c, t, evidence) && !Distinctness.Taken(s.ledger, t, evidence)
  }

  /** How a system may change: versions count up by one along an edge, and nobody vanishes. */
  predicate Evolves(s: System, s': System) {
    forall t :: t in s.records ==>
      && t in s'.records
      && (s'.records[t] == s.records[t]
          || (s'.records[t].version == s.records[t].version + 1 && Edge(s.records[t].stage, s'.records[t].stage)))
  }

  lemma AppendAnomaly(audit: seq<Entry>, e: Entry)
    ensures forall t :: HasAnomaly(audit + [e], t) <==>
      HasAnomaly(audit, t) || (e.tenantId == t && e.action == IsolationAnomaly)
  {
    var longer := audit + [e];
    forall t ensures HasAnomaly(longer, t) <==>
      HasAnomaly(audit, t) || (e.tenantId == t && e.action == IsolationAnomaly)
    {
      if HasAnomaly(audit, t) {
        var i :| 0 <= i < |audit| && audit[i].tenantId == t && audit[i].action == IsolationAnomaly;
        assert longer[i] == audit[i];
      }
      assert longer[|audit|] == e;
    }
  }

  /** The effects that append to the audit trail. */
  predicate Audited(e: Effect) { e.Announce? || e.Write? || e.Note? }

  lemma AuditedInv(s: System, c: Config, e: Effect)
    requires SystemInv(s, c) && Lawful(s, c, e) && Audited(e)
    ensures SystemInv(Apply(s, e), c)
  {
    hide HasAnomaly, Sound, Distinctness.UniqueFingerprints;
    AppendAnomaly(s.audit, Apply(s, e).audit[|s.audit|]);
  }

  lemma UnauditedInv(s: System, c: Config, e: Effect)
    requires SystemInv(s, c) && Lawful(s, c, e) && !Audited(e)
    ensures SystemInv(Apply(s, e), c)
  {
    hide HasAnomaly, Sound, Edge;
  }

  lemma ApplyEvolves(s: System, c: Config, e: Effect)
    requires SystemInv(s, c) && Lawful(s, c, e)
    ensures Evolves(s, Apply(s, e))
  {
    hide HasAnomaly, Sound;
  }

  /** What a process has read stays a snapshot, whoever else writes. */
  lemma ProcStable(s: System, s': System, c: Config, p: Proc)
    requires ProcInv(s, c, p) && Evolves(s, s')
    ensures ProcInv(s', c, p)
  {
    hide Sound, AllowedFrom;
  }

  // ----- one step -------------------------------------------------------------------------------------------------

  lemma RegistryLawful(s: System, c: Config, p: Proc)
    requires SystemInv(s, c) && ProcInv(s, c, p)
      && (p.Registering? || p.Announcing? || p.Putting? || p.Reading? || p.Moving?)
    requires p.Putting? ==> p.r.id !in s.records
    ensures var n := RegistryStep(s, p);
      && Lawful(s, c, n.effect) && (n.proc.Some? ==> ProcInv(Apply(s, n.effect), c, n.proc.value))
      && (n.effect.Write? ==> n.effect.updated.stage != Ready)
  {
    hide HasAnomaly, Sound, Admitted;
  }

  lemma ReassociationLawful(s: System, c: Config, p: Proc)
    requires SystemInv(s, c) && ProcInv(s, c, p)
    requires p.Reassociating? || p.Disabling?
    ensures var n := ServiceStep(s, p);
      && Lawful(s, c, n.effect) && (n.proc.Some? ==> ProcInv(Apply(s, n.effect), c, n.proc.value))
      && (n.effect.Write? ==> n.effect.updated.stage != Ready)
  {
    hide HasAnomaly, Sound, Distinctness.UniqueFingerprints;
  }

  lemma RepointingLawful(s: System, c: Config, p: Proc)
    requires SystemInv(s, c) && ProcInv(s, c, p) && p.Repointing?
    ensures var n := ServiceStep(s, p);
      && Lawful(s, c, n.effect) && (n.proc.Some? ==> ProcInv(Apply(s, n.effect), c, n.proc.value))
      && (n.effect.Write? ==> n.effect.updated.stage != Ready)
  {
    hide SystemInv, Sound;
  }

  lemma NotingLawful(s: System, c: Config, p: Proc)
    requires SystemInv(s, c) && ProcInv(s, c, p)
    requires p.Recovering? || p.Classifying? || p.Noting?
    ensures var n := ServiceStep(s, p);
      && Lawful(s, c, n.effect) && (n.proc.Some? ==> ProcInv(Apply(s, n.effect), c, n.proc.value))
      && (n.effect.Write? ==> n.effect.updated.stage != Ready)
  {
    hide Snapshot, Edge, AllowedFrom, HasAnomaly, Sound;
  }

  lemma EntryLawful(s: System, c: Config, p: Proc, a: Answer)
    requires SystemInv(s, c) && ProcInv(s, c, p)
    requires p.Entering? || p.Starting? || p.Rereading?
    ensures var n := GateStep(s, c, p, a);
      && Lawful(s, c, n.effect) && (n.proc.Some? ==> ProcInv(Apply(s, n.effect), c, n.proc.value))
      && (n.effect.Write? && n.effect.updated.stage == Ready ==>
          p.Opening? && n.effect.was == p.r && p.r.stage == Verifying)
  {
    hide HasAnomaly, Sound, Distinctness.Taken, Distinctness.UniqueFingerprints, Distinctness.Judged;
  }

  lemma ProbingLawful(s: System, c: Config, p: Proc, a: Answer)
    requires SystemInv(s, c) && ProcInv(s, c, p)
    requires p.Probing? || p.Gathering?
    ensures var n := GateStep(s, c, p, a);
      && Lawful(s, c, n.effect) && (n.proc.Some? ==> ProcInv(Apply(s, n.effect), c, n.proc.value))
      && (n.effect.Write? && n.effect.updated.stage == Ready ==>
          p.Opening? && n.effect.was == p.r && p.r.stage == Verifying)
  {
    hide SystemInv, Snapshot, Sound, Edge, Distinctness.Taken, Distinctness.Judged;
  }

  lemma VerdictLawful(s: System, c: Config, p: Proc, a: Answer)
    requires SystemInv(s, c) && ProcInv(s, c, p)
    requires p.Deciding? || p.Recording?
    ensures var n := GateStep(s, c, p, a);
      && Lawful(s, c, n.effect) && (n.proc.Some? ==> ProcInv(Apply(s, n.effect), c, n.proc.value))
      && (n.effect.Write? && n.effect.updated.stage == Ready ==>
          p.Opening? && n.effect.was == p.r && p.r.stage == Verifying)
  {
    hide HasAnomaly, Distinctness.Taken, Distinctness.UniqueFingerprints, Distinctness.Complete,
      Distinctness.AvoidsControl, Distinctness.Collides;
  }

  lemma OpeningLawful(s: System, c: Config, p: Proc, a: Answer)
    requires SystemInv(s, c) && ProcInv(s, c, p) && p.Opening?
    ensures var n := GateStep(s, c, p, a);
      && Lawful(s, c, n.effect) && (n.proc.Some? ==> ProcInv(Apply(s, n.effect), c, n.proc.value))
      && (n.effect.Write? && n.effect.updated.stage == Ready ==>
          p.Opening? && n.effect.was == p.r && p.r.stage == Verifying)
  {
    hide SystemInv, Sound, Distinctness.Taken, Distinctness.Judged;
  }

  lemma ClosingLawful(s: System, c: Config, p: Proc, a: Answer)
    requires SystemInv(s, c) && ProcInv(s, c, p) && p.Closing?
    ensures var n := GateStep(s, c, p, a);
      && Lawful(s, c, n.effect) && (n.proc.Some? ==> ProcInv(Apply(s, n.effect), c, n.proc.value))
      && (n.effect.Write? && n.effect.updated.stage == Ready ==>
          p.Opening? && n.effect.was == p.r && p.r.stage == Verifying)
  {
    hide SystemInv, Sound, Distinctness.Taken, Distinctness.Judged;
  }

  lemma DroppingLawful(s: System, c: Config, p: Proc, a: Answer)
    requires SystemInv(s, c) && ProcInv(s, c, p)
    requires p.Dropping? || p.Failing?
    ensures var n := GateStep(s, c, p, a);
      && Lawful(s, c, n.effect) && (n.proc.Some? ==> ProcInv(Apply(s, n.effect), c, n.proc.value))
      && (n.effect.Write? && n.effect.updated.stage == Ready ==>
          p.Opening? && n.effect.was == p.r && p.r.stage == Verifying)
  {
    hide Edge, HasAnomaly, Sound, Distinctness.Taken, Distinctness.UniqueFingerprints, Distinctness.Judged;
  }

  lemma AdvanceLawful(s: System, c: Config, p: Proc, a: Answer)
    requires SystemInv(s, c) && ProcInv(s, c, p) && (p.Putting? ==> p.r.id !in s.records)
    ensures var n := Advanced(s, c, p, a);
      && Lawful(s, c, n.effect) && (n.proc.Some? ==> ProcInv(Apply(s, n.effect), c, n.proc.value))
      && (n.effect.Write? && n.effect.updated.stage == Ready ==>
          p.Opening? && n.effect.was == p.r && p.r.stage == Verifying)
  {
    hide SystemInv, ProcInv, Lawful, Apply, RegistryStep, ServiceStep, GateStep;
    if p.Registering? || p.Announcing? || p.Putting? || p.Reading? || p.Moving? {
      RegistryLawful(s, c, p);
    } else if p.Reassociating? || p.Disabling? {
      ReassociationLawful(s, c, p);
    } else if p.Repointing? {
      RepointingLawful(s, c, p);
    } else if p.Recovering? || p.Classifying? || p.Noting? {
      NotingLawful(s, c, p);
    } else if p.Deciding? || p.Recording? {
      VerdictLawful(s, c, p, a);
    } else if p.Opening? {
      OpeningLawful(s, c, p, a);
    } else if p.Closing? {
      ClosingLawful(s, c, p, a);
    } else if p.Dropping? || p.Failing? {
      DroppingLawful(s, c, p, a);
    } else if p.Probing? || p.Gathering? {
      ProbingLawful(s, c, p, a);
    } else {
      EntryLawful(s, c, p, a);
    }
  }

  lemma ApplyInv(s: System, c: Config, e: Effect)
    requires SystemInv(s, c) && Lawful(s, c, e)
    ensures SystemInv(Apply(s, e), c) && Evolves(s, Apply(s, e))
  {
    hide SystemInv, Lawful, Apply, Evolves;
    if Audited(e) {
      AuditedInv(s, c, e);
    } else {
      UnauditedInv(s, c, e);
    }
    ApplyEvolves(s, c, e);
  }

  /** Every step keeps the invariant, follows the lifecycle's edges, counts each write, and reaches
      Ready only as the gate's last write. */
  lemma StepInv(w: World, c: Config, e: Event)
    requires Inv(w, c) && Unraced(w, e)
    ensures Inv(Step(w, c, e), c) && Evolves(w.sys, Step(w, c, e).sys)
  {
    hide SystemInv, Lawful, Apply, Evolves, ProcInv, Advanced, Snapshot;
    var w' := Step(w, c, e);
    match e
    case Start(pid, p) =>
      Unchanged(w.sys);
      if Enterable(p) {
        EntryInv(w.sys, c, p);
      }
    case Crash(pid) =>
      Unchanged(w.sys);
    case Advance(pid, a) =>
      Unchanged(w.sys);
      if pid in w.procs {
        var p := w.procs[pid];
        AdvanceLawful(w.sys, c, p, a);
        var n := Advanced(w.sys, c, p, a);
        ApplyInv(w.sys, c, n.effect);
        forall q | q in w'.procs ensures ProcInv(w'.sys, c, w'.procs[q]) {
          if q != pid {
            ProcStable(w.sys, w'.sys, c, w.procs[q]);
          }
        }
      }
  }

  lemma Unchanged(s: System)
    ensures Evolves(s, s)
  {
  }

  lemma EntryInv(s: System, c: Config, p: Proc)
    requires Enterable(p)
    ensures ProcInv(s, c, p)
  {
  }
}
