/** What every run of the lifecycle's processes keeps. */
module LifecycleSafety {
  import opened Prelude
  import opened Naming
  import opened Lifecycle
  import Distinctness

  // ----- any interleaving --------------------------------------------------------------------------

  lemma StartInv(c: Config)
    ensures Inv(START, c)
  {
  }

  /** Over any interleaving, same tenant or not, processes dying at any call: records stand under their
      own ids, a tenant with an isolation anomaly on its trail is on hold, the ledger holds only sound
      evidence with distinct fingerprints, and every process works on a snapshot. */
  lemma {:induction false} EveryRunIsLawful(c: Config, events: seq<Event>)
    requires UnracedRun(c, events)
    ensures Inv(Run(c, events), c)
  {
    hide Inv, Step, Unraced;
    if events == [] {
      StartInv(c);
    } else {
      var w, e := Run(c, events[..|events| - 1]), events[|events| - 1];
      EveryRunIsLawful(c, events[..|events| - 1]);
      StepInv(w, c, e);
    }
  }

  /** Whoever is on hold stays there: Quarantined leaves only to Decommissioned, and a decommissioned
      tenant's record is never written again. */
  lemma {:induction false} HoldIsForEver(c: Config, events: seq<Event>, n: nat, t: string)
    requires UnracedRun(c, events) && n <= |events|
    requires t in Run(c, events[..n]).sys.records && OnHold(Run(c, events[..n]).sys.records[t].stage)
    ensures t in Run(c, events).sys.records
    ensures var earlier, now := Run(c, events[..n]).sys.records[t], Run(c, events).sys.records[t];
      OnHold(now.stage) && (earlier.stage == Decommissioned ==> now == earlier)
    decreases |events|
  {
    hide Inv, Step, Unraced;
    if n == |events| {
      assert events[..n] == events;
    } else {
      var init := events[..|events| - 1];
      assert init[..n] == events[..n];
      HoldIsForEver(c, init, n, t);
      EveryRunIsLawful(c, init);
      StepInv(Run(c, init), c, events[|events| - 1]);
    }
  }

  /** An isolation anomaly on the trail puts its tenant on hold for ever after. */
  lemma AnomalyIsForEver(c: Config, events: seq<Event>, n: nat, t: string)
    requires UnracedRun(c, events) && n <= |events| && HasAnomaly(Run(c, events[..n]).sys.audit, t)
    ensures t in Run(c, events).sys.records && OnHold(Run(c, events).sys.records[t].stage)
  {
    hide Step, Unraced, HasAnomaly, UnracedRun, ProcInv;
    PrefixUnraced(c, events, n);
    EveryRunIsLawful(c, events[..n]);
    HoldIsForEver(c, events, n, t);
  }

  lemma {:induction false} PrefixUnraced(c: Config, events: seq<Event>, n: nat)
    requires UnracedRun(c, events) && n <= |events|
    ensures UnracedRun(c, events[..n])
    decreases |events|
  {
    hide Step, Unraced;
    if n == |events| {
      assert events[..n] == events;
    } else {
      assert events[..|events| - 1][..n] == events[..n];
      PrefixUnraced(c, events[..|events| - 1], n);
    }
  }

  /** Only the gate's last write, and only from Verifying, makes a tenant Ready. */
  lemma ReadyOnlyByTheGate(w: World, c: Config, e: Event, t: string)
    requires Inv(w, c) && Unraced(w, e)
    requires var after := Step(w, c, e).sys.records;
      t in after && after[t].stage == Ready && !(t in w.sys.records && w.sys.records[t] == after[t])
    ensures e.Advance? && e.pid in w.procs && w.procs[e.pid].Opening? && w.procs[e.pid].r.id == t
    ensures t in w.sys.records && w.sys.records[t].stage == Verifying
  {
    hide SystemInv, ProcInv, Advanced, Snapshot, Edge;
    var p := w.procs[e.pid];
    AdvanceLawful(w.sys, c, p, e.answer);
  }

  // ----- the one blind write ------------------------------------------------------------------------

  /** A step takes a tenant off hold exactly when it is a registration's blind write of a tenant on hold. */
  lemma HoldLiftedIff(w: World, c: Config, e: Event, t: string)
    requires Inv(w, c) && t in w.sys.records && OnHold(w.sys.records[t].stage)
    ensures !(t in Step(w, c, e).sys.records && OnHold(Step(w, c, e).sys.records[t].stage)) <==>
      e.Advance? && e.pid in w.procs && w.procs[e.pid].Putting? && w.procs[e.pid].r.id == t
  {
    hide SystemInv, ProcInv, Snapshot, Advanced;
    if e.Advance? && e.pid in w.procs {
      var p := w.procs[e.pid];
      if p.Putting? {
        PuttingPuts(w.sys, c, p, e.answer);
      } else {
        AdvanceLawful(w.sys, c, p, e.answer);
        ApplyInv(w.sys, c, Advanced(w.sys, c, p, e.answer).effect);
      }
    }
  }

  lemma PuttingPuts(s: System, c: Config, p: Proc, a: Answer)
    requires p.Putting? && ProcInv(s, c, p)
    ensures Advanced(s, c, p, a) == Next(Put(p.r), None) && p.r.stage == Registered
  {
  }

  /** Two registrations of one tenant that both found it missing: the later write takes a
      decommissioned tenant back to Registered. */
  lemma RacedRegistrationResurrects(c: Config, t: string, schema: string, ref: SecretRef)
    requires Admitted(t)
    ensures var a, p := Answer(false, "", None), Registering(t, schema, ref);
      var events := [Start(0, p), Advance(0, a), Start(1, p), Advance(1, a), Advance(1, a), Advance(1, a),
                     Start(2, Reading(t, ToDecommissioned)), Advance(2, a), Advance(2, a), Advance(0, a)];
      && t in Run(c, events).sys.records && Run(c, events).sys.records[t].stage == Decommissioned
      && Run(c, events + [Advance(0, a)]).sys.records[t] == Record(t, Registered, schema, ref, 0)
  {
    hide Step, Run;
    var a, p := Answer(false, "", None), Registering(t, schema, ref);
    var events := [Start(0, p), Advance(0, a), Start(1, p), Advance(1, a), Advance(1, a), Advance(1, a),
                   Start(2, Reading(t, ToDecommissioned)), Advance(2, a), Advance(2, a), Advance(0, a)];
    EmptyRun(c);
    assert [] + events[..4] == events[..4] && events[..4] + events[4..6] == events[..6];
    assert events[..6] + events[6..9] == events[..9] && events[..9] + events[9..] == events;
    Extend(c, [], events[..4]);
    BothFindItMissing(c, t, schema, ref, a);
    Extend(c, events[..4], events[4..6]);
    Extend(c, events[..6], events[6..9]);
    Extend(c, events[..9], events[9..]);
    Extend(c, events, [Advance(0, a)]);
    OneRegistersAndRetires(Run(c, events[..4]), c, t, schema, ref, a);
    TheOtherWrites(Run(c, events[..9]), c, Record(t, Registered, schema, ref, 0),
                   Record(t, Decommissioned, schema, ref, 1), a);
  }

  predicate Both(w: World, t: string, schema: string, ref: SecretRef) {
    var r := Record(t, Registered, schema, ref, 0);
    w.sys.records == map[] && w.procs == map[0 := Announcing(r), 1 := Announcing(r)]
  }

  lemma BothFindItMissing(c: Config, t: string, schema: string, ref: SecretRef, a: Answer)
    requires Admitted(t)
    ensures var p := Registering(t, schema, ref);
      Both(Step(Step(Step(Step(START, c, Start(0, p)), c, Advance(0, a)), c, Start(1, p)), c, Advance(1, a)), t, schema,
           ref)
  {
    var p, r := Registering(t, schema, ref), Record(t, Registered, schema, ref, 0);
    var w2 := Step(Step(START, c, Start(0, p)), c, Advance(0, a));
    assert w2 == World(START.sys, map[0 := Announcing(r)]);
  }

  lemma OneRegistersAndRetires(w: World, c: Config, t: string, schema: string, ref: SecretRef, a: Answer)
    requires Both(w, t, schema, ref)
    ensures var w6 := Step(Step(w, c, Advance(1, a)), c, Advance(1, a));
      var w9 := Step(Step(Step(w6, c, Start(2, Reading(t, ToDecommissioned))), c, Advance(2, a)), c, Advance(2, a));
      && w9.sys.records == map[t := Record(t, Decommissioned, schema, ref, 1)]
      && w9.procs == map[0 := Announcing(Record(t, Registered, schema, ref, 0))]
  {
    var r := Record(t, Registered, schema, ref, 0);
    var w5 := Step(w, c, Advance(1, a));
    assert w5.procs == map[0 := Announcing(r), 1 := Putting(r)] && w5.sys.records == map[];
    var w6 := Step(w5, c, Advance(1, a));
    assert w6.procs == map[0 := Announcing(r)] && w6.sys.records == map[t := r];
    Retires(w6, c, r, 0, Announcing(r), a);
  }

  lemma Retires(w: World, c: Config, r: Record, pid: int, p: Proc, a: Answer)
    requires w.sys.records == map[r.id := r] && r.stage == Registered && w.procs == map[pid := p] && pid != 2
    ensures var w' :=
      Step(Step(Step(w, c, Start(2, Reading(r.id, ToDecommissioned))), c, Advance(2, a)), c, Advance(2, a));
      && w'.sys.records == map[r.id := Written(r.(stage := Decommissioned))] && w'.procs == map[pid := p]
  {
    var w2 := Step(Step(w, c, Start(2, Reading(r.id, ToDecommissioned))), c, Advance(2, a));
    assert w2.procs == map[pid := p, 2 := Moving(r, ToDecommissioned)] && w2.sys.records == map[r.id := r];
  }

  lemma TheOtherWrites(w: World, c: Config, r: Record, now: Record, a: Answer)
    requires w.sys.records == map[r.id := now] && w.procs == map[0 := Announcing(r)]
    ensures Step(w, c, Advance(0, a)).sys.records == map[r.id := now]
    ensures Step(Step(w, c, Advance(0, a)), c, Advance(0, a)).sys.records == map[r.id := r]
  {
    assert Step(w, c, Advance(0, a)).procs == map[0 := Putting(r)];
  }

  // ----- one operation at a time for each tenant ------------------------------------------------------

  /** No two live operations of one tenant; operations of different tenants interleave freely. */
  predicate Serial(w: World) {
    forall p, q :: p in w.procs && q in w.procs && p != q ==> TenantOf(w.procs[p]) != TenantOf(w.procs[q])
  }

  predicate StartsSerial(w: World, e: Event) {
    e.Start? ==> forall p :: p in w.procs ==> TenantOf(w.procs[p]) != TenantOf(e.proc)
  }

  predicate SerialRun(c: Config, events: seq<Event>) {
    events != [] ==>
      SerialRun(c, events[..|events| - 1]) && StartsSerial(Run(c, events[..|events| - 1]), events[|events| - 1])
  }

  /** An operation alone with its tenant works on the current record, not on an old one. */
  predicate Current(s: System, p: Proc) {
    && (HasRecord(p) ==> p.r.id in s.records && s.records[p.r.id] == p.r)
    && (p.Announcing? || p.Putting? ==> p.r.id !in s.records)
    && (p.Opening? ==> p.r.id in s.ledger && p.r.id !in s.disabled)
  }

  /** Every Ready tenant whose routing was not disabled has its evidence on the ledger. */
  predicate ReadyIsEvidenced(s: System) {
    forall t :: t in s.records && s.records[t].stage == Ready && t !in s.disabled ==> t in s.ledger
  }

  ghost predicate SerialInv(w: World, c: Config) {
    && Inv(w, c) && Serial(w) && ReadyIsEvidenced(w.sys)
    && (forall pid :: pid in w.procs ==> Current(w.sys, w.procs[pid]))
  }

  /** An effect touches its own tenant only. */
  ghost predicate Touches(s: System, s': System, t: string) {
    forall u :: u != t ==>
      && (u in s'.records <==> u in s.records) && (u in s.records ==> s'.records[u] == s.records[u])
      && (u in s'.ledger <==> u in s.ledger) && (u in s'.disabled <==> u in s.disabled)
  }

  predicate ReadyAt(s: System, t: string) {
    t in s.records && s.records[t].stage == Ready && t !in s.disabled ==> t in s.ledger
  }

  ghost predicate StaysCurrent(s: System, c: Config, p: Proc, a: Answer) {
    var n := Advanced(s, c, p, a);
    var s' := Apply(s, n.effect);
    && Touches(s, s', TenantOf(p)) && ReadyAt(s', TenantOf(p))
    && (n.proc.Some? ==> TenantOf(n.proc.value) == TenantOf(p) && Current(s', n.proc.value))
  }

  lemma RegistrationCurrent(s: System, c: Config, p: Proc, a: Answer)
    requires SystemInv(s, c) && ProcInv(s, c, p) && Current(s, p) && ReadyAt(s, TenantOf(p))
    requires p.Registering? || p.Announcing? || p.Putting?
    ensures StaysCurrent(s, c, p, a)
  {
    hide SystemInv, Snapshot, Admitted, GateStep, ServiceStep;
  }

  lemma TransitionCurrent(s: System, c: Config, p: Proc, a: Answer)
    requires SystemInv(s, c) && ProcInv(s, c, p) && Current(s, p) && ReadyAt(s, TenantOf(p))
    requires p.Reading? || p.Moving?
    ensures StaysCurrent(s, c, p, a)
  {
    hide ProcInv, HasAnomaly, Sound, AllowedFrom, MoveAction, Distinctness.UniqueFingerprints, GateStep, ServiceStep;
  }

  lemma ReassociationCurrent(s: System, c: Config, p: Proc, a: Answer)
    requires SystemInv(s, c) && ProcInv(s, c, p) && Current(s, p) && ReadyAt(s, TenantOf(p))
    requires p.Reassociating? || p.Disabling?
    ensures StaysCurrent(s, c, p, a)
  {
    hide ProcInv, HasAnomaly, Sound, Distinctness.UniqueFingerprints, GateStep, RegistryStep;
  }

  lemma RepointingCurrent(s: System, c: Config, p: Proc, a: Answer)
    requires SystemInv(s, c) && ProcInv(s, c, p) && Current(s, p) && ReadyAt(s, TenantOf(p))
    requires p.Repointing?
    ensures StaysCurrent(s, c, p, a)
  {
    hide SystemInv, ProcInv, GateStep, RegistryStep;
  }

  lemma RecoveryCurrent(s: System, c: Config, p: Proc, a: Answer)
    requires SystemInv(s, c) && ProcInv(s, c, p) && Current(s, p) && ReadyAt(s, TenantOf(p))
    requires p.Recovering? || p.Classifying? || p.Noting?
    ensures StaysCurrent(s, c, p, a)
  {
    hide SystemInv, ProcInv, HasAnomaly, StageIn, GateStep, RegistryStep;
  }

  lemma EntryCurrent(s: System, c: Config, p: Proc, a: Answer)
    requires SystemInv(s, c) && ProcInv(s, c, p) && Current(s, p) && ReadyAt(s, TenantOf(p))
    requires p.Entering? || p.Starting? || p.Rereading?
    ensures StaysCurrent(s, c, p, a)
  {
    hide ProcInv, HasAnomaly, Sound, Distinctness.UniqueFingerprints, RegistryStep, ServiceStep,
      Distinctness.Judged, Distinctness.Taken;
  }

  lemma ProbingCurrent(s: System, c: Config, p: Proc, a: Answer)
    requires SystemInv(s, c) && ProcInv(s, c, p) && Current(s, p) && ReadyAt(s, TenantOf(p))
    requires p.Probing? || p.Gathering?
    ensures StaysCurrent(s, c, p, a)
  {
    hide SystemInv, ProcInv, RegistryStep, ServiceStep, Distinctness.Judged, Distinctness.Taken;
  }

  lemma VerdictCurrent(s: System, c: Config, p: Proc, a: Answer)
    requires SystemInv(s, c) && ProcInv(s, c, p) && Current(s, p) && ReadyAt(s, TenantOf(p))
    requires p.Deciding? || p.Recording?
    ensures StaysCurrent(s, c, p, a)
  {
    hide SystemInv, Sound, Distinctness.Judged, Distinctness.Taken;
    VerdictHasEvidence(s, c, p);
  }

  lemma DroppingCurrent(s: System, c: Config, p: Proc, a: Answer)
    requires SystemInv(s, c) && ProcInv(s, c, p) && Current(s, p) && ReadyAt(s, TenantOf(p))
    requires p.Dropping? || p.Failing?
    ensures StaysCurrent(s, c, p, a)
  {
    hide SystemInv, Sound, Snapshot, RegistryStep, ServiceStep, Distinctness.Judged, Distinctness.Taken;
  }

  lemma ClosingCurrent(s: System, c: Config, p: Proc, a: Answer)
    requires SystemInv(s, c) && ProcInv(s, c, p) && Current(s, p) && ReadyAt(s, TenantOf(p))
    requires p.Opening? || p.Closing?
    ensures StaysCurrent(s, c, p, a)
  {
    hide SystemInv, ProcInv, RegistryStep, ServiceStep, Distinctness.Judged, Distinctness.Taken;
  }

  lemma StepCurrent(s: System, c: Config, p: Proc, a: Answer)
    requires SystemInv(s, c) && ProcInv(s, c, p) && Current(s, p) && ReadyAt(s, TenantOf(p))
    ensures StaysCurrent(s, c, p, a)
  {
    hide SystemInv, ProcInv, Current, StaysCurrent, ReadyAt;
    if p.Registering? || p.Announcing? || p.Putting? {
      RegistrationCurrent(s, c, p, a);
    } else if p.Reading? || p.Moving? {
      TransitionCurrent(s, c, p, a);
    } else if p.Reassociating? || p.Disabling? {
      ReassociationCurrent(s, c, p, a);
    } else if p.Repointing? {
      RepointingCurrent(s, c, p, a);
    } else if p.Recovering? || p.Classifying? || p.Noting? {
      RecoveryCurrent(s, c, p, a);
    } else if p.Deciding? || p.Recording? {
      VerdictCurrent(s, c, p, a);
    } else if p.Dropping? || p.Failing? {
      DroppingCurrent(s, c, p, a);
    } else if p.Opening? || p.Closing? {
      ClosingCurrent(s, c, p, a);
    } else if p.Probing? || p.Gathering? {
      ProbingCurrent(s, c, p, a);
    } else {
      EntryCurrent(s, c, p, a);
    }
  }

  lemma VerdictHasEvidence(s: System, c: Config, p: Proc)
    ensures p.Deciding? && Distinctness.Judged(p.r.id, p.candidate, TenantDatabaseName(p.r.id), c.control,
                                               s.ledger - {p.r.id}).result.Verified?
      ==> p.candidate.Some?
  {
  }

  lemma SerialStep(w: World, c: Config, e: Event)
    requires SerialInv(w, c) && StartsSerial(w, e)
    ensures SerialInv(Step(w, c, e), c) && Unraced(w, e)
  {
    hide SystemInv, Advanced, Apply, ProcInv;
    StepInv(w, c, e);
    if e.Advance? && e.pid in w.procs {
      var p, w' := w.procs[e.pid], Step(w, c, e);
      assert ReadyAt(w.sys, TenantOf(p));
      StepCurrent(w.sys, c, p, e.answer);
      assert ReadyIsEvidenced(w'.sys) by {
        forall t | t != TenantOf(p) ensures ReadyAt(w'.sys, t) {
          assert ReadyAt(w.sys, t);
        }
      }
    }
  }

  lemma {:induction false} SerialRunKeeps(c: Config, events: seq<Event>)
    requires SerialRun(c, events)
    ensures SerialInv(Run(c, events), c)
  {
    hide SerialInv, Step, StartsSerial;
    if events == [] {
      SerialStart(c);
    } else {
      SerialRunKeeps(c, events[..|events| - 1]);
      SerialStep(Run(c, events[..|events| - 1]), c, events[|events| - 1]);
    }
  }

  lemma SerialStart(c: Config)
    ensures SerialInv(START, c)
  {
    StartInv(c);
  }

  /** Gate runs of different tenants interleaved in any way, stale inventories included: every Ready
      tenant not passed to `disable_routing` since holds complete evidence of its own database, off the
      Control DB on every leg, and no two such tenants share a fingerprint or a target. */
  lemma ReadyTenantsAreDistinct(c: Config, events: seq<Event>, t: string, u: string)
    requires SerialRun(c, events) && t != u
    ensures var s := Run(c, events).sys;
      && (t in s.records && s.records[t].stage == Ready && t !in s.disabled ==>
          t in s.ledger && Sound(c, t, s.ledger[t]))
      && (t in s.ledger && u in s.ledger ==>
            && s.ledger[t].Fingerprint() != s.ledger[u].Fingerprint()
            && s.ledger[t].observedTarget != s.ledger[u].observedTarget)
  {
    hide Run, HasAnomaly, ProcInv, Distinctness.AvoidsControl, Distinctness.Complete;
    SerialRunKeeps(c, events);
    DatabaseNamesDistinct(t, u);
  }

  // ----- two gate runs of one tenant -----------------------------------------------------------------

  /** From a state where every Ready tenant is evidenced, a step keeps that exactly when it does not
      drop the ledger row of a Ready tenant, nor open a tenant whose row is gone. */
  lemma EvidenceKeptIff(w: World, c: Config, e: Event)
    requires Inv(w, c) && Unraced(w, e) && ReadyIsEvidenced(w.sys)
    ensures ReadyIsEvidenced(Step(w, c, e).sys) <==>
      !(e.Advance? && e.pid in w.procs &&
        var p := w.procs[e.pid];
        || ((p.Dropping? || p.Failing?) && StageIn(w.sys, p.r.id, {Ready}) && p.r.id !in w.sys.disabled
            && p.r.id in w.sys.ledger)
        || (p.Opening? && Unmoved(w.sys, p.r) && p.r.id !in w.sys.disabled && p.r.id !in w.sys.ledger))
  {
    hide Advanced, Apply, SystemInv, ProcInv, StageIn, Unmoved, Unraced, ReadyIsEvidenced;
    if e.Advance? && e.pid in w.procs {
      assert Unraced(w, e) ==>
        (w.procs[e.pid].Putting? ==> w.procs[e.pid].r.id !in w.sys.records) by { UnracedPut(w, e); }
      EvidenceKeptAt(w.sys, c, w.procs[e.pid], e.answer);
    }
  }

  lemma UnracedPut(w: World, e: Event)
    requires Unraced(w, e) && e.Advance? && e.pid in w.procs
    ensures w.procs[e.pid].Putting? ==> w.procs[e.pid].r.id !in w.sys.records
  {
  }

  ghost predicate EvidenceKept(s: System, c: Config, p: Proc, a: Answer) {
    ReadyIsEvidenced(Apply(s, Advanced(s, c, p, a).effect)) <==>
      && !((p.Dropping? || p.Failing?) && StageIn(s, p.r.id, {Ready}) && p.r.id !in s.disabled && p.r.id in s.ledger)
      && !(p.Opening? && Unmoved(s, p.r) && p.r.id !in s.disabled && p.r.id !in s.ledger)
  }

  lemma EvidenceKeptAt(s: System, c: Config, p: Proc, a: Answer)
    requires SystemInv(s, c) && ProcInv(s, c, p) && (p.Putting? ==> p.r.id !in s.records) && ReadyIsEvidenced(s)
    ensures EvidenceKept(s, c, p, a)
  {
    hide SystemInv, ProcInv, Advanced, Edge, Sound, Distinctness.Taken;
    AdvanceLawful(s, c, p, a);
    EffectOf(s, c, p, a);
    var eff := Advanced(s, c, p, a).effect;
    if p.Opening? && Unmoved(s, p.r) {
      assert Apply(s, eff).records[p.r.id].stage == Ready;
    }
  }

  /** Which steps drop a row or open a tenant. */
  lemma EffectOf(s: System, c: Config, p: Proc, a: Answer)
    ensures var eff := Advanced(s, c, p, a).effect;
      && (eff.Forget? <==> p.Dropping? || p.Failing?) && (eff.Forget? ==> eff.t == p.r.id)
      && (p.Opening? && Unmoved(s, p.r) ==> eff == Write(p.r, p.r.(stage := Ready), VerificationPassed))
      && (p.Opening? && !Unmoved(s, p.r) ==> eff == Nothing)
  {
    hide Distinctness.Judged, Distinctness.Taken, Unmoved, StageIn, Admitted, HasAnomaly;
  }

  predicate Stands(w: World, records: map<string, Record>, ledger: Ledger, procs: map<int, Proc>) {
    w.sys.records == records && w.sys.ledger == ledger && w.sys.disabled == {} && w.procs == procs
  }

  lemma Extend(c: Config, events: seq<Event>, more: seq<Event>)
    ensures |more| == 1 ==> Run(c, events + more) == Step(Run(c, events), c, more[0])
    ensures |more| == 2 ==> Run(c, events + more) == Step(Step(Run(c, events), c, more[0]), c, more[1])
    ensures |more| == 3 ==>
      Run(c, events + more) == Step(Step(Step(Run(c, events), c, more[0]), c, more[1]), c, more[2])
    ensures |more| == 4 ==>
      Run(c, events + more) == Step(Step(Step(Step(Run(c, events), c, more[0]), c, more[1]), c, more[2]), c, more[3])
  {
    hide Step;
    var all := events + more;
    if |more| == 1 {
      assert all[..|all| - 1] == events;
    } else if 2 <= |more| <= 4 {
      assert all[..|all| - 1] == events + more[..|more| - 1];
      Extend(c, events, more[..|more| - 1]);
    }
  }

  lemma RegistersAlone(w: World, c: Config, records: map<string, Record>, t: string, schema: string, ref: SecretRef,
          a: Answer)
    requires Stands(w, records, map[], map[]) && Admitted(t) && t !in records
    ensures Stands(Step(Step(Step(Step(w, c, Start(0, Registering(t, schema, ref))), c, Advance(0, a)), c,
                             Advance(0, a)), c, Advance(0, a)),
                   records[t := Record(t, Registered, schema, ref, 0)], map[], map[])
  {
    var r := Record(t, Registered, schema, ref, 0);
    var w2 := Step(Step(w, c, Start(0, Registering(t, schema, ref))), c, Advance(0, a));
    assert Stands(w2, records, map[], map[0 := Announcing(r)]);
    var w3 := Step(w2, c, Advance(0, a));
    assert Stands(w3, records, map[], map[0 := Putting(r)]);
  }

  lemma GateEnters(w: World, c: Config, records: map<string, Record>, r: Record, procs: map<int, Proc>, pid: int,
          a: Answer)
    requires Stands(w, records, map[], procs) && r.id in records && records[r.id] == r
    requires pid !in procs && r.stage in {Registered, Verifying}
    ensures var r' := Written(r.(stage := Verifying));
      Stands(Step(Step(Step(w, c, Start(pid, Entering(r.id))), c, Advance(pid, a)), c, Advance(pid, a)),
             records[r.id := r'], map[], procs[pid := Probing(r')])
  {
    var w2 := Step(Step(w, c, Start(pid, Entering(r.id))), c, Advance(pid, a));
    assert Stands(w2, records, map[], procs[pid := Starting(r, false)]);
  }

  lemma GateGathers(w: World, c: Config, records: map<string, Record>, r: Record, procs: map<int, Proc>, pid: int,
          a: Answer)
    requires Stands(w, records, map[], procs) && pid in procs && procs[pid] == Probing(r)
    requires a.reachable && a.observedSchema == r.schema && r.schema in c.supported
      && r.association.storeRef != c.control.secretRefKey
    requires a.evidence.Some? && Sound(c, r.id, a.evidence.value)
    ensures Stands(Step(Step(Step(w, c, Advance(pid, a)), c, Advance(pid, a)), c, Advance(pid, a)),
                   records, map[], procs[pid := Recording(r, a.evidence.value)])
  {
    var w2 := Step(Step(w, c, Advance(pid, a)), c, Advance(pid, a));
    assert Stands(w2, records, map[], procs[pid := Deciding(r, a.evidence)]);
    assert w2.sys.ledger - {r.id} == map[];
    assert !Distinctness.Collides(r.id, a.evidence.value, map[]);
  }

  lemma GateOpens(w: World, c: Config, records: map<string, Record>, r: Record, ledger: Ledger, procs: map<int, Proc>,
          pid: int, e: Evidence, a: Answer)
    requires Stands(w, records, ledger, procs) && r.id in records && records[r.id] == r
    requires pid in procs && procs[pid] == Recording(r, e) && !Distinctness.Taken(ledger, r.id, e)
    ensures Stands(Step(Step(w, c, Advance(pid, a)), c, Advance(pid, a)),
                   records[r.id := Written(r.(stage := Ready))], ledger[r.id := e],
                   procs[pid := Noting(r.id, [RoutingEnabled], Finish)])
  {
    var w1 := Step(w, c, Advance(pid, a));
    assert w1.sys.disabled == {} - {r.id} == {};
    assert Stands(w1, records, ledger[r.id := e], procs[pid := Opening(r)]);
  }

  lemma GateDrops(w: World, c: Config, records: map<string, Record>, was: Record, ledger: Ledger, procs: map<int, Proc>,
          pid: int, a: Answer)
    requires Stands(w, records, ledger, procs) && pid in procs && procs[pid] == Probing(was) && !a.reachable
    ensures Stands(Step(Step(w, c, Advance(pid, a)), c, Advance(pid, a)),
                   records, ledger - {was.id}, procs[pid := Closing(was, false, VerificationIncomplete)])
  {
    var w1 := Step(w, c, Advance(pid, a));
    assert Stands(w1, records, ledger, procs[pid := Failing(was, false, VerificationIncomplete)]);
  }

  /** Two gate runs of one tenant: the one that fails drops the row the other recorded, then loses its
      own write, and leaves the tenant Ready without evidence. */
  lemma ConcurrentGatesLoseEvidence(c: Config, t: string, schema: string, ref: SecretRef, e: Evidence)
    returns (events: seq<Event>)
    requires Admitted(t) && schema in c.supported && ref.storeRef != c.control.secretRefKey && Sound(c, t, e)
    ensures var s := Run(c, events).sys;
      t in s.records && s.records[t].stage == Ready && t !in s.disabled && t !in s.ledger
  {
    hide Step, Admitted, Sound, Run;
    var up, down := Answer(true, schema, Some(e)), Answer(false, "", None);
    var a0, a1, a2, d1 := Advance(0, up), Advance(1, up), Advance(2, up), Advance(1, down);
    var r0 := Record(t, Registered, schema, ref, 0);
    var r1 := Written(r0.(stage := Verifying));
    var r2 := Written(r1);
    EmptyRun(c);
    Extend(c, [], [Start(0, Registering(t, schema, ref)), a0, a0, a0]);
    RegistersAlone(Run(c, []), c, map[], t, schema, ref, up);
    var first := [] + [Start(0, Registering(t, schema, ref)), a0, a0, a0];
    Extend(c, first, [Start(1, Entering(t)), a1, a1]);
    GateEnters(Run(c, first), c, map[t := r0], r0, map[], 1, up);
    var second := first + [Start(1, Entering(t)), a1, a1];
    Extend(c, second, [Start(2, Entering(t)), a2, a2]);
    GateEnters(Run(c, second), c, map[t := r1], r1, map[1 := Probing(r1)], 2, up);
    var third := second + [Start(2, Entering(t)), a2, a2];
    Extend(c, third, [a2, a2, a2]);
    GateGathers(Run(c, third), c, map[t := r2], r2, map[1 := Probing(r1), 2 := Probing(r2)], 2, up);
    var fourth := third + [a2, a2, a2];
    Extend(c, fourth, [a2, a2]);
    GateOpens(Run(c, fourth), c, map[t := r2], r2, map[], map[1 := Probing(r1), 2 := Recording(r2, e)], 2, e, up);
    var fifth := fourth + [a2, a2];
    Extend(c, fifth, [d1, d1]);
    GateDrops(Run(c, fifth), c, map[t := Written(r2.(stage := Ready))], r1, map[t := e],
              map[1 := Probing(r1), 2 := Noting(t, [RoutingEnabled], Finish)], 1, down);
    events := fifth + [d1, d1];
  }

  lemma EmptyRun(c: Config)
    ensures Run(c, []) == START
  {
  }

  // ----- two gate runs of two tenants ------------------------------------------------------------------

  /** A step keeps all recorded tenants apart on every leg exactly when it does not record evidence that
      the ledger, as it now stands, clashes with on a leg its arbiter does not look at. */
  lemma ApartKeptIff(w: World, c: Config, e: Event)
    requires Inv(w, c) && Distinctness.Apart(w.sys.ledger)
    ensures Distinctness.Apart(Step(w, c, e).sys.ledger) <==>
      !(e.Advance? && e.pid in w.procs && w.procs[e.pid].Recording? &&
        var p := w.procs[e.pid];
        !Distinctness.Taken(w.sys.ledger, p.r.id, p.evidence)
            && Distinctness.Collides(p.r.id, p.evidence, w.sys.ledger - {p.r.id}))
  {
    hide SystemInv, Advanced, Distinctness.Collides, Distinctness.Taken, Distinctness.Apart, Distinctness.AvoidsControl,
      Snapshot;
    if e.Advance? && e.pid in w.procs {
      var p := w.procs[e.pid];
      LedgerEffectOf(w.sys, c, p, e.answer);
      if p.Recording? {
        assert ProcInv(w.sys, c, p);
        Distinctness.ApartIff(p.r.id, p.evidence, w.sys.ledger);
      } else {
        FewerStayApart(w.sys.ledger, Step(w, c, e).sys.ledger);
      }
    }
  }

  lemma FewerStayApart(ledger: Ledger, fewer: Ledger)
    requires Distinctness.Apart(ledger) && forall t :: t in fewer ==> t in ledger && fewer[t] == ledger[t]
    ensures Distinctness.Apart(fewer)
  {
  }

  /** Only the recording step adds to the ledger, and only where the fingerprint is free. */
  lemma LedgerEffectOf(s: System, c: Config, p: Proc, a: Answer)
    ensures var after := Apply(s, Advanced(s, c, p, a).effect).ledger;
      if p.Recording? then after
        == (if Distinctness.Taken(s.ledger, p.r.id, p.evidence) then s.ledger else s.ledger[p.r.id := p.evidence])
      else forall t :: t in after ==> t in s.ledger && after[t] == s.ledger[t]
  {
    hide Distinctness.Judged, Distinctness.Taken, Unmoved, StageIn, Admitted, HasAnomaly;
  }

  lemma ExtendSerial(c: Config, events: seq<Event>, more: seq<Event>)
    requires SerialRun(c, events) && 1 <= |more| <= 4 && StartsSerial(Run(c, events), more[0])
    requires forall i :: 1 <= i < |more| ==> !more[i].Start?
    ensures SerialRun(c, events + more)
  {
    hide Step, Run;
    var all := events + more;
    assert all[..|all| - 1] == events + more[..|more| - 1];
    if |more| == 1 {
      assert events + more[..0] == events;
    } else {
      ExtendSerial(c, events, more[..|more| - 1]);
    }
  }

  /** Two tenants registered one after the other, and a gate run of each just begun. */
  lemma TwoGatesBegin(c: Config, t: string, u: string, schema: string, ref: SecretRef, ref2: SecretRef, one: Answer,
          two: Answer)
    returns (ev: seq<Event>)
    requires Admitted(t) && Admitted(u) && t != u
    ensures var t1, u1 := Record(t, Verifying, schema, ref, 1), Record(u, Verifying, schema, ref2, 1);
      SerialRun(c, ev) && Stands(Run(c, ev), map[t := t1, u := u1], map[], map[1 := Probing(t1), 2 := Probing(u1)])
  {
    hide Step, Admitted, Run, SerialRun, Stands;
    var a0, a1, a2 := Advance(0, one), Advance(1, one), Advance(2, two);
    var t0, u0 := Record(t, Registered, schema, ref, 0), Record(u, Registered, schema, ref2, 0);
    var t1, u1 := Record(t, Verifying, schema, ref, 1), Record(u, Verifying, schema, ref2, 1);
    EmptySerial(c);
    ev := [];
    RegistersAlone(Run(c, ev), c, map[], t, schema, ref, one);
    ev := Onward(c, ev, [Start(0, Registering(t, schema, ref)), a0, a0, a0], map[], map[], map[]);
    var alone, two0, half, both := map[t := t0], map[t := t0, u := u0], map[t := t1, u := u0], map[t := t1, u := u1];
    RegistersAlone(Run(c, ev), c, alone, u, schema, ref2, one);
    ev := Onward(c, ev, [Start(0, Registering(u, schema, ref2)), a0, a0, a0], alone, map[], map[]);
    assert alone[u := u0] == two0 && two0[t := t1] == half && half[u := u1] == both;
    GateEnters(Run(c, ev), c, two0, t0, map[], 1, one);
    ev := Onward(c, ev, [Start(1, Entering(t)), a1, a1], two0, map[], map[]);
    var probing := map[1 := Probing(t1)];
    GateEnters(Run(c, ev), c, half, u0, probing, 2, two);
    ev := Onward(c, ev, [Start(2, Entering(u)), a2, a2], half, map[], probing);
    assert probing[2 := Probing(u1)] == map[1 := Probing(t1), 2 := Probing(u1)];
  }

  /** Both gates gather, decide on the empty ledger and are about to record. */
  lemma TwoGatesDecide(c: Config, t: string, u: string, schema: string, ref: SecretRef, ref2: SecretRef, e: Evidence,
          f: Evidence)
    returns (ev: seq<Event>)
    requires Admitted(t) && Admitted(u) && t != u && schema in c.supported
    requires ref.storeRef != c.control.secretRefKey && ref2.storeRef != c.control.secretRefKey
    requires Sound(c, t, e) && Sound(c, u, f)
    ensures var t1, u1 := Record(t, Verifying, schema, ref, 1), Record(u, Verifying, schema, ref2, 1);
      && SerialRun(c, ev)
      && Stands(Run(c, ev), map[t := t1, u := u1], map[], map[1 := Recording(t1, e), 2 := Recording(u1, f)])
  {
    hide Step, Admitted, Sound, Run, SerialRun, Stands;
    var one, two := Answer(true, schema, Some(e)), Answer(true, schema, Some(f));
    var a1, a2 := Advance(1, one), Advance(2, two);
    var t1, u1 := Record(t, Verifying, schema, ref, 1), Record(u, Verifying, schema, ref2, 1);
    var both := map[t := t1, u := u1];
    var probing, asking := map[1 := Probing(t1), 2 := Probing(u1)], map[1 := Recording(t1, e), 2 := Probing(u1)];
    ev := TwoGatesBegin(c, t, u, schema, ref, ref2, one, two);
    GateGathers(Run(c, ev), c, both, t1, probing, 1, one);
    assert probing[1 := Recording(t1, e)] == asking;
    ev := Onward(c, ev, [a1, a1, a1], both, map[], probing);
    GateGathers(Run(c, ev), c, both, u1, asking, 2, two);
    ev := Onward(c, ev, [a2, a2, a2], both, map[], asking);
    assert asking[2 := Recording(u1, f)] == map[1 := Recording(t1, e), 2 := Recording(u1, f)];
  }

  /** Two gates that both decide before either records: the arbiter guards the fingerprint only, so both
      tenants become Ready on one store location under two versions, though no operations of one tenant
      overlap. */
  lemma SerialGatesShareSecret(c: Config, t: string, u: string, schema: string, ref: SecretRef, ref2: SecretRef,
          e: Evidence, f: Evidence)
    returns (ev: seq<Event>)
    requires Admitted(t) && Admitted(u) && t != u && schema in c.supported && ref.storeRef != c.control.secretRefKey
    requires ref2.storeRef == ref.storeRef && ref2.version != ref.version
    requires Sound(c, t, e) && Sound(c, u, f) && e.Fingerprint() != f.Fingerprint()
    requires e.secretRefKey == ref.storeRef && f.secretRefKey == ref2.storeRef
    ensures SerialRun(c, ev)
    ensures var s := Run(c, ev).sys;
      && t in s.records && s.records[t].stage == Ready && s.records[t].association == ref && t !in s.disabled
      && u in s.records && s.records[u].stage == Ready && s.records[u].association == ref2 && u !in s.disabled
      && s.ledger == map[t := e, u := f] && !Distinctness.Apart(s.ledger)
  {
    hide Step, Admitted, Sound, Run, SerialRun, Stands, Distinctness.Apart;
    var one, two := Answer(true, schema, Some(e)), Answer(true, schema, Some(f));
    var a1, a2 := Advance(1, one), Advance(2, two);
    var t1, u1 := Record(t, Verifying, schema, ref, 1), Record(u, Verifying, schema, ref2, 1);
    var t2, u2 := Written(t1.(stage := Ready)), Written(u1.(stage := Ready));
    var both, half, ready := map[t := t1, u := u1], map[t := t2, u := u1], map[t := t2, u := u2];
    var recording := map[1 := Recording(t1, e), 2 := Recording(u1, f)];
    var noting := map[1 := Noting(t, [RoutingEnabled], Finish), 2 := Recording(u1, f)];
    ev := TwoGatesDecide(c, t, u, schema, ref, ref2, e, f);
    GateOpens(Run(c, ev), c, both, t1, map[], recording, 1, e, one);
    assert both[t := t2] == half && recording[1 := Noting(t, [RoutingEnabled], Finish)] == noting;
    ev := Onward(c, ev, [a1, a1], both, map[], recording);
    GateOpens(Run(c, ev), c, half, u1, map[t := e], noting, 2, f, two);
    assert half[u := u2] == ready && map[t := e][u := f] == map[t := e, u := f];
    ev := Onward(c, ev, [a2, a2], half, map[t := e], noting);
    EndsReady(Run(c, ev), c, t, u, ready, e, f, noting[2 := Noting(u, [RoutingEnabled], Finish)]);
  }

  /** Some more events of a serial run whose state is known. */
  lemma Onward(c: Config, events: seq<Event>, more: seq<Event>, records: map<string, Record>, ledger: Ledger,
          procs: map<int, Proc>)
    returns (longer: seq<Event>)
    requires SerialRun(c, events) && Stands(Run(c, events), records, ledger, procs) && 2 <= |more| <= 4
    requires more[0].Start? ==> forall p :: p in procs ==> TenantOf(procs[p]) != TenantOf(more[0].proc)
    requires forall i :: 1 <= i < |more| ==> !more[i].Start?
    ensures longer == events + more && SerialRun(c, longer)
    ensures |more| == 2 ==> Run(c, longer) == Step(Step(Run(c, events), c, more[0]), c, more[1])
    ensures |more| == 3 ==> Run(c, longer) == Step(Step(Step(Run(c, events), c, more[0]), c, more[1]), c, more[2])
    ensures |more| == 4 ==>
      Run(c, longer) == Step(Step(Step(Step(Run(c, events), c, more[0]), c, more[1]), c, more[2]), c, more[3])
  {
    hide Step, Run, SerialRun;
    longer := events + more;
    Extend(c, events, more);
    ExtendSerial(c, events, more);
  }

  lemma EndsReady(w: World, c: Config, t: string, u: string, records: map<string, Record>, e: Evidence, f: Evidence,
          procs: map<int, Proc>)
    requires Stands(w, records, map[t := e, u := f], procs) && t != u && t in records && u in records
    requires e.secretRefKey == f.secretRefKey
    ensures t in w.sys.records && w.sys.records[t] == records[t] && t !in w.sys.disabled
    ensures u in w.sys.records && w.sys.records[u] == records[u] && u !in w.sys.disabled
    ensures w.sys.ledger == map[t := e, u := f] && !Distinctness.Apart(w.sys.ledger)
  {
    assert Distinctness.Clashes(w.sys.ledger[t], w.sys.ledger[u]);
  }

  lemma EmptySerial(c: Config)
    ensures SerialRun(c, []) && Stands(Run(c, []), map[], map[], map[])
  {
  }
}
