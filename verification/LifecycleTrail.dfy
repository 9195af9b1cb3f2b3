/** What the audit trail tells of each tenant. A registration records itself before it writes, each in a
    commit of its own, so one that dies between the two leaves a record of a tenant nobody sees. */
module LifecycleTrail {
  import opened Prelude
  import opened Naming
  import opened Lifecycle
  import opened LifecycleSafety

  /** The stage the last transition of a tenant led to. */
  function LastStage(audit: seq<Entry>, t: string): Option<Stage> {
    if audit == [] then None
    else
      var last := audit[|audit| - 1];
      if last.tenantId == t && last.to.Some? then last.to else LastStage(audit[..|audit| - 1], t)
  }

  function Transitions(audit: seq<Entry>, t: string): nat {
    if audit == [] then 0
    else
      var last := audit[|audit| - 1];
      Transitions(audit[..|audit| - 1], t) + if last.tenantId == t && last.to.Some? then 1 else 0
  }

  predicate ChainedAt(audit: seq<Entry>, i: nat)
    requires i < |audit|
  {
    audit[i].to.Some? ==> audit[i].from == LastStage(audit[..i], audit[i].tenantId)
  }

  /** Each transition starts from the stage its tenant's previous one led to. */
  ghost predicate Chained(audit: seq<Entry>) {
    forall i :: 0 <= i < |audit| ==> ChainedAt(audit, i)
  }

  /** A tenant's trail ends in its stage and is as long as its version says; a missing tenant has none,
      or the record of a registration that has not written yet. */
  predicate TrailEnds(s: System, t: string) {
    var last, n := LastStage(s.audit, t), Transitions(s.audit, t);
    if t in s.records then last == Some(s.records[t].stage) && n == s.records[t].version + 1
    else (last == None && n == 0) || (last == Some(Registered) && n == 1)
  }

  ghost predicate Told(s: System) {
    Chained(s.audit) && forall t :: TrailEnds(s, t)
  }

  lemma AppendTrail(audit: seq<Entry>, e: Entry)
    ensures forall t ::
      LastStage(audit + [e], t) == if e.tenantId == t && e.to.Some? then e.to else LastStage(audit, t)
    ensures forall t ::
      Transitions(audit + [e], t) == Transitions(audit, t) + if e.tenantId == t && e.to.Some? then 1 else 0
    ensures Chained(audit + [e]) <==>
      Chained(audit) && (e.to.Some? ==> e.from == LastStage(audit, e.tenantId))
  {
    var longer := audit + [e];
    assert longer[..|longer| - 1] == audit == longer[..|audit|];
    forall i | 0 <= i < |audit| ensures ChainedAt(longer, i) == ChainedAt(audit, i) {
      assert longer[..i] == audit[..i];
    }
    assert ChainedAt(longer, |audit|) <==> (e.to.Some? ==> e.from == LastStage(audit, e.tenantId));
  }

  // ----- one registration's record -------------------------------------------------------------------

  /** Recording a registration continues the chain exactly when the tenant has no transition on it yet. */
  lemma AnnouncementChainsIff(s: System, r: Record)
    requires Chained(s.audit)
    ensures Chained(Apply(s, Announce(r)).audit) <==> LastStage(s.audit, r.id) == None
  {
    hide Chained, LastStage, Transitions;
    AppendTrail(s.audit, Entry(r.id, RegisterTenant, None, Some(Registered)));
  }

  /** A registration records itself only for a tenant of which the trail tells nothing. */
  predicate FirstAnnounced(w: World, e: Event) {
    e.Advance? && e.pid in w.procs && w.procs[e.pid].Announcing? ==>
      LastStage(w.sys.audit, w.procs[e.pid].r.id) == None
  }

  predicate AnnouncedOnce(c: Config, events: seq<Event>) {
    events != [] ==>
      && AnnouncedOnce(c, events[..|events| - 1])
      && FirstAnnounced(Run(c, events[..|events| - 1]), events[|events| - 1])
  }

  // ----- every run -----------------------------------------------------------------------------------

  /** A registration about to write has recorded itself, found no tenant, and is the only one. */
  ghost predicate PutsAnnounced(w: World) {
    && (forall p :: p in w.procs && w.procs[p].Putting? ==> Awaited(w.sys, w.procs[p].r.id))
    && (forall p, q :: p in w.procs && q in w.procs && p != q && w.procs[p].Putting? && w.procs[q].Putting? ==>
          w.procs[p].r.id != w.procs[q].r.id)
  }

  predicate Awaited(s: System, t: string) {
    t !in s.records && LastStage(s.audit, t) == Some(Registered)
  }

  /** Which steps record a registration or write one. */
  lemma RegistryEffects(s: System, c: Config, p: Proc, a: Answer)
    ensures var n := Advanced(s, c, p, a);
      && (n.effect.Announce? <==> p.Announcing?) && (n.effect.Put? <==> p.Putting?)
      && (n.effect.Announce? ==> n == Next(Announce(p.r), Some(Putting(p.r))))
      && (n.effect.Put? ==> n == Next(Put(p.r), None))
      && (n.proc.Some? && n.proc.value.Putting? ==> p.Announcing?)
  {
    hide Distinctness.Judged, Distinctness.Taken, Unmoved, StageIn, Admitted, HasAnomaly;
  }

  predicate InOrder(s: System, e: Effect) {
    && (e.Announce? ==> LastStage(s.audit, e.record.id) == None)
    && (e.Put? ==> LastStage(s.audit, e.record.id) == Some(Registered))
  }

  lemma EffectTold(s: System, c: Config, e: Effect)
    requires Told(s) && Lawful(s, c, e) && InOrder(s, e)
    ensures Told(Apply(s, e))
  {
    hide Chained, LastStage, Transitions, Sound, Distinctness.Taken;
    var s' := Apply(s, e);
    if Audited(e) {
      AppendTrail(s.audit, s'.audit[|s.audit|]);
    }
    assert e.Announce? || e.Put? ==> TrailEnds(s, e.record.id);
    assert e.Write? ==> TrailEnds(s, e.was.id);
    forall t ensures TrailEnds(s', t) {
      assert TrailEnds(s, t);
    }
  }

  /** Only its own transitions change what a tenant is awaited for. */
  lemma AwaitedStays(s: System, c: Config, e: Effect, t: string)
    requires Awaited(s, t) && Lawful(s, c, e) && InOrder(s, e) && (e.Put? ==> e.record.id != t)
    ensures Awaited(Apply(s, e), t)
  {
    hide LastStage, Transitions, Chained, Sound, Distinctness.Taken, Edge;
    if Audited(e) {
      AppendTrail(s.audit, Apply(s, e).audit[|s.audit|]);
    }
  }

  lemma AwaitedSince(s: System, r: Record)
    requires TrailEnds(s, r.id) && LastStage(s.audit, r.id) == None
    ensures Awaited(Apply(s, Announce(r)), r.id)
  {
    hide Transitions, Chained;
    AppendTrail(s.audit, Entry(r.id, RegisterTenant, None, Some(Registered)));
  }

  lemma StepTold(w: World, c: Config, e: Event)
    requires Inv(w, c) && Told(w.sys) && PutsAnnounced(w) && FirstAnnounced(w, e)
    ensures Unraced(w, e) && Told(Step(w, c, e).sys) && PutsAnnounced(Step(w, c, e))
  {
    hide SystemInv, ProcInv, Lawful, Apply, Advanced, Told, LastStage, Awaited;
    if e.Advance? && e.pid in w.procs {
      var p, n, w' := w.procs[e.pid], Advanced(w.sys, c, w.procs[e.pid], e.answer), Step(w, c, e);
      RegistryEffects(w.sys, c, p, e.answer);
      assert p.Putting? ==> Awaited(w.sys, p.r.id);
      MeansAwaited(w.sys);
      AdvanceLawful(w.sys, c, p, e.answer);
      EffectTold(w.sys, c, n.effect);
      forall q | q in w'.procs && w'.procs[q].Putting? ensures Awaited(w'.sys, w'.procs[q].r.id) {
        if q == e.pid {
          TrailOf(w.sys, p.r.id);
          AwaitedSince(w.sys, p.r);
        } else {
          AwaitedStays(w.sys, c, n.effect, w.procs[q].r.id);
        }
      }
    }
  }

  lemma MeansAwaited(s: System)
    ensures forall t :: Awaited(s, t) <==> t !in s.records && LastStage(s.audit, t) == Some(Registered)
  {
  }

  lemma TrailOf(s: System, t: string)
    requires Told(s)
    ensures TrailEnds(s, t)
  {
  }

  /** Over any interleaving in which no tenant's registration is recorded twice: each tenant's
      transitions chain and end in its stage, its version counts its writes, and every registration
      still finds its tenant missing when it writes. */
  lemma {:induction false} EveryTrailIsTold(c: Config, events: seq<Event>)
    requires AnnouncedOnce(c, events)
    ensures UnracedRun(c, events) && Told(Run(c, events).sys) && PutsAnnounced(Run(c, events))
  {
    hide Inv, Step, Unraced, Told, PutsAnnounced, FirstAnnounced;
    if events == [] {
      StartsTold();
    } else {
      var init := events[..|events| - 1];
      EveryTrailIsTold(c, init);
      EveryRunIsLawful(c, init);
      StepTold(Run(c, init), c, events[|events| - 1]);
    }
  }

  lemma StartsTold()
    ensures Told(START.sys) && PutsAnnounced(START)
  {
  }

  /** The audit trail of a run chains exactly when no tenant's registration is recorded twice. */
  lemma {:induction false} TrailChainsIff(c: Config, events: seq<Event>)
    ensures Chained(Run(c, events).sys.audit) <==> AnnouncedOnce(c, events)
  {
    hide Step, Told, Chained, PutsAnnounced, FirstAnnounced;
    if AnnouncedOnce(c, events) {
      EveryTrailIsTold(c, events);
      ToldChains(Run(c, events).sys);
    } else {
      var init, e := events[..|events| - 1], events[|events| - 1];
      TrailChainsIff(c, init);
      StepUnchains(Run(c, init), c, e);
    }
  }

  lemma ToldChains(s: System)
    requires Told(s)
    ensures Chained(s.audit)
  {
  }

  /** No step mends a broken chain, and one that records a registration again breaks it. */
  lemma StepUnchains(w: World, c: Config, e: Event)
    requires !(Chained(w.sys.audit) && FirstAnnounced(w, e))
    ensures !Chained(Step(w, c, e).sys.audit)
  {
    hide Chained, LastStage, Transitions, Advanced;
    if e.Advance? && e.pid in w.procs {
      var p := w.procs[e.pid];
      RegistryEffects(w.sys, c, p, e.answer);
      var audit, audit' := w.sys.audit, Step(w, c, e).sys.audit;
      if Audited(Advanced(w.sys, c, p, e.answer).effect) {
        AppendTrail(audit, audit'[|audit|]);
      }
    }
  }

  // ----- registrations that die between their record and their write -----------------------------------

  predicate PutsSurvive(w: World, e: Event) {
    e.Crash? && e.pid in w.procs ==> !w.procs[e.pid].Putting?
  }

  predicate PutsSurviveRun(c: Config, events: seq<Event>) {
    events != [] ==>
      && PutsSurviveRun(c, events[..|events| - 1])
      && PutsSurvive(Run(c, events[..|events| - 1]), events[|events| - 1])
  }

  predicate Writes(w: World, t: string) {
    exists p :: p in w.procs && w.procs[p].Putting? && w.procs[p].r.id == t
  }

  /** A missing tenant on the trail has a registration about to write it. */
  ghost predicate Attended(w: World) {
    forall t :: t !in w.sys.records && LastStage(w.sys.audit, t) != None ==> Writes(w, t)
  }

  lemma AloneIsFirst(w: World, c: Config, e: Event)
    requires SerialInv(w, c) && Attended(w)
    ensures FirstAnnounced(w, e)
  {
    hide Inv, ReadyIsEvidenced, LastStage;
    if e.Advance? && e.pid in w.procs && w.procs[e.pid].Announcing? {
      assert Current(w.sys, w.procs[e.pid]);
    }
  }

  lemma StaysMissing(s: System, c: Config, e: Effect, t: string)
    requires Lawful(s, c, e) && t !in Apply(s, e).records && LastStage(Apply(s, e).audit, t) != None
    ensures t !in s.records && !(e.Put? && e.record.id == t)
    ensures LastStage(s.audit, t) != None || (e.Announce? && e.record.id == t)
  {
    hide LastStage, Transitions, Chained, Sound, Distinctness.Taken, Edge;
    if Audited(e) {
      AppendTrail(s.audit, Apply(s, e).audit[|s.audit|]);
    }
  }

  lemma AttendedStep(w: World, c: Config, e: Event)
    requires Inv(w, c) && Attended(w) && Unraced(w, e) && PutsSurvive(w, e)
    ensures Attended(Step(w, c, e))
  {
    hide SystemInv, ProcInv, Lawful, Apply, Advanced, LastStage;
    var w' := Step(w, c, e);
    forall t | t !in w'.sys.records && LastStage(w'.sys.audit, t) != None ensures Writes(w', t) {
      if e.Advance? && e.pid in w.procs {
        var p, n := w.procs[e.pid], Advanced(w.sys, c, w.procs[e.pid], e.answer);
        RegistryEffects(w.sys, c, p, e.answer);
        AdvanceLawful(w.sys, c, p, e.answer);
        StaysMissing(w.sys, c, n.effect, t);
        if p.Announcing? && p.r.id == t {
          assert w'.procs[e.pid] == Putting(p.r);
        } else {
          var q :| q in w.procs && w.procs[q].Putting? && w.procs[q].r.id == t;
          assert q in w'.procs && w'.procs[q] == w.procs[q];
        }
      } else {
        var q :| q in w.procs && w.procs[q].Putting? && w.procs[q].r.id == t;
        assert q in w'.procs && w'.procs[q] == w.procs[q];
      }
    }
  }

  /** When operations of one tenant do not overlap and no registration dies between its record and its
      write, no tenant's registration is recorded twice, so every trail is told. */
  lemma {:induction false} SerialTrailIsTold(c: Config, events: seq<Event>)
    requires SerialRun(c, events) && PutsSurviveRun(c, events)
    ensures AnnouncedOnce(c, events) && Attended(Run(c, events)) && Told(Run(c, events).sys)
  {
    hide SerialInv, Step, StartsSerial, FirstAnnounced, Attended, Told, PutsAnnounced, PutsSurvive;
    if events == [] {
      StartsAttended();
    } else {
      var init, e := events[..|events| - 1], events[|events| - 1];
      SerialTrailIsTold(c, init);
      SerialRunKeeps(c, init);
      AloneIsFirst(Run(c, init), c, e);
      SerialStep(Run(c, init), c, e);
      SerialIsLawful(Run(c, init), c);
      AttendedStep(Run(c, init), c, e);
    }
    EveryTrailIsTold(c, events);
  }

  lemma StartsAttended()
    ensures Attended(START)
  {
  }

  lemma SerialIsLawful(w: World, c: Config)
    requires SerialInv(w, c)
    ensures Inv(w, c)
  {
  }

  /** A registration that dies between its record and its write, and is repeated: no operations overlap,
      the tenant is missing both times, and the trail of the tenant it registers does not chain. */
  lemma DiedRegistrationUnchains(c: Config, t: string, schema: string, ref: SecretRef)
    requires Admitted(t)
    ensures var a, p := Answer(false, "", None), Registering(t, schema, ref);
      var events := [Start(0, p), Advance(0, a), Advance(0, a), Crash(0),
                     Start(0, p), Advance(0, a), Advance(0, a), Advance(0, a)];
      && SerialRun(c, events) && !Chained(Run(c, events).sys.audit)
      && Run(c, events[..5]).sys.records == map[]
      && Run(c, events).sys.records == map[t := Record(t, Registered, schema, ref, 0)]
  {
    hide Step, Run, SerialRun, Chained, LastStage;
    var a, p := Answer(false, "", None), Registering(t, schema, ref);
    var events := [Start(0, p), Advance(0, a), Advance(0, a), Crash(0),
                   Start(0, p), Advance(0, a), Advance(0, a), Advance(0, a)];
    EmptyRun(c);
    EmptySerial(c);
    assert [] + events[..4] == events[..4] && events[..4] + events[4..] == events;
    assert events[..4] + events[4..5] == events[..5];
    Extend(c, [], events[..4]);
    ExtendSerial(c, [], events[..4]);
    DiesUnseen(c, t, schema, ref, a);
    Extend(c, events[..4], events[4..]);
    Extend(c, events[..4], events[4..5]);
    ExtendSerial(c, events[..4], events[4..]);
    RegistersAgain(Run(c, events[..4]), c, t, schema, ref, a);
  }

  lemma DiesUnseen(c: Config, t: string, schema: string, ref: SecretRef, a: Answer)
    requires Admitted(t)
    ensures var p := Registering(t, schema, ref);
      Step(Step(Step(Step(START, c, Start(0, p)), c, Advance(0, a)), c, Advance(0, a)), c, Crash(0)) == Unseen(t)
  {
    var p, r := Registering(t, schema, ref), Record(t, Registered, schema, ref, 0);
    var w2 := Step(Step(START, c, Start(0, p)), c, Advance(0, a));
    assert w2 == World(START.sys, map[0 := Announcing(r)]);
    var w3 := Step(w2, c, Advance(0, a));
    assert w3.procs == map[0 := Putting(r)];
  }

  function Announced(t: string): Entry { Entry(t, RegisterTenant, None, Some(Registered)) }

  function Unseen(t: string): World { World(System(map[], [Announced(t)], map[], {}), map[]) }

  lemma RegistersAgain(w: World, c: Config, t: string, schema: string, ref: SecretRef, a: Answer)
    requires w == Unseen(t) && Admitted(t)
    ensures var w1 := Step(w, c, Start(0, Registering(t, schema, ref)));
      var w4 := Step(Step(Step(w1, c, Advance(0, a)), c, Advance(0, a)), c, Advance(0, a));
      && w1.sys == w.sys && !Chained(w4.sys.audit)
      && w4.sys.records == map[t := Record(t, Registered, schema, ref, 0)]
  {
    hide Chained;
    var r := Record(t, Registered, schema, ref, 0);
    var w2 := Step(Step(w, c, Start(0, Registering(t, schema, ref))), c, Advance(0, a));
    assert w2 == World(w.sys, map[0 := Announcing(r)]);
    var w3 := Step(w2, c, Advance(0, a));
    assert w3.procs == map[0 := Putting(r)] && w3.sys.audit == w.sys.audit + [Announced(t)];
    AppendTrail(w.sys.audit, Announced(t));
    assert w.sys.audit[..0] == [];
    assert LastStage(w.sys.audit, t) == Some(Registered);
  }
}
