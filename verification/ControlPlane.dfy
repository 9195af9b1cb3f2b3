/** The control plane's services as they run: each writes the shared store and ledger in place, one
    port call at a time, with other callers acting between any two calls. */
module ControlPlane {
  import opened Prelude
  import opened Naming
  import opened Lifecycle
  import Distinctness

  /** The tenant table and the append-only audit trail. */
  class InMemoryControlStore {
    var tenants: map<string, Record>
    var audit: seq<Entry>

    constructor ()
      ensures tenants == map[] && audit == []
    {
      tenants, audit := map[], [];
    }

    method GetTenant(t: string) returns (r: Option<Record>)
      ensures r == if t in tenants then Some(tenants[t]) else None
    {
      return if t in tenants then Some(tenants[t]) else None;
    }

    method PutTenant(r: Record)
      modifies `tenants
      ensures tenants == old(tenants)[r.id := r]
    {
      tenants := tenants[r.id := r];
    }

    /** A stale or vanished record is refused and nothing is written. */
    method CompareAndSwapTenant(updated: Record, expectedVersion: int) returns (persisted: Option<Record>)
      modifies `tenants
      ensures persisted == if updated.id in old(tenants) && old(tenants)[updated.id].version == expectedVersion
                           then Some(updated.(version := expectedVersion + 1)) else None
      ensures tenants == if persisted.Some? then old(tenants)[updated.id := persisted.value] else old(tenants)
    {
      if updated.id !in tenants || tenants[updated.id].version != expectedVersion {
        return None;
      }
      persisted := Some(updated.(version := expectedVersion + 1));
      tenants := tenants[updated.id := persisted.value];
    }

    method AppendAudit(e: Entry)
      modifies `audit
      ensures audit == old(audit) + [e]
    {
      audit := audit + [e];
    }
  }

  // ----- rivals ------------------------------------------------------------------------------------

  function Play(w: World, c: Config, events: seq<Event>): World {
    if events == [] then w else Step(Play(w, c, events[..|events| - 1]), c, events[|events| - 1])
  }

  /** `n` turns of process `pid`, each after whatever its rivals do then. */
  function Woven(others: nat -> seq<Event>, pid: int, a: Answer, n: nat): seq<Event> {
    if n == 0 then [] else Woven(others, pid, a, n - 1) + others(n - 1) + [Advance(pid, a)]
  }

  predicate Rivals(events: seq<Event>, pid: int) { forall i :: 0 <= i < |events| ==> events[i].pid != pid }

  function With(w: World, pid: int, p: Option<Proc>): World {
    World(w.sys, if p.Some? then w.procs[pid := p.value] else w.procs - {pid})
  }

  lemma {:induction false} PlayConcat(w: World, c: Config, a: seq<Event>, b: seq<Event>)
    ensures Play(w, c, a + b) == Play(Play(w, c, a), c, b)
  {
    if b == [] {
      assert a + b == a;
    } else {
      assert (a + b)[..|a + b| - 1] == a + b[..|b| - 1];
      PlayConcat(w, c, a, b[..|b| - 1]);
    }
  }

  /** Rivals neither see nor touch the process itself. */
  lemma RivalStep(w: World, c: Config, e: Event, pid: int, p: Option<Proc>)
    requires e.pid != pid
    ensures Step(With(w, pid, p), c, e) == With(Step(w, c, e), pid, p)
  {
    hide Advanced, Apply;
    assert Step(With(w, pid, p), c, e).procs == With(Step(w, c, e), pid, p).procs;
  }

  lemma {:induction false} RivalsPlay(w: World, c: Config, events: seq<Event>, pid: int, p: Option<Proc>)
    requires Rivals(events, pid)
    ensures Play(With(w, pid, p), c, events) == With(Play(w, c, events), pid, p)
  {
    hide Step, With;
    if events != [] {
      RivalsPlay(w, c, events[..|events| - 1], pid, p);
      RivalStep(Play(w, c, events[..|events| - 1]), c, events[|events| - 1], pid, p);
    }
  }

  /** What a process does next does not depend on who was disabled. */
  lemma DisabledUnread(s: System, d: set<string>, c: Config, p: Proc, a: Answer)
    ensures Advanced(s.(disabled := d), c, p, a) == Advanced(s, c, p, a)
  {
    hide Distinctness.Judged, Distinctness.Taken, HasAnomaly, Admitted;
  }

  /** A write is to the record it read, and evidence is recorded only where its fingerprint is free. */
  predicate Fits(s: System, e: Effect) {
    && (e.Write? ==> e.updated.id == e.was.id)
    && (e.Remember? ==> !Distinctness.Taken(s.ledger, e.t, e.evidence))
  }

  lemma AdvancedFits(s: System, c: Config, p: Proc, a: Answer)
    ensures Fits(s, Advanced(s, c, p, a).effect)
  {
    hide Distinctness.Judged, Distinctness.Taken, HasAnomaly, Admitted;
  }

  lemma VerifiedHasEvidence(t: string, candidate: Option<Evidence>, intended: string, control: Evidence,
          inventory: Ledger)
    requires Distinctness.Judged(t, candidate, intended, control, inventory).result.Verified?
    ensures candidate.Some?
  {
  }

  // The services below are verified against each next step of their operation alone: these lemmas read
  // the branches of `Advanced` back one by one, so that it can stay hidden there.

  lemma AfterRegistering(s: System, c: Config, t: string, schema: string, association: SecretRef, a: Answer)
    ensures Advanced(s, c, Registering(t, schema, association), a) ==
      Next(Nothing, if !Admitted(t) || t in s.records then None
                    else Some(Announcing(Record(t, Registered, schema, association, 0))))
  {
  }

  lemma AfterAnnouncing(s: System, c: Config, r: Record, a: Answer)
    ensures Advanced(s, c, Announcing(r), a) == Next(Announce(r), Some(Putting(r)))
    ensures Advanced(s, c, Putting(r), a) == Next(Put(r), None)
    ensures Apply(s, Announce(r)) == s.(audit := s.audit + [Entry(r.id, Action.RegisterTenant, None, Some(Registered))])
    ensures Apply(s, Put(r)) == s.(records := s.records[r.id := r])
  {
  }

  lemma AfterReading(s: System, c: Config, t: string, move: Move, a: Answer)
    ensures Advanced(s, c, Reading(t, move), a) ==
      Next(Nothing, if StageIn(s, t, AllowedFrom(move)) then Some(Moving(s.records[t], move)) else None)
  {
  }

  lemma AfterMoving(s: System, c: Config, r: Record, move: Move, a: Answer)
    ensures Advanced(s, c, Moving(r, move), a) ==
      Next(if Unmoved(s, r) then Write(r, r.(stage := Target(move)), MoveAction(move)) else Nothing, None)
  {
  }

  lemma AfterEntering(s: System, c: Config, t: string, a: Answer)
    ensures Advanced(s, c, Entering(t), a) ==
      if t !in s.records || s.records[t].stage in {Decommissioned, Suspended, Quarantined} then Next(Nothing, None)
      else Next(Nothing, Some(Starting(s.records[t], false)))
  {
  }

  lemma AfterStarting(s: System, c: Config, r: Record, again: bool, a: Answer)
    ensures Advanced(s, c, Starting(r, again), a) ==
      if Unmoved(s, r) then
        Next(Write(r, r.(stage := Verifying), VerificationStarted), Some(Probing(Written(r.(stage := Verifying)))))
      else Next(Nothing, if again then None else Some(Rereading(r.id)))
  {
  }

  lemma AfterRereading(s: System, c: Config, t: string, a: Answer)
    ensures Advanced(s, c, Rereading(t), a) ==
      Next(Nothing, if t in s.records && s.records[t].stage in {Verifying, Provisioning}
           then Some(Starting(s.records[t], true)) else None)
  {
  }

  /** Where the probe's answer leads. */
  function AfterProbe(r: Record, c: Config, a: Answer): Proc {
    if !a.reachable then Failing(r, false, Action.VerificationIncomplete)
    else if a.observedSchema !in c.supported || a.observedSchema != r.schema then
      Failing(r, false, Action.VerificationFailed)
    else if r.association.storeRef == c.control.secretRefKey then Failing(r, true, Action.VerificationFailed)
    else Gathering(r)
  }

  lemma AfterProbing(s: System, c: Config, r: Record, a: Answer)
    ensures Advanced(s, c, Probing(r), a) == Next(Nothing, Some(AfterProbe(r, c, a)))
    ensures Advanced(s, c, Gathering(r), a) == Next(Nothing, Some(Deciding(r, a.evidence)))
  {
  }

  lemma AfterDeciding(s: System, c: Config, r: Record, candidate: Option<Evidence>, a: Answer)
    ensures var judged := Distinctness.Judged(r.id, candidate, TenantDatabaseName(r.id), c.control, s.ledger - {r.id});
      Advanced(s, c, Deciding(r, candidate), a) ==
        if judged.result.Verified? then (VerifiedHasEvidence(r.id, candidate, TenantDatabaseName(r.id), c.control,
                                           s.ledger - {r.id}); Next(Nothing, Some(Recording(r, candidate.value))))
        else if judged.result.IsolationAnomaly? then
          Next(Nothing, Some(Dropping(r, true, Action.VerificationFailed)))
        else
          Next(Nothing, Some(Dropping(r, false, if judged.result.VerificationIncomplete?
                                                then Action.VerificationIncomplete else Action.VerificationFailed)))
  {
    hide Distinctness.Judged;
    if Distinctness.Judged(r.id, candidate, TenantDatabaseName(r.id), c.control, s.ledger - {r.id}).result.Verified? {
      VerifiedHasEvidence(r.id, candidate, TenantDatabaseName(r.id), c.control, s.ledger - {r.id});
    }
  }

  lemma AfterRecording(s: System, c: Config, r: Record, e: Evidence, a: Answer)
    ensures Advanced(s, c, Recording(r, e), a) ==
      if Distinctness.Taken(s.ledger, r.id, e) then Next(Nothing, Some(Failing(r, true, Action.VerificationFailed)))
      else Next(Remember(r.id, e), Some(Opening(r)))
  {
  }

  lemma AfterOpening(s: System, c: Config, r: Record, a: Answer)
    ensures Advanced(s, c, Opening(r), a) ==
      if Unmoved(s, r)
        then Next(Write(r, r.(stage := Ready), VerificationPassed), Some(Noting(r.id, [RoutingEnabled], Finish)))
      else Next(Nothing, None)
  {
  }

  lemma AfterFailing(s: System, c: Config, r: Record, anomaly: bool, action: Action, a: Answer)
    ensures Advanced(s, c, Failing(r, anomaly, action), a) == Next(Forget(r.id), Some(Closing(r, anomaly, action)))
    ensures Advanced(s, c, Dropping(r, anomaly, action), a) == Next(Forget(r.id), Some(Failing(r, anomaly, action)))
  {
  }

  lemma AfterClosing(s: System, c: Config, r: Record, anomaly: bool, action: Action, a: Answer)
    ensures Advanced(s, c, Closing(r, anomaly, action), a) ==
      if !Unmoved(s, r) then Next(Nothing, None)
      else if anomaly then
        Next(Write(r, r.(stage := Quarantined), action),
             Some(Noting(r.id, [TenantQuarantined, Action.IsolationAnomaly], Finish)))
      else Next(Write(r, r.(stage := Failed), action), None)
  {
  }

  lemma AfterReassociating(s: System, c: Config, t: string, association: SecretRef, a: Answer)
    ensures Advanced(s, c, Reassociating(t, association), a) ==
      Next(Nothing, if t !in s.records || s.records[t].stage in {Quarantined, Decommissioned} then None
                    else Some(Repointing(s.records[t], association)))
  {
  }

  lemma AfterRepointing(s: System, c: Config, r: Record, association: SecretRef, a: Answer)
    ensures Advanced(s, c, Repointing(r, association), a) ==
      if !Unmoved(s, r) then Next(Nothing, None)
      else Next(Write(r, r.(stage := Verifying, association := association), DatabaseAssociated),
                Some(Noting(r.id, [SecretReferenceRegistered, RegistryMappingChanged, RouterCacheInvalidated],
                            ThenVerify)))
  {
  }

  lemma AfterRecovering(s: System, c: Config, t: string, a: Answer)
    ensures Advanced(s, c, Recovering(t), a) ==
      Next(Nothing, if t in s.records && s.records[t].stage == Failed
           then Some(Noting(t, [OnboardingRecoveryStarted], ThenClassify)) else None)
    ensures Advanced(s, c, Classifying(t), a) ==
      Next(Nothing, Some(if HasAnomaly(s.audit, t) then Reading(t, ToQuarantined) else Entering(t)))
  {
  }

  lemma AfterNoting(s: System, c: Config, t: string, actions: seq<Action>, after: After, a: Answer)
    ensures Advanced(s, c, Noting(t, actions, after), a) ==
      if actions != [] then Next(Note(t, actions[0]), Some(Noting(t, actions[1..], after)))
      else
        match after
        case Finish => Next(Nothing, None)
        case ThenVerify => Next(Nothing, Some(Entering(t)))
        case ThenClassify => Next(Nothing, Some(Classifying(t)))
    ensures actions != [] ==>
      Apply(s, Note(t, actions[0])) == s.(audit := s.audit + [Entry(t, actions[0], None, None)])
  {
  }

  /** An anomaly on the trail stays, and noting one puts it there. */
  lemma Noted(was: seq<Entry>, audit: seq<Entry>, t: string, action: Action)
    requires was <= audit
    ensures HasAnomaly(was, t) ==> HasAnomaly(audit, t)
    ensures HasAnomaly(was, t) || action == Action.IsolationAnomaly ==>
      HasAnomaly(audit + [Entry(t, action, None, None)], t)
  {
    var longer := audit + [Entry(t, action, None, None)];
    assert longer[|audit|] == Entry(t, action, None, None);
    if HasAnomaly(was, t) {
      var i :| 0 <= i < |was| && was[i].tenantId == t && was[i].action == Action.IsolationAnomaly;
      assert audit[i] == was[i] && longer[i] == was[i];
    }
  }

  lemma TwoMore(did: seq<Effect>, one: Effect, two: Effect)
    ensures did + [one] + [two] == did + [one, two]
  {
  }

  /** Audit events, one after the other. */
  function Notes(t: string, actions: seq<Action>): seq<Effect> {
    seq(|actions|, i requires 0 <= i < |actions| => Note(t, actions[i]))
  }

  lemma NotesSnoc(t: string, actions: seq<Action>, action: Action)
    ensures Notes(t, actions + [action]) == Notes(t, actions) + [Note(t, action)]
  {
  }

  lemma OpeningMarked(did: seq<Effect>, t: string, a: Effect)
    ensures did + [a] + Notes(t, [RoutingEnabled]) + [Nothing] == did + [a, Note(t, RoutingEnabled), Nothing]
  {
  }

  /** Evidence recorded, and then the tenant opened or the write lost. */
  lemma OpensFully(before: seq<Effect>, mid: seq<Effect>, did: seq<Effect>, r: Record, e: Evidence, won: bool)
    requires mid == before + [Remember(r.id, e)] && r.stage == Verifying
    requires did == mid + if won then
      [Write(r, r.(stage := Ready), VerificationPassed), Note(r.id, RoutingEnabled), Nothing] else [Nothing]
    ensures won ==> Closed(did, |before|, r.id, Distinctness.Verified)
    ensures did == before + if won then
      [Remember(r.id, e), Write(r, r.(stage := Ready), VerificationPassed), Note(r.id, RoutingEnabled), Nothing]
      else [Remember(r.id, e), Nothing]
  {
    hide Closed;
    if won {
      OpenedCloses(before, r, Remember(r.id, e));
      assert did == before + [Remember(r.id, e), Write(r, r.(stage := Ready), VerificationPassed),
                              Note(r.id, RoutingEnabled), Nothing];
    }
  }

  lemma QuietOpening(before: seq<Effect>, t: string, e: Evidence)
    ensures Quiet(before + [Remember(t, e), Nothing], |before|, t)
  {
  }

  lemma DisablingMarked(t: string)
    ensures [] + [Disable(t)] + Notes(t, [RoutingDisabled, RouterCacheInvalidated]) + [Nothing]
      == [Disable(t), Note(t, RoutingDisabled), Note(t, RouterCacheInvalidated), Nothing]
  {
  }

  lemma HoldMarked(did: seq<Effect>, t: string, a: Effect, b: Effect)
    ensures did + [a, b] + Notes(t, [TenantQuarantined, Action.IsolationAnomaly]) + [Nothing]
      == did + [a, b, Note(t, TenantQuarantined), Note(t, Action.IsolationAnomaly), Nothing]
  {
  }

  /** The registry's moves, stage by stage. */
  predicate MayMove(from: Stage, move: Move) {
    match move
    case ToProvisioning => from == Registered
    case ToSuspended => from == Ready
    case ToDecommissioned =>
      from == Registered || from == Provisioning || from == Suspended || from == Stage.Failed || from == Quarantined
    case ToQuarantined => from == Provisioning || from == Stage.Failed
  }

  /** What a move writes and calls itself. */
  predicate Moves(was: Record, e: Effect, move: Move) {
    && e.Write? && e.was == was
    && match move
       case ToProvisioning => e.updated == was.(stage := Provisioning) && e.action == MarkProvisioning
       case ToSuspended => e.updated == was.(stage := Suspended) && e.action == SuspendTenant
       case ToDecommissioned => e.updated == was.(stage := Decommissioned) && e.action == DecommissionTenant
       case ToQuarantined => e.updated == was.(stage := Quarantined) && e.action == QuarantineTenant
  }

  /** The two turns of a move from the n-th effect on: nothing yet, and then a write from a stage that
      allows it, or nothing when the record has moved. */
  predicate MovedFrom(did: seq<Effect>, n: nat, was: Record, t: string, move: Move, r: Option<Record>) {
    && |did| == n + 2 && did[n] == Nothing && was.id == t && MayMove(was.stage, move)
    && (if r.Some? then Moves(was, did[n + 1], move) && r.value == Written(did[n + 1].updated)
        else did[n + 1] == Nothing)
  }

  /** The tables of allowed stages, target stages and action names say this. */
  lemma MovesAre(from: Stage, move: Move)
    ensures from in AllowedFrom(move) <==> MayMove(from, move)
    ensures from == Target(move) ==> !MayMove(from, move)
    ensures forall was: Record :: Moves(was, Write(was, was.(stage := Target(move)), MoveAction(move)), move)
  {
  }

  /** Recording and dropping evidence, as the ledger does it. */
  lemma LedgerEffects(s: System, t: string, e: Evidence)
    ensures Apply(s, Forget(t)) == s.(ledger := s.ledger - {t})
    ensures Apply(s, Remember(t, e)) == s.(ledger := s.ledger[t := e], disabled := s.disabled - {t})
    ensures Apply(s, Disable(t)) == s.(ledger := s.ledger - {t}, disabled := s.disabled + {t})
  {
  }

  lemma NothingChanges()
    ensures forall s :: Apply(s, Nothing) == s
  {
  }

  /** A call in a world that a history led to is that history, the call's start and what it wove. */
  lemma {:induction false} CallExtendsRun(c: Config, history: seq<Event>, pid: int, p: Proc, events: seq<Event>)
    requires pid !in Run(c, history).procs && Enterable(p)
    ensures Play(World(Run(c, history).sys, Run(c, history).procs[pid := p]), c, events)
      == Run(c, history + [Start(pid, p)] + events)
  {
    hide Advanced, Apply;
    var longer := history + [Start(pid, p)];
    if events == [] {
      assert longer[..|longer| - 1] == history && longer + events == longer;
    } else {
      CallExtendsRun(c, history, pid, p, events[..|events| - 1]);
      assert (longer + events)[..|longer + events| - 1] == longer + events[..|events| - 1];
    }
  }

  // ----- what one gate run does ------------------------------------------------------------------------

  /** An effect that neither ends a gate run of the tenant nor marks an anomaly. */
  predicate Silent(e: Effect, t: string) {
    && !(e.Write? && e.updated.id == t && e.updated.stage in {Ready, Stage.Failed, Quarantined})
    && e != Note(t, Action.IsolationAnomaly)
  }

  predicate Quiet(did: seq<Effect>, n: nat, t: string) { forall i :: n <= i < |did| ==> Silent(did[i], t) }

  /** Since the n-th effect one write took the tenant from Verifying to Ready, to Quarantined or to Failed, as
      the verdict says; an anomaly was noted after it, exactly when the verdict is one. */
  ghost predicate Closed(did: seq<Effect>, n: nat, t: string, verdict: Distinctness.Verdict) {
    exists k :: n <= k < |did| && ClosedAt(did, n, k, t, verdict)
  }

  ghost predicate ClosedAt(did: seq<Effect>, n: nat, k: nat, t: string, verdict: Distinctness.Verdict)
    requires n <= k < |did|
  {
    && did[k].Write? && did[k].was.stage == Verifying && did[k].updated.id == t
    && did[k].action == (if verdict == Distinctness.Verified then VerificationPassed
                         else if verdict == Distinctness.VerificationIncomplete then Action.VerificationIncomplete
                         else Action.VerificationFailed)
    && (verdict == Distinctness.Verified ==> did[k].updated.stage == Ready)
    && (verdict == Distinctness.IsolationAnomaly ==> did[k].updated.stage == Quarantined)
    && (verdict == Distinctness.VerificationFailed ==> did[k].updated.stage == Stage.Failed)
    && (verdict == Distinctness.VerificationIncomplete ==> did[k].updated.stage == Stage.Failed)
    && (forall i :: n <= i < k ==> Silent(did[i], t))
    && (forall i :: k < i < |did| && did[i] != Note(t, Action.IsolationAnomaly) ==> Silent(did[i], t))
    && (Note(t, Action.IsolationAnomaly) in did[k..] <==> verdict == Distinctness.IsolationAnomaly)
  }

  /** A re-association writes the new reference with the stage reset to Verifying, and then tells. */
  predicate Repointed(did: seq<Effect>, t: string, association: SecretRef) {
    && |did| >= 6 && did[0] == Nothing
    && did[1].Write? && did[1].was.id == t && did[1].action == DatabaseAssociated
    && did[1].updated == did[1].was.(stage := Verifying, association := association)
    && did[2] == Note(t, SecretReferenceRegistered) && did[3] == Note(t, RegistryMappingChanged)
    && did[4] == Note(t, RouterCacheInvalidated) && did[5] == Nothing
  }

  /** A recovery is announced before anything is decided. */
  predicate Announces(did: seq<Effect>, t: string) {
    && |did| >= 4 && did[0] == Nothing && did[1] == Note(t, OnboardingRecoveryStarted)
    && did[2] == Nothing && did[3] == Nothing
  }

  lemma AnnouncesFirst(did: seq<Effect>, t: string)
    requires did == [] + [Nothing] + Notes(t, [OnboardingRecoveryStarted]) + [Nothing]
    ensures |did| == 3 && Announces(did + [Nothing], t) && forall i :: 0 <= i < 3 ==> !did[i].Write?
  {
  }

  lemma AnnouncesStill(mid: seq<Effect>, did: seq<Effect>, t: string)
    requires Announces(mid, t) && mid <= did
    ensures Announces(did, t)
  {
  }

  /** A hold by hand writes Quarantined and nothing else. */
  lemma MoveHolds(mid: seq<Effect>, did: seq<Effect>, t: string, held: Option<Record>)
    requires did == mid + [Nothing] || (mid <= did && exists was :: MovedFrom(did, |mid|, was, t, ToQuarantined, held))
    ensures mid <= did && forall i :: |mid| <= i < |did| && did[i].Write? ==> did[i].updated.stage == Quarantined
  {
  }

  lemma WritesSince(mid: seq<Effect>, did: seq<Effect>)
    requires |mid| == 3 && mid <= did && forall i :: 0 <= i < 3 ==> !mid[i].Write?
    ensures forall i :: 0 <= i < |did| && did[i].Write? ==> i >= 3
  {
    assert forall i :: 0 <= i < 3 ==> did[i] == mid[i];
  }

  lemma RepointingDone(did: seq<Effect>, r: Record, association: SecretRef)
    requires did == [] + [Nothing]
                    + [Write(r, r.(stage := Verifying, association := association), DatabaseAssociated)]
                    + Notes(r.id, [SecretReferenceRegistered, RegistryMappingChanged, RouterCacheInvalidated])
                        + [Nothing]
    ensures Repointed(did, r.id, association) && |did| == 6
  {
  }

  lemma RepointedStays(mid: seq<Effect>, did: seq<Effect>, t: string, association: SecretRef)
    requires Repointed(mid, t, association) && mid <= did
    ensures Repointed(did, t, association)
  {
  }

  lemma QuietOne(did: seq<Effect>, t: string, e: Effect)
    requires Silent(e, t)
    ensures Quiet(did, |did|, t) && Quiet(did + [e], |did|, t)
  {
  }

  lemma QuietSnoc(did: seq<Effect>, n: nat, t: string, e: Effect)
    requires Quiet(did, n, t) && Silent(e, t)
    ensures Quiet(did + [e], n, t)
  {
  }

  /** A run that was quiet so far closes as its rest does. */
  lemma ClosedEarlier(mid: seq<Effect>, did: seq<Effect>, n: nat, t: string, verdict: Distinctness.Verdict)
    requires n <= |mid| && mid <= did && Quiet(mid, n, t)
    ensures Closed(did, |mid|, t, verdict) ==> Closed(did, n, t, verdict)
    ensures Quiet(did, |mid|, t) ==> Quiet(did, n, t)
  {
    hide Silent;
    if Closed(did, |mid|, t, verdict) {
      var k :| |mid| <= k < |did| && ClosedAt(did, |mid|, k, t, verdict);
      assert forall i :: n <= i < |mid| ==> did[i] == mid[i];
      assert ClosedAt(did, n, k, t, verdict);
    }
  }

  lemma QuietJoins(mid: seq<Effect>, did: seq<Effect>, n: nat, t: string)
    requires n <= |mid| && mid <= did && Quiet(mid, n, t) && Quiet(did, |mid|, t)
    ensures Quiet(did, n, t)
  {
    ClosedEarlier(mid, did, n, t, Distinctness.Verified);
  }

  lemma OpenedCloses(did: seq<Effect>, r: Record, first: Effect)
    requires r.stage == Verifying && Silent(first, r.id)
    ensures Closed(did + [first, Write(r, r.(stage := Ready), VerificationPassed), Note(r.id, RoutingEnabled), Nothing],
                   |did|, r.id, Distinctness.Verified)
  {
    var all := did + [first, Write(r, r.(stage := Ready), VerificationPassed), Note(r.id, RoutingEnabled), Nothing];
    var k := |did| + 1;
    assert all[k..] == [all[k], all[k + 1], all[k + 2]];
    assert ClosedAt(all, |did|, k, r.id, Distinctness.Verified);
  }

  lemma FailedCloses(did: seq<Effect>, r: Record, action: Action, verdict: Distinctness.Verdict)
    requires r.stage == Verifying
    requires (verdict.VerificationFailed? && action == Action.VerificationFailed)
             || (verdict.VerificationIncomplete? && action == Action.VerificationIncomplete)
    ensures Closed(did + [Forget(r.id), Write(r, r.(stage := Stage.Failed), action)], |did|, r.id, verdict)
  {
    var all := did + [Forget(r.id), Write(r, r.(stage := Stage.Failed), action)];
    var k := |did| + 1;
    assert all[k..] == [all[k]];
    assert ClosedAt(all, |did|, k, r.id, verdict);
  }

  lemma HeldCloses(did: seq<Effect>, r: Record, action: Action)
    requires r.stage == Verifying && action == Action.VerificationFailed
    ensures Closed(did + [Forget(r.id), Write(r, r.(stage := Quarantined), action), Note(r.id, TenantQuarantined),
                          Note(r.id, Action.IsolationAnomaly), Nothing], |did|, r.id, Distinctness.IsolationAnomaly)
  {
    var all := did + [Forget(r.id), Write(r, r.(stage := Quarantined), action), Note(r.id, TenantQuarantined),
                      Note(r.id, Action.IsolationAnomaly), Nothing];
    var k := |did| + 1;
    assert all[k..] == [all[k], all[k + 1], all[k + 2], all[k + 3]] && all[k + 2] in all[k..];
    assert ClosedAt(all, |did|, k, r.id, Distinctness.IsolationAnomaly);
  }

  // ----- the services ----------------------------------------------------------------------------------

  datatype GateResult = Decided(outcome: Distinctness.Outcome) | ProvisioningError

  class Services {
    const store: InMemoryControlStore
    const ledger: Distinctness.InMemoryDistinctnessLedger
    const config: Config
    /** The other callers' operations under way. */
    var procs: map<int, Proc>
    ghost var disabled: set<string>
    /** The operation under way here: its turns so far, where it began and where it stands. */
    var turns: nat
    ghost var began: World
    ghost var at: Option<Proc>
    /** What it has done to the shared state itself, one effect a turn. */
    ghost var did: seq<Effect>

    ghost function Sys(): System
      reads this, store, ledger
    {
      System(store.tenants, store.audit, ledger.byTenant, disabled)
    }

    ghost predicate Valid()
      reads this, store, ledger
    {
      ledger.Valid() && forall t :: t in store.tenants ==> store.tenants[t].id == t
    }

    constructor (store: InMemoryControlStore, ledger: Distinctness.InMemoryDistinctnessLedger, config: Config)
      requires ledger.Valid() && store.tenants == map[]
      ensures Valid() && this.store == store && this.ledger == ledger && this.config == config && procs == map[]
    {
      this.store, this.ledger, this.config, procs := store, ledger, config, map[];
      disabled, began, turns, at, did := {}, START, 0, None, [];
    }

    method Perform(e: Effect)
      requires Valid() && Fits(Sys(), e)
      modifies store, ledger, `disabled
      ensures Valid() && Sys() == Apply(old(Sys()), e)
    {
      match e
      case Nothing =>
      case Announce(r) => store.AppendAudit(Entry(r.id, Action.RegisterTenant, None, Some(Registered)));
      case Put(r) => store.PutTenant(r);
      case Write(was, updated, action) =>
        store.PutTenant(Written(updated));
        store.AppendAudit(Entry(was.id, action, Some(was.stage), Some(updated.stage)));
      case Note(t, action) => store.AppendAudit(Entry(t, action, None, None));
      case Forget(t) => ledger.Remove(t);
      case Disable(t) =>
        ledger.Remove(t);
        disabled := disabled + {t};
      case Remember(t, evidence) =>
        var refused := ledger.RecordEvidence(t, evidence);
        disabled := disabled - {t};
    }

    // ----- turns: the rivals act, then this operation makes one port call ---------------------------------

    /** Where this operation stands is where its woven history leads. */
    ghost predicate Tracks(pid: int, others: nat -> seq<Event>, a: Answer)
      reads this, store, ledger
    {
      && Valid() && pid !in procs
      && With(World(Sys(), procs), pid, at) == Play(began, config, Woven(others, pid, a, turns))
    }

    method Begin(pid: int, ghost p: Proc, others: nat -> seq<Event>, a: Answer)
      requires Valid() && pid !in procs
      modifies `began, `turns, `at, `did
      ensures turns == 0 && began == World(Sys(), procs[pid := p]) && at == Some(p) && Tracks(pid, others, a)
      ensures did == []
    {
      did := [];
      turns := 0;
      began, at := World(Sys(), procs[pid := p]), Some(p);
    }

    method Yield(events: seq<Event>)
      requires Valid()
      modifies store, ledger, `procs, `disabled
      ensures Valid() && World(Sys(), procs) == Play(old(World(Sys(), procs)), config, events)
      ensures old(store.audit) <= store.audit
    {
      hide Advanced, Step;
      var i := 0;
      ghost var before := World(Sys(), procs);
      assert events[..0] == [];
      while i < |events|
        invariant i <= |events| && Valid()
        invariant World(Sys(), procs) == Play(before, config, events[..i])
        invariant old(store.audit) <= store.audit
      {
        assert events[..i + 1][..i] == events[..i];
        Rival(events[i]);
        i := i + 1;
      }
      assert events[..i] == events;
    }

    method Rival(e: Event)
      requires Valid()
      modifies store, ledger, `procs, `disabled
      ensures Valid() && World(Sys(), procs) == Step(old(World(Sys(), procs)), config, e)
      ensures old(store.audit) <= store.audit
    {
      hide Advanced;
      match e
      case Start(pid, p) =>
        if pid !in procs && Enterable(p) {
          procs := procs[pid := p];
        }
      case Crash(pid) => procs := procs - {pid};
      case Advance(pid, a) =>
        if pid in procs {
          var n := Advanced(System(store.tenants, store.audit, ledger.byTenant, {}), config, procs[pid], a);
          DisabledUnread(Sys(), {}, config, procs[pid], a);
          AdvancedFits(Sys(), config, procs[pid], a);
          Perform(n.effect);
          procs := if n.proc.Some? then procs[pid := n.proc.value] else procs - {pid};
        }
    }

    /** The rivals' turn. */
    method Pause(pid: int, others: nat -> seq<Event>, a: Answer)
      requires Tracks(pid, others, a) && Rivals(others(turns), pid)
      modifies store, ledger, `procs, `disabled
      ensures Valid() && pid !in procs && old(store.audit) <= store.audit
      ensures World(Sys(), procs) == Play(old(World(Sys(), procs)), config, others(turns))
      ensures With(World(Sys(), procs), pid, at) == Play(began, config, Woven(others, pid, a, turns) + others(turns))
    {
      hide Step, Woven;
      ghost var before := World(Sys(), procs);
      Yield(others(turns));
      RivalsPlay(before, config, others(turns), pid, at);
      PlayConcat(began, config, Woven(others, pid, a, turns), others(turns));
      StaysOut(before, config, others(turns), pid);
    }

    /** This operation's turn is over: what it did is the step it stood at. */
    method Took(pid: int, others: nat -> seq<Event>, a: Answer, ghost before: System)
      requires Valid() && pid !in procs && at.Some?
      requires With(World(before, procs), pid, at) == Play(began, config, Woven(others, pid, a, turns) + others(turns))
      requires Sys() == Apply(before, Advanced(before, config, at.value, a).effect)
      modifies `turns, `at, `did
      ensures Valid() && at == Advanced(before, config, old(at).value, a).proc && turns == old(turns) + 1
      ensures did == old(did) + [Advanced(before, config, old(at).value, a).effect]
      ensures Tracks(pid, others, a)
    {
      hide Advanced, Apply;
      var w := With(World(before, procs), pid, at);
      var n := Advanced(before, config, at.value, a);
      var woven := Woven(others, pid, a, turns) + others(turns);
      assert (woven + [Advance(pid, a)])[..|woven|] == woven;
      assert Step(w, config, Advance(pid, a)) == With(World(Sys(), procs), pid, n.proc);
      turns := turns + 1;
      at, did := n.proc, did + [n.effect];
      assert Woven(others, pid, a, turns) == woven + [Advance(pid, a)];
    }

    /** The operation is over, and all it and its rivals did is the run of its woven history. */
    ghost predicate Ended(pid: int, others: nat -> seq<Event>, a: Answer)
      reads this, store, ledger
    {
      at == None && Tracks(pid, others, a)
    }

    /** A version-predicated write and its audit record: both, or neither when the record has moved. */
    method Commit(was: Record, updated: Record, action: Action) returns (persisted: Option<Record>)
      requires Valid() && updated.id == was.id && updated.version == was.version
      modifies store
      ensures Valid() && old(store.audit) <= store.audit
      ensures persisted == if Unmoved(old(Sys()), was) then Some(Written(updated)) else None
      ensures Sys() == Apply(old(Sys()), if Unmoved(old(Sys()), was) then Write(was, updated, action) else Nothing)
      ensures persisted.Some? ==>
        store.audit == old(store.audit) + [Entry(was.id, action, Some(was.stage), Some(updated.stage))]
    {
      persisted := store.CompareAndSwapTenant(updated, was.version);
      if persisted.Some? {
        store.AppendAudit(Entry(was.id, action, Some(was.stage), Some(updated.stage)));
      }
    }

    /** A turn that ends in a version-checked write: it is made and audited, or the record has moved. */
    method WriteTurn(pid: int, was: Record, updated: Record, action: Action, ghost won: Option<Proc>,
            ghost lost: Option<Proc>, others: nat -> seq<Event>, a: Answer)
      returns (persisted: Option<Record>)
      requires Tracks(pid, others, a) && at.Some? && Rivals(others(turns), pid)
      requires updated.id == was.id && updated.version == was.version
      requires forall s ::
        Advanced(s, config, at.value, a)
        == (if Unmoved(s, was) then Next(Write(was, updated, action), won) else Next(Nothing, lost))
      modifies store, ledger, `procs, `disabled, `turns, `at, `did
      ensures Tracks(pid, others, a) && turns == old(turns) + 1 && old(store.audit) <= store.audit
      ensures persisted == None || persisted == Some(Written(updated))
      ensures at == if persisted.Some? then won else lost
      ensures did == old(did) + [if persisted.Some? then Write(was, updated, action) else Nothing]
      ensures persisted.Some? ==>
        && |old(store.audit)| < |store.audit|
        && store.audit[|store.audit| - 1] == Entry(was.id, action, Some(was.stage), Some(updated.stage))
    {
      hide Play, Woven, Step, Rivals, Tracks, Advanced, Apply, With, Unmoved;
      NothingChanges();
      Pause(pid, others, a);
      ghost var before := Sys();
      persisted := Commit(was, updated, action);
      Took(pid, others, a, before);
    }

    /** A turn that drops the tenant's ledger row. */
    method ForgetTurn(pid: int, t: string, ghost next: Option<Proc>, others: nat -> seq<Event>, a: Answer)
      requires Tracks(pid, others, a) && at.Some? && Rivals(others(turns), pid)
      requires forall s :: Advanced(s, config, at.value, a) == Next(Forget(t), next)
      modifies store, ledger, `procs, `disabled, `turns, `at, `did
      ensures Tracks(pid, others, a) && turns == old(turns) + 1 && old(store.audit) <= store.audit
      ensures at == next && did == old(did) + [Forget(t)]
    {
      hide Play, Woven, Step, Rivals, Tracks, Advanced, Apply, With;
      Pause(pid, others, a);
      ghost var before := Sys();
      ledger.Remove(t);
      LedgerEffects(before, t, config.control);
      Took(pid, others, a, before);
    }

    /** A turn that leaves the shared state alone. */
    method IdleTurn(pid: int, ghost next: Option<Proc>, others: nat -> seq<Event>, a: Answer)
      requires Tracks(pid, others, a) && at.Some? && Rivals(others(turns), pid)
      requires forall s :: Advanced(s, config, at.value, a) == Next(Nothing, next)
      modifies store, ledger, `procs, `disabled, `turns, `at, `did
      ensures Tracks(pid, others, a) && turns == old(turns) + 1 && old(store.audit) <= store.audit
      ensures at == next && did == old(did) + [Nothing]
    {
      hide Play, Woven, Step, Rivals, Tracks, Advanced, Apply, With;
      NothingChanges();
      Pause(pid, others, a);
      Took(pid, others, a, Sys());
    }

    /** A turn that only reads one record. */
    method ReadTurn(pid: int, t: string, others: nat -> seq<Event>, a: Answer) returns (r: Option<Record>)
      requires Tracks(pid, others, a) && at.Some? && Rivals(others(turns), pid)
      requires forall s :: Advanced(s, config, at.value, a).effect == Nothing
      modifies store, ledger, `procs, `disabled, `turns, `at, `did
      ensures Tracks(pid, others, a) && turns == old(turns) + 1 && old(store.audit) <= store.audit
      ensures World(Sys(), procs) == Play(old(World(Sys(), procs)), config, others(old(turns)))
      ensures r == (if t in store.tenants then Some(store.tenants[t]) else None) && (r.Some? ==> r.value.id == t)
      ensures at == Advanced(Sys(), config, old(at).value, a).proc && did == old(did) + [Nothing]
    {
      hide Play, Woven, Step, Rivals, Tracks, Advanced, Apply, With;
      NothingChanges();
      Pause(pid, others, a);
      r := Fetch(t);
      Took(pid, others, a, Sys());
    }

    method Fetch(t: string) returns (r: Option<Record>)
      requires Valid()
      ensures r == (if t in Sys().records then Some(Sys().records[t]) else None) && (r.Some? ==> r.value.id == t)
    {
      r := store.GetTenant(t);
    }

    // ----- registry --------------------------------------------------------------------------------------

    method RegisterTenant(pid: int, t: string, schema: string, association: SecretRef, others: nat -> seq<Event>,
            a: Answer)
      returns (r: Option<Record>)
      requires Valid() && pid !in procs && forall n :: Rivals(others(n), pid)
      modifies this, store, ledger
      ensures Ended(pid, others, a) && began == old(World(Sys(), procs[pid := Registering(t, schema, association)]))
      ensures (r.Some? <==> Admitted(t)) && (r.Some? ==> r.value.id == t)
      ensures turns == 1 <==>
        (!Admitted(t) || t in Play(old(World(Sys(), procs)), config, others(0)).sys.records)
      ensures turns == 1 && r.Some? ==> t in store.tenants && r == Some(store.tenants[t])
      ensures turns != 1 ==>
        && r == Some(Record(t, Registered, schema, association, 0)) && t in store.tenants && store.tenants[t] == r.value
        && did == [Nothing, Announce(r.value), Put(r.value)]
    {
      hide Play, Woven, Step, Rivals, Tracks, Admitted, Advanced, With, Apply;
      NothingChanges();
      Begin(pid, Registering(t, schema, association), others, a);
      Pause(pid, others, a);
      AfterRegistering(Sys(), config, t, schema, association, a);
      if !Admitted(t) {
        Took(pid, others, a, Sys());
        return None;
      }
      r := Fetch(t);
      Took(pid, others, a, Sys());
      if r.Some? {
        return;
      }
      r := Some(Record(t, Registered, schema, association, 0));
      AnnounceAndPut(pid, r.value, others, a);
    }

    /** The audit record, and then the blind write. */
    method AnnounceAndPut(pid: int, r: Record, others: nat -> seq<Event>, a: Answer)
      requires Tracks(pid, others, a) && at == Some(Announcing(r)) && forall n :: Rivals(others(n), pid)
      modifies store, ledger, `procs, `disabled, `turns, `at, `did
      ensures Ended(pid, others, a) && r.id in store.tenants && store.tenants[r.id] == r
      ensures turns == old(turns) + 2 && did == old(did) + [Announce(r), Put(r)]
    {
      hide Play, Woven, Step, Rivals, Tracks, Advanced, With, Apply;
      Pause(pid, others, a);
      ghost var before := Sys();
      AfterAnnouncing(before, config, r, a);
      store.AppendAudit(Entry(r.id, Action.RegisterTenant, None, Some(Registered)));
      Took(pid, others, a, before);
      Pause(pid, others, a);
      before := Sys();
      AfterAnnouncing(before, config, r, a);
      store.PutTenant(r);
      Took(pid, others, a, before);
      TwoMore(old(did), Announce(r), Put(r));
    }

    method Transition(pid: int, t: string, move: Move, others: nat -> seq<Event>, a: Answer) returns (r: Option<Record>)
      requires Valid() && pid !in procs && forall n :: Rivals(others(n), pid)
      modifies this, store, ledger
      ensures Ended(pid, others, a) && began == old(World(Sys(), procs[pid := Reading(t, move)]))
      ensures r.Some? ==> r.value.stage == Target(move)
      ensures turns == 1 || turns == 2
      ensures turns == 1 ==>
        && World(Sys(), procs) == Play(old(World(Sys(), procs)), config, others(0))
        && r == InTarget(t, move)
        && (r.None? ==> !(t in store.tenants && MayMove(store.tenants[t].stage, move)))
        && did == [Nothing]
      ensures turns == 2 ==> exists was :: MovedFrom(did, 0, was, t, move, r)
    {
      hide Play, Woven, Step, Rivals, Tracks, With, InTarget;
      Begin(pid, Reading(t, move), others, a);
      r := MoveTo(pid, t, move, others, a);
    }

    /** The tenant's record, if it already is where the move leads. */
    function InTarget(t: string, move: Move): Option<Record>
      reads this, store
    {
      if t in store.tenants && store.tenants[t].stage == Target(move) then Some(store.tenants[t]) else None
    }

    /** A same-target request, and a refused one, end after one turn and change nothing: only the rivals
        of that turn have acted. Any other must come from an allowed stage. */
    method MoveTo(pid: int, t: string, move: Move, others: nat -> seq<Event>, a: Answer) returns (r: Option<Record>)
      requires Tracks(pid, others, a) && at == Some(Reading(t, move)) && forall n :: Rivals(others(n), pid)
      modifies store, ledger, `procs, `disabled, `turns, `at, `did
      ensures Ended(pid, others, a) && old(store.audit) <= store.audit
      ensures r.Some? ==> r.value.stage == Target(move)
      ensures turns == old(turns) + 1 || turns == old(turns) + 2
      ensures turns == old(turns) + 1 ==>
        && World(Sys(), procs) == Play(old(World(Sys(), procs)), config, others(old(turns)))
        && r == InTarget(t, move)
        && (r.None? ==> !(t in store.tenants && MayMove(store.tenants[t].stage, move)))
        && did == old(did) + [Nothing]
      ensures turns == old(turns) + 2 ==>
        old(did) <= did && exists was :: MovedFrom(did, |old(did)|, was, t, move, r)
    {
      hide Play, Woven, Step, Rivals, Tracks, Advanced, Unmoved, MoveAction, AllowedFrom, Target, MayMove, Moves;
      forall s ensures Advanced(s, config, Reading(t, move), a).effect == Nothing {
        AfterReading(s, config, t, move, a);
      }
      var record := ReadTurn(pid, t, others, a);
      AfterReading(Sys(), config, t, move, a);
      if record.None? {
        return None;
      }
      MovesAre(record.value.stage, move);
      if record.value.stage == Target(move) {
        return record;
      }
      if record.value.stage !in AllowedFrom(move) {
        return None;
      }
      var updated := record.value.(stage := Target(move));
      forall s ensures Advanced(s, config, Moving(record.value, move), a) ==
        if Unmoved(s, record.value) then Next(Write(record.value, updated, MoveAction(move)), None)
        else Next(Nothing, None) {
        AfterMoving(s, config, record.value, move, a);
      }
      r := WriteTurn(pid, record.value, updated, MoveAction(move), None, None, others, a);
      TwoMore(old(did), Nothing, if r.None? then Nothing else Write(record.value, updated, MoveAction(move)));
      assert MovedFrom(did, |old(did)|, record.value, t, move, r);
    }

    // ----- the readiness gate -------------------------------------------------------------------------------

    /** Non-transition audit events, one after the other. */
    method Emit(pid: int, t: string, actions: seq<Action>, ghost after: After, others: nat -> seq<Event>, a: Answer)
      requires Tracks(pid, others, a) && at == Some(Noting(t, actions, after)) && forall n :: Rivals(others(n), pid)
      modifies store, ledger, `procs, `disabled, `turns, `at, `did
      ensures Tracks(pid, others, a) && old(store.audit) <= store.audit
      ensures did == old(did) + Notes(t, actions) + [Nothing]
      ensures Action.IsolationAnomaly in actions ==> HasAnomaly(store.audit, t)
      ensures at == match after
                    case Finish => None
                    case ThenVerify => Some(Entering(t))
                    case ThenClassify => Some(Classifying(t))
    {
      hide Play, Woven, Step, Rivals, Tracks, Advanced, With, Apply, HasAnomaly;
      var i := 0;
      assert actions[0..] == actions;
      while i < |actions|
        invariant i <= |actions| && Tracks(pid, others, a) && at == Some(Noting(t, actions[i..], after))
        invariant old(store.audit) <= store.audit
        invariant did == old(did) + Notes(t, actions[..i])
        invariant Action.IsolationAnomaly in actions[..i] ==> HasAnomaly(store.audit, t)
      {
        ghost var was := store.audit;
        Pause(pid, others, a);
        ghost var before := Sys();
        assert actions[i..][0] == actions[i] && actions[i..][1..] == actions[i + 1..];
        AfterNoting(before, config, t, actions[i..], after, a);
        store.AppendAudit(Entry(t, actions[i], None, None));
        Noted(was, before.audit, t, actions[i]);
        assert actions[..i + 1] == actions[..i] + [actions[i]];
        NotesSnoc(t, actions[..i], actions[i]);
        Took(pid, others, a, before);
        i := i + 1;
      }
      assert actions[i..] == [] && actions[..i] == actions;
      ghost var was := store.audit;
      ghost var next := match after
                        case Finish => None
                        case ThenVerify => Some(Entering(t))
                        case ThenClassify => Some(Classifying(t));
      forall s ensures Advanced(s, config, Noting(t, [], after), a) == Next(Nothing, next) {
        AfterNoting(s, config, t, [], after, a);
      }
      IdleTurn(pid, next, others, a);
      Noted(was, store.audit, t, RoutingDisabled);
    }

    /** The terminal failure: the ledger row goes first, then the record, then an anomaly's markers. */
    method Fail(pid: int, r: Record, outcome: Distinctness.Outcome, anomaly: bool, action: Action,
            others: nat -> seq<Event>, a: Answer)
      returns (result: GateResult)
      requires Tracks(pid, others, a) && at == Some(Failing(r, anomaly, action)) && forall n :: Rivals(others(n), pid)
      requires r.stage == Verifying && StageFor(outcome.result) == if anomaly then Quarantined else Failed
      requires action == if outcome.result.VerificationIncomplete? then Action.VerificationIncomplete
                         else Action.VerificationFailed
      modifies store, ledger, `procs, `disabled, `turns, `at, `did
      ensures Ended(pid, others, a) && (result == Decided(outcome) || result == ProvisioningError)
      ensures old(did) <= did && Gave(|old(store.audit)|, |old(did)|, r.id, result)
      ensures result.ProvisioningError? ==> did == old(did) + [Forget(r.id), Nothing]
      ensures result.Decided? && !anomaly ==>
        did == old(did) + [Forget(r.id), Write(r, r.(stage := Stage.Failed), action)]
      ensures result.Decided? && anomaly ==>
        did == old(did) + [Forget(r.id), Write(r, r.(stage := Quarantined), action), Note(r.id, TenantQuarantined),
                           Note(r.id, Action.IsolationAnomaly), Nothing]
    {
      hide Play, Woven, Step, Rivals, Tracks, OnRecord, Advanced, Unmoved, HasAnomaly, Notes, Closed;
      forall s ensures Advanced(s, config, Failing(r, anomaly, action), a) ==
        Next(Forget(r.id), Some(Closing(r, anomaly, action))) {
        AfterFailing(s, config, r, anomaly, action, a);
      }
      ForgetTurn(pid, r.id, Some(Closing(r, anomaly, action)), others, a);
      var updated := r.(stage := if anomaly then Quarantined else Failed);
      ghost var next := if anomaly then Some(Noting(r.id, [TenantQuarantined, Action.IsolationAnomaly], Finish))
          else None;
      forall s ensures Advanced(s, config, Closing(r, anomaly, action), a) ==
        if Unmoved(s, r) then Next(Write(r, updated, action), next) else Next(Nothing, None) {
        AfterClosing(s, config, r, anomaly, action, a);
      }
      var closed := WriteTurn(pid, r, updated, action, next, None, others, a);
      ghost var write := if closed.None? then Nothing else Write(r, updated, action);
      TwoMore(old(did), Forget(r.id), write);
      if closed.None? {
        return ProvisioningError;
      }
      if anomaly {
        HeldCloses(old(did), r, action);
      } else {
        FailedCloses(old(did), r, action, outcome.result);
      }
      ghost var k := |store.audit| - 1;
      assert store.audit[k] == Entry(r.id, action, Some(Verifying), Some(StageFor(outcome.result)));
      if anomaly {
        Emit(pid, r.id, [TenantQuarantined, Action.IsolationAnomaly], Finish, others, a);
        HoldMarked(old(did), r.id, Forget(r.id), write);
      }
      IsOnRecord(|old(store.audit)|, k, r.id, outcome.result);
      return Decided(outcome);
    }

    /** A turn that judges the gathered evidence against the ledger as it stands now. */
    method JudgeTurn(pid: int, r: Record, candidate: Option<Evidence>, others: nat -> seq<Event>, a: Answer)
      returns (outcome: Distinctness.Outcome)
      requires Tracks(pid, others, a) && at == Some(Deciding(r, candidate)) && Rivals(others(turns), pid)
      modifies store, ledger, `procs, `disabled, `turns, `at, `did
      ensures Tracks(pid, others, a) && old(store.audit) <= store.audit && did == old(did) + [Nothing]
      ensures outcome.result.Verified? ==> candidate.Some? && at == Some(Recording(r, candidate.value))
      ensures outcome.result.IsolationAnomaly? ==> at == Some(Dropping(r, true, Action.VerificationFailed))
      ensures outcome.result.VerificationIncomplete? ==> at == Some(Dropping(r, false, Action.VerificationIncomplete))
      ensures outcome.result.VerificationFailed? ==> at == Some(Dropping(r, false, Action.VerificationFailed))
      ensures OnEvidence(r.id, candidate, outcome.result)
      ensures outcome.result.Verified? ==> OnEvidence(r.id, candidate, Distinctness.IsolationAnomaly)
    {
      hide Play, Woven, Step, Rivals, Tracks, Advanced, With, Unmoved, Distinctness.Judged, Apply,
        Distinctness.Lacking, Distinctness.MeetsControl, Distinctness.MeetsAnother, OnEvidence;
      NothingChanges();
      Pause(pid, others, a);
      ghost var before := Sys();
      var listed, inventory := ledger.EvidenceExcluding(r.id);
      AfterDeciding(before, config, r, candidate, a);
      outcome := Distinctness.Verify(r.id, candidate, TenantDatabaseName(r.id), config.control, listed, inventory);
      EvidenceDecides(r.id, candidate, inventory, outcome.result);
      if outcome.result.Verified? {
        VerifiedHasEvidence(r.id, candidate, TenantDatabaseName(r.id), config.control, inventory);
      }
      Took(pid, others, a, before);
    }

    /** The verdict on the gathered evidence decides between recording and failing. */
    method Decide(pid: int, r: Record, candidate: Option<Evidence>, others: nat -> seq<Event>, a: Answer)
      returns (result: GateResult)
      requires Tracks(pid, others, a) && at == Some(Deciding(r, candidate)) && forall n :: Rivals(others(n), pid)
      requires r.stage == Verifying
      modifies store, ledger, `procs, `disabled, `turns, `at, `did
      ensures Ended(pid, others, a)
      ensures old(did) <= did && Gave(|old(store.audit)|, |old(did)|, r.id, result)
      ensures result.Decided? ==> OnEvidence(r.id, candidate, result.outcome.result)
    {
      hide Play, Woven, Step, Rivals, Tracks, Advanced, Gave, Quiet, OnEvidence;
      var outcome := JudgeTurn(pid, r, candidate, others, a);
      ghost var n, mid := |store.audit|, did;
      QuietOne(old(did), r.id, Nothing);
      if outcome.result.Verified? {
        result := RecordAndOpen(pid, r, candidate.value, outcome, others, a);
      } else if outcome.result.IsolationAnomaly? {
        result := Drop(pid, r, outcome, true, Action.VerificationFailed, others, a);
      } else {
        var action := if outcome.result.VerificationIncomplete? then Action.VerificationIncomplete
                      else Action.VerificationFailed;
        result := Drop(pid, r, outcome, false, action, others, a);
      }
      GaveEarlier(|old(store.audit)|, n, |old(did)|, mid, r.id, result);
    }

    method Drop(pid: int, r: Record, outcome: Distinctness.Outcome, anomaly: bool, action: Action,
            others: nat -> seq<Event>, a: Answer)
      returns (result: GateResult)
      requires Tracks(pid, others, a) && at == Some(Dropping(r, anomaly, action)) && forall n :: Rivals(others(n), pid)
      requires r.stage == Verifying && StageFor(outcome.result) == if anomaly then Quarantined else Failed
      requires action == if outcome.result.VerificationIncomplete? then Action.VerificationIncomplete
                         else Action.VerificationFailed
      modifies store, ledger, `procs, `disabled, `turns, `at, `did
      ensures Ended(pid, others, a) && (result == Decided(outcome) || result == ProvisioningError)
      ensures old(did) <= did && Gave(|old(store.audit)|, |old(did)|, r.id, result)
    {
      hide Play, Woven, Step, Rivals, Tracks, OnRecord, Advanced, Apply, With, Unmoved, Gave, Quiet;
      forall s ensures Advanced(s, config, Dropping(r, anomaly, action), a) ==
        Next(Forget(r.id), Some(Failing(r, anomaly, action))) {
        AfterFailing(s, config, r, anomaly, action, a);
      }
      ForgetTurn(pid, r.id, Some(Failing(r, anomaly, action)), others, a);
      ghost var n, mid := |store.audit|, did;
      QuietOne(old(did), r.id, Forget(r.id));
      result := Fail(pid, r, outcome, anomaly, action, others, a);
      GaveEarlier(|old(store.audit)|, n, |old(did)|, mid, r.id, result);
    }

    /** A verdict given is on the trail and is what the run did to the tenant; an error leaves no such mark. */
    ghost predicate Gave(audited: nat, n: nat, t: string, result: GateResult)
      reads this, store
    {
      if result.Decided? then
        && OnRecord(audited, t, result.outcome.result) && Closed(did, n, t, result.outcome.result)
        && (result.outcome.result == Distinctness.IsolationAnomaly ==> HasAnomaly(store.audit, t))
      else Quiet(did, n, t)
    }

    /** A verdict given is one the answers warrant: an unreachable database is never judged, and only a
        complete answer from the tenant's own target, off the Control DB, is verified. */
    predicate Warranted(t: string, a: Answer, result: GateResult) {
      result.Decided? ==>
        && (!a.reachable ==> result.outcome.result == Distinctness.VerificationIncomplete)
        && (result.outcome.result == Distinctness.Verified ==>
              && !Distinctness.Lacking(a.evidence) && a.evidence.value.observedTarget == "sp2_tenant_" + t
              && !Distinctness.MeetsControl(a.evidence.value, config.control))
    }

    /** What the evidence itself decides: incomplete exactly when something is missing, and an anomaly when it
        is complete and off its target or the Control DB's. */
    predicate OnEvidence(t: string, candidate: Option<Evidence>, verdict: Distinctness.Verdict) {
      && (verdict == Distinctness.VerificationIncomplete <==> Distinctness.Lacking(candidate))
      && verdict != Distinctness.VerificationFailed
      && (!Distinctness.Lacking(candidate)
          && (candidate.value.observedTarget != "sp2_tenant_" + t
              || Distinctness.MeetsControl(candidate.value, config.control)) ==>
            verdict == Distinctness.IsolationAnomaly)
    }

    /** The verifier's verdict is on the evidence, and so is a collision found when it is recorded. */
    lemma EvidenceDecides(t: string, candidate: Option<Evidence>, inventory: Ledger, verdict: Distinctness.Verdict)
      requires verdict.VerificationIncomplete? <==> Distinctness.Lacking(candidate)
      requires verdict.IsolationAnomaly? <==>
        (!Distinctness.Lacking(candidate)
         && (candidate.value.observedTarget != TenantDatabaseName(t)
             || Distinctness.MeetsControl(candidate.value, config.control)
             || Distinctness.MeetsAnother(t, candidate.value, inventory)))
      requires verdict.Verified? || verdict.IsolationAnomaly? || verdict.VerificationIncomplete?
      ensures OnEvidence(t, candidate, verdict)
      ensures verdict.Verified? ==> OnEvidence(t, candidate, Distinctness.IsolationAnomaly)
    {
      hide Distinctness.Lacking, Distinctness.MeetsControl, Distinctness.MeetsAnother;
    }

    lemma OpenedGives(audited: nat, n: nat, t: string, outcome: Distinctness.Outcome)
      requires outcome.result.Verified? && OnRecord(audited, t, Distinctness.Verified)
      requires Closed(did, n, t, Distinctness.Verified)
      ensures Gave(audited, n, t, Decided(outcome))
    {
      hide Closed, OnRecord;
    }

    /** Nothing done is what an error leaves. */
    lemma QuietMeans(was: seq<Entry>, did: seq<Effect>, n: nat, t: string)
      requires did == this.did && Quiet(did, n, t)
      ensures Gave(|was|, n, t, ProvisioningError)
    {
    }

    lemma GaveEarlier(early: nat, late: nat, n: nat, mid: seq<Effect>, t: string, result: GateResult)
      requires early <= late && n <= |mid| && mid <= did && Quiet(mid, n, t) && Gave(late, |mid|, t, result)
      ensures Gave(early, n, t, result)
    {
      hide Closed, Quiet, OnRecord, HasAnomaly;
      ClosedEarlier(mid, did, n, t, if result.Decided? then result.outcome.result else Distinctness.Verified);
      if result.Decided? {
        OnRecordEarlier(early, late, t, result.outcome.result);
      }
    }

    /** The stage a verdict leads a tenant to. */
    function StageFor(verdict: Distinctness.Verdict): Stage {
      match verdict
      case Verified => Ready
      case IsolationAnomaly => Quarantined
      case _ => Failed
    }

    /** The verdict is on the tenant's trail, written after its first `n` records. */
    ghost predicate OnRecord(n: nat, t: string, verdict: Distinctness.Verdict)
      reads this, store
    {
      exists i :: n <= i < |store.audit|
        && store.audit[i].tenantId == t && store.audit[i].from == Some(Verifying)
        && store.audit[i].to == Some(StageFor(verdict))
    }

    lemma IsOnRecord(n: nat, i: nat, t: string, verdict: Distinctness.Verdict)
      requires n <= i < |store.audit|
      requires store.audit[i].tenantId == t && store.audit[i].from == Some(Verifying)
        && store.audit[i].to == Some(StageFor(verdict))
      ensures OnRecord(n, t, verdict)
    {
    }

    lemma OnRecordEarlier(early: nat, late: nat, t: string, verdict: Distinctness.Verdict)
      requires early <= late && OnRecord(late, t, verdict)
      ensures OnRecord(early, t, verdict)
    {
    }

    /** A turn that records the evidence, unless another tenant holds its fingerprint. */
    method RecordTurn(pid: int, r: Record, e: Evidence, others: nat -> seq<Event>, a: Answer) returns (refused: bool)
      requires Tracks(pid, others, a) && at == Some(Recording(r, e)) && Rivals(others(turns), pid)
      modifies store, ledger, `procs, `disabled, `turns, `at, `did
      ensures Tracks(pid, others, a) && old(store.audit) <= store.audit
      ensures at == Some(if refused then Failing(r, true, Action.VerificationFailed) else Opening(r))
      ensures did == old(did) + [if refused then Nothing else Remember(r.id, e)]
    {
      hide Play, Woven, Step, Rivals, Tracks, Advanced, Apply, With, Distinctness.Taken;
      NothingChanges();
      Pause(pid, others, a);
      ghost var before := Sys();
      AfterRecording(before, config, r, e, a);
      LedgerEffects(before, r.id, e);
      refused := ledger.RecordEvidence(r.id, e);
      if !refused {
        disabled := disabled - {r.id};
      }
      Took(pid, others, a, before);
    }

    /** The recording write is the arbiter between tenants; only then is the tenant opened. */
    method RecordAndOpen(pid: int, r: Record, e: Evidence, outcome: Distinctness.Outcome, others: nat -> seq<Event>,
            a: Answer)
      returns (result: GateResult)
      requires Tracks(pid, others, a) && at == Some(Recording(r, e)) && forall n :: Rivals(others(n), pid)
      requires r.stage == Verifying
      requires outcome.result.Verified?
      modifies store, ledger, `procs, `disabled, `turns, `at, `did
      ensures Ended(pid, others, a)
      ensures old(did) <= did && Gave(|old(store.audit)|, |old(did)|, r.id, result)
      ensures result.Decided? ==>
        if result.outcome.result.Verified? then
          && result.outcome == outcome
          && did == old(did) + [Remember(r.id, e), Write(r, r.(stage := Ready), VerificationPassed),
                                Note(r.id, RoutingEnabled), Nothing]
        else result.outcome == Distinctness.Outcome(Distinctness.IsolationAnomaly, "tenant_collision")
      ensures result.ProvisioningError? ==>
        || did == old(did) + [Remember(r.id, e), Nothing]
        || did == old(did) + [Nothing] + [Forget(r.id), Nothing]
    {
      hide Play, Woven, Step, Rivals, Tracks, OnRecord, Advanced, Closed, Quiet, Gave;
      var refused := RecordTurn(pid, r, e, others, a);
      ghost var n, mid := |store.audit|, did;
      if refused {
        QuietOne(old(did), r.id, Nothing);
        result := Fail(pid, r, Distinctness.Outcome(Distinctness.IsolationAnomaly, "tenant_collision"), true,
                       Action.VerificationFailed, others, a);
        GaveEarlier(|old(store.audit)|, n, |old(did)|, mid, r.id, result);
        return;
      }
      result := Open(pid, r, outcome, others, a);
      OpensFully(old(did), mid, did, r, e, result.Decided?);
      if result.Decided? {
        OnRecordEarlier(|old(store.audit)|, n, r.id, result.outcome.result);
        OpenedGives(|old(store.audit)|, |old(did)|, r.id, outcome);
      } else {
        QuietOpening(old(did), r.id, e);
        QuietMeans(old(store.audit), did, |old(did)|, r.id);
      }
    }

    /** The gate's last write. */
    method Open(pid: int, r: Record, outcome: Distinctness.Outcome, others: nat -> seq<Event>, a: Answer)
      returns (result: GateResult)
      requires Tracks(pid, others, a) && at == Some(Opening(r)) && forall n :: Rivals(others(n), pid)
      requires r.stage == Verifying && outcome.result.Verified?
      modifies store, ledger, `procs, `disabled, `turns, `at, `did
      ensures Ended(pid, others, a) && (result == Decided(outcome) || result == ProvisioningError)
      ensures result.Decided? ==> OnRecord(|old(store.audit)|, r.id, Distinctness.Verified)
      ensures did == old(did) + if result.Decided? then
        [Write(r, r.(stage := Ready), VerificationPassed), Note(r.id, RoutingEnabled), Nothing] else [Nothing]
    {
      hide Play, Woven, Step, Rivals, Tracks, OnRecord, Advanced, Unmoved, Notes;
      var updated := r.(stage := Ready);
      ghost var next := Some(Noting(r.id, [RoutingEnabled], Finish));
      forall s ensures Advanced(s, config, Opening(r), a) ==
        if Unmoved(s, r) then Next(Write(r, updated, VerificationPassed), next) else Next(Nothing, None) {
        AfterOpening(s, config, r, a);
      }
      var ready := WriteTurn(pid, r, updated, VerificationPassed, next, None, others, a);
      if ready.None? {
        return ProvisioningError;
      }
      ghost var k := |store.audit| - 1;
      Emit(pid, r.id, [RoutingEnabled], Finish, others, a);
      OpeningMarked(old(did), r.id, Write(r, updated, VerificationPassed));
      IsOnRecord(|old(store.audit)|, k, r.id, outcome.result);
      return Decided(outcome);
    }

    /** Probe, schema and secret-reference checks, then the evidence. */
    method Examine(pid: int, r: Record, others: nat -> seq<Event>, a: Answer) returns (result: GateResult)
      requires Tracks(pid, others, a) && at == Some(Probing(r)) && forall n :: Rivals(others(n), pid)
      requires r.stage == Verifying
      modifies store, ledger, `procs, `disabled, `turns, `at, `did
      ensures Ended(pid, others, a)
      ensures old(did) <= did && Gave(|old(store.audit)|, |old(did)|, r.id, result)
      ensures result.Decided? ==>
        var verdict := result.outcome.result;
        if !a.reachable then verdict == Distinctness.VerificationIncomplete
        else if a.observedSchema != r.schema || r.schema !in config.supported then
          verdict == Distinctness.VerificationFailed
        else if r.association.storeRef == config.control.secretRefKey then verdict == Distinctness.IsolationAnomaly
        else OnEvidence(r.id, a.evidence, verdict)
      ensures Warranted(r.id, a, result)
    {
      hide Play, Woven, Step, Rivals, Tracks, OnRecord, Advanced, Unmoved, Gave, Quiet,
        Distinctness.Lacking, Distinctness.MeetsControl;
      ghost var probed := AfterProbe(r, config, a);
      forall s ensures Advanced(s, config, Probing(r), a) == Next(Nothing, Some(probed)) {
        AfterProbing(s, config, r, a);
      }
      IdleTurn(pid, Some(probed), others, a);
      ghost var n, mid := |store.audit|, did;
      QuietOne(old(did), r.id, Nothing);
      if !a.reachable {
        result := Fail(pid, r, Distinctness.Outcome(Distinctness.VerificationIncomplete, "incomplete_evidence"), false,
                       Action.VerificationIncomplete, others, a);
      } else if a.observedSchema !in config.supported || a.observedSchema != r.schema {
        result := Fail(pid, r, Distinctness.Outcome(Distinctness.VerificationFailed, "schema_mismatch"), false,
                       Action.VerificationFailed, others, a);
      } else if r.association.storeRef == config.control.secretRefKey {
        result := Fail(pid, r, Distinctness.Outcome(Distinctness.IsolationAnomaly, "control_db_collision"), true,
                       Action.VerificationFailed, others, a);
      } else {
        forall s ensures Advanced(s, config, Gathering(r), a) == Next(Nothing, Some(Deciding(r, a.evidence))) {
          AfterProbing(s, config, r, a);
        }
        IdleTurn(pid, Some(Deciding(r, a.evidence)), others, a);
        ghost var m, more := |store.audit|, did;
        QuietOne(mid, r.id, Nothing);
        result := Decide(pid, r, a.evidence, others, a);
        GaveEarlier(n, m, |mid|, more, r.id, result);
      }
      GaveEarlier(|old(store.audit)|, n, |old(did)|, mid, r.id, result);
    }

    /** The gate's version-checked start. */
    method StartTurn(pid: int, r: Record, again: bool, others: nat -> seq<Event>, a: Answer)
      returns (started: Option<Record>)
      requires Tracks(pid, others, a) && at == Some(Starting(r, again)) && Rivals(others(turns), pid)
      modifies store, ledger, `procs, `disabled, `turns, `at, `did
      ensures Tracks(pid, others, a) && turns == old(turns) + 1 && old(store.audit) <= store.audit
      ensures started == None || started == Some(Written(r.(stage := Verifying)))
      ensures at == if started.Some? then Some(Probing(started.value)) else if again then None
        else Some(Rereading(r.id))
      ensures did == old(did)
        + [if started.Some? then Write(r, r.(stage := Verifying), VerificationStarted) else Nothing]
    {
      hide Play, Woven, Step, Rivals, Tracks, Advanced, Unmoved;
      var updated := r.(stage := Verifying);
      ghost var won, lost := Some(Probing(Written(updated))), if again then None else Some(Rereading(r.id));
      forall s ensures Advanced(s, config, Starting(r, again), a) ==
        if Unmoved(s, r) then Next(Write(r, updated, VerificationStarted), won) else Next(Nothing, lost) {
        AfterStarting(s, config, r, again, a);
      }
      started := WriteTurn(pid, r, updated, VerificationStarted, won, lost, others, a);
    }

    /** After a lost entry race: yield to a tenant that has left, retry one still in flight, once. */
    method Retry(pid: int, t: string, others: nat -> seq<Event>, a: Answer)
      returns (started: Option<Record>, result: GateResult)
      requires Tracks(pid, others, a) && at == Some(Rereading(t)) && forall n :: Rivals(others(n), pid)
      modifies store, ledger, `procs, `disabled, `turns, `at, `did
      ensures Tracks(pid, others, a) && old(store.audit) <= store.audit
      ensures started.Some? ==>
        at == Some(Probing(started.value)) && started.value.id == t && started.value.stage == Verifying
      ensures started.None? ==> at == None && (result.Decided? ==> Yielded(result.outcome))
      ensures old(did) <= did && Quiet(did, |old(did)|, t)
      ensures |did| == |old(did)| + 1 || |did| == |old(did)| + 2
      ensures |did| == |old(did)| + 1 ==>
        && started.None? && !StageIn(Sys(), t, {Verifying, Provisioning})
        && (result.Decided? <==> StageIn(Sys(), t, {Suspended, Quarantined, Decommissioned, Stage.Failed}))
      ensures |did| == |old(did)| + 2 ==> started.Some? || result.ProvisioningError?
    {
      hide Play, Woven, Step, Rivals, Tracks, Advanced, Unmoved, Quiet;
      result := ProvisioningError;
      forall s ensures Advanced(s, config, Rereading(t), a).effect == Nothing {
        AfterRereading(s, config, t, a);
      }
      var again := ReadTurn(pid, t, others, a);
      AfterRereading(Sys(), config, t, a);
      QuietOne(old(did), t, Nothing);
      if again.None? {
        return None, ProvisioningError;
      }
      if again.value.stage in {Suspended, Quarantined, Decommissioned, Failed} {
        return None, Decided(Distinctness.Outcome(Distinctness.VerificationIncomplete, "concurrent_lifecycle_winner"));
      }
      if again.value.stage !in {Verifying, Provisioning} {
        return None, ProvisioningError;
      }
      started := StartTurn(pid, again.value, true, others, a);
      ghost var write := if started.None? then Nothing
                         else Write(again.value, again.value.(stage := Verifying), VerificationStarted);
      QuietSnoc(old(did) + [Nothing], |old(did)|, t, write);
    }

    /** The entry write decides against concurrent writers; a lost race yields, or is retried once. */
    method Enter(pid: int, t: string, others: nat -> seq<Event>, a: Answer) returns (result: GateResult)
      requires Tracks(pid, others, a) && at == Some(Entering(t)) && forall n :: Rivals(others(n), pid)
      modifies store, ledger, `procs, `disabled, `turns, `at, `did
      ensures Ended(pid, others, a)
      ensures old(did) <= did
      ensures Gave(|old(store.audit)|, |old(did)|, t, result)
              || (result.Decided? && Yielded(result.outcome) && Quiet(did, |old(did)|, t))
      ensures |did| >= |old(did)| + 1 && did[|old(did)|] == Nothing
      ensures |did| == |old(did)| + 1 ==>
        result.ProvisioningError? && !StageIn(Sys(), t, {Registered, Provisioning, Verifying, Ready, Stage.Failed})
      ensures |did| > |old(did)| + 1 ==>
        var e := did[|old(did)| + 1];
        e == Nothing || (e.Write? && e.was.id == t
                         && e == Write(e.was, e.was.(stage := Verifying), VerificationStarted))
      ensures Warranted(t, a, result)
    {
      hide Play, Woven, Step, Rivals, Tracks, Advanced, Unmoved, OnRecord, Gave, Quiet, Warranted;
      forall s ensures Advanced(s, config, Entering(t), a).effect == Nothing {
        AfterEntering(s, config, t, a);
      }
      var record := ReadTurn(pid, t, others, a);
      AfterEntering(Sys(), config, t, a);
      QuietOne(old(did), t, Nothing);
      QuietMeans(old(store.audit), did, |old(did)|, t);
      YieldWarranted(t, a, ProvisioningError);
      if record.None? || record.value.stage in {Decommissioned, Suspended, Quarantined} {
        return ProvisioningError;
      }
      var started := StartTurn(pid, record.value, false, others, a);
      ghost var write := if started.None? then Nothing
                         else Write(record.value, record.value.(stage := Verifying), VerificationStarted);
      ghost var entered := did;
      QuietSnoc(old(did) + [Nothing], |old(did)|, t, write);
      if started.None? {
        started, result := Retry(pid, t, others, a);
        QuietJoins(entered, did, |old(did)|, t);
        QuietMeans(old(store.audit), did, |old(did)|, t);
        YieldWarranted(t, a, result);
        if started.None? {
          return;
        }
      }
      result := Examined(pid, started.value, t, others, a, old(did), old(store.audit));
    }

    /** The rest of a run that has entered. */
    method Examined(pid: int, r: Record, t: string, others: nat -> seq<Event>, a: Answer, ghost began: seq<Effect>,
            ghost audited: seq<Entry>)
      returns (result: GateResult)
      requires Tracks(pid, others, a) && at == Some(Probing(r)) && forall n :: Rivals(others(n), pid)
      requires r.stage == Verifying && r.id == t && audited <= store.audit
      requires began <= did && Quiet(did, |began|, t)
      modifies store, ledger, `procs, `disabled, `turns, `at, `did
      ensures Ended(pid, others, a) && old(did) <= did
      ensures Gave(|audited|, |began|, t, result) && Warranted(t, a, result)
    {
      hide Play, Woven, Step, Rivals, Tracks, Valid, Gave, Quiet, Warranted, Distinctness.Lacking,
        Distinctness.MeetsControl;
      ghost var n, mid := |store.audit|, did;
      result := Examine(pid, r, others, a);
      GaveEarlier(|audited|, n, |began|, mid, t, result);
    }

    lemma YieldWarranted(t: string, a: Answer, result: GateResult)
      ensures result.ProvisioningError? || Yielded(result.outcome) ==> Warranted(t, a, result)
    {
    }

    /** The gate gave way to a concurrent writer and decided nothing. */
    predicate Yielded(outcome: Distinctness.Outcome) {
      outcome == Distinctness.Outcome(Distinctness.VerificationIncomplete, "concurrent_lifecycle_winner")
    }

    method Verify(pid: int, t: string, others: nat -> seq<Event>, a: Answer) returns (result: GateResult)
      requires Valid() && pid !in procs && forall n :: Rivals(others(n), pid)
      modifies this, store, ledger
      ensures Ended(pid, others, a) && began == old(World(Sys(), procs[pid := Entering(t)]))
      ensures Gave(|old(store.audit)|, 0, t, result)
              || (result.Decided? && Yielded(result.outcome) && Quiet(did, 0, t))
      ensures |did| == 1 ==>
        result.ProvisioningError? && !StageIn(Sys(), t, {Registered, Provisioning, Verifying, Ready, Stage.Failed})
      ensures Warranted(t, a, result)
    {
      hide Play, Woven, Step, Rivals, Tracks, With, Gave, Quiet, Warranted;
      Begin(pid, Entering(t), others, a);
      result := Enter(pid, t, others, a);
    }

    method Reassociate(pid: int, t: string, association: SecretRef, others: nat -> seq<Event>, a: Answer)
      returns (result: GateResult)
      requires Valid() && pid !in procs && forall n :: Rivals(others(n), pid)
      modifies this, store, ledger
      ensures Ended(pid, others, a) && began == old(World(Sys(), procs[pid := Reassociating(t, association)]))
      ensures result.Decided? ==> Yielded(result.outcome) || OnRecord(|old(store.audit)|, t, result.outcome.result)
      ensures |did| == 1 ==>
        && result.ProvisioningError?
        && (t in store.tenants ==>
              store.tenants[t].stage == Quarantined || store.tenants[t].stage == Decommissioned)
      ensures |did| == 2 ==> result.ProvisioningError?
      ensures |did| > 2 ==>
        && Repointed(did, t, association)
        && (result.Decided? && !Yielded(result.outcome) ==> Closed(did, 6, t, result.outcome.result))
        && Warranted(t, a, result)
    {
      hide Play, Woven, Step, Rivals, Tracks, Advanced, Unmoved, OnRecord, Yielded, Notes,
        Repointed,
        Closed, Quiet, Warranted;
      Begin(pid, Reassociating(t, association), others, a);
      forall s ensures Advanced(s, config, Reassociating(t, association), a).effect == Nothing {
        AfterReassociating(s, config, t, association, a);
      }
      var record := ReadTurn(pid, t, others, a);
      AfterReassociating(Sys(), config, t, association, a);
      if record.None? || record.value.stage in {Quarantined, Decommissioned} {
        return ProvisioningError;
      }
      var updated := record.value.(stage := Verifying, association := association);
      ghost var telling :=
        Some(Noting(t, [SecretReferenceRegistered, RegistryMappingChanged, RouterCacheInvalidated], ThenVerify));
      forall s ensures Advanced(s, config, Repointing(record.value, association), a) ==
        if Unmoved(s, record.value) then Next(Write(record.value, updated, DatabaseAssociated), telling)
        else Next(Nothing, None) {
        AfterRepointing(s, config, record.value, association, a);
      }
      var repointed := WriteTurn(pid, record.value, updated, DatabaseAssociated, telling, None, others, a);
      if repointed.None? {
        return ProvisioningError;
      }
      Emit(pid, t, [SecretReferenceRegistered, RegistryMappingChanged, RouterCacheInvalidated], ThenVerify, others, a);
      RepointingDone(did, record.value, association);
      ghost var n, mid := |store.audit|, did;
      result := Enter(pid, t, others, a);
      RepointedStays(mid, did, t, association);
      if result.Decided? && !Yielded(result.outcome) {
        OnRecordEarlier(|old(store.audit)|, n, t, result.outcome.result);
      }
    }

    method DisableRouting(pid: int, t: string, others: nat -> seq<Event>, a: Answer)
      requires Valid() && pid !in procs && forall n :: Rivals(others(n), pid)
      modifies this, store, ledger
      ensures Ended(pid, others, a) && began == old(World(Sys(), procs[pid := Disabling(t)]))
      ensures did == [Disable(t), Note(t, RoutingDisabled), Note(t, RouterCacheInvalidated), Nothing]
    {
      hide Play, Woven, Step, Rivals, Tracks, RegistryStep, GateStep, With, Notes;
      Begin(pid, Disabling(t), others, a);
      Pause(pid, others, a);
      ghost var before := Sys();
      ledger.Remove(t);
      disabled := disabled + {t};
      LedgerEffects(before, t, config.control);
      Took(pid, others, a, before);
      Emit(pid, t, [RoutingDisabled, RouterCacheInvalidated], Finish, others, a);
      DisablingMarked(t);
    }

    /** Only a Failed tenant recovers; one with an anomaly on its trail is put on hold instead. */
    method Recover(pid: int, t: string, others: nat -> seq<Event>, a: Answer) returns (result: GateResult)
      requires Valid() && pid !in procs && forall n :: Rivals(others(n), pid)
      modifies this, store, ledger
      ensures Ended(pid, others, a) && began == old(World(Sys(), procs[pid := Recovering(t)]))
      ensures result.Decided? && result.outcome.result.Verified? ==>
        OnRecord(|old(store.audit)|, t, result.outcome.result)
      ensures |did| == 1 ==>
        result.ProvisioningError? && (t in store.tenants ==> store.tenants[t].stage != Stage.Failed)
      ensures |did| > 1 ==> Announces(did, t)
      ensures |did| > 1 && HasAnomaly(old(store.audit), t) ==>
        && (result.Decided? ==>
              result == Decided(Distinctness.Outcome(Distinctness.IsolationAnomaly, "anomaly_history")))
        && (forall i :: 0 <= i < |did| && did[i].Write? ==> did[i].updated.stage == Quarantined)
      ensures |did| > 1 && !HasAnomaly(store.audit, t) && result.Decided? ==>
        Closed(did, 4, t, result.outcome.result) || Yielded(result.outcome)
    {
      hide Play, Woven, Step, Rivals, Tracks, Advanced, OnRecord, HasAnomaly, Notes, Closed, Announces;
      Begin(pid, Recovering(t), others, a);
      forall s ensures Advanced(s, config, Recovering(t), a).effect == Nothing {
        AfterRecovering(s, config, t, a);
      }
      var record := ReadTurn(pid, t, others, a);
      AfterRecovering(Sys(), config, t, a);
      if record.None? || record.value.stage != Failed {
        return ProvisioningError;
      }
      Emit(pid, t, [OnboardingRecoveryStarted], ThenClassify, others, a);
      AnnouncesFirst(did, t);
      ghost var n, mid := |store.audit|, did;
      result := Reclassify(pid, t, others, a, old(store.audit));
      AnnouncesStill(mid + [Nothing], did, t);
      WritesSince(mid, did);
      if result.Decided? && result.outcome.result.Verified? {
        OnRecordEarlier(|old(store.audit)|, n, t, result.outcome.result);
      }
    }

    /** Isolation history on the trail holds the tenant; otherwise the gate decides. */
    method Reclassify(pid: int, t: string, others: nat -> seq<Event>, a: Answer, ghost was: seq<Entry>)
      returns (result: GateResult)
      requires Tracks(pid, others, a) && at == Some(Classifying(t)) && forall n :: Rivals(others(n), pid)
      requires was <= store.audit
      modifies store, ledger, `procs, `disabled, `turns, `at, `did
      ensures Ended(pid, others, a) && old(did) + [Nothing] <= did
      ensures result.Decided? && result.outcome.result.Verified? ==>
        OnRecord(|old(store.audit)|, t, result.outcome.result)
      ensures HasAnomaly(was, t) ==>
        && (result.Decided? ==>
              result == Decided(Distinctness.Outcome(Distinctness.IsolationAnomaly, "anomaly_history")))
        && (forall i :: |old(did)| <= i < |did| && did[i].Write? ==> did[i].updated.stage == Quarantined)
      ensures !HasAnomaly(store.audit, t) && result.Decided? ==>
        Closed(did, |old(did)| + 1, t, result.outcome.result) || Yielded(result.outcome)
    {
      hide Play, Woven, Step, Rivals, Tracks, Advanced, With, Apply, OnRecord, HasAnomaly, Notes, Closed, Quiet,
        Warranted, MovedFrom;
      NothingChanges();
      Pause(pid, others, a);
      AfterRecovering(Sys(), config, t, a);
      var history := HasAnomaly(store.audit, t);
      Noted(was, store.audit, t, RoutingDisabled);
      ghost var classified := store.audit;
      Took(pid, others, a, Sys());
      ghost var n, mid := |store.audit|, did;
      if history {
        var held := MoveTo(pid, t, ToQuarantined, others, a);
        MoveHolds(mid, did, t, held);
        Noted(classified, store.audit, t, RoutingDisabled);
        return if held.Some? then Decided(Distinctness.Outcome(Distinctness.IsolationAnomaly, "anomaly_history"))
               else ProvisioningError;
      }
      result := Enter(pid, t, others, a);
      if result.Decided? && !Yielded(result.outcome) {
        OnRecordEarlier(|old(store.audit)|, n, t, result.outcome.result);
      }
    }
  }

  lemma {:induction false} StaysOut(w: World, c: Config, events: seq<Event>, pid: int)
    requires Rivals(events, pid) && pid !in w.procs
    ensures pid !in Play(w, c, events).procs
  {
    hide Advanced, Apply;
    if events != [] {
      StaysOut(w, c, events[..|events| - 1], pid);
    }
  }
}
