/** How old a served routing view can be when resolutions and invalidations interleave: a resolution
    looks in the cache, waits for the control plane and only then stores what it heard. */
module Staleness {
  import opened Prelude
  import opened RoutingCache

  /** A view with the log position of its answer and the clock reading it was stored at. */
  datatype Tagged = Tagged(view: View, answer: nat, since: real)

  datatype Event =
    | Answered(tenantId: string, view: View, at: real)
    | Invalidated(tenantId: string)
    | Served(tenantId: string, view: View, answer: nat, since: real, at: real)

  datatype Phase = Asking(tenantId: string) | Holding(tenantId: string, view: View, answer: nat)

  datatype State = State(entries: seq<Entry<Tagged>>, log: seq<Event>, resolving: map<int, Phase>, clock: real)

  datatype Op =
    | Look(pid: int, tenantId: string, now: real)
    | Hear(pid: int, reply: Reply, now: real)
    | Store(pid: int, now: real)
    | Push(tenantId: string, now: real)

  datatype Settings = Settings(max: int, ttl: real, supported: set<string>)

  const START := State([], [], map[], 0.0)

  function Serve(s: State, c: Settings, tenantId: string, value: Tagged, now: real): State {
    if Gate(value.view, c.supported).Routable? then
      s.(log := s.log + [Served(tenantId, value.view, value.answer, value.since, now)])
    else s
  }

  function Step(s: State, c: Settings, op: Op): State {
    var s := s.(clock := op.now);
    match op
    case Look(pid, tenantId, now) =>
      if pid in s.resolving then s
      else
        var (kept, hit) := Lookup(s.entries, tenantId, now);
        var s1 := s.(entries := kept);
        if hit.Some? then Serve(s1, c, tenantId, hit.value, now)
          else s1.(resolving := s1.resolving[pid := Asking(tenantId)])
    case Hear(pid, reply, now) =>
      if !(pid in s.resolving && s.resolving[pid].Asking?) then s
      else if !reply.Answers? then s.(resolving := s.resolving - {pid})
      else
        var t := s.resolving[pid].tenantId;
        s.(log := s.log + [Answered(t, reply.view, now)], resolving :=
           s.resolving[pid := Holding(t, reply.view, |s.log|)])
    case Store(pid, now) =>
      if !(pid in s.resolving && s.resolving[pid].Holding?) then s
      else
        var h := s.resolving[pid];
        var s1 := s.(resolving := s.resolving - {pid});
        var grown := Insert(s.entries, c.max, c.ttl, h.tenantId, Tagged(h.view, h.answer, now), now);
        if grown.None? then s1
        else Serve(s1.(entries := grown.value), c, h.tenantId, Tagged(h.view, h.answer, now), now)
    case Push(tenantId, now) =>
      s.(entries := Remove(s.entries, tenantId), log := s.log + [Invalidated(tenantId)])
  }

  function Run(c: Settings, ops: seq<Op>): State {
    if ops == [] then START else Step(Run(c, ops[..|ops| - 1]), c, ops[|ops| - 1])
  }

  /** The clock before operation `i`. */
  function ClockAt(ops: seq<Op>, i: nat): real
    requires i <= |ops|
  {
    if i == 0 then 0.0 else ops[i - 1].now
  }

  predicate Monotone(ops: seq<Op>) {
    forall i :: 0 <= i < |ops| ==> ops[i].now >= ClockAt(ops, i)
  }

  lemma MonotoneInit(ops: seq<Op>)
    requires Monotone(ops) && ops != []
    ensures var init := ops[..|ops| - 1];
      Monotone(init) && ops[|ops| - 1].now >= ClockAt(init, |init|)
  {
    var init := ops[..|ops| - 1];
    forall i | 0 <= i < |init| ensures init[i].now >= ClockAt(init, i) {
      assert init[i] == ops[i] && ClockAt(init, i) == ClockAt(ops, i);
    }
    assert ClockAt(init, |init|) == ClockAt(ops, |init|);
  }

  // ----- bounded staleness, whatever the interleaving ---------------------------------------------

  /** Position `answer` of the log is where the control plane gave this view for this tenant. */
  predicate AnsweredBy(log: seq<Event>, answer: nat, tenantId: string, view: View, latest: real) {
    answer < |log| && log[answer].Answered? && log[answer].tenantId == tenantId && log[answer].view == view
        && log[answer].at <= latest
  }

  predicate GoodEntry(s: State, c: Settings, e: Entry<Tagged>) {
    && AnsweredBy(s.log, e.value.answer, e.tenantId, e.value.view, e.value.since)
    && e.expires == e.value.since + c.ttl && e.value.since <= s.clock
  }

  predicate GoodPhase(s: State, p: Phase) {
    p.Holding? ==> AnsweredBy(s.log, p.answer, p.tenantId, p.view, s.clock)
  }

  /** A served view may be routed to, was answered before it was stored, and was stored no longer
      ago than the time to live. */
  predicate GoodService(log: seq<Event>, c: Settings, k: nat)
    requires k < |log|
  {
    log[k].Served? ==>
      var e := log[k];
      && e.answer < k && AnsweredBy(log, e.answer, e.tenantId, e.view, e.since)
      && MayRoute(e.view, c.supported)
      && 0.0 <= e.at - e.since <= if c.ttl > 0.0 then c.ttl else 0.0
  }

  ghost predicate Inv(s: State, c: Settings) {
    && Bounded(s.entries, c.max)
    && (forall e :: e in s.entries ==> GoodEntry(s, c, e))
    && (forall p :: p in s.resolving ==> GoodPhase(s, s.resolving[p]))
    && (forall k :: 0 <= k < |s.log| ==> GoodService(s.log, c, k))
  }

  lemma ExtendInv(s: State, s': State, c: Settings, more: seq<Event>)
    requires Inv(s, c) && s'.log == s.log + more && |more| <= 1 && s'.clock >= s.clock
    requires s'.entries == s.entries && s'.resolving == s.resolving
    requires more != [] ==> GoodService(s'.log, c, |s.log|)
    ensures Inv(s', c)
  {
    forall k | 0 <= k < |s'.log| ensures GoodService(s'.log, c, k) {
      assert k < |s.log| ==> GoodService(s.log, c, k);
    }
    forall e | e in s'.entries ensures GoodEntry(s', c, e) {
      assert GoodEntry(s, c, e);
    }
    forall p | p in s'.resolving ensures GoodPhase(s', s'.resolving[p]) {
      assert GoodPhase(s, s.resolving[p]);
    }
  }

  lemma ServeInv(s: State, c: Settings, tenantId: string, v: Tagged, now: real)
    requires Inv(s, c) && AnsweredBy(s.log, v.answer, tenantId, v.view, v.since)
    requires 0.0 <= now - v.since <= if c.ttl > 0.0 then c.ttl else 0.0
    ensures Inv(Serve(s, c, tenantId, v, now), c)
  {
    hide Inv;
    if Gate(v.view, c.supported).Routable? {
      ExtendInv(s, Serve(s, c, tenantId, v, now), c, [Served(tenantId, v.view, v.answer, v.since, now)]);
    } else {
      assert s.(log := s.log) == s;
    }
  }

  lemma TickInv(s: State, c: Settings, now: real)
    requires Inv(s, c) && s.clock <= now
    ensures Inv(s.(clock := now), c)
  {
    hide Inv;
    assert s.log + [] == s.log;
    ExtendInv(s, s.(clock := now), c, []);
  }

  lemma LookInv(s: State, c: Settings, pid: int, tenantId: string)
    requires Inv(s, c)
    ensures Inv(Step(s, c, Look(pid, tenantId, s.clock)), c)
  {
    RemoveKeeps(s.entries, c.max, tenantId);
    var (kept, hit) := Lookup(s.entries, tenantId, s.clock);
    var s1 := s.(entries := kept);
    assert Inv(s1, c) by {
      forall e | e in kept ensures GoodEntry(s1, c, e) {
        assert GoodEntry(s, c, e);
      }
      forall p | p in s1.resolving ensures GoodPhase(s1, s1.resolving[p]) {
        assert GoodPhase(s, s.resolving[p]);
      }
    }
    if pid !in s.resolving {
      if hit.Some? {
        var e := s.entries[IndexOf(s.entries, tenantId)];
        assert GoodEntry(s, c, e);
        ServeInv(s1, c, tenantId, e.value, s.clock);
      } else {
        PhaseInv(s1, c, pid, Asking(tenantId));
      }
    }
  }

  lemma PhaseInv(s: State, c: Settings, pid: int, p: Phase)
    requires Inv(s, c) && GoodPhase(s, p)
    ensures Inv(s.(resolving := s.resolving[pid := p]), c)
    ensures Inv(s.(resolving := s.resolving - {pid}), c)
  {
    forall s': State | s' == s.(resolving := s.resolving[pid := p]) || s' == s.(resolving := s.resolving - {pid})
      ensures Inv(s', c)
    {
      forall e | e in s'.entries ensures GoodEntry(s', c, e) {
        assert GoodEntry(s, c, e);
      }
    }
  }

  lemma HearInv(s: State, c: Settings, pid: int, reply: Reply)
    requires Inv(s, c)
    ensures Inv(Step(s, c, Hear(pid, reply, s.clock)), c)
  {
    hide Inv;
    if pid in s.resolving && s.resolving[pid].Asking? {
      if reply.Answers? {
        var t := s.resolving[pid].tenantId;
        var s1 := s.(log := s.log + [Answered(t, reply.view, s.clock)]);
        ExtendInv(s, s1, c, [Answered(t, reply.view, s.clock)]);
        PhaseInv(s1, c, pid, Holding(t, reply.view, |s.log|));
      } else {
        PhaseInv(s, c, pid, Asking(""));
      }
    }
  }

  lemma StoreInv(s: State, c: Settings, pid: int)
    requires Inv(s, c)
    ensures Inv(Step(s, c, Store(pid, s.clock)), c)
  {
    if pid in s.resolving && s.resolving[pid].Holding? {
      var h := s.resolving[pid];
      assert GoodPhase(s, h);
      var s1 := s.(resolving := s.resolving - {pid});
      PhaseInv(s, c, pid, Asking(""));
      var v := Tagged(h.view, h.answer, s.clock);
      InsertKeeps(s.entries, c.max, c.ttl, h.tenantId, v, s.clock);
      var grown := Insert(s.entries, c.max, c.ttl, h.tenantId, v, s.clock);
      if grown.Some? {
        var s2 := s1.(entries := grown.value);
        assert Inv(s2, c) by {
          forall e | e in s2.entries ensures GoodEntry(s2, c, e) {
            assert e in s.entries ==> GoodEntry(s, c, e);
          }
          forall p | p in s2.resolving ensures GoodPhase(s2, s2.resolving[p]) {
            assert GoodPhase(s, s.resolving[p]);
          }
        }
        ServeInv(s2, c, h.tenantId, v, s.clock);
      }
    }
  }

  lemma PushInv(s: State, c: Settings, tenantId: string)
    requires Inv(s, c)
    ensures Inv(Step(s, c, Push(tenantId, s.clock)), c)
  {
    RemoveKeeps(s.entries, c.max, tenantId);
    var s1 := s.(entries := Remove(s.entries, tenantId));
    assert Inv(s1, c) by {
      forall e | e in s1.entries ensures GoodEntry(s1, c, e) {
        assert GoodEntry(s, c, e);
      }
      forall p | p in s1.resolving ensures GoodPhase(s1, s1.resolving[p]) {
        assert GoodPhase(s, s.resolving[p]);
      }
    }
    ExtendInv(s1, Step(s, c, Push(tenantId, s.clock)), c, [Invalidated(tenantId)]);
  }

  lemma StepInv(s: State, c: Settings, op: Op)
    requires Inv(s, c) && s.clock <= op.now
    ensures Inv(Step(s, c, op), c)
  {
    hide Inv, Step;
    var s1 := s.(clock := op.now);
    TickInv(s, c, op.now);
    ClockFirst(s, c, op);
    match op
    case Look(pid, tenantId, _) => LookInv(s1, c, pid, tenantId);
    case Hear(pid, reply, _) => HearInv(s1, c, pid, reply);
    case Store(pid, _) => StoreInv(s1, c, pid);
    case Push(tenantId, _) => PushInv(s1, c, tenantId);
  }

  lemma ClockFirst(s: State, c: Settings, op: Op)
    ensures Step(s.(clock := op.now), c, op) == Step(s, c, op)
  {
    assert s.(clock := op.now).(clock := op.now) == s.(clock := op.now);
  }

  lemma StepClock(s: State, c: Settings, op: Op)
    ensures Step(s, c, op).clock == op.now
  {
  }

  /** Over every interleaving with a monotone clock, every view ever served was answered by the
      control plane for that tenant and stored at most the time to live ago, may be routed to, and
      the cache never holds more than its bound. */
  lemma {:induction false} StalenessIsBounded(c: Settings, ops: seq<Op>)
    requires Monotone(ops)
    ensures Inv(Run(c, ops), c)
    ensures Run(c, ops).clock == ClockAt(ops, |ops|)
  {
    hide Inv, Step;
    if ops == [] {
      StartInv(c);
    } else {
      var init, op := ops[..|ops| - 1], ops[|ops| - 1];
      MonotoneInit(ops);
      StalenessIsBounded(c, init);
      assert op.now >= Run(c, init).clock;
      StepInv(Run(c, init), c, op);
      StepClock(Run(c, init), c, op);
    }
  }

  lemma StartInv(c: Settings)
    ensures Inv(START, c)
  {
  }

  /** The age of a view counts from its storing: a slow answer is already old when it is stored. */
  lemma SlowAnswerOutlivesTtl(c: Settings, view: View, t: string, delay: real)
    requires c.max >= 1 && c.ttl >= 0.0 && delay > 0.0 && MayRoute(view, c.supported)
    ensures var ops := [Look(0, t, 0.0), Hear(0, Answers(view), 0.0), Store(0, delay), Look(1, t, delay + c.ttl)];
      && Monotone(ops)
      && Run(c, ops).log
            == [Answered(t, view, 0.0), Served(t, view, 0, delay, delay), Served(t, view, 0, delay, delay + c.ttl)]
  {
    hide Step;
    var ops := [Look(0, t, 0.0), Hear(0, Answers(view), 0.0), Store(0, delay), Look(1, t, delay + c.ttl)];
    var a, b, d, e := Look(0, t, 0.0), Hear(0, Answers(view), 0.0), Store(0, delay), Look(1, t, delay + c.ttl);
    RunFour(c, a, b, d, e);
    AnswerUnderWay(c, view, t);
    var s2 := Step(Step(START, c, a), c, b);
    StoredLate(c, view, t, delay);
    var s3 := Step(s2, c, d);
    ServedAgain(s3, c, view, t, delay);
    assert ClockAt(ops, 0) == 0.0 && ClockAt(ops, 1) == 0.0 && ClockAt(ops, 2) == 0.0 && ClockAt(ops, 3) == delay;
  }

  lemma StoredLate(c: Settings, view: View, t: string, delay: real)
    requires c.max >= 1 && MayRoute(view, c.supported)
    ensures Step(State([], [Answered(t, view, 0.0)], map[0 := Holding(t, view, 0)], 0.0), c, Store(0, delay))
         == State([Entry(t, delay + c.ttl, Tagged(view, 0, delay))],
                  [Answered(t, view, 0.0), Served(t, view, 0, delay, delay)], map[], delay)
  {
  }

  lemma ServedAgain(s: State, c: Settings, view: View, t: string, delay: real)
    requires s.entries == [Entry(t, delay + c.ttl, Tagged(view, 0, delay))] && s.resolving == map[]
      && MayRoute(view, c.supported)
    ensures Step(s, c, Look(1, t, delay + c.ttl)).log == s.log + [Served(t, view, 0, delay, delay + c.ttl)]
  {
    assert IndexOf(s.entries, t) == 0;
  }

  /** The first two steps of the runs that fail: a view is answered at time zero and not yet stored. */
  lemma AnswerUnderWay(c: Settings, view: View, t: string)
    ensures Step(Step(START, c, Look(0, t, 0.0)), c, Hear(0, Answers(view), 0.0))
         == State([], [Answered(t, view, 0.0)], map[0 := Holding(t, view, 0)], 0.0)
  {
    assert Step(START, c, Look(0, t, 0.0)) == State([], [], map[0 := Asking(t)], 0.0);
  }

  lemma RunFour(c: Settings, a: Op, b: Op, d: Op, e: Op)
    ensures Run(c, [a, b, d, e]) == Step(Step(Step(Step(START, c, a), c, b), c, d), c, e)
  {
    hide Step;
    assert [a, b, d, e][..3] == [a, b, d] && [a, b, d][..2] == [a, b] && [a, b][..1] == [a] && [a][..0] == [];
    assert Run(c, [a]) == Step(START, c, a);
    assert Run(c, [a, b]) == Step(Run(c, [a]), c, b);
    assert Run(c, [a, b, d]) == Step(Run(c, [a, b]), c, d);
  }

  /** The cached view of a tenant is served at `now`. */
  predicate Serves(s: State, c: Settings, tenantId: string, now: real) {
    Lookup(s.entries, tenantId, now).1.Some?
        && Gate(Lookup(s.entries, tenantId, now).1.value.view, c.supported).Routable?
  }

  /** A cached view is only ever served within the time to live of its answer exactly when it was
      stored at the very moment of the answer. */
  lemma YoungIffStoredAtOnce(s: State, c: Settings, tenantId: string)
    requires Inv(s, c) && Has(s.entries, tenantId)
    requires MayRoute(s.entries[IndexOf(s.entries, tenantId)].value.view, c.supported)
    ensures var e := s.entries[IndexOf(s.entries, tenantId)];
      e.value.answer < |s.log| && s.log[e.value.answer].Answered? &&
      var at := s.log[e.value.answer].at;
      (forall now :: Serves(s, c, tenantId, now) ==> now - at <= c.ttl) <==> e.value.since == at
  {
    var e := s.entries[IndexOf(s.entries, tenantId)];
    assert GoodEntry(s, c, e);
    assert Serves(s, c, tenantId, e.expires);
  }

  // ----- invalidation -------------------------------------------------------------------------------

  /** No invalidation of the tenant after `answer` and before `end`. */
  predicate Clean(log: seq<Event>, tenantId: string, answer: nat, end: nat)
    requires end <= |log|
  {
    forall j :: answer < j < end ==> log[j] != Invalidated(tenantId)
  }

  predicate FreshService(log: seq<Event>, k: nat)
    requires k < |log|
  {
    log[k].Served? ==> Clean(log, log[k].tenantId, log[k].answer, k)
  }

  /** Everything cached and everything ever served was answered after the last invalidation. */
  ghost predicate Fresh(s: State) {
    && (forall e :: e in s.entries ==> Clean(s.log, e.tenantId, e.value.answer, |s.log|))
    && (forall k :: 0 <= k < |s.log| ==> FreshService(s.log, k))
  }

  /** The view about to be stored has not been invalidated while it was under way. */
  predicate Unraced(s: State, op: Op) {
    op.Store? && op.pid in s.resolving && s.resolving[op.pid].Holding? ==>
      Clean(s.log, s.resolving[op.pid].tenantId, s.resolving[op.pid].answer, |s.log|)
  }

  lemma ExtendFresh(s: State, s': State, more: seq<Event>)
    requires Fresh(s) && s'.log == s.log + more && |more| <= 1
    requires forall e :: e in s'.entries ==> Clean(s.log, e.tenantId, e.value.answer, |s.log|)
    requires more != [] && more[0].Served? ==> Clean(s.log, more[0].tenantId, more[0].answer, |s.log|)
    requires more != [] && more[0].Invalidated? ==> forall e :: e in s'.entries ==> e.tenantId != more[0].tenantId
    ensures Fresh(s')
  {
    forall e | e in s'.entries ensures Clean(s'.log, e.tenantId, e.value.answer, |s'.log|) {
      assert Clean(s.log, e.tenantId, e.value.answer, |s.log|);
      assert forall j :: 0 <= j < |s.log| ==> s'.log[j] == s.log[j];
    }
    forall k | 0 <= k < |s'.log| ensures FreshService(s'.log, k) {
      assert k < |s.log| ==> FreshService(s.log, k);
    }
  }

  lemma ServeFresh(s: State, c: Settings, tenantId: string, v: Tagged, now: real)
    requires Fresh(s) && Clean(s.log, tenantId, v.answer, |s.log|)
    ensures Fresh(Serve(s, c, tenantId, v, now))
  {
    if Gate(v.view, c.supported).Routable? {
      ExtendFresh(s, Serve(s, c, tenantId, v, now), [Served(tenantId, v.view, v.answer, v.since, now)]);
    } else {
      assert s.(log := s.log) == s;
    }
  }

  lemma StoreFresh(s: State, c: Settings, pid: int, now: real)
    requires Inv(s, c) && Fresh(s) && Unraced(s, Store(pid, now))
    ensures Fresh(Step(s, c, Store(pid, now)))
  {
    if pid in s.resolving && s.resolving[pid].Holding? {
      var h := s.resolving[pid];
      var v := Tagged(h.view, h.answer, now);
      InsertKeeps(s.entries, c.max, c.ttl, h.tenantId, v, now);
      var grown := Insert(s.entries, c.max, c.ttl, h.tenantId, v, now);
      assert s.log + [] == s.log;
      if grown.Some? {
        var s1 := s.(clock := now, resolving := s.resolving - {pid}, entries := grown.value);
        ExtendFresh(s, s1, []);
        ServeFresh(s1, c, h.tenantId, v, now);
      }
    }
  }

  lemma LookupTells(entries: seq<Entry<Tagged>>, max: int, tenantId: string, now: real)
    requires Bounded(entries, max)
    ensures var (kept, hit) := Lookup(entries, tenantId, now);
      && (forall e :: e in kept ==> e in entries)
      && (hit.Some? ==> exists e :: e in entries && e.tenantId == tenantId && e.value == hit.value)
  {
    RemoveKeeps(entries, max, tenantId);
    var i := IndexOf(entries, tenantId);
    if i < |entries| {
      assert entries[i] in entries && entries[i].tenantId == tenantId;
    }
  }

  lemma Looked(s: State, c: Settings, pid: int, tenantId: string, now: real)
    ensures var (kept, hit) := Lookup(s.entries, tenantId, now);
      Step(s, c, Look(pid, tenantId, now)) ==
        if pid in s.resolving then s.(clock := now)
        else if hit.Some? then Serve(s.(clock := now, entries := kept), c, tenantId, hit.value, now)
        else s.(clock := now, entries := kept, resolving := s.resolving[pid := Asking(tenantId)])
  {
    hide Lookup, Serve;
  }

  lemma LookFresh(s: State, c: Settings, pid: int, tenantId: string, now: real)
    requires Inv(s, c) && Fresh(s)
    ensures Fresh(Step(s, c, Look(pid, tenantId, now)))
  {
    hide Gate, Clean, FreshService, Bounded, Lookup, Serve, Step;
    var (kept, hit) := Lookup(s.entries, tenantId, now);
    LookupTells(s.entries, c.max, tenantId, now);
    Looked(s, c, pid, tenantId, now);
    assert s.log + [] == s.log;
    if pid !in s.resolving && hit.Some? {
      var s1 := s.(clock := now, entries := kept);
      ExtendFresh(s, s1, []);
      ServeFresh(s1, c, tenantId, hit.value, now);
    } else {
      ExtendFresh(s, Step(s, c, Look(pid, tenantId, now)), []);
    }
  }

  lemma OtherFresh(s: State, c: Settings, op: Op)
    requires Inv(s, c) && Fresh(s) && (op.Hear? || op.Push?)
    ensures Fresh(Step(s, c, op))
  {
    hide Gate, Clean;
    assert s.log + [] == s.log;
    match op
    case Hear(pid, reply, now) =>
      var s1 := Step(s, c, op);
      ExtendFresh(s, s1, s1.log[|s.log|..]);
    case Push(tenantId, now) =>
      RemoveKeeps(s.entries, c.max, tenantId);
      ExtendFresh(s, Step(s, c, op), [Invalidated(tenantId)]);
  }

  /** A step that stores nothing keeps everything fresh; one that stores a view keeps it fresh exactly
      when no invalidation of that tenant came between the answer and the storing. */
  lemma FreshIffUnraced(s: State, c: Settings, op: Op)
    requires Inv(s, c) && Fresh(s) && c.max >= 1
    ensures Fresh(Step(s, c, op)) <==> Unraced(s, op)
  {
    if op.Store? {
      if Unraced(s, op) {
        StoreFresh(s, c, op.pid, op.now);
      } else {
        var h, s' := s.resolving[op.pid], Step(s, c, op);
        var v := Tagged(h.view, h.answer, op.now);
        InsertKeeps(s.entries, c.max, c.ttl, h.tenantId, v, op.now);
        assert Entry(h.tenantId, op.now + c.ttl, v) in s'.entries;
        var j :| h.answer < j < |s.log| && s.log[j] == Invalidated(h.tenantId);
        assert s'.log[j] == s.log[j];
      }
    } else {
      if op.Look? {
        LookFresh(s, c, op.pid, op.tenantId, op.now);
      } else {
        OtherFresh(s, c, op);
      }
    }
  }

  predicate UnracedRun(c: Settings, ops: seq<Op>) {
    ops != [] ==> UnracedRun(c, ops[..|ops| - 1]) && Unraced(Run(c, ops[..|ops| - 1]), ops[|ops| - 1])
  }

  /** Without such a race nothing invalidated is ever served or kept. */
  lemma {:induction false} NothingInvalidatedIsServed(c: Settings, ops: seq<Op>)
    requires Monotone(ops) && c.max >= 1 && UnracedRun(c, ops)
    ensures Fresh(Run(c, ops))
  {
    hide Inv, Step, Fresh, Unraced;
    if ops == [] {
      StartFresh();
    } else {
      var init := ops[..|ops| - 1];
      MonotoneInit(ops);
      NothingInvalidatedIsServed(c, init);
      StalenessIsBounded(c, init);
      FreshIffUnraced(Run(c, init), c, ops[|ops| - 1]);
    }
  }

  lemma StartFresh()
    ensures Fresh(START)
  {
  }

  /** With it, a view is served after it was invalidated. */
  lemma RacedStoreServesInvalidated(c: Settings, view: View, t: string)
    requires c.max >= 1 && MayRoute(view, c.supported)
    ensures var ops := [Look(0, t, 0.0), Hear(0, Answers(view), 0.0), Push(t, 0.0), Store(0, 0.0)];
      && Run(c, ops).log == [Answered(t, view, 0.0), Invalidated(t), Served(t, view, 0, 0.0, 0.0)]
      && !Fresh(Run(c, ops))
  {
    var a, b, d, e := Look(0, t, 0.0), Hear(0, Answers(view), 0.0), Push(t, 0.0), Store(0, 0.0);
    RunFour(c, a, b, d, e);
    AnswerUnderWay(c, view, t);
    var s2 := Step(Step(START, c, a), c, b);
    var s3 := Step(s2, c, d);
    assert s3 == State([], [Answered(t, view, 0.0), Invalidated(t)], map[0 := Holding(t, view, 0)], 0.0);
    var log := Step(s3, c, e).log;
    assert log[1] == Invalidated(t) && !FreshService(log, 2);
  }
}
