/** Where each pool operation leaves a connection, in fields of the pools: idle, in use, closed or lent. */
module PoolPlaces {
  import opened Prelude
  import opened Pool
  import ConnectionPool

  // ----- eviction --------------------------------------------------------------------------------------

  /** An idle entry stays exactly when it was returned no longer than `timeout` ago. */
  lemma {:induction false} FreshIff(idle: seq<Idle>, now: real, timeout: real)
    ensures forall e :: e in Fresh(idle, now, timeout) <==> e in idle && now - e.lastUsed <= timeout
  {
    if idle != [] {
      FreshIff(idle[..|idle| - 1], now, timeout);
      assert idle == idle[..|idle| - 1] + [idle[|idle| - 1]];
    }
  }

  lemma InConns(idle: seq<Idle>, c: Conn)
    ensures c in Conns(idle) <==> exists e :: e in idle && e.conn == c
  {
    if c in Conns(idle) {
      var i :| 0 <= i < |idle| && idle[i].conn == c;
      assert idle[i] in idle;
    }
  }

  lemma OneEntryEach(idle: seq<Idle>, d: Idle, e: Idle)
    requires Distinct(idle) && d in idle && e in idle && d.conn == e.conn
    ensures d == e
  {
    var i :| 0 <= i < |idle| && idle[i] == d;
    var j :| 0 <= j < |idle| && idle[j] == e;
  }

  /** Eviction closes an idle connection exactly when more than `timeout` has passed since its return, and
      keeps it idle in its pool otherwise; what is in use stays in use. */
  lemma EvictionIff(s: State, max: int, now: real, timeout: real, key: Key, e: Idle)
    requires Inv(s, max) && key in s.pools && e in s.pools[key].idle
    ensures var s' := Evict(s, now, timeout);
      && (now - e.lastUsed > timeout <==> e.conn in s'.closed)
      && (now - e.lastUsed <= timeout <==> key in s'.pools && e in s'.pools[key].idle)
  {
    hide Places, Accounted;
    var idle := s.pools[key].idle;
    assert PoolOk(key, s.pools[key], max);
    FreshIff(idle, now, timeout);
    InConns(idle, e.conn);
    InConns(Fresh(idle, now, timeout), e.conn);
    if e.conn in Conns(Fresh(idle, now, timeout)) {
      var d :| d in Fresh(idle, now, timeout) && d.conn == e.conn;
      OneEntryEach(idle, d, e);
    }
    IdleNotClosed(s, max, key, e.conn);
    OwnPoolOnly(s, max, key, e.conn);
  }

  lemma IdleNotClosed(s: State, max: int, key: Key, c: Conn)
    requires Inv(s, max) && key in s.pools && c in Conns(s.pools[key].idle)
    ensures KeyOf(c) == key && c !in s.closed
  {
    assert PoolOk(key, s.pools[key], max);
    assert Places(s, c) == if c in s.everOpened then 1 else 0;
  }

  lemma OwnPoolOnly(s: State, max: int, key: Key, c: Conn)
    requires Inv(s, max) && KeyOf(c) == key
    ensures forall k :: k in s.pools && c in Conns(s.pools[k].idle) ==> k == key
  {
    forall k | k in s.pools && c in Conns(s.pools[k].idle) ensures k == key {
      assert PoolOk(k, s.pools[k], max);
    }
  }

  // ----- release ---------------------------------------------------------------------------------------

  /** A connection handed back is closed unless it was in use, reset and alive, and has not been idle too
      long already; then it is idle in its own pool from its return time on. */
  lemma ReleaseIff(s: State, max: int, timeout: real, c: Conn, resets: bool, alive: bool, returned: real, now: real)
    requires Inv(s, max) && Held(s, c)
    ensures var s', key := Release(s, timeout, c, resets, alive, returned, now), (c.tenantId, c.version);
      var kept := key in s.pools && c in s.pools[key].inUse && resets && alive && now - returned <= timeout;
      && (c in s'.closed <==> !kept)
      && (kept ==> key in s'.pools && Idle(c, returned) in s'.pools[key].idle)
  {
    hide Inv, Evict, Conns, Places;
    var key, p := KeyOf(c), PoolAt(s, KeyOf(c));
    if c in p.inUse {
      HeldNotClosed(s, max, c);
      var q := KeyedPool(p.idle + [Idle(c, returned)], p.inUse - {c});
      ConnectionPool.ReturnedInv(s, max, c, returned);
      assert Idle(c, returned) in q.idle by { assert q.idle[|p.idle|] == Idle(c, returned); }
      EvictionIff(WithPool(s, key, q), max, now, timeout, key, Idle(c, returned));
    }
  }

  lemma HeldNotClosed(s: State, max: int, c: Conn)
    requires Inv(s, max) && IsInUse(s, c)
    ensures c !in s.closed
  {
    assert Places(s, c) == if c in s.everOpened then 1 else 0;
  }

  // ----- draining --------------------------------------------------------------------------------------

  /** Exactly the tenant's pools of other versions are dropped, their idle connections closed and their used
      ones left to their holders; every other pool stands as it was. */
  lemma DrainingIff(s: State, tenantId: string, keepVersion: string, tenant: string, version: string)
    requires (tenant, version) in s.pools
    ensures var s', p := Invalidate(s, tenantId, keepVersion), s.pools[(tenant, version)];
      if tenant == tenantId && version != keepVersion then
        && (tenant, version) !in s'.pools && p.inUse <= s'.lent
        && forall e :: e in p.idle ==> e.conn in s'.closed
      else (tenant, version) in s'.pools && s'.pools[(tenant, version)] == p
  {
    var s', key, p := Invalidate(s, tenantId, keepVersion), (tenant, version), s.pools[(tenant, version)];
    forall e | Drained(key, tenantId, keepVersion) && e in p.idle ensures e.conn in s'.closed {
      InConns(p.idle, e.conn);
    }
  }

  // ----- acquisition -----------------------------------------------------------------------------------

  /** An idle entry that may be handed out again. */
  predicate Usable(e: Idle, now: real, timeout: real, alive: Conn -> bool) {
    now - e.lastUsed <= timeout && alive(e.conn)
  }

  predicate NoneUsable(idle: seq<Idle>, now: real, timeout: real, alive: Conn -> bool) {
    forall j :: 0 <= j < |idle| ==> !Usable(idle[j], now, timeout, alive)
  }

  /** The newest usable entry stands at `i`. */
  predicate NewestAt(idle: seq<Idle>, i: nat, now: real, timeout: real, alive: Conn -> bool) {
    && i < |idle| && Usable(idle[i], now, timeout, alive)
    && forall j :: i < j < |idle| ==> !Usable(idle[j], now, timeout, alive)
  }

  /** What popping dead connections off the unexpired ones stops at is the newest usable entry. */
  lemma {:induction false} NewestUsable(idle: seq<Idle>, now: real, timeout: real, alive: Conn -> bool)
    returns (i: nat)
    ensures StopsAt(idle, i, now, timeout, alive)
  {
    hide Usable, AliveUpTo, NoneUsable, NewestAt, Fresh;
    i := 0;
    if idle == [] {
      NothingIdle(now, timeout, alive);
    } else {
      i := NewestUsable(idle[..|idle| - 1], now, timeout, alive);
      i := OneMoreIdle(idle, i, now, timeout, alive);
    }
  }

  predicate StopsAt(idle: seq<Idle>, i: nat, now: real, timeout: real, alive: Conn -> bool) {
    var kept := Fresh(idle, now, timeout);
    var n := AliveUpTo(kept, alive);
    if n == 0 then NoneUsable(idle, now, timeout, alive)
    else NewestAt(idle, i, now, timeout, alive) && idle[i] == kept[n - 1]
  }

  lemma NothingIdle(now: real, timeout: real, alive: Conn -> bool)
    ensures StopsAt([], 0, now, timeout, alive)
  {
  }

  lemma OneMoreIdle(idle: seq<Idle>, i: nat, now: real, timeout: real, alive: Conn -> bool) returns (i': nat)
    requires idle != [] && StopsAt(idle[..|idle| - 1], i, now, timeout, alive)
    ensures StopsAt(idle, i', now, timeout, alive)
  {
    hide AliveUpTo, NoneUsable, NewestAt;
    var init, last := idle[..|idle| - 1], idle[|idle| - 1];
    var kept := Fresh(init, now, timeout);
    LastKept(kept, last, alive);
    assert kept + [] == kept;
    i' := i;
    if Usable(last, now, timeout, alive) {
      i' := |idle| - 1;
      NewestIsLast(idle, now, timeout, alive);
    } else {
      UnusableLast(idle, i, now, timeout, alive);
      NewestBelow(init, i, now, timeout, alive);
    }
  }

  lemma NewestIsLast(idle: seq<Idle>, now: real, timeout: real, alive: Conn -> bool)
    requires idle != [] && Usable(idle[|idle| - 1], now, timeout, alive)
    ensures NewestAt(idle, |idle| - 1, now, timeout, alive)
  {
  }

  lemma NewestBelow(idle: seq<Idle>, i: nat, now: real, timeout: real, alive: Conn -> bool)
    ensures NewestAt(idle, i, now, timeout, alive) ==> i < |idle|
  {
  }

  lemma UnusableLast(idle: seq<Idle>, i: nat, now: real, timeout: real, alive: Conn -> bool)
    requires idle != [] && !Usable(idle[|idle| - 1], now, timeout, alive)
    ensures var init := idle[..|idle| - 1];
      && (NoneUsable(init, now, timeout, alive) ==> NoneUsable(idle, now, timeout, alive))
      && (NewestAt(init, i, now, timeout, alive) ==> NewestAt(idle, i, now, timeout, alive))
  {
    hide Usable;
    var init := idle[..|idle| - 1];
    assert forall j :: 0 <= j < |init| ==> idle[j] == init[j];
  }

  lemma LastKept(kept: seq<Idle>, last: Idle, alive: Conn -> bool)
    ensures AliveUpTo(kept + [last], alive) == if alive(last.conn) then |kept| + 1 else AliveUpTo(kept, alive)
  {
    assert (kept + [last])[..|kept|] == kept;
  }

  /** Which of its four answers an acquisition gives: the newest usable idle connection of the key, or with
      none and no room the refusal, and otherwise what opening says. */
  lemma AnswerIff(s: State, max: int, timeout: real, tenantId: string, version: string, now: real, alive: Conn -> bool,
          opening: Opening)
    ensures var key := (tenantId, version);
      var idle := if key in s.pools then s.pools[key].idle else [];
      var used := if key in s.pools then s.pools[key].inUse else {};
      var answer := Acquire(s, max, timeout, tenantId, version, now, alive, opening).acquired;
      if !NoneUsable(idle, now, timeout, alive) then
        exists i: nat :: NewestAt(idle, i, now, timeout, alive) && answer == Got(idle[i].conn)
      else if |used| >= max then answer == Exhausted
      else if opening == OpenFails then answer == OpenFailed
      else if opening.conn.tenantId != tenantId || opening.conn.version != version then answer == WrongBinding
      else answer == Got(opening.conn)
  {
    hide Conns, Fresh, AliveUpTo;
    var key := (tenantId, version);
    var idle := if key in s.pools then s.pools[key].idle else [];
    var s1 := Evict(s, now, timeout);
    var n := AliveUpTo(PoolAt(s1, key).idle, alive);
    var i := NewestUsable(idle, now, timeout, alive);
    EvictedPool(s, key, now, timeout);
    PoppedTop(s1, key, n);
  }

  lemma EvictedPool(s: State, key: Key, now: real, timeout: real)
    ensures PoolAt(Evict(s, now, timeout), key)
            == KeyedPool(Fresh(PoolAt(s, key).idle, now, timeout), PoolAt(s, key).inUse)
  {
    assert Fresh([], now, timeout) == [];
  }

  // ----- histories -------------------------------------------------------------------------------------

  lemma ClosedStays(s: State, max: int, timeout: real, op: Op)
    ensures s.closed <= Step(s, max, timeout, op).closed
  {
    hide Conns, AliveUpTo, PoolAt, Fresh;
  }

  lemma {:induction false} ClosedForEver(max: int, timeout: real, ops: seq<Op>, n: nat)
    requires n <= |ops|
    ensures Run(max, timeout, ops[..n]).closed <= Run(max, timeout, ops).closed
    decreases |ops|
  {
    hide Step;
    if n == |ops| {
      assert ops[..n] == ops;
    } else {
      var init := ops[..|ops| - 1];
      assert init[..n] == ops[..n];
      ClosedForEver(max, timeout, init, n);
      ClosedStays(Run(max, timeout, init), max, timeout, ops[|ops| - 1]);
    }
  }

  lemma {:induction false} PrefixEnabled(max: int, timeout: real, ops: seq<Op>, n: nat)
    requires EnabledRun(max, timeout, ops) && n <= |ops|
    ensures EnabledRun(max, timeout, ops[..n])
    decreases |ops|
  {
    hide Step, Enabled;
    if n == |ops| {
      assert ops[..n] == ops;
    } else {
      assert ops[..|ops| - 1][..n] == ops[..n];
      PrefixEnabled(max, timeout, ops[..|ops| - 1], n);
    }
  }

  /** Over any history a connection handed back without a successful reset is never handed out again. */
  lemma UnresetNeverReused(max: int, timeout: real, ops: seq<Op>, n: nat, m: nat)
    requires EnabledRun(max, timeout, ops) && n < m < |ops|
    requires ops[n].OpRelease? && !ops[n].resets && ops[m].OpAcquire?
    ensures var op := ops[m];
      Acquire(Run(max, timeout, ops[..m]), max, timeout, op.tenantId, op.version, op.now, op.alive, op.opening).acquired
      != Got(ops[n].conn)
  {
    hide Inv, Acquire, Release, Run, EnabledRun;
    var op, back := ops[m], ops[n];
    PrefixEnabled(max, timeout, ops, n + 1);
    PrefixEnabled(max, timeout, ops, m + 1);
    LastEnabled(max, timeout, ops[..n + 1]);
    LastEnabled(max, timeout, ops[..m + 1]);
    assert ops[..n + 1][..n] == ops[..n] && ops[..m + 1][..m] == ops[..m];
    var before := Run(max, timeout, ops[..n]);
    ReleaseIff(before, max, timeout, back.conn, false, back.live, back.returned, back.now);
    assert ops[..m][..n + 1] == ops[..n + 1];
    ClosedForEver(max, timeout, ops[..m], n + 1);
    var s := Run(max, timeout, ops[..m]);
    assert back.conn in s.closed;
    AcquirePromise(s, max, timeout, op.tenantId, op.version, op.now, op.alive, op.opening);
  }

  /** The last operation of an enabled run: what it met, and what it led to. */
  lemma LastEnabled(max: int, timeout: real, ops: seq<Op>)
    requires EnabledRun(max, timeout, ops) && ops != []
    ensures var init, op := ops[..|ops| - 1], ops[|ops| - 1];
      && Inv(Run(max, timeout, init), max) && Enabled(Run(max, timeout, init), op)
      && Run(max, timeout, ops) == Step(Run(max, timeout, init), max, timeout, op)
  {
    hide Inv, Step, Enabled;
    EveryConnectionAccounted(max, timeout, ops[..|ops| - 1]);
  }
}
