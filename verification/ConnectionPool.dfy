/** The pool manager itself: a dictionary of pools that the operations update in place. */
module ConnectionPool {
  import opened Prelude
  import opened Pool

  class ConnectionPoolManager {
    const max: int
    const idleTimeout: real
    var pools: map<Key, KeyedPool>
    ghost var everOpened: set<Conn>
    ghost var closed: set<Conn>
    ghost var lent: set<Conn>

    ghost function Now(): State
      reads this
    {
      State(pools, everOpened, closed, lent)
    }

    ghost predicate Valid()
      reads this
    {
      Inv(Now(), max)
    }

    constructor (maxPerTenant: int, idleTimeoutSeconds: real)
      ensures Valid() && Now() == EMPTY && max == maxPerTenant && idleTimeout == idleTimeoutSeconds
    {
      max, idleTimeout, pools := maxPerTenant, idleTimeoutSeconds, map[];
      everOpened, closed, lent := {}, {}, {};
      EmptyInv(maxPerTenant);
    }

    /** Closes what was idle too long and keeps the rest in order. */
    method KeepFresh(idle: seq<Idle>, now: real) returns (keep: seq<Idle>)
      requires Distinct(idle)
      modifies `closed
      ensures keep == Fresh(idle, now, idleTimeout)
      ensures closed == old(closed) + (Conns(idle) - Conns(keep))
    {
      keep := [];
      var i := 0;
      assert Conns(idle[..0]) == {};
      while i < |idle|
        invariant i <= |idle|
        invariant keep == Fresh(idle[..i], now, idleTimeout)
        invariant closed == old(closed) + (Conns(idle[..i]) - Conns(keep))
      {
        NextKept(idle, i, now, idleTimeout);
        if now - idle[i].lastUsed > idleTimeout {
          closed := closed + {idle[i].conn};
        } else {
          keep := keep + [idle[i]];
        }
        i := i + 1;
      }
      assert idle[..i] == idle;
    }

    method EvictIdle(now: real)
      requires Valid()
      modifies `pools, `closed
      ensures Now() == Evict(old(Now()), now, idleTimeout)
      ensures Valid()
    {
      hide Inv, Fresh, Distinct, Evict, EvictedSome, Conns;
      var before := pools;
      ghost var s := Now();
      var todo := before.Keys;
      EvictedNone(s, now, idleTimeout);
      while todo != {}
        invariant todo <= before.Keys
        invariant Now() == EvictedSome(s, before.Keys - todo, now, idleTimeout)
        decreases |todo|
      {
        var key :| key in todo;
        ghost var done := before.Keys - todo;
        DistinctIdle(s, max, key);
        var keep := KeepFresh(before[key].idle, now);
        assert pools[key := before[key].(idle := keep)] - {key} == pools - {key};
        pools := pools[key := before[key].(idle := keep)];
        if keep == [] && pools[key].inUse == {} {
          pools := pools - {key};
        }
        EvictedOneMore(s, done, key, now, idleTimeout);
        todo := todo - {key};
        assert before.Keys - todo == done + {key};
      }
      EvictedAll(s, now, idleTimeout);
      EvictInv(s, max, now, idleTimeout);
    }

    method Acquire(tenantId: string, version: string, now: real, alive: Conn -> bool, opening: Opening)
      returns (acquired: Acquired)
      requires Valid()
      requires opening.Opens? ==> opening.conn !in everOpened
      modifies this
      ensures Valid()
      ensures Pool.AcquireResult(Now(), acquired)
           == Pool.Acquire(old(Now()), max, idleTimeout, tenantId, version, now, alive, opening)
    {
      hide Inv, Evict, Conns, Popped, PoolAt, AliveUpTo, OpenInto, Reuse;
      ghost var before := Now();
      AcquireInv(before, max, idleTimeout, tenantId, version, now, alive, opening);
      EvictIdle(now);
      EvictOpens(before, now, idleTimeout);
      ghost var s := Now();
      var key := (tenantId, version);
      if key !in pools {
        pools := pools[key := KeyedPool([], {})];
      }
      PoppedNone(s, key);
      var reused := ReuseIdle(key, alive, s);
      if reused.Some? {
        return Got(reused.value);
      }
      acquired := Open(key, opening);
    }

    /** Takes the newest idle connection that is alive and closes the dead ones above it. */
    method ReuseIdle(key: Key, alive: Conn -> bool, ghost s: State) returns (reused: Option<Conn>)
      requires key in pools && Now() == Popped(s, key, |PoolAt(s, key).idle|)
      modifies `pools, `closed
      ensures var n := AliveUpTo(PoolAt(s, key).idle, alive);
        if n > 0 then
          reused.Some? && Pool.AcquireResult(Now(), Got(reused.value)) == Reuse(Popped(s, key, n), key)
        else reused.None? && Now() == Popped(s, key, 0) && key in pools && pools[key].idle == []
    {
      hide Conns, Popped, PoolAt, AliveUpTo, Reuse;
      PoppedNone(s, key);
      ghost var p := PoolAt(s, key);
      while pools[key].idle != []
        invariant key in pools && |pools[key].idle| <= |p.idle|
        invariant Now() == Popped(s, key, |pools[key].idle|)
        invariant forall i :: |pools[key].idle| <= i < |p.idle| ==> !alive(p.idle[i].conn)
        decreases |pools[key].idle|
      {
        var n := |pools[key].idle| - 1;
        var top := pools[key].idle[n].conn;
        PoppedOneMore(s, key, n + 1);
        pools := pools[key := pools[key].(idle := pools[key].idle[..n])];
        if alive(top) {
          AliveUpToIs(p.idle, alive, n + 1);
          pools := pools[key := pools[key].(inUse := pools[key].inUse + {top})];
          assert pools == Popped(s, key, n + 1).pools[key := KeyedPool(p.idle[..n], p.inUse + {top})];
          PoppedTop(s, key, n + 1);
          return Some(top);
        }
        closed := closed + {top};
      }
      AliveUpToIs(p.idle, alive, 0);
      reused := None;
    }

    /** The tail of an acquisition: nothing idle is left to reuse. */
    method Open(key: Key, opening: Opening) returns (acquired: Acquired)
      requires key in pools && pools[key].idle == []
      modifies this
      ensures Pool.AcquireResult(Now(), acquired) == OpenInto(old(Now()), key, max, opening)
    {
      if |pools[key].inUse| >= max {
        return Exhausted;
      }
      if opening.Opens? {
        everOpened := everOpened + {opening.conn};
        if opening.conn.tenantId == key.0 && opening.conn.version == key.1 {
          pools := pools[key := pools[key].(inUse := pools[key].inUse + {opening.conn})];
          return Got(opening.conn);
        }
        closed := closed + {opening.conn};
      }
      if pools[key].idle == [] && pools[key].inUse == {} {
        pools := pools - {key};
      }
      return if opening.Opens? then WrongBinding else OpenFailed;
    }

    method Release(conn: Conn, resets: bool, alive: bool, returned: real, now: real)
      requires Valid() && Held(Now(), conn)
      modifies this
      ensures Valid()
      ensures Now() == Pool.Release(old(Now()), idleTimeout, conn, resets, alive, returned, now)
    {
      hide Inv, Evict;
      ghost var s := Now();
      ReleaseInv(s, max, idleTimeout, conn, resets, alive, returned, now);
      var key := (conn.tenantId, conn.version);
      if key !in pools || conn !in pools[key].inUse {
        closed, lent := closed + {conn}, lent - {conn};
        return;
      }
      pools := pools[key := pools[key].(inUse := pools[key].inUse - {conn})];
      if !resets {
        closed := closed + {conn};
        return;
      }
      if !alive {
        closed := closed + {conn};
        return;
      }
      pools := pools[key := pools[key].(idle := pools[key].idle + [Idle(conn, returned)])];
      assert Now() == WithPool(s, key,
                               KeyedPool(PoolAt(s, key).idle + [Idle(conn, returned)], PoolAt(s, key).inUse - {conn}));
      ReturnedInv(s, max, conn, returned);
      EvictIdle(now);
    }

    method Discard(conn: Conn)
      requires Valid() && Held(Now(), conn)
      modifies this
      ensures Valid()
      ensures Now() == Pool.Discard(old(Now()), conn)
    {
      DiscardInv(Now(), max, conn);
      var key := (conn.tenantId, conn.version);
      if key in pools {
        pools := pools[key := pools[key].(inUse := pools[key].inUse - {conn})];
      }
      closed, lent := closed + {conn}, lent - {conn};
    }

    method CloseAll(idle: seq<Idle>)
      modifies `closed
      ensures closed == old(closed) + Conns(idle)
    {
      hide Conns;
      var i := 0;
      NoConns();
      assert idle[..0] == [];
      while i < |idle|
        invariant i <= |idle|
        invariant closed == old(closed) + Conns(idle[..i])
      {
        assert idle[..i + 1] == idle[..i] + [idle[i]];
        ConnsSnoc(idle[..i], idle[i]);
        closed := closed + {idle[i].conn};
        i := i + 1;
      }
      assert idle[..i] == idle;
    }

    method InvalidateVersion(tenantId: string, keepVersion: string)
      requires Valid()
      modifies this
      ensures Valid()
      ensures Now() == Invalidate(old(Now()), tenantId, keepVersion)
    {
      hide Inv, DrainedSome, Conns, Invalidate;
      var before := pools;
      ghost var s := Now();
      var todo := before.Keys;
      DrainedNone(s, tenantId, keepVersion);
      while todo != {}
        invariant todo <= before.Keys
        invariant Now() == DrainedSome(s, before.Keys - todo, tenantId, keepVersion)
        decreases |todo|
      {
        var key :| key in todo;
        ghost var done := before.Keys - todo;
        DrainedOneMore(s, done, key, tenantId, keepVersion);
        if key.0 == tenantId && key.1 != keepVersion {
          var pool := pools[key];
          pools := pools - {key};
          CloseAll(pool.idle);
          lent := lent + pool.inUse;
        }
        todo := todo - {key};
        assert before.Keys - todo == done + {key};
      }
      DrainedAll(s, tenantId, keepVersion);
      InvalidateInv(s, max, tenantId, keepVersion);
    }
  }

  // ----- what the loops have done so far ----------------------------------------------------------

  /** Eviction of some of the pools. */
  ghost function EvictedSome(s: State, done: set<Key>, now: real, timeout: real): State {
    State(map k | k in s.pools && !(k in done && EmptyPool(KeptPool(s.pools[k], now, timeout)))
                  :: if k in done then KeptPool(s.pools[k], now, timeout) else s.pools[k],
          s.everOpened,
          s.closed + (set k, c | k in s.pools && k in done && c in Conns(s.pools[k].idle)
                                 && c !in Conns(Fresh(s.pools[k].idle, now, timeout)) :: c),
          s.lent)
  }

  lemma EvictedNone(s: State, now: real, timeout: real)
    ensures EvictedSome(s, s.pools.Keys - s.pools.Keys, now, timeout) == s
  {
    assert EvictedSome(s, {}, now, timeout).pools == s.pools;
  }

  lemma EvictedAll(s: State, now: real, timeout: real)
    ensures EvictedSome(s, s.pools.Keys - {}, now, timeout) == Evict(s, now, timeout)
  {
    hide Fresh;
    assert EvictedSome(s, s.pools.Keys - {}, now, timeout).pools == Evict(s, now, timeout).pools;
  }

  lemma EvictedOneMore(s: State, done: set<Key>, key: Key, now: real, timeout: real)
    requires key in s.pools && key !in done
    ensures var a, b := EvictedSome(s, done, now, timeout), EvictedSome(s, done + {key}, now, timeout);
      var kept := KeptPool(s.pools[key], now, timeout);
      && b.pools == (if EmptyPool(kept) then a.pools - {key} else a.pools[key := kept])
      && b.closed == a.closed + (Conns(s.pools[key].idle) - Conns(kept.idle))
      && b.lent == a.lent && b.everOpened == a.everOpened
  {
    hide Fresh, Conns;
  }

  lemma NextKept(idle: seq<Idle>, i: nat, now: real, timeout: real)
    requires Distinct(idle) && i < |idle|
    ensures Fresh(idle[..i + 1], now, timeout)
         == Fresh(idle[..i], now, timeout) + if Expired(idle[i], now, timeout) then [] else [idle[i]]
    ensures Conns(idle[..i + 1]) - Conns(Fresh(idle[..i + 1], now, timeout))
         == Conns(idle[..i]) - Conns(Fresh(idle[..i], now, timeout))
            + if Expired(idle[i], now, timeout) then {idle[i].conn} else {}
  {
    hide Conns;
    var init := idle[..i];
    assert idle[..i + 1] == init + [idle[i]] && idle[..i + 1][..i] == init;
    assert idle[i].conn !in Conns(init) by { NotAmong(init, idle[i].conn); }
    ConnsSnoc(init, idle[i]);
    ConnsSnoc(Fresh(init, now, timeout), idle[i]);
    FreshKeeps(init, now, timeout);
    assert Fresh(init, now, timeout) + [] == Fresh(init, now, timeout);
  }

  lemma NotAmong(idle: seq<Idle>, c: Conn)
    requires forall i :: 0 <= i < |idle| ==> idle[i].conn != c
    ensures c !in Conns(idle)
  {
  }

  lemma DistinctIdle(s: State, max: int, key: Key)
    requires Inv(s, max) && key in s.pools
    ensures Distinct(s.pools[key].idle)
  {
    assert PoolOk(key, s.pools[key], max);
  }

  lemma PoppedNone(s: State, key: Key)
    ensures var p := PoolAt(s, key);
      && Popped(s, key, |p.idle|) == s.(pools := s.pools[key := p])
      && (key in s.pools ==> s.pools[key := p] == s.pools && s.pools[key] == p)
      && (key !in s.pools ==> p == KeyedPool([], {}))
  {
    var p := PoolAt(s, key);
    NoConns();
    assert p.idle[|p.idle|..] == [] && p.idle[..|p.idle|] == p.idle;
    assert s.closed + {} == s.closed;
  }

  lemma LastOut(idle: seq<Idle>, n: nat)
    requires 0 < n <= |idle|
    ensures Conns(idle[n - 1..]) == Conns(idle[n..]) + {idle[n - 1].conn}
  {
    var rest := idle[n..];
    assert idle[n - 1..] == [idle[n - 1]] + rest;
    forall c | c in Conns(rest) ensures c in Conns(idle[n - 1..]) {
      var i :| 0 <= i < |rest| && rest[i].conn == c;
      assert idle[n - 1..][i + 1] == rest[i];
    }
    assert idle[n - 1..][0] == idle[n - 1];
  }

  lemma PoppedOneMore(s: State, key: Key, n: nat)
    requires 0 < n <= |PoolAt(s, key).idle|
    ensures var p, a, b := PoolAt(s, key), Popped(s, key, n), Popped(s, key, n - 1);
      && key in a.pools && a.pools[key].inUse == p.inUse && |a.pools[key].idle| == n
      && a.pools[key].idle[n - 1] == p.idle[n - 1] && a.pools[key].idle[..n - 1] == p.idle[..n - 1]
      && b.pools == a.pools[key := KeyedPool(a.pools[key].idle[..n - 1], p.inUse)]
      && b.closed == a.closed + {p.idle[n - 1].conn}
      && b.lent == a.lent && b.everOpened == a.everOpened
  {
    hide Conns;
    var p := PoolAt(s, key);
    assert p.idle[..n][..n - 1] == p.idle[..n - 1];
    LastOut(p.idle, n);
  }

  lemma {:induction false} AliveUpToIs(idle: seq<Idle>, alive: Conn -> bool, n: nat)
    requires n <= |idle| && (n > 0 ==> alive(idle[n - 1].conn))
    requires forall i :: n <= i < |idle| ==> !alive(idle[i].conn)
    ensures AliveUpTo(idle, alive) == n
  {
  }

  lemma ReturnedInv(s: State, max: int, c: Conn, returned: real)
    requires Inv(s, max) && IsInUse(s, c)
    ensures var p := PoolAt(s, KeyOf(c));
      Inv(WithPool(s, KeyOf(c), KeyedPool(p.idle + [Idle(c, returned)], p.inUse - {c})), max)
  {
    hide PoolOk, Conns, Inv, Places;
    var key := KeyOf(c);
    var p := PoolAt(s, key);
    PoolAtOk(s, max, key);
    forall d: Conn | KeyOf(d) == key
      ensures (if d in s.closed then 1 else 0) + (if d in Conns(p.idle) then 1 else 0)
        + (if d in p.inUse then 1 else 0) + (if d in s.lent then 1 else 0) == if d in s.everOpened then 1 else 0
    {
      PlacesAt(s, max, key, d);
    }
    var q := KeyedPool(p.idle + [Idle(c, returned)], p.inUse - {c});
    ReturnedPoolOk(key, p, max, c, returned);
    ConnsSnoc(p.idle, Idle(c, returned));
    RetargetInv(s, WithPool(s, key, q), max, key, q);
  }

  ghost function DrainedSome(s: State, done: set<Key>, tenantId: string, keepVersion: string): State {
    State(map k | k in s.pools && !(k in done && Drained(k, tenantId, keepVersion)) :: s.pools[k],
          s.everOpened,
          s.closed + (set k, c | k in s.pools && k in done && Drained(k, tenantId, keepVersion)
                      && c in Conns(s.pools[k].idle) :: c),
          s.lent + (set k, c | k in s.pools && k in done && Drained(k, tenantId, keepVersion)
                    && c in s.pools[k].inUse :: c))
  }

  lemma DrainedNone(s: State, tenantId: string, keepVersion: string)
    ensures DrainedSome(s, s.pools.Keys - s.pools.Keys, tenantId, keepVersion) == s
  {
    assert DrainedSome(s, {}, tenantId, keepVersion).pools == s.pools;
  }

  lemma DrainedAll(s: State, tenantId: string, keepVersion: string)
    ensures DrainedSome(s, s.pools.Keys - {}, tenantId, keepVersion) == Invalidate(s, tenantId, keepVersion)
  {
    assert DrainedSome(s, s.pools.Keys - {}, tenantId, keepVersion).pools == Invalidate(s, tenantId, keepVersion).pools;
  }

  lemma DrainedOneMore(s: State, done: set<Key>, key: Key, tenantId: string, keepVersion: string)
    requires key in s.pools && key !in done
    ensures var a, b :=
      DrainedSome(s, done, tenantId, keepVersion), DrainedSome(s, done + {key}, tenantId, keepVersion);
      && (!Drained(key, tenantId, keepVersion) ==> b == a)
      && (Drained(key, tenantId, keepVersion) ==>
            && b.pools == a.pools - {key} && key in a.pools && a.pools[key] == s.pools[key]
            && b.closed == a.closed + Conns(s.pools[key].idle)
            && b.lent == a.lent + s.pools[key].inUse && b.everOpened == a.everOpened)
  {
    hide Conns;
    var a, b := DrainedSome(s, done, tenantId, keepVersion), DrainedSome(s, done + {key}, tenantId, keepVersion);
    if !Drained(key, tenantId, keepVersion) {
      assert b.pools == a.pools;
    }
  }
}
