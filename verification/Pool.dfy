/** Bounded per-tenant connection pools: acquisition, release, eviction and draining. */
module Pool {
  import opened Prelude

  /** A connection is bound to one tenant and association version for life. */
  datatype Conn = Conn(id: nat, tenantId: string, version: string)

  datatype Idle = Idle(conn: Conn, lastUsed: real)

  datatype KeyedPool = KeyedPool(idle: seq<Idle>, inUse: set<Conn>)

  type Key = (string, string)

  function KeyOf(c: Conn): Key { (c.tenantId, c.version) }

  datatype Opening = OpenFails | Opens(conn: Conn)

  datatype Acquired = Got(conn: Conn) | Exhausted | OpenFailed | WrongBinding

  /** The pools, and where every connection ever opened has gone: `lent` ones are still with
      their holders although their pool was drained. */
  datatype State = State(pools: map<Key, KeyedPool>, everOpened: set<Conn>, closed: set<Conn>, lent: set<Conn>)

  const EMPTY := State(map[], {}, {}, {})

  // ----- eviction -------------------------------------------------------------------------------

  predicate Expired(i: Idle, now: real, timeout: real) { now - i.lastUsed > timeout }

  function Fresh(idle: seq<Idle>, now: real, timeout: real): seq<Idle> {
    if idle == [] then []
    else
      var last := idle[|idle| - 1];
      Fresh(idle[..|idle| - 1], now, timeout) + if Expired(last, now, timeout) then [] else [last]
  }

  function Conns(idle: seq<Idle>): set<Conn> { set i | 0 <= i < |idle| :: idle[i].conn }

  predicate EmptyPool(p: KeyedPool) { p.idle == [] && p.inUse == {} }

  function KeptPool(p: KeyedPool, now: real, timeout: real): KeyedPool {
    p.(idle := Fresh(p.idle, now, timeout))
  }

  /** Idle too long is closed; a pool left with nothing is forgotten. */
  function Evict(s: State, now: real, timeout: real): State {
    State(map k | k in s.pools && !EmptyPool(KeptPool(s.pools[k], now, timeout)) :: KeptPool(s.pools[k], now, timeout),
          s.everOpened,
          s.closed + (set k, c | k in s.pools && c in Conns(s.pools[k].idle)
                                 && c !in Conns(Fresh(s.pools[k].idle, now, timeout)) :: c),
          s.lent)
  }

  // ----- the operations on states -----------------------------------------------------------------

  function PoolAt(s: State, key: Key): KeyedPool {
    if key in s.pools then s.pools[key] else KeyedPool([], {})
  }

  /** How much of the idle list remains when dead connections are popped off its end. */
  function AliveUpTo(idle: seq<Idle>, alive: Conn -> bool): (n: nat)
    ensures n <= |idle|
    ensures n > 0 ==> alive(idle[n - 1].conn)
    ensures forall i :: n <= i < |idle| ==> !alive(idle[i].conn)
  {
    if idle == [] then 0
    else if alive(idle[|idle| - 1].conn) then |idle|
    else AliveUpTo(idle[..|idle| - 1], alive)
  }

  datatype AcquireResult = AcquireResult(state: State, acquired: Acquired)

  function WithPool(s: State, key: Key, p: KeyedPool): State { s.(pools := s.pools[key := p]) }

  /** The failure clean-up: an empty reserved key is not left behind. */
  function AfterFailure(s: State, key: Key): State {
    if EmptyPool(PoolAt(s, key)) then s.(pools := s.pools - {key}) else s
  }

  /** The pool of `key`, reserved if it was missing, with its idle list popped down to `n`. */
  function Popped(s: State, key: Key, n: nat): State
    requires n <= |PoolAt(s, key).idle|
  {
    var p := PoolAt(s, key);
    WithPool(s.(closed := s.closed + Conns(p.idle[n..])), key, KeyedPool(p.idle[..n], p.inUse))
  }

  /** The connection on top of the idle list goes into use. */
  function Reuse(s: State, key: Key): AcquireResult
    requires PoolAt(s, key).idle != []
  {
    var p := PoolAt(s, key);
    var n := |p.idle| - 1;
    AcquireResult(WithPool(s, key, KeyedPool(p.idle[..n], p.inUse + {p.idle[n].conn})), Got(p.idle[n].conn))
  }

  /** With nothing idle left: open within the bound, and check what was opened. */
  function OpenInto(s: State, key: Key, max: int, opening: Opening): AcquireResult {
    var p := PoolAt(s, key);
    if |p.inUse| >= max then AcquireResult(s, Exhausted)
    else
      match opening
      case OpenFails => AcquireResult(AfterFailure(s, key), OpenFailed)
      case Opens(c) =>
        var s1 := s.(everOpened := s.everOpened + {c});
        if KeyOf(c) != key then AcquireResult(AfterFailure(s1.(closed := s1.closed + {c}), key), WrongBinding)
        else AcquireResult(WithPool(s1, key, p.(inUse := p.inUse + {c})), Got(c))
  }

  function Acquire(s: State, max: int, timeout: real, tenantId: string, version: string, now: real, alive: Conn -> bool,
          opening: Opening): AcquireResult
  {
    var key := (tenantId, version);
    var s1 := Evict(s, now, timeout);
    var n := AliveUpTo(PoolAt(s1, key).idle, alive);
    var s2 := Popped(s1, key, n);
    if n > 0 then Reuse(s2, key) else OpenInto(s2, key, max, opening)
  }

  /** `resets` when rollback and reset both succeed; `alive` is the liveness answer after that. */
  function Release(s: State, timeout: real, c: Conn, resets: bool, alive: bool, returned: real, now: real): State {
    var key := KeyOf(c);
    var p := PoolAt(s, key);
    if c !in p.inUse then s.(closed := s.closed + {c}, lent := s.lent - {c})
    else
      var rest := p.inUse - {c};
      if resets && alive then Evict(WithPool(s, key, KeyedPool(p.idle + [Idle(c, returned)], rest)), now, timeout)
      else WithPool(s, key, KeyedPool(p.idle, rest)).(closed := s.closed + {c})
  }

  function Discard(s: State, c: Conn): State {
    var key := KeyOf(c);
    var s1 := if key in s.pools then WithPool(s, key, s.pools[key].(inUse := s.pools[key].inUse - {c})) else s;
    s1.(closed := s1.closed + {c}, lent := s1.lent - {c})
  }

  predicate Drained(key: Key, tenantId: string, keepVersion: string) {
    key.0 == tenantId && key.1 != keepVersion
  }

  /** Pools of other versions are dropped: idle ones closed, used ones left with their holders. */
  function Invalidate(s: State, tenantId: string, keepVersion: string): State {
    State(map k | k in s.pools && !Drained(k, tenantId, keepVersion) :: s.pools[k],
          s.everOpened,
          s.closed + (set k, c | k in s.pools && Drained(k, tenantId, keepVersion) && c in Conns(s.pools[k].idle) :: c),
          s.lent + (set k, c | k in s.pools && Drained(k, tenantId, keepVersion) && c in s.pools[k].inUse :: c))
  }

  // ----- the invariant ------------------------------------------------------------------------------

  predicate IsIdle(s: State, c: Conn) { c in Conns(PoolAt(s, KeyOf(c)).idle) }

  predicate IsInUse(s: State, c: Conn) { c in PoolAt(s, KeyOf(c)).inUse }

  /** Who may hand a connection back: it is in use, or lent from a drained pool. */
  predicate Held(s: State, c: Conn) { IsInUse(s, c) || c in s.lent }

  predicate Distinct(idle: seq<Idle>) {
    forall i, j :: 0 <= i < j < |idle| ==> idle[i].conn != idle[j].conn
  }

  /** Every connection of a pool is bound to its key, once, and within the bound. */
  predicate PoolOk(key: Key, p: KeyedPool, max: int) {
    && (forall c :: c in Conns(p.idle) ==> KeyOf(c) == key)
    && (forall c :: c in p.inUse ==> KeyOf(c) == key)
    && Conns(p.idle) !! p.inUse
    && Distinct(p.idle)
    && |p.idle| + |p.inUse| <= Max(max, 0)
  }

  function Places(s: State, c: Conn): nat {
    (if c in s.closed then 1 else 0) + (if IsIdle(s, c) then 1 else 0)
    + (if IsInUse(s, c) then 1 else 0) + (if c in s.lent then 1 else 0)
  }

  /** Every connection ever opened is in exactly one place, every other in none. */
  ghost predicate Accounted(s: State) {
    forall c: Conn :: Places(s, c) == if c in s.everOpened then 1 else 0
  }

  ghost predicate Inv(s: State, max: int) {
    && (forall k :: k in s.pools ==> PoolOk(k, s.pools[k], max))
    && Accounted(s)
  }

  // ----- eviction keeps it -----------------------------------------------------------------------------

  lemma {:induction false} FreshKeeps(idle: seq<Idle>, now: real, timeout: real)
    requires Distinct(idle)
    ensures var kept := Fresh(idle, now, timeout);
      Distinct(kept) && |kept| <= |idle| && Conns(kept) <= Conns(idle)
    ensures forall i :: 0 <= i < |idle| ==>
      (idle[i].conn in Conns(Fresh(idle, now, timeout)) <==> !Expired(idle[i], now, timeout))
  {
    if idle != [] {
      var init, last := idle[..|idle| - 1], idle[|idle| - 1];
      assert Distinct(init);
      FreshKeeps(init, now, timeout);
      ConnsSnoc(init, last);
      assert init + [last] == idle;
      ConnsSnoc(Fresh(init, now, timeout), last);
      assert last.conn !in Conns(init);
      var kept := Fresh(idle, now, timeout);
      assert Fresh(init, now, timeout) + [] == Fresh(init, now, timeout);
      forall i | 0 <= i < |idle| ensures idle[i].conn in Conns(kept) <==> !Expired(idle[i], now, timeout) {
        if i < |init| {
          assert init[i] == idle[i] && idle[i].conn != last.conn;
        }
      }
    }
  }

  lemma ConnsSnoc(idle: seq<Idle>, i: Idle)
    ensures Conns(idle + [i]) == Conns(idle) + {i.conn}
  {
    assert (idle + [i])[|idle|] == i;
    forall c | c in Conns(idle) ensures c in Conns(idle + [i]) {
      var j :| 0 <= j < |idle| && idle[j].conn == c;
      assert (idle + [i])[j] == idle[j];
    }
  }

  lemma KeptPoolOk(key: Key, p: KeyedPool, max: int, now: real, timeout: real)
    requires PoolOk(key, p, max)
    ensures PoolOk(key, KeptPool(p, now, timeout), max)
  {
    hide Fresh;
    FreshKeeps(p.idle, now, timeout);
  }

  lemma EvictPlaces(s: State, max: int, now: real, timeout: real, c: Conn)
    requires Inv(s, max)
    ensures Places(Evict(s, now, timeout), c) == Places(s, c)
    ensures IsInUse(Evict(s, now, timeout), c) == IsInUse(s, c)
  {
    hide Fresh, Distinct, Conns;
    var e, key := Evict(s, now, timeout), KeyOf(c);
    assert Places(s, c) == if c in s.everOpened then 1 else 0;
    if key in s.pools {
      var p := s.pools[key];
      assert PoolOk(key, p, max);
      FreshKeeps(p.idle, now, timeout);
    }
    if c in e.closed && c !in s.closed {
      var k :| k in s.pools && c in Conns(s.pools[k].idle) && c !in Conns(Fresh(s.pools[k].idle, now, timeout));
      assert PoolOk(k, s.pools[k], max);
    }
  }

  lemma EvictInv(s: State, max: int, now: real, timeout: real)
    requires Inv(s, max)
    ensures Inv(Evict(s, now, timeout), max)
    ensures forall k :: k in Evict(s, now, timeout).pools ==> !EmptyPool(Evict(s, now, timeout).pools[k])
    ensures forall c :: IsInUse(Evict(s, now, timeout), c) == IsInUse(s, c)
  {
    hide Places, PoolOk, IsInUse;
    var e := Evict(s, now, timeout);
    forall c: Conn ensures Places(e, c) == (if c in e.everOpened then 1 else 0) && IsInUse(e, c) == IsInUse(s, c) {
      EvictPlaces(s, max, now, timeout, c);
    }
    forall k | k in e.pools ensures PoolOk(k, e.pools[k], max) {
      KeptPoolOk(k, s.pools[k], max, now, timeout);
    }
  }

  // ----- each operation keeps it -----------------------------------------------------------------------

  lemma SplitIdle(idle: seq<Idle>, n: nat)
    requires n <= |idle| && Distinct(idle)
    ensures Conns(idle) == Conns(idle[..n]) + Conns(idle[n..]) && Conns(idle[..n]) !! Conns(idle[n..])
    ensures Distinct(idle[..n])
  {
    forall c ensures c in Conns(idle) <==> c in Conns(idle[..n]) || c in Conns(idle[n..]) {
      if c in Conns(idle) {
        var i :| 0 <= i < |idle| && idle[i].conn == c;
        if i < n { assert idle[..n][i] == idle[i]; } else { assert idle[n..][i - n] == idle[i]; }
      }
      if c in Conns(idle[n..]) {
        var i :| 0 <= i < |idle| - n && idle[n..][i].conn == c;
        assert idle[n + i].conn == c;
      }
    }
    forall c | c in Conns(idle[..n]) ensures c !in Conns(idle[n..]) {
      var i :| 0 <= i < n && idle[i].conn == c;
      forall j | 0 <= j < |idle| - n ensures idle[n..][j].conn != c {
        assert idle[n..][j] == idle[n + j];
      }
    }
  }

  lemma PoolAtOk(s: State, max: int, key: Key)
    requires Inv(s, max)
    ensures PoolOk(key, PoolAt(s, key), max)
  {
    hide Places;
    assert Conns([]) == {};
  }

  lemma NoConns()
    ensures Conns([]) == {}
  {
  }

  /** Replacing one pool moves only connections of its key. */
  lemma RetargetInv(s: State, s': State, max: int, key: Key, p: KeyedPool)
    requires Inv(s, max) && PoolOk(key, p, max)
    requires s'.pools == s.pools[key := p] || (s'.pools == s.pools - {key} && p == KeyedPool([], {}))
    requires forall c: Conn :: KeyOf(c) != key ==>
      (c in s'.closed <==> c in s.closed) && (c in s'.lent <==> c in s.lent)
          && (c in s'.everOpened <==> c in s.everOpened)
    requires forall c: Conn :: KeyOf(c) == key ==>
      (if c in s'.closed then 1 else 0) + (if c in Conns(p.idle) then 1 else 0)
      + (if c in p.inUse then 1 else 0) + (if c in s'.lent then 1 else 0) == if c in s'.everOpened then 1 else 0
    ensures Inv(s', max)
  {
    hide PoolOk, Conns;
    assert PoolAt(s', key) == p;
    forall c: Conn ensures Places(s', c) == if c in s'.everOpened then 1 else 0 {
      assert Places(s, c) == if c in s.everOpened then 1 else 0;
      if KeyOf(c) != key {
        assert PoolAt(s', KeyOf(c)) == PoolAt(s, KeyOf(c));
      }
    }
  }

  /** What acquiring leaves to say about each connection of the key. */
  lemma PlacesAt(s: State, max: int, key: Key, c: Conn)
    requires Inv(s, max) && KeyOf(c) == key
    ensures (if c in s.closed then 1 else 0) + (if c in Conns(PoolAt(s, key).idle) then 1 else 0)
      + (if c in PoolAt(s, key).inUse then 1 else 0) + (if c in s.lent then 1 else 0)
          == if c in s.everOpened then 1 else 0
  {
    assert Places(s, c) == if c in s.everOpened then 1 else 0;
  }

  lemma AllPlacesAt(s: State, max: int, key: Key)
    requires Inv(s, max)
    ensures forall c: Conn | KeyOf(c) == key ::
      (if c in s.closed then 1 else 0) + (if c in Conns(PoolAt(s, key).idle) then 1 else 0)
      + (if c in PoolAt(s, key).inUse then 1 else 0) + (if c in s.lent then 1 else 0)
          == if c in s.everOpened then 1 else 0
  {
    hide *;
    forall c: Conn | KeyOf(c) == key
      ensures (if c in s.closed then 1 else 0) + (if c in Conns(PoolAt(s, key).idle) then 1 else 0)
        + (if c in PoolAt(s, key).inUse then 1 else 0) + (if c in s.lent then 1 else 0)
            == if c in s.everOpened then 1 else 0
    {
      PlacesAt(s, max, key, c);
    }
  }

  lemma OwnKey(key: Key, p: KeyedPool, max: int)
    requires PoolOk(key, p, max)
    ensures forall c :: c in Conns(p.idle) || c in p.inUse ==> KeyOf(c) == key
    ensures Conns(p.idle) !! p.inUse && Distinct(p.idle)
  {
  }

  lemma ShorterPoolOk(key: Key, p: KeyedPool, max: int, n: nat)
    requires PoolOk(key, p, max) && n <= |p.idle|
    ensures PoolOk(key, KeyedPool(p.idle[..n], p.inUse), max)
  {
    hide Conns, Distinct;
    SplitIdle(p.idle, n);
  }

  lemma PoppedInv(s: State, max: int, key: Key, n: nat)
    requires Inv(s, max) && n <= |PoolAt(s, key).idle|
    ensures Inv(Popped(s, key, n), max)
    ensures forall c :: IsInUse(Popped(s, key, n), c) <==> IsInUse(s, c)
    ensures forall c :: c in Conns(PoolAt(Popped(s, key, n), key).idle) ==> c in Conns(PoolAt(s, key).idle)
  {
    hide PoolOk, Conns, Distinct, Inv, Places;
    var p, s' := PoolAt(s, key), Popped(s, key, n);
    PoolAtOk(s, max, key);
    OwnKey(key, p, max);
    ShorterPoolOk(key, p, max, n);
    SplitIdle(p.idle, n);
    AllPlacesAt(s, max, key);
    RetargetInv(s, s', max, key, KeyedPool(p.idle[..n], p.inUse));
  }

  lemma TopInUseOk(key: Key, p: KeyedPool, max: int)
    requires PoolOk(key, p, max) && p.idle != []
    ensures var n := |p.idle| - 1; var top := p.idle[n].conn;
      && PoolOk(key, KeyedPool(p.idle[..n], p.inUse + {top}), max)
      && Conns(p.idle) == Conns(p.idle[..n]) + {top} && top !in Conns(p.idle[..n]) && KeyOf(top) == key
      && top !in p.inUse
  {
    hide Conns;
    var n := |p.idle| - 1;
    var init := p.idle[..n];
    assert init + [p.idle[n]] == p.idle;
    ConnsSnoc(init, p.idle[n]);
    assert p.idle[n].conn !in Conns(init) by { AbsentFrom(init, p.idle[n].conn); }
  }

  lemma AbsentFrom(idle: seq<Idle>, c: Conn)
    requires forall i :: 0 <= i < |idle| ==> idle[i].conn != c
    ensures c !in Conns(idle)
  {
  }

  lemma ReuseInv(s: State, max: int, key: Key)
    requires Inv(s, max) && PoolAt(s, key).idle != []
    ensures Inv(Reuse(s, key).state, max)
    ensures forall c :: IsInUse(Reuse(s, key).state, c) <==> IsInUse(s, c) || c == Reuse(s, key).acquired.conn
  {
    hide PoolOk, Conns, Inv, Places;
    var p, s' := PoolAt(s, key), Reuse(s, key).state;
    PoolAtOk(s, max, key);
    TopInUseOk(key, p, max);
    AllPlacesAt(s, max, key);
    RetargetInv(s, s', max, key, PoolAt(s', key));
  }

  lemma OneMoreOk(key: Key, p: KeyedPool, max: int, c: Conn)
    requires PoolOk(key, p, max) && KeyOf(c) == key && c !in Conns(p.idle) && c !in p.inUse
      && |p.idle| + |p.inUse| < max
    ensures PoolOk(key, p.(inUse := p.inUse + {c}), max)
  {
    hide Conns, Distinct;
  }

  lemma OpenIntoInv(s: State, max: int, key: Key, opening: Opening)
    requires Inv(s, max) && PoolAt(s, key).idle == []
    requires opening.Opens? ==> opening.conn !in s.everOpened
    ensures Inv(OpenInto(s, key, max, opening).state, max)
  {
    hide PoolOk, Conns, Inv, Places, AfterFailure;
    var p := PoolAt(s, key);
    if |p.inUse| < max {
      match opening
      case OpenFails =>
        CleanUpInv(s, max, key);
      case Opens(c) =>
        NotOpenedNowhere(s, max, c);
        if KeyOf(c) == key {
          PoolAtOk(s, max, key);
          OneMoreOk(key, p, max, c);
          AllPlacesAt(s, max, key);
          RetargetInv(s, OpenInto(s, key, max, opening).state, max, key, p.(inUse := p.inUse + {c}));
        } else {
          OpenedAndClosedInv(s, max, c);
          CleanUpInv(s.(everOpened := s.everOpened + {c}, closed := s.closed + {c}), max, key);
        }
    }
  }

  lemma OpenIntoInUse(s: State, max: int, key: Key, opening: Opening, d: Conn)
    ensures var r := OpenInto(s, key, max, opening);
      && (r.acquired.Got? ==> opening == Opens(r.acquired.conn) && KeyOf(r.acquired.conn) == key)
      && (IsInUse(r.state, d) <==> IsInUse(s, d) || (r.acquired.Got? && d == r.acquired.conn))
  {
    hide Conns;
    var r := OpenInto(s, key, max, opening);
    if !r.acquired.Got? {
      CleanUpChangesNoPool(s, r.state, key, KeyOf(d));
    }
  }

  lemma CleanUpChangesNoPool(s: State, s': State, key: Key, k: Key)
    requires s'.pools == s.pools || s'.pools == AfterFailure(s, key).pools
    ensures PoolAt(s', k) == PoolAt(s, k)
  {
  }

  lemma AcquireInv(s: State, max: int, timeout: real, tenantId: string, version: string, now: real, alive: Conn -> bool,
          opening: Opening)
    requires Inv(s, max)
    requires opening.Opens? ==> opening.conn !in s.everOpened
    ensures Inv(Acquire(s, max, timeout, tenantId, version, now, alive, opening).state, max)
  {
    hide Evict, AliveUpTo, PoolAt, Inv, Popped, Reuse, OpenInto;
    var key, s1 := (tenantId, version), Evict(s, now, timeout);
    var n := AliveUpTo(PoolAt(s1, key).idle, alive);
    EvictInv(s, max, now, timeout);
    EvictOpens(s, now, timeout);
    PoppedInv(s1, max, key, n);
    PoppedTop(s1, key, n);
    if n > 0 {
      ReuseInv(Popped(s1, key, n), max, key);
    } else {
      OpenIntoInv(Popped(s1, key, n), max, key, opening);
    }
  }

  lemma PoppedTop(s: State, key: Key, n: nat)
    requires n <= |PoolAt(s, key).idle|
    ensures PoolAt(Popped(s, key, n), key) == KeyedPool(PoolAt(s, key).idle[..n], PoolAt(s, key).inUse)
    ensures Popped(s, key, n).everOpened == s.everOpened
    ensures n > 0 ==>
      var p := PoolAt(s, key);
      Reuse(Popped(s, key, n), key)
      == AcquireResult(WithPool(Popped(s, key, n), key, KeyedPool(p.idle[..n - 1], p.inUse + {p.idle[n - 1].conn})),
                       Got(p.idle[n - 1].conn))
  {
    hide Conns;
    if n > 0 {
      assert PoolAt(s, key).idle[..n][..n - 1] == PoolAt(s, key).idle[..n - 1];
    }
  }

  lemma EvictOpens(s: State, now: real, timeout: real)
    ensures Evict(s, now, timeout).everOpened == s.everOpened
  {
  }

  lemma CleanUpInv(s: State, max: int, key: Key)
    requires Inv(s, max)
    ensures Inv(AfterFailure(s, key), max)
  {
    hide PoolOk;
    var s' := AfterFailure(s, key);
    forall c: Conn ensures Places(s', c) == if c in s'.everOpened then 1 else 0 {
      assert PoolAt(s', KeyOf(c)) == PoolAt(s, KeyOf(c));
      assert Places(s, c) == if c in s.everOpened then 1 else 0;
    }
  }

  lemma NotOpenedNowhere(s: State, max: int, c: Conn)
    requires Inv(s, max) && c !in s.everOpened
    ensures c !in s.closed && !IsIdle(s, c) && !IsInUse(s, c) && c !in s.lent
  {
    hide PoolOk;
    assert Places(s, c) == 0;
  }

  lemma OpenedAndClosedInv(s: State, max: int, c: Conn)
    requires Inv(s, max) && c !in s.everOpened
    ensures Inv(s.(everOpened := s.everOpened + {c}, closed := s.closed + {c}), max)
  {
    hide PoolOk;
    var s' := s.(everOpened := s.everOpened + {c}, closed := s.closed + {c});
    forall d: Conn ensures Places(s', d) == if d in s'.everOpened then 1 else 0 {
      assert Places(s, d) == if d in s.everOpened then 1 else 0;
    }
  }

  lemma ReleaseInv(s: State, max: int, timeout: real, c: Conn, resets: bool, alive: bool, returned: real, now: real)
    requires Inv(s, max) && Held(s, c)
    ensures Inv(Release(s, timeout, c, resets, alive, returned, now), max)
  {
    hide PoolOk, Conns, Inv, Evict, Places;
    var key := KeyOf(c);
    var p := PoolAt(s, key);
    PoolAtOk(s, max, key);
    forall d: Conn | KeyOf(d) == key
      ensures (if d in s.closed then 1 else 0) + (if d in Conns(p.idle) then 1 else 0)
        + (if d in p.inUse then 1 else 0) + (if d in s.lent then 1 else 0) == if d in s.everOpened then 1 else 0
    {
      PlacesAt(s, max, key, d);
    }
    if c !in p.inUse {
      LentClosedInv(s, max, c);
    } else if resets && alive {
      var q := KeyedPool(p.idle + [Idle(c, returned)], p.inUse - {c});
      ReturnedPoolOk(key, p, max, c, returned);
      ConnsSnoc(p.idle, Idle(c, returned));
      var s1 := WithPool(s, key, q);
      RetargetInv(s, s1, max, key, q);
      EvictInv(s1, max, now, timeout);
    } else {
      ReturnedPoolOk(key, p, max, c, returned);
      RetargetInv(s, Release(s, timeout, c, resets, alive, returned, now), max, key, KeyedPool(p.idle, p.inUse - {c}));
    }
  }

  lemma ReturnedPoolOk(key: Key, p: KeyedPool, max: int, c: Conn, returned: real)
    requires PoolOk(key, p, max) && c in p.inUse
    ensures PoolOk(key, KeyedPool(p.idle, p.inUse - {c}), max)
    ensures PoolOk(key, KeyedPool(p.idle + [Idle(c, returned)], p.inUse - {c}), max)
  {
    ConnsSnoc(p.idle, Idle(c, returned));
    forall i | 0 <= i < |p.idle| ensures p.idle[i].conn != c {
      assert p.idle[i].conn in Conns(p.idle);
    }
  }

  lemma LentClosedInv(s: State, max: int, c: Conn)
    requires Inv(s, max) && c in s.lent && !IsInUse(s, c)
    ensures Inv(s.(closed := s.closed + {c}, lent := s.lent - {c}), max)
  {
    hide PoolOk;
    var s' := s.(closed := s.closed + {c}, lent := s.lent - {c});
    forall d: Conn ensures Places(s', d) == if d in s'.everOpened then 1 else 0 {
      assert Places(s, d) == if d in s.everOpened then 1 else 0;
    }
  }

  lemma DiscardInv(s: State, max: int, c: Conn)
    requires Inv(s, max) && Held(s, c)
    ensures Inv(Discard(s, c), max)
    ensures forall d :: IsInUse(Discard(s, c), d) <==> IsInUse(s, d) && d != c
  {
    hide PoolOk, Conns, Places, Inv;
    var key := KeyOf(c);
    var p := PoolAt(s, key);
    PoolAtOk(s, max, key);
    PlacesAt(s, max, key, c);
    if c in p.inUse {
      ReturnedPoolOk(key, p, max, c, 0.0);
      forall d: Conn | KeyOf(d) == key
        ensures (if d in s.closed then 1 else 0) + (if d in Conns(p.idle) then 1 else 0)
          + (if d in p.inUse then 1 else 0) + (if d in s.lent then 1 else 0) == if d in s.everOpened then 1 else 0
      {
        PlacesAt(s, max, key, d);
      }
      RetargetInv(s, Discard(s, c), max, key, KeyedPool(p.idle, p.inUse - {c}));
    } else {
      LentClosedInv(s, max, c);
      if key in s.pools {
        assert s.pools[key].(inUse := s.pools[key].inUse - {c}) == s.pools[key];
        assert s.pools[key := s.pools[key]] == s.pools;
      }
    }
  }

  lemma InvalidatePlaces(s: State, max: int, tenantId: string, keepVersion: string, c: Conn)
    requires Inv(s, max)
    ensures Places(Invalidate(s, tenantId, keepVersion), c) == Places(s, c)
  {
    hide Conns;
    var s', key := Invalidate(s, tenantId, keepVersion), KeyOf(c);
    assert Places(s, c) == if c in s.everOpened then 1 else 0;
    NoConns();
    if key in s.pools {
      assert PoolOk(key, s.pools[key], max);
    }
    if c in s'.closed && c !in s.closed {
      var k :| k in s.pools && Drained(k, tenantId, keepVersion) && c in Conns(s.pools[k].idle);
      assert PoolOk(k, s.pools[k], max);
    }
    if c in s'.lent && c !in s.lent {
      var k :| k in s.pools && Drained(k, tenantId, keepVersion) && c in s.pools[k].inUse;
      assert PoolOk(k, s.pools[k], max);
    }
  }

  lemma InvalidateInv(s: State, max: int, tenantId: string, keepVersion: string)
    requires Inv(s, max)
    ensures Inv(Invalidate(s, tenantId, keepVersion), max)
  {
    hide PoolOk, Places;
    var s' := Invalidate(s, tenantId, keepVersion);
    forall c: Conn ensures Places(s', c) == if c in s'.everOpened then 1 else 0 {
      InvalidatePlaces(s, max, tenantId, keepVersion, c);
    }
  }

  // ----- what an acquisition promises -----------------------------------------------------------------

  /** A connection handed out is live, of the tenant and version asked for, held by nobody before,
      and in use from now on; nothing else changes hands. */
  lemma AcquirePromise(s: State, max: int, timeout: real, tenantId: string, version: string, now: real,
          alive: Conn -> bool, opening: Opening)
    requires Inv(s, max)
    requires opening.Opens? ==> opening.conn !in s.everOpened
    ensures var r := Acquire(s, max, timeout, tenantId, version, now, alive, opening);
      && (r.acquired.Got? ==>
            var c := r.acquired.conn;
            && KeyOf(c) == (tenantId, version)
            && (alive(c) || opening == Opens(c))
            && !Held(s, c) && c !in s.closed
            && (forall d :: IsInUse(r.state, d) <==> IsInUse(s, d) || d == c))
      && (!r.acquired.Got? ==> forall d :: IsInUse(r.state, d) <==> IsInUse(s, d))
  {
    hide Evict, AliveUpTo, PoolAt, Inv, Popped, Reuse, OpenInto, IsInUse, Conns, Held;
    var key, s1 := (tenantId, version), Evict(s, now, timeout);
    var n := AliveUpTo(PoolAt(s1, key).idle, alive);
    EvictInv(s, max, now, timeout);
    EvictOpens(s, now, timeout);
    PoppedInv(s1, max, key, n);
    PoppedTop(s1, key, n);
    if n > 0 {
      var top := PoolAt(s1, key).idle[n - 1].conn;
      ReuseInv(Popped(s1, key, n), max, key);
      assert top in Conns(PoolAt(s1, key).idle) by { AmongConns(PoolAt(s1, key).idle, n - 1); }
      IdleIsFree(s, s1, max, now, timeout, key, top);
    } else {
      var r := OpenInto(Popped(s1, key, n), key, max, opening);
      forall d ensures IsInUse(r.state, d) <==> IsInUse(s1, d) || (r.acquired.Got? && d == r.acquired.conn) {
        OpenIntoInUse(Popped(s1, key, n), max, key, opening, d);
      }
      if r.acquired.Got? {
        OpenIntoInUse(Popped(s1, key, n), max, key, opening, r.acquired.conn);
        OpenedIsFree(s, max, r.acquired.conn);
      }
    }
  }

  lemma AmongConns(idle: seq<Idle>, i: nat)
    requires i < |idle|
    ensures idle[i].conn in Conns(idle)
  {
  }

  lemma OpenedIsFree(s: State, max: int, c: Conn)
    requires Inv(s, max) && c !in s.everOpened
    ensures !Held(s, c) && c !in s.closed
  {
    NotOpenedNowhere(s, max, c);
  }

  lemma IdleIsFree(s: State, s1: State, max: int, now: real, timeout: real, key: Key, c: Conn)
    requires Inv(s, max) && s1 == Evict(s, now, timeout) && c in Conns(PoolAt(s1, key).idle)
    ensures KeyOf(c) == key && !Held(s, c) && c !in s.closed
  {
    hide Evict, Conns;
    EvictInv(s, max, now, timeout);
    PoolAtOk(s1, max, key);
    assert IsIdle(s1, c);
    assert Places(s1, c) == if c in s1.everOpened then 1 else 0;
    EvictSubset(s, now, timeout);
    EvictOpens(s, now, timeout);
    assert IsInUse(s1, c) == IsInUse(s, c);
  }

  lemma EvictSubset(s: State, now: real, timeout: real)
    ensures s.closed <= Evict(s, now, timeout).closed && Evict(s, now, timeout).lent == s.lent
  {
  }

  /** An acquisition, failed or not, leaves no empty pool behind exactly when the bound is at least
      one: under any other bound it reserves a pool it then cannot fill. */
  lemma NoEmptyPoolsIff(s: State, max: int, timeout: real, tenantId: string, version: string, now: real,
          alive: Conn -> bool, opening: Opening)
    requires Inv(s, max)
    ensures var r := Acquire(s, max, timeout, tenantId, version, now, alive, opening);
      (forall k :: k in r.state.pools ==> !EmptyPool(r.state.pools[k])) <==> max >= 1
  {
    hide Conns, Evict, AliveUpTo, Inv, PoolAt, Popped, Reuse, OpenInto, PoolOk;
    var key, s1 := (tenantId, version), Evict(s, now, timeout);
    var n := AliveUpTo(PoolAt(s1, key).idle, alive);
    EvictInv(s, max, now, timeout);
    PoppedTop(s1, key, n);
    if max >= 1 {
      if n > 0 {
        ReuseNotEmpty(s1, key, n);
      } else {
        OpenNotEmpty(s1, key, max, opening);
      }
    } else {
      PoolAtOk(s1, max, key);
      NothingWithoutRoom(key, PoolAt(s1, key), max);
      Phantom(s1, key, max, opening);
      var r := Acquire(s, max, timeout, tenantId, version, now, alive, opening);
      assert key in r.state.pools && EmptyPool(r.state.pools[key]);
    }
  }

  lemma ReuseNotEmpty(s: State, key: Key, n: nat)
    requires 0 < n <= |PoolAt(s, key).idle| && forall k :: k in s.pools ==> !EmptyPool(s.pools[k])
    ensures var s' := Reuse(Popped(s, key, n), key).state; forall k :: k in s'.pools ==> !EmptyPool(s'.pools[k])
  {
    hide Conns;
  }

  lemma OpenNotEmpty(s: State, key: Key, max: int, opening: Opening)
    requires max >= 1 && forall k :: k in s.pools ==> !EmptyPool(s.pools[k])
    ensures var s' := OpenInto(Popped(s, key, 0), key, max, opening).state;
      forall k :: k in s'.pools ==> !EmptyPool(s'.pools[k])
  {
    hide Conns;
  }

  lemma NothingWithoutRoom(key: Key, p: KeyedPool, max: int)
    requires PoolOk(key, p, max) && max < 1
    ensures p == KeyedPool([], {})
  {
  }

  lemma Phantom(s: State, key: Key, max: int, opening: Opening)
    requires max < 1 && PoolAt(s, key) == KeyedPool([], {})
    ensures var s' := OpenInto(Popped(s, key, 0), key, max, opening).state; key in s'.pools && EmptyPool(s'.pools[key])
  {
    hide Conns;
  }

  // ----- histories -----------------------------------------------------------------------------------------

  datatype Op =
    | OpAcquire(tenantId: string, version: string, now: real, alive: Conn -> bool, opening: Opening)
    | OpRelease(conn: Conn, resets: bool, live: bool, returned: real, now: real)
    | OpDiscard(conn: Conn)
    | OpInvalidate(tenantId: string, keepVersion: string)

  /** Fresh connections are new, and only the holder of a connection hands it back. */
  predicate Enabled(s: State, op: Op) {
    match op
    case OpAcquire(_, _, _, _, opening) => opening.Opens? ==> opening.conn !in s.everOpened
    case OpRelease(c, _, _, _, _) => Held(s, c)
    case OpDiscard(c) => Held(s, c)
    case OpInvalidate(_, _) => true
  }

  function Step(s: State, max: int, timeout: real, op: Op): State {
    match op
    case OpAcquire(tenantId, version, now, alive, opening) =>
      Acquire(s, max, timeout, tenantId, version, now, alive, opening).state
    case OpRelease(c, resets, live, returned, now) => Release(s, timeout, c, resets, live, returned, now)
    case OpDiscard(c) => Discard(s, c)
    case OpInvalidate(tenantId, keepVersion) => Invalidate(s, tenantId, keepVersion)
  }

  function Run(max: int, timeout: real, ops: seq<Op>): State {
    if ops == [] then EMPTY else Step(Run(max, timeout, ops[..|ops| - 1]), max, timeout, ops[|ops| - 1])
  }

  predicate EnabledRun(max: int, timeout: real, ops: seq<Op>) {
    ops != [] ==>
      && EnabledRun(max, timeout, ops[..|ops| - 1])
      && Enabled(Run(max, timeout, ops[..|ops| - 1]), ops[|ops| - 1])
  }

  /** Whatever clocks, liveness answers and failures a history meets, every connection ever opened
      is in exactly one place, under its own key, and no pool exceeds its bound. */
  lemma {:induction false} EveryConnectionAccounted(max: int, timeout: real, ops: seq<Op>)
    requires EnabledRun(max, timeout, ops)
    ensures Inv(Run(max, timeout, ops), max)
  {
    hide Inv, Acquire, Release, Discard, Invalidate, Held;
    if ops == [] {
      EmptyInv(max);
    } else {
      var s, op := Run(max, timeout, ops[..|ops| - 1]), ops[|ops| - 1];
      EveryConnectionAccounted(max, timeout, ops[..|ops| - 1]);
      match op
      case OpAcquire(tenantId, version, now, alive, opening) =>
        AcquireInv(s, max, timeout, tenantId, version, now, alive, opening);
      case OpRelease(c, resets, live, returned, now) => ReleaseInv(s, max, timeout, c, resets, live, returned, now);
      case OpDiscard(c) => DiscardInv(s, max, c);
      case OpInvalidate(tenantId, keepVersion) => InvalidateInv(s, max, tenantId, keepVersion);
    }
  }

  lemma EmptyInv(max: int)
    ensures Inv(EMPTY, max)
  {
    NoConns();
  }
}
