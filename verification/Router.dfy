/** The database router over its pools, its resolver and the bounded routing-audit policy. */
module Router {
  import opened Prelude
  import opened Pool
  import opened ConnectionPool
  import opened RoutingCache

  datatype Lane = Interactive | Bulk

  datatype Context = Context(activeTenant: Option<string>, role: string, principal: string, correlation: string,
                             request: string)

  datatype Action = Route | RouteControl | RouteDenied | IsolationAnomaly

  datatype RoutingEvent = RoutingEvent(
    actor: string, action: Action, correlation: string, outcome: string, target: Option<string>, request: string,
    resolved: Option<string>, publicCode: Option<string>, storeRef: Option<string>, version: Option<string>,
    lane: Option<Lane>)

  // ----- the audit policy -----------------------------------------------------------------------------

  /** What one call of the durable audit transport does. */
  datatype SinkReply = Accepts | FailsUnavailable | FailsInvalid | FailsConflict | FailsOtherwise

  datatype Call = Call(event: RoutingEvent, reply: SinkReply)

  /** The transport calls for one event: a second only after the first was unavailable. */
  function Calls(event: RoutingEvent, first: SinkReply, second: SinkReply): (calls: seq<Call>)
    ensures 1 <= |calls| <= 2 && forall i :: 0 <= i < |calls| ==> calls[i].event == event
    ensures |calls| == 2 <==> first == FailsUnavailable
    ensures Accepted(calls) <==> first == Accepts || (first == FailsUnavailable && second == Accepts)
  {
    if first == FailsUnavailable then [Call(event, first), Call(event, second)] else [Call(event, first)]
  }

  predicate Accepted(calls: seq<Call>) { calls != [] && calls[|calls| - 1].reply == Accepts }

  /** Whether the sink takes the event within the two attempts it gets. */
  predicate Delivered(w: World) {
    w.first == Accepts || (w.first == FailsUnavailable && w.second == Accepts)
  }

  predicate Vital(action: Action) { action == Route || action == RouteControl }

  class BoundedRoutingAuditPolicy {
    var routeDeniedFailures: nat
    var isolationAnomalyFailures: nat
    ghost var calls: seq<Call>

    constructor ()
      ensures routeDeniedFailures == 0 && isolationAnomalyFailures == 0 && calls == []
    {
      routeDeniedFailures, isolationAnomalyFailures, calls := 0, 0, [];
    }

    /** A finally failed denial or anomaly is counted and swallowed; a finally failed route raises. */
    method Terminal(event: RoutingEvent) returns (raised: bool)
      modifies `routeDeniedFailures, `isolationAnomalyFailures
      ensures raised <==> Vital(event.action)
      ensures routeDeniedFailures == old(routeDeniedFailures) + if event.action == RouteDenied then 1 else 0
      ensures isolationAnomalyFailures == old(isolationAnomalyFailures) + if event.action == IsolationAnomaly then 1
        else 0
    {
      if event.action == RouteDenied {
        routeDeniedFailures := routeDeniedFailures + 1;
        return false;
      }
      if event.action == IsolationAnomaly {
        isolationAnomalyFailures := isolationAnomalyFailures + 1;
        return false;
      }
      return true;
    }

    method Initiate(event: RoutingEvent, first: SinkReply, second: SinkReply) returns (raised: bool)
      modifies this
      ensures calls == old(calls) + Calls(event, first, second)
      ensures var lost := !Accepted(Calls(event, first, second));
        && (raised <==> lost && Vital(event.action))
        && routeDeniedFailures == old(routeDeniedFailures) + (if lost && event.action == RouteDenied then 1 else 0)
        && isolationAnomalyFailures
              == old(isolationAnomalyFailures) + (if lost && event.action == IsolationAnomaly then 1 else 0)
    {
      calls := calls + [Call(event, first)];
      if first == Accepts {
        return false;
      }
      if first != FailsUnavailable {
        raised := Terminal(event);
        return;
      }
      calls := calls + [Call(event, second)];
      if second == Accepts {
        return false;
      }
      raised := Terminal(event);
    }
  }

  // ----- routing ------------------------------------------------------------------------------------------

  /** Everything one request meets outside the router: clocks, replies, liveness and failures.
      `refusal` is set when opening failed with a denial of its own. */
  datatype World = World(
    looked: real, reply: Reply, stored: real, acquired: real, alive: Conn -> bool, opening: Opening,
    refusal: Option<(Denial, string)>, first: SinkReply, second: SinkReply)

  datatype Routed =
    | ToControl
    | ToTenant(tenantId: string, version: string, conn: Conn, lane: Lane)
    | Raised(denial: Denial, code: string)
    | Crashed

  /** After the request exactly the connections of `extra` are newly in use. */
  ghost predicate NewlyHeld(before: Pool.State, after: Pool.State, extra: set<Conn>) {
    forall c :: (IsInUse(after, c) <==> IsInUse(before, c) || c in extra) && (c in extra ==> !Held(before, c))
  }

  /** A denial raised while opening passes through; every other failure is one non-leaking code. */
  function Refusal(acquired: Acquired, w: World): (r: Routed)
    ensures r.Raised?
  {
    if acquired.OpenFailed? && w.refusal.Some? then Raised(w.refusal.value.0, w.refusal.value.1)
    else Raised(Unavailable, "connection_unavailable")
  }

  class DatabaseRouter {
    const resolver: RoutingResolver
    const pool: ConnectionPoolManager
    const bulkPool: ConnectionPoolManager?
    const policy: BoundedRoutingAuditPolicy
    ghost var minted: seq<RoutingEvent>

    ghost predicate Valid()
      reads this, resolver, resolver.cache, pool, bulkPool
    {
      && resolver.Valid() && pool.Valid() && bulkPool != pool
      && (bulkPool != null ==> bulkPool.Valid())
    }

    function PoolFor(lane: Lane): ConnectionPoolManager
      reads this
    {
      if lane == Bulk && bulkPool != null then bulkPool else pool
    }

    constructor (resolver: RoutingResolver, pool: ConnectionPoolManager, bulkPool: ConnectionPoolManager?,
            policy: BoundedRoutingAuditPolicy)
      requires resolver.Valid() && pool.Valid() && bulkPool != pool && (bulkPool != null ==> bulkPool.Valid())
      ensures Valid() && minted == []
      ensures this.resolver == resolver && this.pool == pool && this.bulkPool == bulkPool && this.policy == policy
    {
      this.resolver, this.pool, this.bulkPool, this.policy := resolver, pool, bulkPool, policy;
      minted := [];
    }

    function Mint(ctx: Context, action: Action, outcome: string, tenant: Option<string>): RoutingEvent {
      RoutingEvent(if ctx.principal == "" then "<unknown>"
                   else ctx.principal, action, ctx.correlation, outcome, tenant, ctx.request,
                   None, None, None, None, None)
    }

    method Deny(ctx: Context, tenant: Option<string>, denial: Denial, code: string, w: World) returns (r: Routed)
      modifies policy, `minted
      ensures r == Raised(denial, code)
      ensures minted == old(minted) + [Mint(ctx, RouteDenied, "denied:" + code, tenant).(publicCode := Some(code))]
      ensures policy.calls == old(policy.calls) + Calls(minted[|minted| - 1], w.first, w.second)
    {
      var event := Mint(ctx, RouteDenied, "denied:" + code, tenant).(publicCode := Some(code));
      minted := minted + [event];
      var lost := policy.Initiate(event, w.first, w.second);
      return Raised(denial, code);
    }

    method Acquire(view: View, lane: Lane, w: World) returns (r: Acquired, refused: Routed)
      requires Valid()
      requires w.opening.Opens? ==> w.opening.conn !in PoolFor(lane).everOpened
      modifies PoolFor(lane)
      ensures PoolFor(lane).Valid()
      ensures var got := if r.Got? then {r.conn} else {};
        NewlyHeld(old(PoolFor(lane).Now()), PoolFor(lane).Now(), got)
      ensures r.Got? ==> KeyOf(r.conn) == (view.tenantId, view.association.version)
      ensures r.Got? ==> w.alive(r.conn) || w.opening == Opens(r.conn)
      ensures !r.Got? ==> refused == Refusal(r, w)
      ensures r == old(Acquisition(view, lane, w))
    {
      var p := PoolFor(lane);
      AcquirePromise(p.Now(), p.max, p.idleTimeout, view.tenantId, view.association.version, w.acquired, w.alive,
                     w.opening);
      r := p.Acquire(view.tenantId, view.association.version, w.acquired, w.alive, w.opening);
      refused := Refusal(r, w);
    }

    /** The connection is handed back only if it is the signed tenant's and its event was accepted;
        otherwise it is discarded. */
    method Bind(ctx: Context, tenantId: string, view: View, lane: Lane, conn: Conn, w: World, ghost before: Pool.State)
      returns (r: Routed)
      requires Valid() && NewlyHeld(before, PoolFor(lane).Now(), {conn})
      modifies policy, `minted, PoolFor(lane)
      ensures PoolFor(lane).Valid()
      ensures r == if conn.tenantId != tenantId then Raised(Unavailable, "routing_isolation_fault")
                   else if Delivered(w) then ToTenant(tenantId, conn.version, conn, lane)
                   else Raised(Unavailable, "routing_audit_unavailable")
      ensures NewlyHeld(before, PoolFor(lane).Now(), if r.ToTenant? then {conn} else {})
      ensures !r.ToTenant? ==> conn in PoolFor(lane).closed
      ensures minted == old(minted) + [
        if conn.tenantId != tenantId then
          Mint(ctx, IsolationAnomaly, "anomaly:tenant_binding", Some(tenantId)).(resolved := Some(conn.tenantId))
        else
          Mint(ctx, Action.Route, "success", Some(tenantId)).(
            resolved := Some(conn.tenantId), storeRef := Some(view.association.storeRef), version :=
                Some(conn.version), lane := Some(lane))]
      ensures policy.calls == old(policy.calls) + Calls(minted[|minted| - 1], w.first, w.second)
    {
      hide Inv, Bounded, Calls, Pool.Discard, PoolAt;
      var p := PoolFor(lane);
      assert IsInUse(p.Now(), conn);
      InUseIsHeld(p.Now(), conn);
      DiscardCloses(p.Now(), conn);
      DiscardInv(p.Now(), p.max, conn);
      if conn.tenantId != tenantId {
        var anomaly :=
            Mint(ctx, IsolationAnomaly, "anomaly:tenant_binding", Some(tenantId)).(resolved := Some(conn.tenantId));
        minted := minted + [anomaly];
        var lost := policy.Initiate(anomaly, w.first, w.second);
        p.Discard(conn);
        return Raised(Unavailable, "routing_isolation_fault");
      }
      var success := Mint(ctx, Action.Route, "success", Some(tenantId)).(
        resolved := Some(conn.tenantId), storeRef := Some(view.association.storeRef), version :=
            Some(conn.version), lane := Some(lane));
      minted := minted + [success];
      var failed := policy.Initiate(success, w.first, w.second);
      if failed {
        p.Discard(conn);
        return Raised(Unavailable, "routing_audit_unavailable");
      }
      return ToTenant(tenantId, conn.version, conn, lane);
    }

    method RouteWithoutTenant(ctx: Context, bootstrapPhase0: bool, w: World) returns (r: Routed)
      requires ctx.activeTenant == None || bootstrapPhase0
      modifies policy, `minted
      ensures r == if ctx.activeTenant.Some? then Raised(Unavailable, "tenant_routing_unavailable")
                   else if ctx.role != "CONTROL" then Raised(Forbidden, "no_active_tenant")
                   else if Delivered(w) then ToControl
                   else Raised(Unavailable, "routing_audit_unavailable")
      ensures minted == old(minted) + [
        if ctx.activeTenant == None && ctx.role == "CONTROL" then Mint(ctx, RouteControl, "success", None)
        else Mint(ctx, RouteDenied, "denied:" + r.code, ctx.activeTenant).(publicCode := Some(r.code))]
      ensures policy.calls == old(policy.calls) + Calls(minted[|minted| - 1], w.first, w.second)
    {
      if ctx.activeTenant.Some? {
        r := Deny(ctx, ctx.activeTenant, Unavailable, "tenant_routing_unavailable", w);
        return;
      }
      if ctx.role != "CONTROL" {
        r := Deny(ctx, None, Forbidden, "no_active_tenant", w);
        return;
      }
      minted := minted + [Mint(ctx, RouteControl, "success", None)];
      var failed := policy.Initiate(Mint(ctx, RouteControl, "success", None), w.first, w.second);
      return if failed then Raised(Unavailable, "routing_audit_unavailable") else ToControl;
    }

    /** What a request resolves to before any connection is asked for. */
    ghost function Resolution(ctx: Context, w: World): RoutingCache.Resolution
      requires ctx.activeTenant.Some?
      reads this, resolver, resolver.cache
    {
      var cache := resolver.cache;
      Resolved(cache.entries, cache.max, cache.ttl, resolver.supported, ctx.activeTenant.value, w.looked, w.reply,
               w.stored).1
    }

    /** What the lane's pool then answers for the resolved view. */
    ghost function Acquisition(view: View, lane: Lane, w: World): Acquired
      reads this, PoolFor(lane)
    {
      var p := PoolFor(lane);
      Pool.Acquire(p.Now(), p.max, p.idleTimeout, view.tenantId, view.association.version, w.acquired, w.alive,
                   w.opening).acquired
    }

    /** What the request gets, from the state it meets: each refusal with its own non-leaking code. */
    ghost function Expected(ctx: Context, bootstrapPhase0: bool, lane: Lane, w: World): Routed
      reads this, resolver, resolver.cache, PoolFor(lane)
    {
      if ctx.activeTenant == None then
        if ctx.role != "CONTROL" then Raised(Forbidden, "no_active_tenant")
        else if Delivered(w) then ToControl
        else Raised(Unavailable, "routing_audit_unavailable")
      else if bootstrapPhase0 then Raised(Unavailable, "tenant_routing_unavailable")
      else
        match Resolution(ctx, w)
        case Broken => Crashed
        case Denied(denial, code) => Raised(denial, code)
        case Routable(view) =>
          var acquired := Acquisition(view, lane, w);
          if !acquired.Got? then Refusal(acquired, w)
          else if view.tenantId != ctx.activeTenant.value then Raised(Unavailable, "routing_isolation_fault")
          else if !Delivered(w) then Raised(Unavailable, "routing_audit_unavailable")
          else ToTenant(ctx.activeTenant.value, view.association.version, acquired.conn, lane)
    }

    /** What a request outside the bootstrap phase gets when its tenant cannot be reached: the resolver's own
        denial, the opening's own, or one code that tells nothing; never a connection. */
    lemma UnreachedIff(ctx: Context, lane: Lane, w: World)
      requires ctx.activeTenant.Some? && Resolution(ctx, w).Routable?
      ensures var got, r := Acquisition(Resolution(ctx, w).view, lane, w), Expected(ctx, false, lane, w);
        && (!got.Got? && (w.refusal == None || !got.OpenFailed?) ==> r == Raised(Unavailable, "connection_unavailable"))
        && (got.OpenFailed? && w.refusal.Some? ==> r == Raised(w.refusal.value.0, w.refusal.value.1))
        && (got.Got? && !(w.first == Accepts || (w.first == FailsUnavailable && w.second == Accepts)) ==>
              r.Raised? && r.denial == Unavailable)
    {
    }

    /** The one event of a request: a decision on a bound connection, or the denial with its code. */
    ghost predicate Reports(ctx: Context, bootstrapPhase0: bool, lane: Lane, w: World, event: RoutingEvent)
      reads this, resolver, resolver.cache, PoolFor(lane)
    {
      && event.target == ctx.activeTenant && event.correlation == ctx.correlation && event.request == ctx.request
      && event.actor == (if ctx.principal != "" then ctx.principal else "<unknown>")
      && if ctx.activeTenant == None && ctx.role == "CONTROL" then event.action == RouteControl
         else if ctx.activeTenant.Some? && !bootstrapPhase0 && Resolution(ctx, w).Routable?
                 && Acquisition(Resolution(ctx, w).view, lane, w).Got? then
           var view := Resolution(ctx, w).view;
           && event.resolved == Some(view.tenantId)
           && (if view.tenantId != ctx.activeTenant.value then event.action == IsolationAnomaly
               else event.action == Action.Route && event.version == Some(view.association.version)
                    && event.storeRef == Some(view.association.storeRef) && event.lane == Some(lane))
         else
           var r := Expected(ctx, bootstrapPhase0, lane, w);
           r.Raised? && event.action == RouteDenied && event.publicCode == Some(r.code)
               && event.outcome == "denied:" + r.code
    }

    /** One event is minted and offered to the sink at most twice. A connection comes back only as a
        newly held one of the signed tenant whose event the sink accepted; otherwise the request
        raises and holds nothing. Only a cache without room for one entry lets an unaudited error out. */
    method Route(ctx: Context, bootstrapPhase0: bool, lane: Lane, w: World) returns (r: Routed)
      requires Valid()
      requires w.opening.Opens? ==> w.opening.conn !in PoolFor(lane).everOpened
      modifies this`minted, policy, PoolFor(lane), resolver.cache`entries
      ensures Valid()
      ensures r.Crashed? ==> minted == old(minted) && policy.calls == old(policy.calls)
      ensures r.Crashed? <==> resolver.cache.max < 1 && ctx.activeTenant.Some? && !bootstrapPhase0 && w.reply.Answers?
      ensures !r.Crashed? ==>
        && |minted| == |old(minted)| + 1 && old(minted) < minted
        && policy.calls == old(policy.calls) + Calls(minted[|old(minted)|], w.first, w.second)
        && var event := minted[|old(minted)|]; old(Reports(ctx, bootstrapPhase0, lane, w, event))
      ensures r == old(Expected(ctx, bootstrapPhase0, lane, w))
      ensures r.ToTenant? <==>
        && ctx.activeTenant.Some? && !bootstrapPhase0 && Delivered(w)
        && old(Resolution(ctx, w).Routable? && Resolution(ctx, w).view.tenantId == ctx.activeTenant.value
               && Acquisition(Resolution(ctx, w).view, lane, w).Got?)
      ensures r.ToControl? <==> ctx.activeTenant == None && ctx.role == "CONTROL" && Delivered(w)
      ensures r.ToTenant? ==>
        && ctx.activeTenant == Some(r.tenantId) && r.lane == lane
        && KeyOf(r.conn) == (r.tenantId, r.version) && (w.alive(r.conn) || w.opening == Opens(r.conn))
        && Accepted(Calls(minted[|old(minted)|], w.first, w.second))
      ensures NewlyHeld(old(PoolFor(lane).Now()), PoolFor(lane).Now(), if r.ToTenant? then {r.conn} else {})
      ensures lane == Bulk && bulkPool != null ==>
        && pool.Now() == old(pool.Now())
        && NewlyHeld(old(bulkPool.Now()), bulkPool.Now(), if r.ToTenant? then {r.conn} else {})
      ensures lane == Interactive || bulkPool == null ==>
        && (bulkPool != null ==> bulkPool.Now() == old(bulkPool.Now()))
        && NewlyHeld(old(pool.Now()), pool.Now(), if r.ToTenant? then {r.conn} else {})
      ensures ctx.activeTenant == None || bootstrapPhase0 ==>
        PoolFor(lane).Now() == old(PoolFor(lane).Now()) && resolver.cache.entries == old(resolver.cache.entries)
    {
      hide Inv, Pool.Acquire, Resolved, NewlyHeld, Calls, Bounded, Refusal, MayRoute, Accepted;
      if ctx.activeTenant == None || bootstrapPhase0 {
        NothingHeld(PoolFor(lane).Now());
        r := RouteWithoutTenant(ctx, bootstrapPhase0, w);
        return;
      }
      BrokenIff(resolver.cache.entries, resolver.cache.max, resolver.cache.ttl, resolver.supported,
                ctx.activeTenant.value, w);
      r := RouteTenant(ctx, lane, w);
    }

    /** A request that carries a tenant, outside the bootstrap phase. */
    method RouteTenant(ctx: Context, lane: Lane, w: World) returns (r: Routed)
      requires Valid() && ctx.activeTenant.Some?
      requires w.opening.Opens? ==> w.opening.conn !in PoolFor(lane).everOpened
      modifies this`minted, policy, PoolFor(lane), resolver.cache`entries
      ensures Valid()
      ensures r == old(Expected(ctx, false, lane, w))
      ensures r.Crashed? ==> minted == old(minted) && policy.calls == old(policy.calls)
      ensures !r.Crashed? ==>
        && |minted| == |old(minted)| + 1 && old(minted) < minted
        && policy.calls == old(policy.calls) + Calls(minted[|old(minted)|], w.first, w.second)
        && var event := minted[|old(minted)|]; old(Reports(ctx, false, lane, w, event))
      ensures r.ToTenant? ==>
        KeyOf(r.conn) == (r.tenantId, r.version) && (w.alive(r.conn) || w.opening == Opens(r.conn))
      ensures NewlyHeld(old(PoolFor(lane).Now()), PoolFor(lane).Now(), if r.ToTenant? then {r.conn} else {})
    {
      hide Inv, Pool.Acquire, Resolved, NewlyHeld, Calls, Bounded, Refusal, MayRoute, Accepted;
      ghost var before := PoolFor(lane).Now();
      NothingHeld(before);
      var tenantId := ctx.activeTenant.value;
      var resolution := resolver.Resolve(tenantId, w.looked, w.reply, w.stored);
      if resolution.Broken? {
        return Crashed;
      }
      if resolution.Denied? {
        r := Deny(ctx, ctx.activeTenant, resolution.denial, resolution.code, w);
        return;
      }
      var view := resolution.view;
      var acquired, refused := Acquire(view, lane, w);
      if !acquired.Got? {
        r := Deny(ctx, ctx.activeTenant, refused.denial, refused.code, w);
        return;
      }
      r := Bind(ctx, tenantId, view, lane, acquired.conn, w, before);
    }

    /** Handing the result back returns its connection to the lane it came from, and no other. */
    method Release(result: Routed, resets: bool, alive: bool, returned: real, now: real)
      requires Valid() && (result.ToTenant? ==> Held(PoolFor(result.lane).Now(), result.conn))
      modifies if result.ToTenant? then {PoolFor(result.lane)} else {}
      ensures Valid()
      ensures result.ToTenant? ==>
        var p := PoolFor(result.lane);
        p.Now() == Pool.Release(old(p.Now()), p.idleTimeout, result.conn, resets, alive, returned, now)
      ensures result.ToTenant? ==>
        forall c :: IsInUse(PoolFor(result.lane).Now(), c) <==>
            old(IsInUse(PoolFor(result.lane).Now(), c)) && c != result.conn
      ensures result.ToTenant? && result.lane == Bulk && bulkPool != null ==>
        && pool.Now() == old(pool.Now())
        && bulkPool.Now()
           == Pool.Release(old(bulkPool.Now()), bulkPool.idleTimeout, result.conn, resets, alive, returned, now)
      ensures result.ToTenant? && (result.lane == Interactive || bulkPool == null) ==>
        && (bulkPool != null ==> bulkPool.Now() == old(bulkPool.Now()))
        && pool.Now() == Pool.Release(old(pool.Now()), pool.idleTimeout, result.conn, resets, alive, returned, now)
    {
      if result.ToTenant? {
        var p := PoolFor(result.lane);
        ReleaseHolders(p.Now(), p.max, p.idleTimeout, result.conn, resets, alive, returned, now);
        p.Release(result.conn, resets, alive, returned, now);
      }
    }
  }

  lemma InUseIsHeld(s: Pool.State, c: Conn)
    requires IsInUse(s, c)
    ensures Held(s, c)
  {
  }

  lemma DiscardCloses(s: Pool.State, c: Conn)
    ensures c in Pool.Discard(s, c).closed
  {
  }

  /** Resolving breaks exactly when the answer of the control plane finds a cache without room. */
  lemma BrokenIff(entries: seq<Entry<View>>, max: int, ttl: real, supported: set<string>, t: string, w: World)
    requires Bounded(entries, max)
    ensures Resolved(entries, max, ttl, supported, t, w.looked, w.reply, w.stored).1.Broken? <==>
      max < 1 && w.reply.Answers?
  {
    hide Bounded, Lookup, Insert, Gate;
    LookupKeeps(entries, max, t, w.looked);
    if w.reply.Answers? {
      InsertKeeps(Lookup(entries, t, w.looked).0, max, ttl, t, w.reply.view, w.stored);
    }
    GateDecides(supported);
  }

  lemma LookupKeeps(entries: seq<Entry<View>>, max: int, t: string, now: real)
    requires Bounded(entries, max)
    ensures Bounded(Lookup(entries, t, now).0, max) && (max < 1 ==> Lookup(entries, t, now).1 == None)
  {
    RemoveKeeps(entries, max, t);
  }

  lemma GateDecides(supported: set<string>)
    ensures forall view :: !Gate(view, supported).Broken?
  {
  }

  lemma NothingHeld(s: Pool.State)
    ensures NewlyHeld(s, s, {})
  {
  }

  lemma ReleaseHolders(s: Pool.State, max: int, timeout: real, c: Conn, resets: bool, alive: bool, returned: real,
          now: real)
    requires Inv(s, max) && Held(s, c)
    ensures forall d :: IsInUse(Pool.Release(s, timeout, c, resets, alive, returned, now), d) <==>
      IsInUse(s, d) && d != c
  {
    hide Inv, Evict, Conns;
    var key := KeyOf(c);
    var p := PoolAt(s, key);
    if c in p.inUse && resets && alive {
      ReturnedInv(s, max, c, returned);
      EvictInv(WithPool(s, key, KeyedPool(p.idle + [Idle(c, returned)], p.inUse - {c})), max, now, timeout);
    }
  }
}
