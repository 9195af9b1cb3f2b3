/** The routing-view cache and the resolver that fills, serves and invalidates it. */
module RoutingCache {
  import opened Prelude
  import opened Naming

  datatype View = View(tenantId: string, lifecycle: string, ready: bool, association: SecretRef, schema: string)

  datatype Denial = NotFound | NotReady | Disabled | Unavailable | Forbidden

  datatype Resolution = Routable(view: View) | Denied(denial: Denial, code: string) | Broken

  /** What the control plane's read port answers; any failure of the call is `Raises`. */
  datatype Reply = Raises | Unknown | Answers(view: View)

  // ----- the cache as a value --------------------------------------------------------------------

  /** Entries stand in insertion order; a key that is written again keeps its place. */
  datatype Entry<V> = Entry(tenantId: string, expires: real, value: V)

  function IndexOf<V>(entries: seq<Entry<V>>, tenantId: string): (i: nat)
    ensures i <= |entries|
    ensures i < |entries| ==> entries[i].tenantId == tenantId
    ensures forall j :: 0 <= j < i ==> entries[j].tenantId != tenantId
  {
    if entries == [] then 0
    else if entries[0].tenantId == tenantId then 0
    else 1 + IndexOf(entries[1..], tenantId)
  }

  predicate Has<V>(entries: seq<Entry<V>>, tenantId: string) { IndexOf(entries, tenantId) < |entries| }

  function Remove<V>(entries: seq<Entry<V>>, tenantId: string): seq<Entry<V>> {
    var i := IndexOf(entries, tenantId);
    if i < |entries| then entries[..i] + entries[i + 1..] else entries
  }

  function Lookup<V>(entries: seq<Entry<V>>, tenantId: string, now: real): (seq<Entry<V>>, Option<V>) {
    var i := IndexOf(entries, tenantId);
    if i == |entries| then (entries, None)
    else if now > entries[i].expires then (Remove(entries, tenantId), None)
    else (entries, Some(entries[i].value))
  }

  /** `None` when the bound leaves no room at all: there is no oldest entry to drop. */
  function Insert<V>(entries: seq<Entry<V>>, max: int, ttl: real, tenantId: string, value: V,
          now: real): Option<seq<Entry<V>>> {
    var e, i := Entry(tenantId, now + ttl, value), IndexOf(entries, tenantId);
    if i < |entries| then Some(entries[i := e])
    else if |entries| < max then Some(entries + [e])
    else if entries == [] then None
    else Some(entries[1..] + [e])
  }

  predicate OneEach<V>(entries: seq<Entry<V>>) {
    forall i, j :: 0 <= i < j < |entries| ==> entries[i].tenantId != entries[j].tenantId
  }

  predicate Bounded<V>(entries: seq<Entry<V>>, max: int) { OneEach(entries) && |entries| <= Max(max, 0) }

  /** Removal, lookup and insertion keep one entry a tenant within the bound; only an insertion adds. */
  lemma RemoveKeeps<V>(entries: seq<Entry<V>>, max: int, tenantId: string)
    requires Bounded(entries, max)
    ensures Bounded(Remove(entries, tenantId), max)
    ensures forall e :: e in Remove(entries, tenantId) <==> e in entries && e.tenantId != tenantId
  {
    var i, rest := IndexOf(entries, tenantId), Remove(entries, tenantId);
    forall e ensures e in rest <==> e in entries && e.tenantId != tenantId {
      if e in entries && e.tenantId != tenantId && i < |entries| {
        var j :| 0 <= j < |entries| && entries[j] == e;
        assert rest[if j < i then j else j - 1] == e;
      }
    }
  }

  lemma InsertKeeps<V>(entries: seq<Entry<V>>, max: int, ttl: real, tenantId: string, value: V, now: real)
    requires Bounded(entries, max)
    ensures var r := Insert(entries, max, ttl, tenantId, value, now);
      && (r.Some? <==> max >= 1)
      && (r.Some? ==>
            && Bounded(r.value, max) && Entry(tenantId, now + ttl, value) in r.value
            && (forall e :: e in r.value ==>
                e == Entry(tenantId, now + ttl, value) || (e in entries && e.tenantId != tenantId)))
  {
    var i, e := IndexOf(entries, tenantId), Entry(tenantId, now + ttl, value);
    var r := Insert(entries, max, ttl, tenantId, value, now);
    if r.Some? {
      if i < |entries| {
        assert r.value[i] == e;
      } else {
        assert r.value[|r.value| - 1] == e;
        assert forall d :: d in entries ==> d.tenantId != tenantId;
      }
    }
  }

  /** An insertion leaves every other tenant's entry where it was served from, but the oldest one when a
      full cache takes in a tenant it did not hold. */
  lemma InsertLeaves<V>(entries: seq<Entry<V>>, max: int, ttl: real, tenantId: string, value: V, now: real, k: nat)
    requires Bounded(entries, max) && k < |entries| && entries[k].tenantId != tenantId && max >= 1
    ensures var r := Insert(entries, max, ttl, tenantId, value, now);
      r.Some? && (entries[k] !in r.value <==>
                    (k == 0 && |entries| >= max && forall j :: 0 <= j < |entries| ==> entries[j].tenantId != tenantId))
  {
    var i, r := IndexOf(entries, tenantId), Insert(entries, max, ttl, tenantId, value, now);
    if i < |entries| {
      assert r.value[k] == entries[k];
    } else if |entries| < max {
      assert r.value[k] == entries[k];
    } else if k > 0 {
      assert r.value[k - 1] == entries[k];
    }
  }

  /** A lookup serves a tenant's entry exactly until it expires, and drops it after. */
  lemma LookupIff<V>(entries: seq<Entry<V>>, max: int, tenantId: string, now: real, e: Entry<V>)
    requires Bounded(entries, max) && e in entries && e.tenantId == tenantId
    ensures var (kept, found) := Lookup(entries, tenantId, now);
      && (now <= e.expires ==> found == Some(e.value) && kept == entries)
      && (now > e.expires ==> found == None && e !in kept && forall d :: d in entries && d != e ==> d in kept)
  {
    hide Remove, Bounded;
    RemoveKeeps(entries, max, tenantId);
    OnlyEntry(entries, max, tenantId, e);
  }

  lemma OnlyEntry<V>(entries: seq<Entry<V>>, max: int, tenantId: string, e: Entry<V>)
    requires Bounded(entries, max) && e in entries && e.tenantId == tenantId
    ensures var i := IndexOf(entries, tenantId); i < |entries| && entries[i] == e
    ensures forall d :: d in entries && d != e ==> d.tenantId != tenantId
  {
    var k :| 0 <= k < |entries| && entries[k] == e;
    assert IndexOf(entries, tenantId) == k;
  }

  // ----- the gates ----------------------------------------------------------------------------------

  function DenialForState(lifecycle: string, ready: bool): Option<Resolution> {
    if lifecycle == "Ready" && ready then None
    else if lifecycle == "Suspended" then Some(Denied(Disabled, "administratively_disabled"))
    else if lifecycle == "Failed" then Some(Denied(Unavailable, "unavailable"))
    else if lifecycle == "Decommissioned" then Some(Denied(NotFound, "not_found"))
    else if lifecycle in {"Registered", "Provisioning", "Verifying"} || !ready then Some(Denied(NotReady, "not_ready"))
    else Some(Denied(NotFound, "not_found"))
  }

  /** Each denial exactly under its own condition; what is neither routable nor named is not found. */
  lemma DenialIff(lifecycle: string, ready: bool)
    ensures var denial := DenialForState(lifecycle, ready);
      && (denial == None <==> lifecycle == "Ready" && ready)
      && (denial == Some(Denied(Disabled, "administratively_disabled")) <==> lifecycle == "Suspended")
      && (denial == Some(Denied(Unavailable, "unavailable")) <==> lifecycle == "Failed")
      && (denial == Some(Denied(NotReady, "not_ready")) <==>
            (lifecycle !in {"Suspended", "Failed", "Decommissioned"}
             && (!ready || lifecycle == "Registered" || lifecycle == "Provisioning" || lifecycle == "Verifying")))
      && (denial == Some(Denied(NotFound, "not_found")) <==>
            (lifecycle == "Decommissioned"
             || (ready && lifecycle !in {"Ready", "Suspended", "Failed", "Registered", "Provisioning", "Verifying"})))
  {
    assert "Ready" != "Suspended" && |"Ready"| == 5 && |"Failed"| == 6 && |"Suspended"| == 9;
    assert |"Registered"| == 10 && |"Provisioning"| == 12 && |"Verifying"| == 9 && |"Decommissioned"| == 14;
    assert "Verifying"[0] != "Suspended"[0];
  }

  function Gate(view: View, supported: set<string>): Resolution {
    var denial := DenialForState(view.lifecycle, view.ready);
    if denial.Some? then denial.value
    else if view.schema !in supported then Denied(NotReady, "schema_out_of_range")
    else Routable(view)
  }

  predicate MayRoute(view: View, supported: set<string>) {
    view.lifecycle == "Ready" && view.ready && view.schema in supported
  }

  // ----- the cache and the resolver, in place ---------------------------------------------------------

  class RoutingViewCache<V> {
    const ttl: real
    const max: int
    var entries: seq<Entry<V>>

    ghost predicate Valid()
      reads this
    {
      Bounded(entries, max)
    }

    constructor (ttlSeconds: real, maxEntries: int)
      ensures Valid() && entries == [] && ttl == ttlSeconds && max == maxEntries
    {
      ttl, max, entries := ttlSeconds, maxEntries, [];
    }

    method Get(tenantId: string, now: real) returns (found: Option<V>)
      requires Valid()
      modifies `entries
      ensures Valid()
      ensures (entries, found) == Lookup(old(entries), tenantId, now)
    {
      RemoveKeeps(entries, max, tenantId);
      var i := IndexOf(entries, tenantId);
      if i == |entries| {
        return None;
      }
      if now > entries[i].expires {
        entries := entries[..i] + entries[i + 1..];
        return None;
      }
      return Some(entries[i].value);
    }

    method Put(tenantId: string, value: V, now: real) returns (stored: bool)
      requires Valid()
      modifies `entries
      ensures Valid() && (stored <==> max >= 1)
      ensures stored ==> Insert(old(entries), max, ttl, tenantId, value, now) == Some(entries)
      ensures !stored ==> entries == old(entries)
    {
      InsertKeeps(entries, max, ttl, tenantId, value, now);
      var i := IndexOf(entries, tenantId);
      var known := i < |entries|;
      if |entries| >= max && !known {
        if entries == [] {
          return false;
        }
        entries := entries[1..];
      }
      if known {
        entries := entries[i := Entry(tenantId, now + ttl, value)];
      } else {
        entries := entries + [Entry(tenantId, now + ttl, value)];
      }
      return true;
    }

    method Invalidate(tenantId: string)
      requires Valid()
      modifies `entries
      ensures Valid() && entries == Remove(old(entries), tenantId)
    {
      RemoveKeeps(entries, max, tenantId);
      var i := IndexOf(entries, tenantId);
      if i < |entries| {
        entries := entries[..i] + entries[i + 1..];
      }
    }
  }

  /** One resolution as a function of the cache, the clock readings and the port's reply. */
  function Resolved(entries: seq<Entry<View>>, max: int, ttl: real, supported: set<string>, tenantId: string,
          looked: real, reply: Reply, stored: real): (seq<Entry<View>>, Resolution)
  {
    var (kept, hit) := Lookup(entries, tenantId, looked);
    if hit.Some? then (kept, Gate(hit.value, supported))
    else
      match reply
      case Raises => (kept, Denied(Unavailable, "control_plane_unavailable"))
      case Unknown => (kept, Denied(NotFound, "not_found"))
      case Answers(view) =>
        var grown := Insert(kept, max, ttl, tenantId, view, stored);
        if grown.None? then (kept, Broken) else (grown.value, Gate(view, supported))
  }

  /** What a resolution says when the cache has no entry to serve: the port's failure is unavailable, its
      silence not found, and its view is routable exactly if it may be routed. */
  lemma MissIff(entries: seq<Entry<View>>, max: int, ttl: real, supported: set<string>, tenantId: string, looked: real,
          reply: Reply, stored: real)
    requires max >= 1 && Bounded(entries, max)
    requires forall e :: e in entries && e.tenantId == tenantId ==> looked > e.expires
    ensures var r := Resolved(entries, max, ttl, supported, tenantId, looked, reply, stored).1;
      match reply
      case Raises => r == Denied(Unavailable, "control_plane_unavailable")
      case Unknown => r == Denied(NotFound, "not_found")
      case Answers(view) =>
        && (r == Routable(view) <==> view.lifecycle == "Ready" && view.ready && view.schema in supported)
        && (view.lifecycle == "Ready" && view.ready && view.schema !in supported ==>
              r == Denied(NotReady, "schema_out_of_range"))
        && !r.Broken?
  {
    hide Lookup, Insert, Bounded;
    NothingServed(entries, max, tenantId, looked);
    if reply.Answers? {
      InsertKeeps(Lookup(entries, tenantId, looked).0, max, ttl, tenantId, reply.view, stored);
    }
  }

  lemma NothingServed<V>(entries: seq<Entry<V>>, max: int, tenantId: string, looked: real)
    requires Bounded(entries, max)
    requires forall e :: e in entries && e.tenantId == tenantId ==> looked > e.expires
    ensures Lookup(entries, tenantId, looked).1 == None && Bounded(Lookup(entries, tenantId, looked).0, max)
  {
    hide Remove, Bounded;
    RemoveKeeps(entries, max, tenantId);
    var i := IndexOf(entries, tenantId);
    if i < |entries| {
      assert entries[i] in entries;
    }
  }

  class RoutingResolver {
    const cache: RoutingViewCache<View>
    const supported: set<string>

    ghost predicate Valid()
      reads this, cache
    {
      cache.Valid()
    }

    constructor (cache: RoutingViewCache<View>, supported: set<string>)
      requires cache.Valid()
      ensures Valid() && this.cache == cache && this.supported == supported
    {
      this.cache, this.supported := cache, supported;
    }

    method Resolve(tenantId: string, looked: real, reply: Reply, stored: real) returns (r: Resolution)
      requires Valid()
      modifies cache`entries
      ensures Valid()
      ensures (cache.entries, r)
        == Resolved(old(cache.entries), cache.max, cache.ttl, supported, tenantId, looked, reply, stored)
      ensures r.Routable? ==> MayRoute(r.view, supported)
      ensures r.Broken? ==> cache.max < 1
    {
      hide Insert, Remove, IndexOf, Bounded;
      ghost var kept0 := Lookup(cache.entries, tenantId, looked).0;
      RemoveKeeps(cache.entries, cache.max, tenantId);
      if reply.Answers? {
        InsertKeeps(kept0, cache.max, cache.ttl, tenantId, reply.view, stored);
      }
      var hit := cache.Get(tenantId, looked);
      var view: View;
      if hit.None? {
        match reply
        case Raises => return Denied(Unavailable, "control_plane_unavailable");
        case Unknown => return Denied(NotFound, "not_found");
        case Answers(answer) =>
          var kept := cache.Put(tenantId, answer, stored);
          if !kept {
            return Broken;
          }
          view := answer;
      } else {
        view := hit.value;
      }
      var denial := DenialForState(view.lifecycle, view.ready);
      if denial.Some? {
        return denial.value;
      }
      if view.schema !in supported {
        return Denied(NotReady, "schema_out_of_range");
      }
      return Routable(view);
    }

    method Invalidate(tenantId: string)
      requires Valid()
      modifies cache`entries
      ensures Valid() && cache.entries == Remove(old(cache.entries), tenantId)
    {
      cache.Invalidate(tenantId);
    }
  }
}
