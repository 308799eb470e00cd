/**
  The readiness reconciler of both control planes: a map from route key to the
  hostnames of every route judged not ready, kept up to date from route and
  endpoint events, and flattened into the published list of cold hostnames.
 */
module Reconciler {
  import opened Cluster
  import opened Enumeration

  /** `scaledToZeroTargets`: route key to the hostnames of a route that is not ready. */
  type Targets = map<string, seq<string>>

  /** The effect of `handleRouteChange` once the readiness verdict is known. */
  function RouteChange(m: Targets, route: HTTPRoute, ready: bool): (m': Targets)
    ensures ready ==> RouteKey(route) !in m'
    ensures ready && RouteKey(route) !in m ==> m' == m
    ensures !ready ==> RouteKey(route) in m' && m'[RouteKey(route)] == route.hostnames
    ensures forall k :: k != RouteKey(route) ==> (k in m' <==> k in m) && (k in m' ==> m'[k] == m[k])
  {
    var key := RouteKey(route);
    if key in m && ready then m - {key}
    else if ready then m
    else m[key := route.hostnames]
  }

  /** Handling the same route twice against the same cache changes nothing further. */
  lemma RouteChangeIdempotent(m: Targets, route: HTTPRoute, ready: bool)
    ensures RouteChange(RouteChange(m, route, ready), route, ready) == RouteChange(m, route, ready)
  {
  }

  /** One route of `handleEndpointChange`: re-evaluated when one of its Service backends is the endpoint. */
  function EndpointStep(m: Targets, route: HTTPRoute, epName: string, c: Cache): Targets {
    if References(route, epName) then RouteChange(m, route, Ready(route, c)) else m
  }

  /** `handleEndpointChange` over the listed routes, in listing order. */
  function EndpointChange(m: Targets, routes: seq<HTTPRoute>, epName: string, c: Cache): Targets
    decreases |routes|
  {
    if routes == [] then m
    else EndpointStep(EndpointChange(m, routes[..|routes| - 1], epName, c), routes[|routes| - 1], epName, c)
  }

  /** Some listed route referencing the endpoint has key `k`. */
  predicate Touches(routes: seq<HTTPRoute>, epName: string, k: string) {
    exists r :: r in routes && References(r, epName) && RouteKey(r) == k
  }

  /** Two routes of one listing never share a key. */
  predicate UniqueKeys(routes: seq<HTTPRoute>) {
    forall i, j :: 0 <= i < j < |routes| ==> RouteKey(routes[i]) != RouteKey(routes[j])
  }

  /**
    Kubernetes names an object by namespace and name, and namespaces hold no
    "/": a listing of distinct routes therefore has distinct keys.
   */
  lemma DistinctRoutesHaveUniqueKeys(routes: seq<HTTPRoute>)
    requires forall i :: 0 <= i < |routes| ==> '/' !in routes[i].namespace
    requires forall i, j :: 0 <= i < j < |routes| ==>
      routes[i].namespace != routes[j].namespace || routes[i].name != routes[j].name
    ensures UniqueKeys(routes)
  {
    forall i, j | 0 <= i < j < |routes| ensures RouteKey(routes[i]) != RouteKey(routes[j]) {
      if RouteKey(routes[i]) == RouteKey(routes[j]) {
        RouteKeyInjective(routes[i], routes[j]);
      }
    }
  }

  /** Maps `a` and `b` hold the same entry (or none) at `k`. */
  predicate SameAt(a: Targets, b: Targets, k: string) {
    (k in a <==> k in b) && (k in a ==> a[k] == b[k])
  }

  /** An endpoint event leaves alone every key that no referencing route has. */
  lemma {:induction false} EndpointChangeElsewhere(m: Targets, routes: seq<HTTPRoute>, epName: string, c: Cache, k: string)
    requires !Touches(routes, epName, k)
    ensures SameAt(EndpointChange(m, routes, epName, c), m, k)
    decreases |routes|
  {
    if routes != [] {
      var init := routes[..|routes| - 1];
      assert forall r :: r in init ==> r in routes;
      EndpointChangeElsewhere(m, init, epName, c, k);
    }
  }

  /** On a key some referencing route has, the outcome does not depend on the map before the event. */
  lemma {:induction false} EndpointChangeForgetsStart(m1: Targets, m2: Targets, routes: seq<HTTPRoute>, epName: string, c: Cache, k: string)
    requires Touches(routes, epName, k)
    ensures SameAt(EndpointChange(m1, routes, epName, c), EndpointChange(m2, routes, epName, c), k)
    decreases |routes|
  {
    var last := routes[|routes| - 1];
    var init := routes[..|routes| - 1];
    assert routes == init + [last];
    if !(References(last, epName) && RouteKey(last) == k) {
      var r :| r in routes && References(r, epName) && RouteKey(r) == k;
      assert r in init;
      EndpointChangeForgetsStart(m1, m2, init, epName, c, k);
    }
  }

  /** Re-delivering an endpoint event against the same cache changes nothing further. */
  lemma EndpointChangeIdempotent(m: Targets, routes: seq<HTTPRoute>, epName: string, c: Cache)
    ensures EndpointChange(EndpointChange(m, routes, epName, c), routes, epName, c) == EndpointChange(m, routes, epName, c)
  {
    var once := EndpointChange(m, routes, epName, c);
    var twice := EndpointChange(once, routes, epName, c);
    forall k ensures (k in twice <==> k in once) && (k in twice ==> twice[k] == once[k]) {
      if Touches(routes, epName, k) {
        EndpointChangeForgetsStart(once, m, routes, epName, c, k);
      } else {
        EndpointChangeElsewhere(once, routes, epName, c, k);
      }
    }
    assert twice.Keys == once.Keys;
  }

  /** Each referencing route ends up exactly as `handleRouteChange` leaves it. */
  lemma {:induction false} EndpointChangeAt(m: Targets, routes: seq<HTTPRoute>, epName: string, c: Cache, i: nat)
    requires UniqueKeys(routes)
    requires i < |routes| && References(routes[i], epName)
    ensures var m' := EndpointChange(m, routes, epName, c);
      && (RouteKey(routes[i]) in m' <==> !Ready(routes[i], c))
      && (RouteKey(routes[i]) in m' ==> m'[RouteKey(routes[i])] == routes[i].hostnames)
    decreases |routes|
  {
    var init := routes[..|routes| - 1];
    if i < |routes| - 1 {
      assert init[i] == routes[i];
      EndpointChangeAt(m, init, epName, c, i);
    }
  }

  /** The events the two informers deliver, with the objects they carry. */
  datatype Event =
    | RouteAdded(route: HTTPRoute)
    | RouteUpdated(oldRoute: HTTPRoute, newRoute: HTTPRoute)
    | RouteDeleted(route: HTTPRoute)
    | EndpointsAdded(endpoints: Endpoints)
    | EndpointsUpdated(oldEndpoints: Endpoints, newEndpoints: Endpoints)
    | EndpointsDeleted(endpoints: Endpoints)

  /** The effect of an endpoint event: a failed route listing drops the event. */
  function EndpointEvent(m: Targets, ep: Endpoints, c: Cache): Targets {
    match ListRoutes(c, ep.namespace)
    case ListFailed => m
    case Listed(routes) => EndpointChange(m, routes, ep.name, c)
  }

  /** The effect of one event on the map, against the cache at that moment. */
  function AfterEvent(m: Targets, e: Event, c: Cache): Targets {
    match e
    case RouteAdded(r) => RouteChange(m, r, Ready(r, c))
    case RouteUpdated(_, r) => RouteChange(m, r, Ready(r, c))
    case RouteDeleted(r) => m - {RouteKey(r)}
    case EndpointsAdded(ep) => EndpointEvent(m, ep, c)
    case EndpointsUpdated(_, ep) => EndpointEvent(m, ep, c)
    case EndpointsDeleted(ep) => EndpointEvent(m, ep, c)
  }

  /** At-least-once delivery is harmless: any event delivered twice has the effect of one delivery. */
  lemma EventRedeliveryIsHarmless(m: Targets, e: Event, c: Cache)
    ensures AfterEvent(AfterEvent(m, e, c), e, c) == AfterEvent(m, e, c)
  {
    match e
    case RouteAdded(r) => RouteChangeIdempotent(m, r, Ready(r, c));
    case RouteUpdated(_, r) => RouteChangeIdempotent(m, r, Ready(r, c));
    case RouteDeleted(r) =>
    case EndpointsAdded(ep) =>
      if ListRoutes(c, ep.namespace).Listed? {
        EndpointChangeIdempotent(m, ListRoutes(c, ep.namespace).items, ep.name, c);
      }
    case EndpointsUpdated(_, ep) =>
      if ListRoutes(c, ep.namespace).Listed? {
        EndpointChangeIdempotent(m, ListRoutes(c, ep.namespace).items, ep.name, c);
      }
    case EndpointsDeleted(ep) =>
      if ListRoutes(c, ep.namespace).Listed? {
        EndpointChangeIdempotent(m, ListRoutes(c, ep.namespace).items, ep.name, c);
      }
  }

  /** A route delete removes its key whatever the route's readiness, and nothing else. */
  lemma RouteDeleteRemovesOnlyItsKey(m: Targets, r: HTTPRoute, c: Cache)
    ensures RouteKey(r) !in AfterEvent(m, RouteDeleted(r), c)
    ensures forall k :: k != RouteKey(r) ==> SameAt(AfterEvent(m, RouteDeleted(r), c), m, k)
  {
  }

  /** The published list: the hostname lists of the keys, concatenated in the order visited. */
  function Hostnames(m: Targets, order: seq<string>): seq<string>
    requires forall k :: k in order ==> k in m
    decreases |order|
  {
    if order == [] then []
    else Hostnames(m, order[..|order| - 1]) + m[order[|order| - 1]]
  }

  lemma {:induction false} HostnamesAppend(m: Targets, a: seq<string>, b: seq<string>)
    requires forall k :: k in a + b ==> k in m
    ensures Hostnames(m, a + b) == Hostnames(m, a) + Hostnames(m, b)
    decreases |b|
  {
    if b != [] {
      var b' := b[..|b| - 1];
      assert (a + b)[..|a + b| - 1] == a + b';
      HostnamesAppend(m, a, b');
    } else {
      assert a + b == a;
    }
  }

  /** A hostname is listed iff some visited key holds it. */
  lemma {:induction false} HostnamesMembership(m: Targets, order: seq<string>, h: string)
    requires forall k :: k in order ==> k in m
    ensures h in Hostnames(m, order) <==> exists k :: k in order && h in m[k]
    decreases |order|
  {
    if order != [] {
      var init := order[..|order| - 1];
      var last := order[|order| - 1];
      assert order == init + [last];
      HostnamesMembership(m, init, h);
    }
  }

  /** Whatever order Go visits the keys in, the same hostnames are listed, as often. */
  lemma {:induction false} HostnamesOrderIndependent(m: Targets, o1: seq<string>, o2: seq<string>, keys: set<string>)
    requires keys <= m.Keys
    requires Enumerates(o1, keys) && Enumerates(o2, keys)
    ensures multiset(Hostnames(m, o1)) == multiset(Hostnames(m, o2))
    decreases |o1|
  {
    if o1 == [] {
      EnumerationLength(o1, keys);
      EnumerationLength(o2, keys);
    } else {
      var k := o1[|o1| - 1];
      var init1 := o1[..|o1| - 1];
      assert o1[|o1| - 1] in o1;
      var j :| 0 <= j < |o2| && o2[j] == k;
      var pre, post := o2[..j], o2[j + 1..];
      var rest2 := pre + post;
      DropAt(o1, keys, |o1| - 1);
      assert o1[..|o1| - 1] + o1[|o1|..] == init1;
      DropAt(o2, keys, j);
      HostnamesOrderIndependent(m, init1, rest2, keys - {k});
      assert o2 == pre + [k] + post;
      HostnamesWithout(m, pre, k, post);
      var h1 := Hostnames(m, init1);
      assert Hostnames(m, o1) == h1 + m[k];
      assert multiset(Hostnames(m, o1)) == multiset(h1) + multiset(m[k]);
    }
  }

  /** Taking one key out of the visiting order takes out exactly its hostnames. */
  lemma HostnamesWithout(m: Targets, pre: seq<string>, k: string, post: seq<string>)
    requires forall x :: x in pre + [k] + post ==> x in m
    ensures multiset(Hostnames(m, pre + [k] + post)) == multiset(Hostnames(m, pre + post)) + multiset(m[k])
  {
    HostnamesAppend(m, pre + [k], post);
    HostnamesAppend(m, pre, [k]);
    HostnamesAppend(m, pre, post);
    assert Hostnames(m, [k]) == m[k] by {
      assert [k][..0] == [];
    }
    var hp, hk, hq := Hostnames(m, pre), m[k], Hostnames(m, post);
    assert multiset(hp + hk + hq) == multiset(hp + hq) + multiset(hk);
  }

  /** The reconciler, with the map its informer callbacks update in place. */
  class RequestBufferController {
    var scaledToZeroTargets: Targets

    constructor ()
      ensures scaledToZeroTargets == map[]
    {
      scaledToZeroTargets := map[];
    }

    /** `hasReadyEndpoints`: build the set of ready endpoint names, then check every Service backend. */
    method HasReadyEndpoints(route: HTTPRoute, c: Cache) returns (isReady: bool)
      ensures isReady == Ready(route, c)
    {
      var listing := ListEndpoints(c, route.namespace);
      if listing.ListFailed? {
        return false;
      }
      var endpoints := listing.items;
      var readyEndpoints: map<string, bool> := map[];
      var i := 0;
      while i < |endpoints|
        invariant 0 <= i <= |endpoints|
        invariant forall name :: name in readyEndpoints <==> EndpointReady(endpoints[..i], name)
      {
        var ep := endpoints[i];
        assert endpoints[..i + 1] == endpoints[..i] + [ep];
        var j := 0;
        while j < |ep.subsets|
          invariant 0 <= j <= |ep.subsets|
          invariant forall name :: name in readyEndpoints <==> EndpointReady(endpoints[..i], name)
          invariant forall s :: s in ep.subsets[..j] ==> |s.addresses| == 0
        {
          if |ep.subsets[j].addresses| > 0 {
            readyEndpoints := readyEndpoints[ep.name := true];
            break;
          }
          assert ep.subsets[..j + 1] == ep.subsets[..j] + [ep.subsets[j]];
          j := j + 1;
        }
        assert j == |ep.subsets| ==> ep.subsets[..j] == ep.subsets && !HasAddress(ep);
        i := i + 1;
      }
      assert endpoints[..i] == endpoints;

      var hasReadyEndpoints := true;
      var r := 0;
      while r < |route.rules|
        invariant 0 <= r <= |route.rules|
        invariant hasReadyEndpoints <==> forall rule, ref ::
          rule in route.rules[..r] && ref in rule.backendRefs && IsServiceRef(ref) ==> ref.name in readyEndpoints
      {
        var refs := route.rules[r].backendRefs;
        assert route.rules[..r + 1] == route.rules[..r] + [route.rules[r]];
        var b := 0;
        while b < |refs|
          invariant 0 <= b <= |refs|
          invariant hasReadyEndpoints <==>
            && (forall rule, ref :: rule in route.rules[..r] && ref in rule.backendRefs && IsServiceRef(ref) ==> ref.name in readyEndpoints)
            && (forall ref :: ref in refs[..b] && IsServiceRef(ref) ==> ref.name in readyEndpoints)
        {
          assert refs[..b + 1] == refs[..b] + [refs[b]];
          if refs[b].kind == "Service" {
            if refs[b].name !in readyEndpoints {
              hasReadyEndpoints := false;
            }
          }
          b := b + 1;
        }
        assert refs[..b] == refs;
        r := r + 1;
      }
      assert route.rules[..r] == route.rules;
      isReady := hasReadyEndpoints;
    }

    /** `handleRouteChange`: drop a ready route's key, store a route's hostnames while it is not ready. */
    method HandleRouteChange(route: HTTPRoute, c: Cache)
      modifies this
      ensures scaledToZeroTargets == RouteChange(old(scaledToZeroTargets), route, Ready(route, c))
    {
      var isReady := HasReadyEndpoints(route, c);
      var key := RouteKey(route);
      var has := key in scaledToZeroTargets;
      if !has && isReady {
        // not scaled to zero: nothing to do
      } else if has && isReady {
        scaledToZeroTargets := scaledToZeroTargets - {key};
      } else {
        var domains: seq<string> := [];
        var i := 0;
        while i < |route.hostnames|
          invariant 0 <= i <= |route.hostnames|
          invariant domains == route.hostnames[..i]
        {
          domains := domains + [route.hostnames[i]];
          i := i + 1;
        }
        assert domains == route.hostnames;
        scaledToZeroTargets := scaledToZeroTargets[key := domains];
      }
    }

    /** `routeDelete`: the route's key goes, whatever its readiness. */
    method RouteDelete(route: HTTPRoute)
      modifies this
      ensures scaledToZeroTargets == old(scaledToZeroTargets) - {RouteKey(route)}
    {
      var key := RouteKey(route);
      scaledToZeroTargets := scaledToZeroTargets - {key};
    }

    /** `handleEndpointChange`: re-evaluate each same-namespace route once per Service backend naming the endpoint. */
    method HandleEndpointChange(endpoint: Endpoints, c: Cache)
      modifies this
      ensures scaledToZeroTargets == EndpointEvent(old(scaledToZeroTargets), endpoint, c)
    {
      var listing := ListRoutes(c, endpoint.namespace);
      if listing.ListFailed? {
        return;
      }
      var routes := listing.items;
      var i := 0;
      while i < |routes|
        invariant 0 <= i <= |routes|
        invariant scaledToZeroTargets == EndpointChange(old(scaledToZeroTargets), routes[..i], endpoint.name, c)
      {
        var rt := routes[i];
        ghost var before := scaledToZeroTargets;
        ghost var matched := false;
        var r := 0;
        while r < |rt.rules|
          invariant 0 <= r <= |rt.rules|
          invariant matched <==> exists rule, ref ::
            rule in rt.rules[..r] && ref in rule.backendRefs && IsServiceRef(ref) && ref.name == endpoint.name
          invariant scaledToZeroTargets == if matched then RouteChange(before, rt, Ready(rt, c)) else before
        {
          var refs := rt.rules[r].backendRefs;
          assert rt.rules[..r + 1] == rt.rules[..r] + [rt.rules[r]];
          var b := 0;
          while b < |refs|
            invariant 0 <= b <= |refs|
            invariant matched <==>
              || (exists rule, ref :: rule in rt.rules[..r] && ref in rule.backendRefs && IsServiceRef(ref) && ref.name == endpoint.name)
              || (exists ref :: ref in refs[..b] && IsServiceRef(ref) && ref.name == endpoint.name)
            invariant scaledToZeroTargets == if matched then RouteChange(before, rt, Ready(rt, c)) else before
          {
            assert refs[..b + 1] == refs[..b] + [refs[b]];
            if refs[b].kind == "Service" && refs[b].name == endpoint.name {
              RouteChangeIdempotent(before, rt, Ready(rt, c));
              HandleRouteChange(rt, c);
              matched := true;
            }
            b := b + 1;
          }
          assert refs[..b] == refs;
          r := r + 1;
        }
        assert rt.rules[..r] == rt.rules;
        assert routes[..i + 1][..i] == routes[..i];
        i := i + 1;
      }
      assert routes[..i] == routes;
    }

    /** The informer callbacks, one event at a time. */
    method OnEvent(e: Event, c: Cache)
      modifies this
      ensures scaledToZeroTargets == AfterEvent(old(scaledToZeroTargets), e, c)
    {
      match e
      case RouteAdded(r) => HandleRouteChange(r, c);
      case RouteUpdated(_, r) => HandleRouteChange(r, c);
      case RouteDeleted(r) => RouteDelete(r);
      case EndpointsAdded(ep) => HandleEndpointChange(ep, c);
      case EndpointsUpdated(_, ep) => HandleEndpointChange(ep, c);
      case EndpointsDeleted(ep) => HandleEndpointChange(ep, c);
    }

    /** `getScaledToZeroClusters`: every stored hostname list, appended in map order. */
    method GetScaledToZeroClusters() returns (domains: seq<string>, ghost order: seq<string>)
      ensures Enumerates(order, scaledToZeroTargets.Keys)
      ensures domains == Hostnames(scaledToZeroTargets, order)
      ensures forall h :: h in domains <==> exists k :: k in scaledToZeroTargets && h in scaledToZeroTargets[k]
    {
      domains, order := [], [];
      var remaining := scaledToZeroTargets.Keys;
      while remaining != {}
        invariant remaining <= scaledToZeroTargets.Keys
        invariant Enumerates(order, scaledToZeroTargets.Keys - remaining)
        invariant domains == Hostnames(scaledToZeroTargets, order)
        decreases |remaining|
      {
        var key :| key in remaining;
        ExtendEnumeration(order, scaledToZeroTargets.Keys - remaining, key);
        assert (order + [key])[..|order|] == order;
        domains := domains + scaledToZeroTargets[key];
        order := order + [key];
        assert scaledToZeroTargets.Keys - (remaining - {key}) == (scaledToZeroTargets.Keys - remaining) + {key};
        remaining := remaining - {key};
      }
      forall h ensures h in domains <==> exists k :: k in scaledToZeroTargets && h in scaledToZeroTargets[k] {
        HostnamesMembership(scaledToZeroTargets, order, h);
      }
    }
  }
}
