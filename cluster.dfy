/**
  The part of the cluster the reconciler reads: Gateway API HTTPRoutes and core
  Endpoints, as held by the informers' local cache at the moment an event is
  handled, and the readiness verdict it derives from them.
 */
module Cluster {

  datatype BackendRef = BackendRef(kind: string, name: string)

  datatype RouteRule = RouteRule(backendRefs: seq<BackendRef>)

  datatype HTTPRoute = HTTPRoute(namespace: string, name: string, hostnames: seq<string>, rules: seq<RouteRule>)

  datatype EndpointSubset = EndpointSubset(addresses: seq<string>)

  datatype Endpoints = Endpoints(namespace: string, name: string, subsets: seq<EndpointSubset>)

  /**
    A snapshot of the informer cache. The two flags are oracles: whether a
    lister call against this snapshot fails.
   */
  datatype Cache = Cache(
    routes: seq<HTTPRoute>,
    endpoints: seq<Endpoints>,
    routeListerFails: bool,
    endpointListerFails: bool)

  /** The answer of a lister call. */
  datatype Listing<T> = Listed(items: seq<T>) | ListFailed

  /**
    What a namespaced lister returns: the cached objects of one namespace, in
    cache order. `namespaceOf` reads an object's namespace.
   */
  function InNamespace<T(==,!new)>(xs: seq<T>, ns: string, namespaceOf: T -> string): (r: seq<T>)
    ensures forall x :: x in r <==> x in xs && namespaceOf(x) == ns
  {
    if xs == [] then []
    else
      var rest := InNamespace(xs[1..], ns, namespaceOf);
      assert xs == [xs[0]] + xs[1..];
      if namespaceOf(xs[0]) == ns then [xs[0]] + rest else rest
  }

  function EndpointsNamespace(ep: Endpoints): string { ep.namespace }

  function RouteNamespace(rt: HTTPRoute): string { rt.namespace }

  /** `Endpoints(ns).List(labels.Everything())` on the endpoints lister. */
  function ListEndpoints(c: Cache, ns: string): Listing<Endpoints> {
    if c.endpointListerFails then ListFailed else Listed(InNamespace(c.endpoints, ns, EndpointsNamespace))
  }

  /** `HTTPRoutes(ns).List(labels.Everything())` on the route lister. */
  function ListRoutes(c: Cache, ns: string): Listing<HTTPRoute> {
    if c.routeListerFails then ListFailed else Listed(InNamespace(c.routes, ns, RouteNamespace))
  }

  /** `List(labels.Everything())` on the route lister, across all namespaces. */
  function ListAllRoutes(c: Cache): Listing<HTTPRoute> {
    if c.routeListerFails then ListFailed else Listed(c.routes)
  }

  /** The separator between namespace and name in a route key. */
  const KeySplitter: string := "/"

  /** The key of a route in the reconciler's map: namespace, "/", name. */
  function RouteKey(route: HTTPRoute): string {
    route.namespace + KeySplitter + route.name
  }

  /** In a key, the first "/" stands right after the namespace. */
  lemma FirstSlashEndsNamespace(route: HTTPRoute)
    requires '/' !in route.namespace
    ensures RouteKey(route)[|route.namespace|] == '/'
    ensures forall i :: 0 <= i < |route.namespace| ==> RouteKey(route)[i] != '/'
  {
    forall i | 0 <= i < |route.namespace| ensures RouteKey(route)[i] != '/' {
      assert RouteKey(route)[i] == route.namespace[i];
    }
  }

  /** Kubernetes namespaces cannot contain "/", so a key names one route. */
  lemma RouteKeyInjective(r1: HTTPRoute, r2: HTTPRoute)
    requires '/' !in r1.namespace && '/' !in r2.namespace
    requires RouteKey(r1) == RouteKey(r2)
    ensures r1.namespace == r2.namespace && r1.name == r2.name
  {
    var k1, k2 := RouteKey(r1), RouteKey(r2);
    var n1, n2 := |r1.namespace|, |r2.namespace|;
    FirstSlashEndsNamespace(r1);
    FirstSlashEndsNamespace(r2);
    if n1 != n2 {
      assert false;
    }
    assert r1.namespace == k1[..n1] == k2[..n2] == r2.namespace;
    assert r1.name == k1[n1 + 1..] == k2[n2 + 1..] == r2.name;
  }

  /** Only backend references of kind "Service" take part in readiness. */
  predicate IsServiceRef(ref: BackendRef) {
    ref.kind == "Service"
  }

  /** An Endpoints object is ready when some subset holds at least one address. */
  predicate HasAddress(ep: Endpoints) {
    exists sub :: sub in ep.subsets && |sub.addresses| > 0
  }

  /** Some listed Endpoints object with this name is ready. */
  predicate EndpointReady(eps: seq<Endpoints>, name: string) {
    exists ep :: ep in eps && ep.name == name && HasAddress(ep)
  }

  /** Every Service backend of every rule names a ready Endpoints object. */
  predicate AllServiceBackendsReady(route: HTTPRoute, eps: seq<Endpoints>) {
    forall rule, ref ::
      rule in route.rules && ref in rule.backendRefs && IsServiceRef(ref) ==> EndpointReady(eps, ref.name)
  }

  /**
    The readiness verdict: all Service backends ready, judged on the Endpoints
    of the route's own namespace; a failed listing counts as not ready.
   */
  predicate Ready(route: HTTPRoute, c: Cache) {
    match ListEndpoints(c, route.namespace)
    case ListFailed => false
    case Listed(eps) => AllServiceBackendsReady(route, eps)
  }

  /** Some rule of the route has a Service backend with this name. */
  predicate References(route: HTTPRoute, name: string) {
    exists rule, ref :: rule in route.rules && ref in rule.backendRefs && IsServiceRef(ref) && ref.name == name
  }

  /** Readiness in terms of the cache: a Service backend counts only through an Endpoints of the route's namespace. */
  lemma ReadyIffEveryServiceBackendHasAddress(route: HTTPRoute, c: Cache)
    ensures Ready(route, c) <==>
      !c.endpointListerFails &&
      forall rule, ref :: rule in route.rules && ref in rule.backendRefs && IsServiceRef(ref) ==>
        exists ep :: ep in c.endpoints && ep.namespace == route.namespace && ep.name == ref.name && HasAddress(ep)
  {
  }

  /** The rule is conjunctive: one unready Service backend makes the route cold, whatever the others. */
  lemma OneUnreadyBackendMakesRouteCold(route: HTTPRoute, c: Cache, rule: RouteRule, ref: BackendRef)
    requires rule in route.rules && ref in rule.backendRefs && IsServiceRef(ref)
    requires forall ep :: ep in c.endpoints && ep.namespace == route.namespace && ep.name == ref.name ==> !HasAddress(ep)
    ensures !Ready(route, c)
  {
  }

  /** A route with no Service backend is ready unless the endpoints listing fails. */
  lemma NoServiceBackendsIsReady(route: HTTPRoute, c: Cache)
    requires forall rule, ref :: rule in route.rules && ref in rule.backendRefs ==> !IsServiceRef(ref)
    ensures Ready(route, c) <==> !c.endpointListerFails
  {
  }
}
