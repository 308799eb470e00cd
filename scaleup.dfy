/**
  The scale-up path of the Kubernetes control plane: `POST /poke-scale-up?host=…`
  finds the first route carrying the hostname and scales to one replica every
  deployment of its namespace that agrees with any single key/value pair of a
  Service backend's selector. Kubernetes API calls are a snapshot plus failure
  oracles; the `UpdateScale` calls issued are returned as a trace.
 */
module ScaleUp {
  import opened Cluster
  import opened Http
  import opened Optional

  datatype Service = Service(namespace: string, name: string, selector: map<string, string>)

  datatype Deployment = Deployment(namespace: string, name: string, matchLabels: map<string, string>)

  /** The API server as the scale-up sees it: its objects, and which calls fail. */
  datatype KubeApi = KubeApi(
    services: seq<Service>,
    deployments: seq<Deployment>,
    serviceGetFails: bool,
    deploymentListFails: bool,
    updateScaleFails: set<string>)

  /** One `UpdateScale` call: namespace, deployment name, desired replicas. */
  datatype ScaleUpdate = ScaleUpdate(namespace: string, name: string, replicas: int)

  /** Whether `triggerScaleUp` returned nil, and the `UpdateScale` calls it issued (a failing one included). */
  datatype Outcome = Outcome(ok: bool, updates: seq<ScaleUpdate>)

  function FindService(services: seq<Service>, ns: string, name: string): (r: Option<Service>)
    ensures r.Some? ==> r.value in services && r.value.namespace == ns && r.value.name == name
    ensures r.None? ==> forall s :: s in services ==> !(s.namespace == ns && s.name == name)
  {
    if services == [] then None
    else if services[0].namespace == ns && services[0].name == name then Some(services[0])
    else
      assert services == [services[0]] + services[1..];
      FindService(services[1..], ns, name)
  }

  /** `Services(ns).Get(name)`: a missing service is an error like any other failure. */
  function GetService(api: KubeApi, ns: string, name: string): Option<Service> {
    if api.serviceGetFails then None else FindService(api.services, ns, name)
  }

  function DeploymentNamespace(d: Deployment): string { d.namespace }

  /** `Deployments(ns).List()`. */
  function ListDeployments(api: KubeApi, ns: string): Option<seq<Deployment>> {
    if api.deploymentListFails then None else Some(InNamespace(api.deployments, ns, DeploymentNamespace))
  }

  /** `MatchLabels[k]` in Go: a missing label reads as the empty string. */
  function LabelValue(labels: map<string, string>, k: string): string {
    if k in labels then labels[k] else ""
  }

  /** The selector pairs the deployment agrees with; each costs one `UpdateScale` call. */
  function MatchingKeys(d: Deployment, selector: map<string, string>): set<string> {
    set k | k in selector && LabelValue(d.matchLabels, k) == selector[k]
  }

  /** The rule the code applies: agreement on any single selector pair. */
  predicate AnyKeyMatch(d: Deployment, selector: map<string, string>) {
    exists k :: k in selector && LabelValue(d.matchLabels, k) == selector[k]
  }

  /** The rule a label selector usually means: every selector pair carried by the deployment. */
  predicate SubsetMatch(d: Deployment, selector: map<string, string>) {
    forall k :: k in selector ==> k in d.matchLabels && d.matchLabels[k] == selector[k]
  }

  function Repeat(u: ScaleUpdate, n: nat): (r: seq<ScaleUpdate>)
    ensures |r| == n && forall x :: x in r ==> x == u
  {
    if n == 0 then [] else Repeat(u, n - 1) + [u]
  }

  /** The calls for one deployment: one per agreeing pair; the first failing call ends the run. */
  function ScaleOne(ns: string, d: Deployment, selector: map<string, string>, fails: set<string>): Outcome {
    var n := |MatchingKeys(d, selector)|;
    var u := ScaleUpdate(ns, d.name, 1);
    if n == 0 then Outcome(true, [])
    else if d.name in fails then Outcome(false, [u])
    else Outcome(true, Repeat(u, n))
  }

  /** The loop over the listed deployments, stopping at the first failure. */
  function ScaleDeployments(ns: string, deps: seq<Deployment>, selector: map<string, string>, fails: set<string>): Outcome
    decreases |deps|
  {
    if deps == [] then Outcome(true, [])
    else
      var before := ScaleDeployments(ns, deps[..|deps| - 1], selector, fails);
      if !before.ok then before
      else
        var last := ScaleOne(ns, deps[|deps| - 1], selector, fails);
        Outcome(last.ok, before.updates + last.updates)
  }

  /** One backend reference: Service backends resolve their selector and scale; others are skipped. */
  function ScaleRef(api: KubeApi, ns: string, ref: BackendRef): Outcome {
    if !IsServiceRef(ref) then Outcome(true, [])
    else
      match GetService(api, ns, ref.name)
      case None => Outcome(false, [])
      case Some(svc) =>
        match ListDeployments(api, ns)
        case None => Outcome(false, [])
        case Some(deps) =>
          if deps == [] then Outcome(false, [])
          else ScaleDeployments(ns, deps, svc.selector, api.updateScaleFails)
  }

  /** The backend references in rule order, stopping at the first failure. */
  function ScaleRefs(api: KubeApi, ns: string, refs: seq<BackendRef>): Outcome
    decreases |refs|
  {
    if refs == [] then Outcome(true, [])
    else
      var before := ScaleRefs(api, ns, refs[..|refs| - 1]);
      if !before.ok then before
      else
        var last := ScaleRef(api, ns, refs[|refs| - 1]);
        Outcome(last.ok, before.updates + last.updates)
  }

  /** The backend references of all rules, in order. */
  function AllRefs(rules: seq<RouteRule>): seq<BackendRef>
    decreases |rules|
  {
    if rules == [] then []
    else AllRefs(rules[..|rules| - 1]) + rules[|rules| - 1].backendRefs
  }

  /** The flattened list holds exactly the references of the rules. */
  lemma {:induction false} AllRefsMembership(rules: seq<RouteRule>, ref: BackendRef)
    ensures ref in AllRefs(rules) <==> exists rule :: rule in rules && ref in rule.backendRefs
    decreases |rules|
  {
    if rules != [] {
      var init := rules[..|rules| - 1];
      var last := rules[|rules| - 1];
      assert rules == init + [last];
      AllRefsMembership(init, ref);
      if ref in AllRefs(rules) && ref !in AllRefs(init) {
        assert ref in last.backendRefs;
      }
    }
  }

  /** What `triggerScaleUp` does for a route. */
  function ScaleUpOutcome(api: KubeApi, rt: HTTPRoute): Outcome {
    ScaleRefs(api, rt.namespace, AllRefs(rt.rules))
  }

  /** Every call targets a deployment of the namespace that agrees with some selector pair, and asks for one replica. */
  lemma {:induction false} ScaledDeploymentsAgree(ns: string, deps: seq<Deployment>, selector: map<string, string>, fails: set<string>)
    ensures forall u :: u in ScaleDeployments(ns, deps, selector, fails).updates ==>
      u.namespace == ns && u.replicas == 1 && exists d :: d in deps && d.name == u.name && AnyKeyMatch(d, selector)
    decreases |deps|
  {
    if deps != [] {
      var init := deps[..|deps| - 1];
      var d := deps[|deps| - 1];
      assert deps == init + [d];
      ScaledDeploymentsAgree(ns, init, selector, fails);
      if |MatchingKeys(d, selector)| > 0 {
        var k :| k in MatchingKeys(d, selector);
        assert AnyKeyMatch(d, selector);
      }
    }
  }

  /** When the loop succeeds, every deployment agreeing with some selector pair was scaled. */
  lemma {:induction false} AgreeingDeploymentsScaled(ns: string, deps: seq<Deployment>, selector: map<string, string>, fails: set<string>)
    requires ScaleDeployments(ns, deps, selector, fails).ok
    ensures forall d :: d in deps && AnyKeyMatch(d, selector) ==>
      ScaleUpdate(ns, d.name, 1) in ScaleDeployments(ns, deps, selector, fails).updates
    decreases |deps|
  {
    if deps != [] {
      var init := deps[..|deps| - 1];
      var d := deps[|deps| - 1];
      assert deps == init + [d];
      AgreeingDeploymentsScaled(ns, init, selector, fails);
      if AnyKeyMatch(d, selector) {
        var k :| k in selector && LabelValue(d.matchLabels, k) == selector[k];
        assert k in MatchingKeys(d, selector);
        var m := MatchingKeys(d, selector);
        assert |m| == |m - {k}| + 1;
        var r := Repeat(ScaleUpdate(ns, d.name, 1), |m|);
        assert r[0] in r;
      }
    }
  }

  /** The calls issued before a failure all succeeded, and nothing undoes them. */
  predicate AllSucceeded(updates: seq<ScaleUpdate>, fails: set<string>) {
    forall u :: u in updates ==> u.name !in fails
  }

  /** No call follows a failed call, and a success issued only successful calls. */
  predicate StoppedAtFirstFailure(o: Outcome, fails: set<string>) {
    && (|o.updates| > 0 ==> AllSucceeded(o.updates[..|o.updates| - 1], fails))
    && (o.ok ==> AllSucceeded(o.updates, fails))
  }

  lemma {:induction false} ScaleDeploymentsStops(ns: string, deps: seq<Deployment>, selector: map<string, string>, fails: set<string>)
    ensures StoppedAtFirstFailure(ScaleDeployments(ns, deps, selector, fails), fails)
    decreases |deps|
  {
    if deps != [] {
      var init := deps[..|deps| - 1];
      ScaleDeploymentsStops(ns, init, selector, fails);
      var before := ScaleDeployments(ns, init, selector, fails);
      var last := ScaleOne(ns, deps[|deps| - 1], selector, fails);
      if before.ok && last.updates != [] {
        var all := before.updates + last.updates;
        assert all[..|all| - 1] == before.updates + last.updates[..|last.updates| - 1];
      } else if before.ok {
        assert before.updates + last.updates == before.updates;
      }
    }
  }

  /**
    The first failing backend reference is `refs[i]`: every reference before it
    succeeded, and the outcome of the whole loop is theirs followed by its
    failure, whatever failed (Service lookup, deployment listing, an empty
    listing or an `UpdateScale` call).
   */
  predicate FailsFirstAt(api: KubeApi, ns: string, refs: seq<BackendRef>, i: int) {
    && 0 <= i < |refs|
    && ScaleRefs(api, ns, refs[..i]).ok
    && !ScaleRef(api, ns, refs[i]).ok
    && ScaleRefs(api, ns, refs) == Outcome(false, ScaleRefs(api, ns, refs[..i]).updates + ScaleRef(api, ns, refs[i]).updates)
  }

  /** `triggerScaleUp` aborts at the first failure without rolling back the calls already made. */
  lemma {:induction false} ScaleUpStopsAtFirstFailure(api: KubeApi, ns: string, refs: seq<BackendRef>)
    ensures StoppedAtFirstFailure(ScaleRefs(api, ns, refs), api.updateScaleFails)
    ensures !ScaleRefs(api, ns, refs).ok ==> exists i :: FailsFirstAt(api, ns, refs, i)
    decreases |refs|
  {
    if refs != [] {
      var init := refs[..|refs| - 1];
      var ref := refs[|refs| - 1];
      ScaleUpStopsAtFirstFailure(api, ns, init);
      var before := ScaleRefs(api, ns, init);
      var last := ScaleRef(api, ns, ref);
      if IsServiceRef(ref) && GetService(api, ns, ref.name).Some? && ListDeployments(api, ns).Some?
        && ListDeployments(api, ns).value != [] {
        ScaleDeploymentsStops(ns, ListDeployments(api, ns).value, GetService(api, ns, ref.name).value.selector, api.updateScaleFails);
      }
      if !before.ok {
        var i :| FailsFirstAt(api, ns, init, i);
        assert refs[..i] == init[..i] && refs[i] == init[i];
        assert FailsFirstAt(api, ns, refs, i);
      } else if !last.ok {
        assert FailsFirstAt(api, ns, refs, |refs| - 1);
      }
      if before.ok && last.updates != [] {
        var all := before.updates + last.updates;
        assert all[..|all| - 1] == before.updates + last.updates[..|last.updates| - 1];
      } else if before.ok {
        assert before.updates + last.updates == before.updates;
      }
    }
  }

  /** A Service backend resolved to `svc` and a non-empty deployment list, as `triggerScaleUp` needs. */
  predicate Resolves(api: KubeApi, ns: string, ref: BackendRef, svc: Service) {
    && IsServiceRef(ref)
    && GetService(api, ns, ref.name) == Some(svc)
    && ListDeployments(api, ns).Some?
    && ListDeployments(api, ns).value != []
  }

  /** Every call of the scale-up is for a same-namespace deployment agreeing with a pair of some Service backend's selector. */
  lemma {:induction false} ScaleUpTargetsOnlyAgreeingDeployments(api: KubeApi, ns: string, refs: seq<BackendRef>, u: ScaleUpdate)
    requires u in ScaleRefs(api, ns, refs).updates
    ensures u.namespace == ns && u.replicas == 1
    ensures exists ref, svc, d ::
      && ref in refs && Resolves(api, ns, ref, svc) && d in api.deployments
      && d.namespace == ns && d.name == u.name && AnyKeyMatch(d, svc.selector)
    decreases |refs|
  {
    var init := refs[..|refs| - 1];
    var ref := refs[|refs| - 1];
    var before := ScaleRefs(api, ns, init);
    assert refs == init + [ref];
    if u in before.updates {
      ScaleUpTargetsOnlyAgreeingDeployments(api, ns, init, u);
    } else {
      var svc := GetService(api, ns, ref.name).value;
      var deps := ListDeployments(api, ns).value;
      ScaledDeploymentsAgree(ns, deps, svc.selector, api.updateScaleFails);
      var d :| d in deps && d.name == u.name && AnyKeyMatch(d, svc.selector);
      assert Resolves(api, ns, ref, svc);
    }
  }

  /** A successful scale-up resolved every Service backend and scaled every agreeing deployment of the namespace. */
  lemma {:induction false} ScaleUpReachesEveryAgreeingDeployment(api: KubeApi, ns: string, refs: seq<BackendRef>)
    requires ScaleRefs(api, ns, refs).ok
    ensures forall ref :: ref in refs && IsServiceRef(ref) ==>
      exists svc :: Resolves(api, ns, ref, svc) &&
        forall d :: d in api.deployments && d.namespace == ns && AnyKeyMatch(d, svc.selector) ==>
          ScaleUpdate(ns, d.name, 1) in ScaleRefs(api, ns, refs).updates
    decreases |refs|
  {
    if refs != [] {
      var init := refs[..|refs| - 1];
      var last := refs[|refs| - 1];
      assert refs == init + [last];
      ScaleUpReachesEveryAgreeingDeployment(api, ns, init);
      if IsServiceRef(last) {
        var svc := GetService(api, ns, last.name).value;
        var deps := ListDeployments(api, ns).value;
        AgreeingDeploymentsScaled(ns, deps, svc.selector, api.updateScaleFails);
        assert Resolves(api, ns, last, svc);
      }
    }
  }

  /** A Service backend in a namespace with no deployment at all makes the scale-up fail. */
  lemma {:induction false} NoDeploymentsIsAnError(api: KubeApi, ns: string, refs: seq<BackendRef>)
    requires exists ref :: ref in refs && IsServiceRef(ref)
    requires InNamespace(api.deployments, ns, DeploymentNamespace) == []
    ensures !ScaleRefs(api, ns, refs).ok
    decreases |refs|
  {
    var init := refs[..|refs| - 1];
    var last := refs[|refs| - 1];
    assert refs == init + [last];
    if !IsServiceRef(last) {
      NoDeploymentsIsAnError(api, ns, init);
    } else if ScaleRefs(api, ns, init).ok {
      assert !ScaleRef(api, ns, last).ok;
    }
  }

  /** A route without Service backends scales nothing and succeeds. */
  lemma {:induction false} NoServiceBackendsScalesNothing(api: KubeApi, ns: string, refs: seq<BackendRef>)
    requires forall ref :: ref in refs ==> !IsServiceRef(ref)
    ensures ScaleRefs(api, ns, refs) == Outcome(true, [])
    decreases |refs|
  {
    if refs != [] {
      NoServiceBackendsScalesNothing(api, ns, refs[..|refs| - 1]);
    }
  }

  /**
    The any-key rule is wider than a subset match: a deployment carrying only
    `app: shop` is scaled for the selector `{app: shop, tier: web}`, and a
    selector value "" agrees with a deployment lacking that label.
   */
  lemma AnyKeyMatchIsNotSubsetMatch()
    ensures var sel := map["app" := "shop", "tier" := "web"];
      var d := Deployment("ns", "shop", map["app" := "shop"]);
      AnyKeyMatch(d, sel) && !SubsetMatch(d, sel) &&
      ScaleOne("ns", d, sel, {}) == Outcome(true, [ScaleUpdate("ns", "shop", 1)])
    ensures var d := Deployment("ns", "other", map[]);
      AnyKeyMatch(d, map["release" := ""]) && !SubsetMatch(d, map["release" := ""])
  {
    var sel := map["app" := "shop", "tier" := "web"];
    var d := Deployment("ns", "shop", map["app" := "shop"]);
    assert "app" in sel && "tier" in sel && "tier" !in d.matchLabels;
    assert LabelValue(d.matchLabels, "tier") == "";
    assert MatchingKeys(d, sel) == {"app"};
    assert |MatchingKeys(d, sel)| == 1;
    assert Repeat(ScaleUpdate("ns", "shop", 1), 1) == [ScaleUpdate("ns", "shop", 1)];
    var e := Deployment("ns", "other", map[]);
    assert "release" in map["release" := ""];
  }

  /** The first listed route carrying the hostname. */
  function FirstRouteWithHost(routes: seq<HTTPRoute>, host: string): (r: Option<HTTPRoute>)
    ensures r.Some? ==> r.value in routes && host in r.value.hostnames
    ensures r.None? ==> forall rt :: rt in routes ==> host !in rt.hostnames
  {
    if routes == [] then None
    else if host in routes[0].hostnames then Some(routes[0])
    else
      assert routes == [routes[0]] + routes[1..];
      FirstRouteWithHost(routes[1..], host)
  }

  /** The route found is the first one carrying the hostname: no earlier route does. */
  lemma {:induction false} FirstRouteWithHostIsFirst(routes: seq<HTTPRoute>, host: string)
    requires FirstRouteWithHost(routes, host).Some?
    ensures exists i ::
      && 0 <= i < |routes| && routes[i] == FirstRouteWithHost(routes, host).value
      && forall j :: 0 <= j < i ==> host !in routes[j].hostnames
  {
    if host !in routes[0].hostnames {
      var tail := routes[1..];
      FirstRouteWithHostIsFirst(tail, host);
      var i :| 0 <= i < |tail| && tail[i] == FirstRouteWithHost(tail, host).value &&
        (forall j :: 0 <= j < i ==> host !in tail[j].hostnames);
      assert routes[i + 1] == tail[i];
      forall j | 0 <= j < i + 1 ensures host !in routes[j].hostnames {
        if j > 0 {
          assert routes[j] == tail[j - 1];
        }
      }
    } else {
      assert routes[0] == FirstRouteWithHost(routes, host).value;
    }
  }

  /** `triggerScaleUp`: for each Service backend, resolve its selector and scale the agreeing deployments. */
  method TriggerScaleUp(rt: HTTPRoute, api: KubeApi) returns (ok: bool, updates: seq<ScaleUpdate>)
    ensures Outcome(ok, updates) == ScaleUpOutcome(api, rt)
  {
    var ns := rt.namespace;
    updates := [];
    var i := 0;
    while i < |rt.rules|
      invariant 0 <= i <= |rt.rules|
      invariant ScaleRefs(api, ns, AllRefs(rt.rules[..i])) == Outcome(true, updates)
    {
      var ok', more := ScaleBackends(api, ns, rt.rules[i].backendRefs);
      assert rt.rules[..i + 1][..i] == rt.rules[..i];
      ScaleRefsAppend(api, ns, AllRefs(rt.rules[..i]), rt.rules[i].backendRefs);
      updates := updates + more;
      if !ok' {
        ScaleRefsStopsAtFailure(api, ns, rt.rules, i + 1);
        return false, updates;
      }
      i := i + 1;
    }
    assert rt.rules[..i] == rt.rules;
    ok := true;
  }

  /** The loop over the backend references of one rule. */
  method ScaleBackends(api: KubeApi, ns: string, refs: seq<BackendRef>) returns (ok: bool, updates: seq<ScaleUpdate>)
    ensures Outcome(ok, updates) == ScaleRefs(api, ns, refs)
  {
    updates := [];
    var j := 0;
    while j < |refs|
      invariant 0 <= j <= |refs|
      invariant ScaleRefs(api, ns, refs[..j]) == Outcome(true, updates)
    {
      assert refs[..j + 1][..j] == refs[..j];
      var ok', more := ScaleBackend(api, ns, refs[j]);
      updates := updates + more;
      if !ok' {
        assert refs == refs[..j + 1] + refs[j + 1..];
        ScaleRefsAppend(api, ns, refs[..j + 1], refs[j + 1..]);
        return false, updates;
      }
      j := j + 1;
    }
    assert refs[..j] == refs;
    ok := true;
  }

  /** The body of the backend loop of `triggerScaleUp`. */
  method ScaleBackend(api: KubeApi, ns: string, ref: BackendRef) returns (ok: bool, updates: seq<ScaleUpdate>)
    ensures Outcome(ok, updates) == ScaleRef(api, ns, ref)
  {
    if ref.kind != "Service" {
      return true, [];
    }
    var service := GetService(api, ns, ref.name);
    if service.None? {
      return false, [];
    }
    var deployments := ListDeployments(api, ns);
    if deployments.None? || |deployments.value| == 0 {
      return false, [];
    }
    ok, updates := ScaleMatchingDeployments(ns, deployments.value, service.value.selector, api.updateScaleFails);
  }

  lemma AllRefsAppend(a: seq<RouteRule>, b: seq<RouteRule>)
    ensures AllRefs(a + b) == AllRefs(a) + AllRefs(b)
    decreases |b|
  {
    if b != [] {
      var b' := b[..|b| - 1];
      assert (a + b)[..|a + b| - 1] == a + b';
      AllRefsAppend(a, b');
    } else {
      assert a + b == a;
    }
  }

  /** Scaling two lists of references one after the other: the second runs only if the first succeeded. */
  lemma {:induction false} ScaleRefsAppend(api: KubeApi, ns: string, a: seq<BackendRef>, b: seq<BackendRef>)
    ensures ScaleRefs(api, ns, a + b) ==
      var first := ScaleRefs(api, ns, a);
      if !first.ok then first
      else Outcome(ScaleRefs(api, ns, b).ok, first.updates + ScaleRefs(api, ns, b).updates)
    decreases |b|
  {
    if b != [] {
      var b' := b[..|b| - 1];
      assert (a + b)[..|a + b| - 1] == a + b';
      assert (a + b)[|a + b| - 1] == b[|b| - 1];
      ScaleRefsAppend(api, ns, a, b');
    } else {
      assert a + b == a;
      assert ScaleRefs(api, ns, a).updates + [] == ScaleRefs(api, ns, a).updates;
    }
  }

  /** A failure within the first `n` rules is the outcome of the whole route. */
  lemma ScaleRefsStopsAtFailure(api: KubeApi, ns: string, rules: seq<RouteRule>, n: nat)
    requires n <= |rules|
    requires !ScaleRefs(api, ns, AllRefs(rules[..n])).ok
    ensures ScaleRefs(api, ns, AllRefs(rules)) == ScaleRefs(api, ns, AllRefs(rules[..n]))
  {
    assert rules == rules[..n] + rules[n..];
    AllRefsAppend(rules[..n], rules[n..]);
    ScaleRefsAppend(api, ns, AllRefs(rules[..n]), AllRefs(rules[n..]));
  }

  /** The loop over the listed deployments. */
  method ScaleMatchingDeployments(ns: string, deps: seq<Deployment>, selector: map<string, string>, fails: set<string>)
    returns (ok: bool, updates: seq<ScaleUpdate>)
    ensures Outcome(ok, updates) == ScaleDeployments(ns, deps, selector, fails)
  {
    updates := [];
    var k := 0;
    while k < |deps|
      invariant 0 <= k <= |deps|
      invariant ScaleDeployments(ns, deps[..k], selector, fails) == Outcome(true, updates)
    {
      assert deps[..k + 1][..k] == deps[..k];
      var ok', more := ScaleDeployment(ns, deps[k], selector, fails);
      updates := updates + more;
      if !ok' {
        ScaleDeploymentsKeepsFailure(ns, deps, k + 1, selector, fails);
        return false, updates;
      }
      k := k + 1;
    }
    assert deps[..k] == deps;
    ok := true;
  }

  lemma {:induction false} ScaleDeploymentsKeepsFailure(ns: string, deps: seq<Deployment>, n: nat, selector: map<string, string>, fails: set<string>)
    requires n <= |deps|
    requires !ScaleDeployments(ns, deps[..n], selector, fails).ok
    ensures ScaleDeployments(ns, deps, selector, fails) == ScaleDeployments(ns, deps[..n], selector, fails)
    decreases |deps| - n
  {
    if n < |deps| {
      assert deps[..n + 1][..n] == deps[..n];
      ScaleDeploymentsKeepsFailure(ns, deps, n + 1, selector, fails);
    } else {
      assert deps[..n] == deps;
    }
  }

  /** One deployment: the loop over the selector, in map order, one call per agreeing pair. */
  method ScaleDeployment(ns: string, d: Deployment, selector: map<string, string>, fails: set<string>)
    returns (ok: bool, updates: seq<ScaleUpdate>)
    ensures Outcome(ok, updates) == ScaleOne(ns, d, selector, fails)
  {
    var u := ScaleUpdate(ns, d.name, 1);
    ghost var agreeing := MatchingKeys(d, selector);
    updates := [];
    var remaining := selector.Keys;
    ghost var matched: set<string> := {};
    while remaining != {}
      invariant remaining <= selector.Keys
      invariant matched == agreeing - remaining
      invariant d.name in fails ==> matched == {}
      invariant updates == Repeat(u, |matched|)
      decreases |remaining|
    {
      var key :| key in remaining;
      MatchedStep(d, selector, remaining, matched, key);
      remaining := remaining - {key};
      if LabelValue(d.matchLabels, key) == selector[key] {
        updates := updates + [u];
        if d.name in fails {
          return false, updates;
        }
        matched := matched + {key};
      }
    }
    ok := true;
  }

  /** One step of the selector loop: the visited agreeing keys grow by the key just visited, if it agrees. */
  lemma MatchedStep(d: Deployment, selector: map<string, string>, remaining: set<string>, matched: set<string>, key: string)
    requires remaining <= selector.Keys && key in remaining
    requires matched == MatchingKeys(d, selector) - remaining
    ensures LabelValue(d.matchLabels, key) == selector[key] ==>
      && matched + {key} == MatchingKeys(d, selector) - (remaining - {key})
      && |matched + {key}| == |matched| + 1
      && |MatchingKeys(d, selector)| > 0
    ensures LabelValue(d.matchLabels, key) != selector[key] ==>
      matched == MatchingKeys(d, selector) - (remaining - {key})
  {
    if LabelValue(d.matchLabels, key) == selector[key] {
      assert key in MatchingKeys(d, selector);
    }
  }

  /** `pokeScaleUp`: the status code for a request, and the `UpdateScale` calls it caused. */
  method PokeScaleUp(req: Request, c: Cache, api: KubeApi) returns (status: int, updates: seq<ScaleUpdate>)
    ensures req.verb != MethodPost ==> status == StatusMethodNotAllowed && updates == []
    ensures req.verb == MethodPost && !IsValidHostPost(req) ==> status == StatusBadRequest && updates == []
    ensures IsValidHostPost(req) && c.routeListerFails ==> status == StatusBadRequest && updates == []
    ensures IsValidHostPost(req) && !c.routeListerFails ==>
      match FirstRouteWithHost(c.routes, req.host)
      case None => status == StatusNotFound && updates == []
      case Some(rt) =>
        && updates == ScaleUpOutcome(api, rt).updates
        && status == (if ScaleUpOutcome(api, rt).ok then StatusOK else StatusInternalServerError)
  {
    updates := [];
    if req.verb != MethodPost {
      return StatusMethodNotAllowed, [];
    }
    if !req.formParses {
      return StatusBadRequest, [];
    }
    var hostname := req.host;
    if hostname == "" {
      return StatusBadRequest, [];
    }
    var listing := ListAllRoutes(c);
    if listing.ListFailed? {
      return StatusBadRequest, [];
    }
    var found := FindRouteWithHost(listing.items, hostname);
    if found.None? {
      return StatusNotFound, [];
    }
    var ok;
    ok, updates := TriggerScaleUp(found.value, api);
    status := if ok then StatusOK else StatusInternalServerError;
  }

  /** The search loop of `pokeScaleUp`: routes in listing order, hostnames in route order. */
  method FindRouteWithHost(routes: seq<HTTPRoute>, hostname: string) returns (found: Option<HTTPRoute>)
    ensures found == FirstRouteWithHost(routes, hostname)
  {
    var i := 0;
    while i < |routes|
      invariant 0 <= i <= |routes|
      invariant FirstRouteWithHost(routes[i..], hostname) == FirstRouteWithHost(routes, hostname)
    {
      var rt := routes[i];
      assert routes[i..][1..] == routes[i + 1..];
      var j := 0;
      while j < |rt.hostnames|
        invariant 0 <= j <= |rt.hostnames|
        invariant hostname !in rt.hostnames[..j]
      {
        if rt.hostnames[j] == hostname {
          return Some(rt);
        }
        assert rt.hostnames[..j + 1] == rt.hostnames[..j] + [rt.hostnames[j]];
        j := j + 1;
      }
      assert rt.hostnames[..j] == rt.hostnames;
      i := i + 1;
    }
    return None;
  }
}
