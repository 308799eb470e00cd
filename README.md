# envoy-request-buffer, modelled in Dafny

envoy-request-buffer holds HTTP requests in Envoy while the workload behind
them is scaled to zero, and releases them once it is back. A control plane
watches Gateway API `HTTPRoute`s and Kubernetes `Endpoints` and serves the
hostnames of every route some Service backend of which has no `Endpoints`
with an address, or whose endpoints listing fails (the "cold" hosts). The
Kubernetes control plane can also scale a route's deployments back to one
replica on request. A proxy-wasm filter in Envoy pauses requests for cold
hosts, remembering their context ids per authority, and resumes them in
arrival order once the host has left the cold list. The cold list travels
between plugins through a shared-data slot as the hostnames joined with "~".

This project models these pieces and proves the properties below:

- **`SharedData`**: the "~" codec, with its round trips in both directions. It
  also proves that the empty list does not round-trip.
- **`Cluster`**: the informer cache as an immutable snapshot, the route key,
  and the readiness verdict.
- **`Reconciler`**: the `RequestBufferController` shared by both control
  planes. It is a class whose `scaledToZeroTargets` map the event handlers
  update in place. Each handler is proved against a pure function of the old
  map and the cache. Around those functions it proves the three-way rule of
  `handleRouteChange`, the scope of endpoint events, and idempotence under
  re-delivery. It also proves that the hostnames listed, each counted with
  its multiplicity, do not depend on Go's map order. The order of the listing
  itself does depend on it.
- **`ScaleUp`**: `pokeScaleUp` and `triggerScaleUp` of the Kubernetes control
  plane. Kubernetes API calls are a snapshot plus failure oracles, and the
  `UpdateScale` calls are returned as a trace.
- **`PausedIndex`**: the authority to paused-context-ids map kept by the two
  filters and the service plugin, and the resync loop they share. The loop
  releases and forgets every authority that has left the cold list, first in,
  first out, and stops at the first failing host call. The two
  callback-driven variants first add every newly reported cold host with an
  empty list. The tick filter adds no hosts and only drains.
- **`TickFilter`** and **`FilterPlugin`**: the two filters. `TickFilter` is
  filter/main.go. `FilterPlugin` is filter/plugin.go with filter.go and vm.go.
- **`QueueService`**: the service plugin of service/main.go. It owns the
  paused index, receives paused requests over a shared queue, and publishes
  the cold list into the shared-data slot that the tick filter reads.
- Each of these plugins is a class over the map its source mutates.
- **`StaticControlPlane`**: the toggle-a-host control plane used locally.
- **`Enumeration`** and **`Optional`**: support modules.
  - `Enumeration` expresses Go's unspecified map iteration order. Every loop
    over a map picks its next key nondeterministically and exposes the order
    it took as a ghost sequence.
  - `Optional` is the usual `Option` type for failed host or API calls and
    missing headers.

Host and API calls are parameters of the model:
- a call that may fail is a failure oracle (a flag, or a set of the
  contexts or deployments whose call fails);
- a call with an effect the caller can observe is recorded in a returned
  trace (`HostCall`, `ScaleUpdate`);
- a value read from the host (a header, the shared-data bytes, a queue
  message, a parsed response body) is an `Option` or a small datatype.

Where the prose description of the system and the code disagree, the model
follows the code. The description says a deployment is scaled when its labels
match the Service selector. The code scales it when any single selector pair
agrees (kubernetes/control-plane/main.go:238-239), a missing label counting as
the empty string. `ScaleUp.AnyKeyMatchIsNotSubsetMatch` exhibits the
difference.

Two behaviours of the code are modelled as written:
- The filter of filter.go pauses a request without an `:authority` header but
  queues it nowhere, so no resync ever resumes it
  (`FilterPlugin.UnqueuedPauseIsNeverResumed`). The tick filter lets such a
  request through instead.
- A resync interrupted by a failing host call keeps the interrupted
  authority's whole list, including the ids it already resumed
  (`PausedIndex.FailedDrainLeavesWarmEntry`).

## Model

| member | source | states |
|---|---|---|
| SharedData.Decode | wasm-request-buffer/shared/shared.go:28-31 | splitting always yields one more part than there are "~" separators (so never an empty list), and no part contains "~" |
| SharedData.DecodeEncode | wasm-request-buffer/shared/shared.go:25-31 | a non-empty list of hostnames without "~" is read back unchanged after being stored |
| SharedData.EncodeEmptyDecodesToEmptyHost | wasm-request-buffer/shared/shared.go:25-31 | the empty list is stored exactly like the list holding one empty hostname, and is read back as `[""]` |
| SharedData.EncodeDecode | wasm-request-buffer/shared/shared.go:25-31 | for every stored byte string, joining what was split gives back the same bytes |
| Cluster.InNamespace | kubernetes/control-plane/main.go:386 | a namespaced lister returns exactly the cached objects of that namespace; the same filter serves the route lister (line 338) and the deployment listing (line 228) |
| Cluster.RouteKeyInjective | control-plane/main.go:170 | since namespaces contain no "/", the key namespace + "/" + name determines both namespace and name |
| Cluster.ReadyIffEveryServiceBackendHasAddress | kubernetes/control-plane/main.go:384-416 | a route is ready iff the endpoints listing succeeds and every Service backend of every rule names an Endpoints object of the route's namespace with a subset holding an address; other kinds are ignored |
| Cluster.OneUnreadyBackendMakesRouteCold | control-plane/main.go:296-305 | the verdict is conjunctive: one Service backend without an addressed Endpoints makes the route not ready |
| Cluster.NoServiceBackendsIsReady | control-plane/main.go:276-308 | a route with no Service backend is ready exactly when the endpoints listing succeeds |
| Reconciler.DistinctRoutesHaveUniqueKeys | kubernetes/control-plane/main.go:278 | routes that differ in namespace or name, in namespaces without "/", never share a key, so each referencing route of a listing has its own entry |
| Reconciler.RouteChange | control-plane/main.go:168-193 | ready and tracked: key removed; ready and untracked: map unchanged; not ready: key maps to the route's hostnames in order; every other key unchanged |
| Reconciler.RouteChangeIdempotent | kubernetes/control-plane/main.go:276-301 | handling the same route twice against the same cache gives the map of one handling |
| Reconciler.EndpointChangeElsewhere | kubernetes/control-plane/main.go:337-354 | an endpoint event leaves alone every key not belonging to a same-namespace route with a Service backend of that name |
| Reconciler.EndpointChangeAt | control-plane/main.go:229-246 | after an endpoint event each referencing route's key is present iff the route is not ready, holding its hostnames |
| Reconciler.EndpointChangeIdempotent | control-plane/main.go:229-246 | handling the same endpoint event twice against the same cache gives the map of one handling |
| Reconciler.EventRedeliveryIsHarmless | kubernetes/control-plane/main.go:303-382 | any informer event (route or endpoints add, update, delete) delivered twice has the effect of one delivery |
| Reconciler.RouteDeleteRemovesOnlyItsKey | kubernetes/control-plane/main.go:321-335 | a route delete removes the route's key whatever its readiness, and no other key changes |
| Reconciler.HostnamesMembership | control-plane/main.go:135-153 | a hostname is listed iff some tracked route holds it |
| Reconciler.HostnamesOrderIndependent | kubernetes/control-plane/main.go:146-164 | whatever order the map is visited in, the listing holds the same hostnames the same number of times (the multiset union of the stored lists) |
| Reconciler.RequestBufferController.constructor | kubernetes/control-plane/main.go:120 | the controller starts with no tracked route |
| Reconciler.RequestBufferController.HasReadyEndpoints | kubernetes/control-plane/main.go:384-416 | the ready-name map and flag loops compute exactly the readiness verdict, false on a listing failure |
| Reconciler.RequestBufferController.HandleRouteChange | kubernetes/control-plane/main.go:276-301 | the map becomes the three-way route change of the old map under the route's readiness |
| Reconciler.RequestBufferController.RouteDelete | control-plane/main.go:213-227 | the map loses the route's key and nothing else |
| Reconciler.RequestBufferController.HandleEndpointChange | kubernetes/control-plane/main.go:337-354 | the map becomes the endpoint change over the namespace's routes in listing order (each referencing route re-evaluated once per matching backend), unchanged on a listing failure |
| Reconciler.RequestBufferController.OnEvent | kubernetes/control-plane/main.go:303-382 | each informer callback applies the effect of its event to the map |
| Reconciler.RequestBufferController.GetScaledToZeroClusters | control-plane/main.go:135-153 | the listing is the stored hostname lists concatenated in the order the map was visited, each key visited once; a hostname is listed iff some tracked route holds it |
| ScaleUp.FindService | kubernetes/control-plane/main.go:222 | a found Service has the namespace and name asked for; none is found only if no such Service exists |
| ScaleUp.AllRefsMembership | kubernetes/control-plane/main.go:218-219 | the rules' backend references, flattened in order, hold exactly the references of the rules |
| ScaleUp.ScaledDeploymentsAgree | kubernetes/control-plane/main.go:236-256 | every UpdateScale call is for a listed deployment agreeing with some selector pair, in the route's namespace, with one replica |
| ScaleUp.AgreeingDeploymentsScaled | kubernetes/control-plane/main.go:236-256 | when the deployment loop succeeds, every listed deployment agreeing with some selector pair was scaled |
| ScaleUp.ScaleDeploymentsStops | kubernetes/control-plane/main.go:251-253 | in the deployment loop no call follows a failed one, and a success made only successful calls |
| ScaleUp.ScaleUpStopsAtFirstFailure | kubernetes/control-plane/main.go:212-261 | the scale-up aborts at the first failing backend reference, whether a Service lookup, a deployment listing, an empty listing or an `UpdateScale` call failed: the outcome is the successful calls for the references before it followed by that reference's calls, so no call follows the failure; calls already made are not rolled back and all succeeded |
| ScaleUp.ScaleUpTargetsOnlyAgreeingDeployments | kubernetes/control-plane/main.go:212-261 | every call is for a deployment of the route's namespace agreeing with a pair of the selector of a resolved Service backend, with one replica |
| ScaleUp.ScaleUpReachesEveryAgreeingDeployment | kubernetes/control-plane/main.go:212-261 | a successful scale-up resolved every Service backend to a Service and a non-empty deployment list, and scaled every agreeing deployment of the namespace |
| ScaleUp.NoDeploymentsIsAnError | kubernetes/control-plane/main.go:232-234 | a Service backend in a namespace without deployments makes the scale-up fail |
| ScaleUp.NoServiceBackendsScalesNothing | kubernetes/control-plane/main.go:218-220 | a route without Service backends succeeds and makes no call |
| ScaleUp.AnyKeyMatchIsNotSubsetMatch | kubernetes/control-plane/main.go:238-239 | a deployment sharing only one of two selector pairs is scaled, and a selector value "" agrees with a missing label, though neither matches the whole selector |
| ScaleUp.FirstRouteWithHost | kubernetes/control-plane/main.go:194-209 | a route is found only if it carries the hostname, and none is found only if no route does |
| ScaleUp.FirstRouteWithHostIsFirst | kubernetes/control-plane/main.go:194-203 | the route found is the first in listing order carrying the hostname |
| ScaleUp.FindRouteWithHost | kubernetes/control-plane/main.go:194-209 | the nested route and hostname loops find exactly the first route carrying the hostname |
| ScaleUp.TriggerScaleUp | kubernetes/control-plane/main.go:212-261 | the rule and backend loops return the outcome and call trace of the scale-up specification |
| ScaleUp.ScaleBackends | kubernetes/control-plane/main.go:219-258 | the loop over one rule's backends scales them in order, stopping at the first failure |
| ScaleUp.ScaleBackend | kubernetes/control-plane/main.go:220-257 | a non-Service backend is skipped; a Service lookup, deployment listing or empty listing failure is an error; otherwise the deployment loop runs |
| ScaleUp.ScaleMatchingDeployments | kubernetes/control-plane/main.go:236-256 | the deployment loop scales the deployments in listing order, stopping at the first failing call |
| ScaleUp.ScaleDeployment | kubernetes/control-plane/main.go:238-255 | the selector loop, in any map order, makes one call per agreeing pair and stops at the first failing one |
| ScaleUp.PokeScaleUp | kubernetes/control-plane/main.go:166-210 | non-POST: 405; unparsable form, empty host or failed route listing: 400; no route carries the host: 404; otherwise 200 or 500 as the scale-up of the first such route succeeds or fails |
| PausedIndex.Enqueue | wasm-request-buffer/filter/main.go:108-113 | the id joins the end of the authority's list, which is created if absent; every other list is unchanged |
| PausedIndex.AppendIfTracked | wasm-request-buffer/service/main.go:81-84 | a tracked authority's list gains the id at its end; an untracked authority changes nothing; keys never change |
| PausedIndex.ReleaseAll | wasm-request-buffer/filter/main.go:72-84 | releasing a list is, per id in order, setting it as the effective context and then resuming it |
| PausedIndex.ResumeListInOrder | wasm-request-buffer/service/main.go:142-154 | releasing a list succeeds iff no call for any of its ids fails, and then releases the ids first in, first out |
| PausedIndex.ResumeListStopsAtFirstFailure | wasm-request-buffer/filter/plugin.go:88-102 | a failed release stopped at the first failing id, after releasing the ids before it in order |
| PausedIndex.ResumeIds | wasm-request-buffer/filter/main.go:72-84 | the release loop makes exactly the calls of the release specification and reports its success |
| PausedIndex.DrainOnlyForgets | wasm-request-buffer/filter/main.go:67-89 | a resync only removes authorities: the lists it leaves are untouched, and cold or unvisited authorities all stay |
| PausedIndex.ForgottenWasReleasedInOrder | wasm-request-buffer/service/main.go:134-159 | every authority a resync removed was visited and not cold, and all its requests were released first in, first out, as one uninterrupted block of calls |
| PausedIndex.CompleteDrainLeavesColdOnly | wasm-request-buffer/filter/main.go:67-89 | a resync that runs to the end leaves exactly the authorities still cold |
| PausedIndex.FailedDrainLeavesWarmEntry | wasm-request-buffer/filter/plugin.go:90-99 | a resync cut short by a failing host call leaves a non-cold authority in the map with its whole list, including the ids already resumed |
| PausedIndex.Drain | wasm-request-buffer/filter/plugin.go:79-107 | the drain loop, visiting authorities in an order that enumerates the map, computes the drain specification; it only forgets authorities, never a cold one, leaves exactly the cold ones when it completes, and calls the host only for context ids queued under authorities no longer cold |
| PausedIndex.WithColdHosts | wasm-request-buffer/service/main.go:117-124 | after adding the reported hosts every reported host is a key, new ones with an empty list, and existing lists are preserved |
| PausedIndex.AddColdHosts | wasm-request-buffer/filter/plugin.go:68-75 | the adding loop computes exactly that map |
| PausedIndex.CompleteResyncTracksReport | wasm-request-buffer/filter/plugin.go:68-107 | after a complete resync the keys are exactly the reported hosts, each with its old list or an empty one |
| PausedIndex.DrainTouchesOnlyIndexedContexts | wasm-request-buffer/service/main.go:134-159 | every host call of a resync concerns a context id queued under an authority that has left the cold list, so no request held for a cold host is released |
| PausedIndex.EnqueuedIsReleasedAfterEarlier | wasm-request-buffer/filter/main.go:59-120 | a request paused for an authority that has since turned warm is resumed by a complete resync, right after the requests paused before it for that authority, and the authority is forgotten |
| TickFilter.ScaledToZeroClusters | wasm-request-buffer/filter/main.go:122-129 | an unreadable slot is an error; a read list is never empty and re-encodes to the stored bytes |
| TickFilter.FilterPluginContext.constructor | wasm-request-buffer/filter/main.go:35-40 | the plugin starts with no paused request |
| TickFilter.FilterPluginContext.OnTick | wasm-request-buffer/filter/main.go:59-90 | an unreadable slot changes nothing and makes no call; otherwise the map and calls are the drain against the decoded cold list |
| TickFilter.HttpContext.constructor | wasm-request-buffer/filter/main.go:52-57 | a request context knows its plugin and its id |
| TickFilter.HttpContext.OnHttpRequestHeaders | wasm-request-buffer/filter/main.go:92-120 | missing authority or unreadable slot: Continue, map unchanged; authority on the cold list: Pause and the id is queued at the end of its list; otherwise Continue, map unchanged |
| FilterPlugin.PluginContext.constructor | wasm-request-buffer/filter/vm.go:11-16 | the plugin starts with an empty index |
| FilterPlugin.PluginContext.ControlPlaneResponseCallback | wasm-request-buffer/filter/plugin.go:52-108 | an unreadable or unparsable body changes nothing; otherwise the reported hosts are added and the result is drained against them |
| FilterPlugin.HttpContext.constructor | wasm-request-buffer/filter/plugin.go:21-26 | a request context knows its plugin and its id |
| FilterPlugin.HttpContext.OnHttpRequestHeaders | wasm-request-buffer/filter/filter.go:16-31 | missing authority: Pause with the map unchanged; otherwise the id is appended only to a tracked authority's list, and Pause holds iff the authority is tracked; keys never change |
| FilterPlugin.UnqueuedPauseIsNeverResumed | wasm-request-buffer/filter/filter.go:17-21 | a context id held in no list is never touched by a later resync |
| QueueService.OnVMStart | wasm-request-buffer/service/main.go:28-36 | the slot is initialised with the encoding of the empty list, the empty string, which reads back as `[""]`; start fails iff storing fails |
| QueueService.ServicePluginContext.constructor | wasm-request-buffer/service/main.go:38-43 | the service starts with an empty index |
| QueueService.ServicePluginContext.OnQueueReady | wasm-request-buffer/service/main.go:62-72 | a dequeued message is handled as by onMessage; an empty queue or a dequeue error changes nothing |
| QueueService.ServicePluginContext.OnMessage | wasm-request-buffer/service/main.go:74-85 | an undecodable message changes nothing; otherwise the id is appended to its authority's list only if the authority is tracked |
| QueueService.ServicePluginContext.ControlPlaneResponseCallback | wasm-request-buffer/service/main.go:101-160 | an unreadable or unparsable body changes nothing; otherwise the hosts are added and the encoded list is published; if publishing fails nothing is drained, else the map is drained against the list |
| QueueService.PublishedListReadsBack | wasm-request-buffer/service/main.go:126-132 | what the service publishes the filters read back: a non-empty "~"-free list unchanged, the empty list as `[""]` |
| StaticControlPlane.Toggle | local-envoy/static-control-plane/main.go:48-54 | the host's membership flips and every other host keeps its membership |
| StaticControlPlane.ToggleTwiceRestores | local-envoy/static-control-plane/main.go:48-54 | toggling the same host twice restores the set |
| StaticControlPlane.ControlPlane.constructor | local-envoy/static-control-plane/main.go:11 | the set starts empty |
| StaticControlPlane.ControlPlane.SetScaledToZero | local-envoy/static-control-plane/main.go:27-57 | non-POST: 405; unparsable form or empty host: 400; both leave the set alone; otherwise the host is toggled and the answer is 200 |
| StaticControlPlane.ControlPlane.GetScaledToZeroClusters | local-envoy/static-control-plane/main.go:59-63 | the listing holds every member exactly once, and nothing else |

## Left out

- Process bootstrapping (`main`, kubeconfig and flags, client and informer construction, `Run` and cache sync, the HTTP servers, `OnPluginStart`, tick registration, `NewHttpContext` wiring beyond its two fields): wiring with no logic to verify.
- Locking: the controller's `sync.RWMutex` only serialises handlers, which the model takes as atomic steps.
- Concurrency in the static control plane: its package-level `scaledToZeroClusters` map (local-envoy/static-control-plane/main.go:11) is read and written by concurrent HTTP handlers with no lock. Concurrent requests can race, and Go aborts on a concurrent map write. The model runs `SetScaledToZero` and `GetScaledToZeroClusters` as atomic steps, so it does not capture that race.
- JSON: marshalling the cold list in the control planes (and their 500 answers on marshal or write errors), and unmarshalling it in the filters. The model takes the parsed `seq<string>` or a parse failure as input.
- `ParseConfig` and `DecodeRequestContext`: the first is not used by the modelled handlers; the second is not part of this model, so a queue message arrives already decoded or marked undecodable.
- `DispatchHttpCall` in the `OnTick` of plugin.go and service/main.go: the call is fire-and-forget; only its callback is modelled.
- Tick periods and call timeouts: timing constants with no effect on state.
- The Go type assertions in the informer callbacks: events arrive as a typed `Event`, so a mistyped object (logged and ignored in the source) cannot be expressed.
- A `BackendRef` whose `Kind` pointer is nil: the source dereferences it and panics; the model's `kind` is always a string.
- Host faults are fixed per handler call: a `SetEffectiveContext`, `ResumeHttpRequest` or `UpdateScale` call fails according to the context id or deployment name it concerns, not independently on each attempt.
- upstream/main.go and wasm-request-buffer/main.go: a demo upstream server, and a VM bootstrap returning a TCP context (`filter.NetworkContext`) that is not part of this model.
- The Kubernetes API timeout context of `triggerScaleUp`: all its calls share one 5-second context. The Service `Get` and deployment `List` oracles are single flags per snapshot, so the model cannot express an early `Get` or `List` succeeding and a later one failing because the shared context expired. `UpdateScale` failures are per deployment name, not per attempt.
- Logging.
