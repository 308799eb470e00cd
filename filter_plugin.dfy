/**
  The callback-driven filter of package `filter` (wasm-request-buffer/filter/
  plugin.go, filter.go and vm.go). The plugin context keeps the paused index
  itself: the control plane's answer adds every reported host with an empty
  queue and then releases and forgets the others. The request handler only
  queues requests for hosts already in the index, and fails closed when the
  `:authority` header is missing.
 */
module FilterPlugin {
  import opened Optional
  import opened Enumeration
  import opened PausedIndex

  class PluginContext {
    var scaledToZeroClusters: Paused

    /** `NewPluginContext` in vm.go: the index starts empty. */
    constructor ()
      ensures scaledToZeroClusters == map[]
    {
      scaledToZeroClusters := map[];
    }

    /**
      `controlPlaneResponseCallback`: an unreadable or unparsable body changes
      nothing; a parsed host list is added to the index, then every host not in
      it is released and forgotten, in Go's map order.
     */
    method ControlPlaneResponseCallback(response: ControlPlaneResponse, f: HostFaults)
      returns (calls: seq<HostCall>, ghost order: seq<string>)
      modifies this
      ensures !response.Parsed? ==> scaledToZeroClusters == old(scaledToZeroClusters) && calls == []
      ensures response.Parsed? ==>
        && var added := WithColdHosts(old(scaledToZeroClusters), response.hostnames);
           && Enumerates(order, added.Keys)
           && var d := DrainIn(added, response.hostnames, order, f);
              scaledToZeroClusters == d.paused && calls == d.calls
    {
      if !response.Parsed? {
        return [], [];
      }
      var currentScaledToZeroClusters := response.hostnames;
      scaledToZeroClusters := AddColdHosts(scaledToZeroClusters, currentScaledToZeroClusters);
      var ok, paused;
      ok, paused, calls, order := Drain(scaledToZeroClusters, currentScaledToZeroClusters, f);
      scaledToZeroClusters := paused;
    }
  }

  class HttpContext {
    const pluginCtx: PluginContext
    const contextId: ContextId

    constructor (pluginCtx: PluginContext, contextId: ContextId)
      ensures this.pluginCtx == pluginCtx && this.contextId == contextId
    {
      this.pluginCtx := pluginCtx;
      this.contextId := contextId;
    }

    /**
      `OnHttpRequestHeaders`: a request for a host in the index is queued and
      paused, any other is let through; without an `:authority` header the
      request is paused and not queued. The handler never adds or removes hosts.
     */
    method OnHttpRequestHeaders(authority: Option<string>) returns (action: Action)
      modifies pluginCtx
      ensures authority.None? ==> action == Pause && pluginCtx.scaledToZeroClusters == old(pluginCtx.scaledToZeroClusters)
      ensures authority.Some? ==>
        && pluginCtx.scaledToZeroClusters == AppendIfTracked(old(pluginCtx.scaledToZeroClusters), authority.value, contextId)
        && (action == Pause <==> authority.value in old(pluginCtx.scaledToZeroClusters))
    {
      if authority.None? {
        return Pause;
      }
      var clusters := pluginCtx.scaledToZeroClusters;
      if authority.value in clusters {
        pluginCtx.scaledToZeroClusters := clusters[authority.value := clusters[authority.value] + [contextId]];
        return Pause;
      }
      return Continue;
    }
  }

  /**
    A request paused for lack of an `:authority` header is in no queue, so no
    callback ever resumes it: every host call a callback makes concerns a
    queued context.
   */
  lemma UnqueuedPauseIsNeverResumed(m: Paused, id: ContextId, hostnames: seq<string>, order: seq<string>, f: HostFaults)
    requires forall k :: k in m ==> id !in m[k]
    ensures forall c :: c in DrainIn(WithColdHosts(m, hostnames), hostnames, order, f).calls ==> c.id != id
  {
    DrainTouchesOnlyIndexedContexts(WithColdHosts(m, hostnames), hostnames, order, f);
  }
}
