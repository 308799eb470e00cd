/**
  The tick-driven filter (wasm-request-buffer/filter/main.go). A request for
  an authority the shared cold list names is paused and its context id queued;
  every tick reads the cold list again and releases the queues of authorities
  that have left it. Missing headers and unreadable shared data fail open.
 */
module TickFilter {
  import opened Optional
  import opened SharedData
  import opened Enumeration
  import opened PausedIndex

  /**
    `getScaledToZeroClusters`: the cold list decoded from the shared-data slot,
    or `None` when the slot cannot be read. A list read back is never empty and
    re-encodes to the stored bytes.
   */
  function ScaledToZeroClusters(stored: Option<string>): (r: Option<seq<string>>)
    ensures r.None? <==> stored.None?
    ensures r.Some? ==> |r.value| >= 1 && Encode(r.value) == stored.value
  {
    match stored
    case None => None
    case Some(b) =>
      EncodeDecode(b);
      Some(Decode(b))
  }

  class FilterPluginContext {
    var pausedRequestsForCluster: Paused

    constructor ()
      ensures pausedRequestsForCluster == map[]
    {
      pausedRequestsForCluster := map[];
    }

    /**
      `OnTick`: on a readable cold list, release in FIFO order and forget every
      authority that left it, in Go's map order, stopping at the first failing
      host call. An unreadable slot changes nothing.
     */
    method OnTick(stored: Option<string>, f: HostFaults) returns (calls: seq<HostCall>, ghost order: seq<string>)
      modifies this
      ensures stored.None? ==> pausedRequestsForCluster == old(pausedRequestsForCluster) && calls == []
      ensures stored.Some? ==>
        && Enumerates(order, old(pausedRequestsForCluster).Keys)
        && var d := DrainIn(old(pausedRequestsForCluster), Decode(stored.value), order, f);
           pausedRequestsForCluster == d.paused && calls == d.calls
    {
      var scaledToZeroClusters := ScaledToZeroClusters(stored);
      if scaledToZeroClusters.None? {
        return [], [];
      }
      var ok, paused;
      ok, paused, calls, order := Drain(pausedRequestsForCluster, scaledToZeroClusters.value, f);
      pausedRequestsForCluster := paused;
    }
  }

  class HttpContext {
    const pluginCtx: FilterPluginContext
    const httpContextId: ContextId

    constructor (pluginCtx: FilterPluginContext, httpContextId: ContextId)
      ensures this.pluginCtx == pluginCtx && this.httpContextId == httpContextId
    {
      this.pluginCtx := pluginCtx;
      this.httpContextId := httpContextId;
    }

    /**
      `OnHttpRequestHeaders`: pause and queue the request exactly when its
      authority is on the cold list; a missing `:authority` header or an
      unreadable slot lets the request through.
     */
    method OnHttpRequestHeaders(authority: Option<string>, stored: Option<string>) returns (action: Action)
      modifies pluginCtx
      ensures authority.None? || stored.None? ==>
        action == Continue && pluginCtx.pausedRequestsForCluster == old(pluginCtx.pausedRequestsForCluster)
      ensures authority.Some? && stored.Some? && authority.value in Decode(stored.value) ==>
        && action == Pause
        && pluginCtx.pausedRequestsForCluster == Enqueue(old(pluginCtx.pausedRequestsForCluster), authority.value, httpContextId)
      ensures authority.Some? && stored.Some? && authority.value !in Decode(stored.value) ==>
        action == Continue && pluginCtx.pausedRequestsForCluster == old(pluginCtx.pausedRequestsForCluster)
    {
      if authority.None? {
        return Continue;
      }
      var scaledToZeroClusters := ScaledToZeroClusters(stored);
      if scaledToZeroClusters.None? {
        return Continue;
      }
      if authority.value in scaledToZeroClusters.value {
        var paused := pluginCtx.pausedRequestsForCluster;
        if authority.value in paused {
          pluginCtx.pausedRequestsForCluster := paused[authority.value := paused[authority.value] + [httpContextId]];
        } else {
          pluginCtx.pausedRequestsForCluster := paused[authority.value := [httpContextId]];
        }
        return Pause;
      }
      return Continue;
    }
  }
}
