/**
  The queue-fed service variant (wasm-request-buffer/service/main.go). A
  separate service plugin owns the paused index: filters send it the
  authority and context id of every request they pause through a shared
  queue, and on each control-plane answer it publishes the cold list to the
  shared-data slot before releasing the queues of hosts that left it.
 */
module QueueService {
  import opened Optional
  import opened SharedData
  import opened Enumeration
  import opened PausedIndex

  /** What a filter sends for a paused request. */
  datatype RequestContext = RequestContext(authority: string, httpContextId: ContextId)

  /** The result of `DequeueSharedQueue`: nothing queued, a message (`None` when it does not decode), or an error. */
  datatype Dequeued = QueueEmpty | Message(decoded: Option<RequestContext>) | DequeueFailed

  datatype VmStartStatus = VmStartOK | VmStartFailed

  /**
    `OnVMStart`: the slot is initialised with the encoding of the empty list,
    which the filters read back as a single empty hostname.
   */
  method OnVMStart(setFails: bool) returns (status: VmStartStatus, written: string)
    ensures written == Encode([]) && written == [] && Decode(written) == [""]
    ensures status == VmStartOK <==> !setFails
  {
    written := Encode([]);
    EncodeEmptyDecodesToEmptyHost();
    status := if setFails then VmStartFailed else VmStartOK;
  }

  class ServicePluginContext {
    var pausedClusters: Paused

    constructor ()
      ensures pausedClusters == map[]
    {
      pausedClusters := map[];
    }

    /** `OnQueueReady`: a dequeued message is handed to `onMessage`; an empty queue or an error changes nothing. */
    method OnQueueReady(dequeued: Dequeued)
      modifies this
      ensures dequeued.Message? ==>
        match dequeued.decoded
        case None => pausedClusters == old(pausedClusters)
        case Some(rc) => pausedClusters == AppendIfTracked(old(pausedClusters), rc.authority, rc.httpContextId)
      ensures !dequeued.Message? ==> pausedClusters == old(pausedClusters)
    {
      match dequeued
      case QueueEmpty =>
      case DequeueFailed =>
      case Message(decoded) => OnMessage(decoded);
    }

    /**
      `onMessage`: the id joins the end of its authority's queue when the
      authority is tracked; an undecodable message or an untracked authority
      is dropped.
     */
    method OnMessage(decoded: Option<RequestContext>)
      modifies this
      ensures decoded.None? ==> pausedClusters == old(pausedClusters)
      ensures decoded.Some? ==>
        pausedClusters == AppendIfTracked(old(pausedClusters), decoded.value.authority, decoded.value.httpContextId)
    {
      if decoded.None? {
        return;
      }
      var reqContext := decoded.value;
      if reqContext.authority in pausedClusters {
        pausedClusters := pausedClusters[reqContext.authority := pausedClusters[reqContext.authority] + [reqContext.httpContextId]];
      }
    }

    /**
      `controlPlaneResponseCallback`: a body that cannot be read or parsed
      changes nothing. A parsed list is added to the index, then published
      whole to the shared-data slot; if publishing fails nothing is released,
      otherwise every host not in the list is released and forgotten in Go's
      map order. `written` is the value handed to `SetSharedData`.
     */
    method ControlPlaneResponseCallback(response: ControlPlaneResponse, setSharedFails: bool, f: HostFaults)
      returns (written: Option<string>, calls: seq<HostCall>, ghost order: seq<string>)
      modifies this
      ensures !response.Parsed? ==> pausedClusters == old(pausedClusters) && written == None && calls == []
      ensures response.Parsed? ==> written == Some(Encode(response.hostnames))
      ensures response.Parsed? && setSharedFails ==>
        pausedClusters == WithColdHosts(old(pausedClusters), response.hostnames) && calls == []
      ensures response.Parsed? && !setSharedFails ==>
        && var added := WithColdHosts(old(pausedClusters), response.hostnames);
           && Enumerates(order, added.Keys)
           && var d := DrainIn(added, response.hostnames, order, f);
              pausedClusters == d.paused && calls == d.calls
    {
      if !response.Parsed? {
        return None, [], [];
      }
      var currentScaledToZeroClusters := response.hostnames;
      pausedClusters := AddColdHosts(pausedClusters, currentScaledToZeroClusters);
      var clustersEncoded := Encode(currentScaledToZeroClusters);
      written := Some(clustersEncoded);
      if setSharedFails {
        return written, [], [];
      }
      var ok, paused;
      ok, paused, calls, order := Drain(pausedClusters, currentScaledToZeroClusters, f);
      pausedClusters := paused;
    }
  }

  /**
    What the service publishes is what the filters read: a non-empty list of
    hostnames without "~" comes back unchanged; an empty one comes back as a
    single empty hostname.
   */
  lemma PublishedListReadsBack(hostnames: seq<string>)
    requires forall i :: 0 <= i < |hostnames| ==> Splitter !in hostnames[i]
    ensures Decode(Encode(hostnames)) == if hostnames == [] then [""] else hostnames
  {
    if hostnames != [] {
      DecodeEncode(hostnames);
    } else {
      EncodeEmptyDecodesToEmptyHost();
    }
  }
}
