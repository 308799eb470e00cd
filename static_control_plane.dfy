/**
  The static control plane used for local runs
  (local-envoy/static-control-plane/main.go): a set of cold hostnames that a
  POST toggles one host at a time, and a listing of its members.
 */
module StaticControlPlane {
  import opened Http
  import opened Enumeration

  /** Flip the membership of `host`, leaving every other host as it was. */
  function Toggle(s: set<string>, host: string): (r: set<string>)
    ensures host in r <==> host !in s
    ensures forall h :: h != host ==> (h in r <==> h in s)
  {
    if host in s then s - {host} else s + {host}
  }

  /** Toggling the same host twice restores the set. */
  lemma ToggleTwiceRestores(s: set<string>, host: string)
    ensures Toggle(Toggle(s, host), host) == s
  {
    assert forall h :: h in Toggle(Toggle(s, host), host) <==> h in s;
  }

  class ControlPlane {
    var scaledToZeroClusters: set<string>

    constructor ()
      ensures scaledToZeroClusters == {}
    {
      scaledToZeroClusters := {};
    }

    /**
      `setScaledToZero`: a non-POST is refused with 405, a POST whose form
      does not parse or names no host with 400, both leaving the set alone;
      otherwise the host's membership flips and the answer is 200.
     */
    method SetScaledToZero(req: Request) returns (status: int)
      modifies this
      ensures req.verb != MethodPost ==> status == StatusMethodNotAllowed
      ensures req.verb == MethodPost && !IsValidHostPost(req) ==> status == StatusBadRequest
      ensures !IsValidHostPost(req) ==> scaledToZeroClusters == old(scaledToZeroClusters)
      ensures IsValidHostPost(req) ==>
        status == StatusOK && scaledToZeroClusters == Toggle(old(scaledToZeroClusters), req.host)
    {
      if req.verb != MethodPost {
        return StatusMethodNotAllowed;
      }
      if !req.formParses {
        return StatusBadRequest;
      }
      var hostname := req.host;
      if hostname == "" {
        return StatusBadRequest;
      }
      if hostname in scaledToZeroClusters {
        scaledToZeroClusters := scaledToZeroClusters - {hostname};
      } else {
        scaledToZeroClusters := scaledToZeroClusters + {hostname};
      }
      return StatusOK;
    }

    /** `getScaledToZeroClusters`: every member once, in Go's map order. */
    method GetScaledToZeroClusters() returns (keys: seq<string>)
      ensures Enumerates(keys, scaledToZeroClusters)
      ensures |keys| == |scaledToZeroClusters|
    {
      keys := [];
      var remaining := scaledToZeroClusters;
      while remaining != {}
        invariant remaining <= scaledToZeroClusters
        invariant Enumerates(keys, scaledToZeroClusters - remaining)
        decreases |remaining|
      {
        var k :| k in remaining;
        VisitNext(keys, scaledToZeroClusters, remaining, k);
        keys := keys + [k];
        remaining := remaining - {k};
      }
      assert scaledToZeroClusters - remaining == scaledToZeroClusters;
      EnumerationLength(keys, scaledToZeroClusters);
    }
  }
}
