/**
  The index every variant of the request-buffer filter keeps: for each
  authority that is scaled to zero, the ids of the HTTP contexts paused for
  it, oldest first. Resynchronising with the control plane releases the
  requests of every authority that is no longer cold, in the order they were
  paused, and forgets that authority; the first host call that fails ends the
  resync. The host calls are recorded in a trace, and which of them fail is
  given by `HostFaults`.
 */
module PausedIndex {
  import opened Enumeration

  /** A proxy-wasm context id, a `uint32`. */
  type ContextId = x: int | 0 <= x < 0x1_0000_0000

  /** Authority to the ids of its paused requests, oldest first. */
  type Paused = map<string, seq<ContextId>>

  /** A call into the host: make `id` the effective context, or resume the effective context's request. */
  datatype HostCall = SetEffectiveContext(id: ContextId) | ResumeHttpRequest(id: ContextId)

  /** Which host calls fail, by the context they concern. */
  datatype HostFaults = HostFaults(setContextFails: set<ContextId>, resumeFails: set<ContextId>)

  /** The verdict of a request-headers handler. */
  datatype Action = Continue | Pause

  /** The control plane's answer to the resync call, after reading and JSON-decoding the body. */
  datatype ControlPlaneResponse = BodyReadFailed | ParseFailed | Parsed(hostnames: seq<string>)

  /** `pausedIds[authority] = append(pausedIds[authority], id)`, the key created when absent. */
  function Enqueue(m: Paused, authority: string, id: ContextId): (r: Paused)
    ensures r.Keys == m.Keys + {authority}
    ensures authority in m ==> r[authority] == m[authority] + [id]
    ensures authority !in m ==> r[authority] == [id]
    ensures forall k :: k in m && k != authority ==> r[k] == m[k]
  {
    m[authority := (if authority in m then m[authority] else []) + [id]]
  }

  /** The two calls that release one paused request. */
  function ReleaseCalls(id: ContextId): seq<HostCall> {
    [SetEffectiveContext(id), ResumeHttpRequest(id)]
  }

  /** The calls that release `ids` in order when none of them fails. */
  function ReleaseAll(ids: seq<ContextId>): (calls: seq<HostCall>)
    ensures |calls| == 2 * |ids|
    ensures forall i :: 0 <= i < |ids| ==> calls[2 * i] == SetEffectiveContext(ids[i]) && calls[2 * i + 1] == ResumeHttpRequest(ids[i])
    decreases |ids|
  {
    if ids == [] then []
    else
      var init := ids[..|ids| - 1];
      var calls := ReleaseAll(init) + ReleaseCalls(ids[|ids| - 1]);
      assert forall i :: 0 <= i < |init| ==> ids[i] == init[i];
      calls
  }

  /** Both calls for `id` succeed. */
  predicate Releasable(id: ContextId, f: HostFaults) {
    id !in f.setContextFails && id !in f.resumeFails
  }

  /** Whether releasing a list succeeded, and the calls made. */
  datatype Released = Released(ok: bool, calls: seq<HostCall>)

  /** The inner loop of every resync: release the ids in order, stopping at the first failing call. */
  function ResumeList(ids: seq<ContextId>, f: HostFaults): Released
    decreases |ids|
  {
    if ids == [] then Released(true, [])
    else
      var before := ResumeList(ids[..|ids| - 1], f);
      var id := ids[|ids| - 1];
      if !before.ok then before
      else if id in f.setContextFails then Released(false, before.calls + [SetEffectiveContext(id)])
      else Released(id !in f.resumeFails, before.calls + ReleaseCalls(id))
  }

  /** Releasing succeeds exactly when every call does, and then releases the ids first in, first out. */
  lemma {:induction false} ResumeListInOrder(ids: seq<ContextId>, f: HostFaults)
    ensures ResumeList(ids, f).ok <==> forall i :: 0 <= i < |ids| ==> Releasable(ids[i], f)
    ensures ResumeList(ids, f).ok ==> ResumeList(ids, f).calls == ReleaseAll(ids)
    decreases |ids|
  {
    if ids != [] {
      var init := ids[..|ids| - 1];
      ResumeListInOrder(init, f);
      assert forall i :: 0 <= i < |init| ==> ids[i] == init[i];
    }
  }

  /** The calls made for the id whose release fails: the set call alone when it fails, else both. */
  function FailingCalls(id: ContextId, f: HostFaults): seq<HostCall> {
    if id in f.setContextFails then [SetEffectiveContext(id)] else ReleaseCalls(id)
  }

  /** `calls` released `ids[..n]` in order and then failed on `ids[n]`, the first id that is not releasable. */
  predicate FailedAt(ids: seq<ContextId>, f: HostFaults, n: int, calls: seq<HostCall>) {
    && 0 <= n < |ids| && !Releasable(ids[n], f)
    && (forall i :: 0 <= i < n ==> Releasable(ids[i], f))
    && calls == ReleaseAll(ids[..n]) + FailingCalls(ids[n], f)
  }

  /** A failed release stopped at the first id whose call failed, after releasing the ids before it in order. */
  lemma {:induction false} ResumeListStopsAtFirstFailure(ids: seq<ContextId>, f: HostFaults) returns (n: nat)
    requires !ResumeList(ids, f).ok
    ensures FailedAt(ids, f, n, ResumeList(ids, f).calls)
    decreases |ids|
  {
    var init := ids[..|ids| - 1];
    var last := |ids| - 1;
    if ResumeList(init, f).ok {
      ResumeListInOrder(init, f);
      assert ids[..last] == init;
      assert forall i :: 0 <= i < last ==> ids[i] == init[i];
      n := last;
    } else {
      n := ResumeListStopsAtFirstFailure(init, f);
      assert init[..n] == ids[..n];
      assert forall i :: 0 <= i <= n ==> ids[i] == init[i];
    }
  }

  lemma {:induction false} ResumeListKeepsFailure(ids: seq<ContextId>, n: nat, f: HostFaults)
    requires n <= |ids|
    requires !ResumeList(ids[..n], f).ok
    ensures ResumeList(ids, f) == ResumeList(ids[..n], f)
    decreases |ids| - n
  {
    if n < |ids| {
      assert ids[..n + 1][..n] == ids[..n];
      ResumeListKeepsFailure(ids, n + 1, f);
    } else {
      assert ids[..n] == ids;
    }
  }

  /** The release loop as the filters write it. */
  method ResumeIds(ids: seq<ContextId>, f: HostFaults) returns (ok: bool, calls: seq<HostCall>)
    ensures Released(ok, calls) == ResumeList(ids, f)
  {
    calls := [];
    var i := 0;
    while i < |ids|
      invariant 0 <= i <= |ids|
      invariant ResumeList(ids[..i], f) == Released(true, calls)
    {
      var id := ids[i];
      assert ids[..i + 1][..i] == ids[..i];
      calls := calls + [SetEffectiveContext(id)];
      if id in f.setContextFails {
        ResumeListKeepsFailure(ids, i + 1, f);
        return false, calls;
      }
      calls := calls + [ResumeHttpRequest(id)];
      if id in f.resumeFails {
        ResumeListKeepsFailure(ids, i + 1, f);
        return false, calls;
      }
      i := i + 1;
    }
    assert ids[..i] == ids;
    ok := true;
  }

  /** The state after a drain: whether it ran to the end, the index left, and the calls made. */
  datatype Drained = Drained(ok: bool, paused: Paused, calls: seq<HostCall>)

  /**
    The drain loop over the authorities in `order`: each one not in `cold`
    has its requests released and is then forgotten; a failing release ends
    the loop and leaves that authority, and the ones after it, in place.
   */
  function DrainIn(m: Paused, cold: seq<string>, order: seq<string>, f: HostFaults): Drained
    decreases |order|
  {
    if order == [] then Drained(true, m, [])
    else
      var before := DrainIn(m, cold, order[..|order| - 1], f);
      var k := order[|order| - 1];
      if !before.ok || k in cold || k !in m then before
      else
        var r := ResumeList(m[k], f);
        Drained(r.ok, if r.ok then before.paused - {k} else before.paused, before.calls + r.calls)
  }

  lemma {:induction false} DrainKeepsFailure(m: Paused, cold: seq<string>, a: seq<string>, b: seq<string>, f: HostFaults)
    requires !DrainIn(m, cold, a, f).ok
    ensures DrainIn(m, cold, a + b, f) == DrainIn(m, cold, a, f)
    decreases |b|
  {
    if b != [] {
      var b' := b[..|b| - 1];
      assert (a + b)[..|a + b| - 1] == a + b';
      DrainKeepsFailure(m, cold, a, b', f);
    } else {
      assert a + b == a;
    }
  }

  /** A drain only forgets authorities: what it leaves is untouched, and cold or unvisited authorities all stay. */
  lemma {:induction false} DrainOnlyForgets(m: Paused, cold: seq<string>, order: seq<string>, f: HostFaults)
    ensures forall k :: k in DrainIn(m, cold, order, f).paused ==> k in m && DrainIn(m, cold, order, f).paused[k] == m[k]
    ensures forall k :: k in m && (k in cold || k !in order) ==> k in DrainIn(m, cold, order, f).paused
    decreases |order|
  {
    if order != [] {
      DrainOnlyForgets(m, cold, order[..|order| - 1], f);
    }
  }

  /** `b` occurs in `s` as one contiguous block. */
  ghost predicate Block(b: seq<HostCall>, s: seq<HostCall>) {
    exists i :: BlockAt(b, s, i)
  }

  /** `b` occurs in `s` starting at index `i`. */
  predicate BlockAt(b: seq<HostCall>, s: seq<HostCall>, i: int) {
    0 <= i && i + |b| <= |s| && s[i..i + |b|] == b
  }

  lemma BlockInPrefix(b: seq<HostCall>, s: seq<HostCall>, t: seq<HostCall>)
    requires Block(b, s)
    ensures Block(b, s + t)
  {
    var i :| BlockAt(b, s, i);
    assert (s + t)[i..i + |b|] == s[i..i + |b|];
    assert BlockAt(b, s + t, i);
  }

  /**
    Every authority a drain forgot was visited and not cold, and all its
    requests were released, first in first out, as one uninterrupted block of
    calls.
   */
  lemma {:induction false} ForgottenWasReleasedInOrder(m: Paused, cold: seq<string>, order: seq<string>, f: HostFaults, k: string)
    requires k in m && k !in DrainIn(m, cold, order, f).paused
    ensures k !in cold && k in order
    ensures forall i :: 0 <= i < |m[k]| ==> Releasable(m[k][i], f)
    ensures Block(ReleaseAll(m[k]), DrainIn(m, cold, order, f).calls)
    decreases |order|
  {
    var init := order[..|order| - 1];
    var last := order[|order| - 1];
    assert order == init + [last];
    var before := DrainIn(m, cold, init, f);
    var after := DrainIn(m, cold, order, f);
    ResumeListInOrder(m[k], f);
    if k !in before.paused {
      ForgottenWasReleasedInOrder(m, cold, init, f, k);
      if after != before {
        BlockInPrefix(ReleaseAll(m[k]), before.calls, ResumeList(m[last], f).calls);
      }
    } else {
      assert BlockAt(ReleaseAll(m[k]), after.calls, |before.calls|);
    }
  }

  /** A drain that ran to the end over every authority leaves exactly the cold ones. */
  lemma {:induction false} CompleteDrainLeavesColdOnly(m: Paused, cold: seq<string>, order: seq<string>, f: HostFaults)
    requires Enumerates(order, m.Keys)
    requires DrainIn(m, cold, order, f).ok
    ensures forall k :: k in DrainIn(m, cold, order, f).paused <==> k in m && k in cold
  {
    DrainOnlyForgets(m, cold, order, f);
    VisitedWarmForgotten(m, cold, order, f);
  }

  lemma {:induction false} VisitedWarmForgotten(m: Paused, cold: seq<string>, order: seq<string>, f: HostFaults)
    requires DrainIn(m, cold, order, f).ok
    ensures forall k :: k in order && k !in cold ==> k !in DrainIn(m, cold, order, f).paused
    decreases |order|
  {
    if order != [] {
      var init := order[..|order| - 1];
      VisitedWarmForgotten(m, cold, init, f);
      DrainOnlyForgets(m, cold, init, f);
      assert order == init + [order[|order| - 1]];
    }
  }

  /** A drain that failed left behind an authority that is no longer cold, its list intact. */
  lemma {:induction false} FailedDrainLeavesWarmEntry(m: Paused, cold: seq<string>, order: seq<string>, f: HostFaults)
    requires forall i, j :: 0 <= i < j < |order| ==> order[i] != order[j]
    requires !DrainIn(m, cold, order, f).ok
    ensures exists k ::
      && k in DrainIn(m, cold, order, f).paused && k in m && k !in cold && k in order
      && DrainIn(m, cold, order, f).paused[k] == m[k] && !ResumeList(m[k], f).ok
    decreases |order|
  {
    var init := order[..|order| - 1];
    var k := order[|order| - 1];
    assert order == init + [k];
    if DrainIn(m, cold, init, f).ok {
      DrainOnlyForgets(m, cold, init, f);
      assert k !in init;
    } else {
      FailedDrainLeavesWarmEntry(m, cold, init, f);
    }
  }

  /**
    The drain loop the filters run over their map: Go's `range` visits the
    authorities in an order it does not specify, given here as `order`.
   */
  method Drain(m: Paused, cold: seq<string>, f: HostFaults)
    returns (ok: bool, paused: Paused, calls: seq<HostCall>, ghost order: seq<string>)
    ensures Enumerates(order, m.Keys)
    ensures Drained(ok, paused, calls) == DrainIn(m, cold, order, f)
    ensures forall k :: k in paused ==> k in m && paused[k] == m[k]
    ensures forall k :: k in m && k in cold ==> k in paused
    ensures ok ==> forall k :: k in paused <==> k in m && k in cold
    ensures forall c :: c in calls ==> exists k :: k in m && k !in cold && c.id in m[k]
  {
    paused := m;
    calls := [];
    order := [];
    var remaining := m.Keys;
    while remaining != {}
      invariant remaining <= m.Keys
      invariant Enumerates(order, m.Keys - remaining)
      invariant DrainIn(m, cold, order, f) == Drained(true, paused, calls)
      decreases |remaining|
    {
      var authority :| authority in remaining;
      VisitNext(order, m.Keys, remaining, authority);
      remaining := remaining - {authority};
      assert (order + [authority])[..|order|] == order;
      if authority !in cold {
        var released, more := ResumeIds(m[authority], f);
        calls := calls + more;
        if !released {
          order := order + [authority];
          var full := CompleteEnumeration(order, m.Keys, remaining);
          assert full == order + full[|order|..];
          DrainKeepsFailure(m, cold, order, full[|order|..], f);
          DrainOnlyForgets(m, cold, full, f);
          DrainTouchesOnlyIndexedContexts(m, cold, full, f);
          return false, paused, calls, full;
        }
        paused := paused - {authority};
      }
      order := order + [authority];
    }
    assert m.Keys - remaining == m.Keys;
    ok := true;
    DrainOnlyForgets(m, cold, order, f);
    DrainTouchesOnlyIndexedContexts(m, cold, order, f);
    CompleteDrainLeavesColdOnly(m, cold, order, f);
  }

  /** Every newly reported cold host gets an empty list; the lists already held are kept. */
  function WithColdHosts(m: Paused, cold: seq<string>): (r: Paused)
    ensures forall k :: k in r <==> k in m || k in cold
    ensures forall k :: k in m ==> r[k] == m[k]
    ensures forall k :: k in r && k !in m ==> r[k] == []
  {
    map k | k in m.Keys + (set h | h in cold) :: if k in m then m[k] else []
  }

  /** The loop adding newly reported cold hosts. */
  method AddColdHosts(m: Paused, cold: seq<string>) returns (r: Paused)
    ensures r == WithColdHosts(m, cold)
  {
    r := m;
    var i := 0;
    while i < |cold|
      invariant 0 <= i <= |cold|
      invariant r == WithColdHosts(m, cold[..i])
    {
      var authority := cold[i];
      if authority !in r {
        r := r[authority := []];
      }
      assert cold[..i + 1] == cold[..i] + [authority];
      i := i + 1;
    }
    assert cold[..i] == cold;
  }

  /**
    A resync from a parsed answer: add the reported hosts, then drain. When it
    runs to the end, the authorities left are exactly the reported ones, each
    with the list it had (or an empty one if it is new).
   */
  lemma CompleteResyncTracksReport(m: Paused, cold: seq<string>, order: seq<string>, f: HostFaults)
    requires Enumerates(order, WithColdHosts(m, cold).Keys)
    requires DrainIn(WithColdHosts(m, cold), cold, order, f).ok
    ensures forall k :: k in DrainIn(WithColdHosts(m, cold), cold, order, f).paused <==> k in cold
    ensures forall k :: k in DrainIn(WithColdHosts(m, cold), cold, order, f).paused ==>
      DrainIn(WithColdHosts(m, cold), cold, order, f).paused[k] == (if k in m then m[k] else [])
  {
    CompleteDrainLeavesColdOnly(WithColdHosts(m, cold), cold, order, f);
    DrainOnlyForgets(WithColdHosts(m, cold), cold, order, f);
  }

  /** `append` to an authority's list only when the authority is already tracked; otherwise nothing changes. */
  function AppendIfTracked(m: Paused, authority: string, id: ContextId): (r: Paused)
    ensures r.Keys == m.Keys
    ensures authority in m ==> r == Enqueue(m, authority, id)
    ensures authority !in m ==> r == m
  {
    if authority in m then m[authority := m[authority] + [id]] else m
  }

  /** Every call made while releasing a list concerns one of its ids. */
  lemma {:induction false} ResumeListConcernsOnlyItsIds(ids: seq<ContextId>, f: HostFaults)
    ensures forall c :: c in ResumeList(ids, f).calls ==> c.id in ids
    decreases |ids|
  {
    if ids != [] {
      var init := ids[..|ids| - 1];
      ResumeListConcernsOnlyItsIds(init, f);
      assert ids == init + [ids[|ids| - 1]];
    }
  }

  /**
    A drain only ever touches contexts queued under an authority that has left
    the cold list: a request still held for a cold host, or paused without
    being recorded, is never resumed.
   */
  lemma {:induction false} DrainTouchesOnlyIndexedContexts(m: Paused, cold: seq<string>, order: seq<string>, f: HostFaults)
    ensures forall c :: c in DrainIn(m, cold, order, f).calls ==> exists k :: k in m && k !in cold && c.id in m[k]
    decreases |order|
  {
    if order != [] {
      var init := order[..|order| - 1];
      var k := order[|order| - 1];
      DrainTouchesOnlyIndexedContexts(m, cold, init, f);
      if k in m {
        ResumeListConcernsOnlyItsIds(m[k], f);
      }
    }
  }

  /**
    A request paused for an authority that has since turned warm is resumed by
    a complete drain, right after every request paused before it for that
    authority.
   */
  lemma EnqueuedIsReleasedAfterEarlier(m: Paused, authority: string, id: ContextId, cold: seq<string>, order: seq<string>, f: HostFaults)
    requires authority !in cold
    requires Enumerates(order, Enqueue(m, authority, id).Keys)
    requires DrainIn(Enqueue(m, authority, id), cold, order, f).ok
    ensures authority !in DrainIn(Enqueue(m, authority, id), cold, order, f).paused
    ensures Block(ReleaseAll(if authority in m then m[authority] else []) + ReleaseCalls(id),
                  DrainIn(Enqueue(m, authority, id), cold, order, f).calls)
  {
    var m' := Enqueue(m, authority, id);
    var earlier := if authority in m then m[authority] else [];
    CompleteDrainLeavesColdOnly(m', cold, order, f);
    ForgottenWasReleasedInOrder(m', cold, order, f, authority);
    assert m'[authority] == earlier + [id];
    assert (earlier + [id])[..|earlier|] == earlier;
  }
}
