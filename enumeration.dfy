/**
  Go leaves the order of a `range` over a map unspecified. Every loop over a
  map in this model therefore picks its next key nondeterministically, and its
  contract speaks of the order actually taken through a ghost sequence that
  enumerates the keys: each key once, nothing else.
 */
module Enumeration {

  /** `order` lists every element of `keys` exactly once. */
  ghost predicate Enumerates(order: seq<string>, keys: set<string>) {
    && (forall i, j :: 0 <= i < j < |order| ==> order[i] != order[j])
    && (forall k :: k in order <==> k in keys)
  }

  /** Some enumeration of a finite set (the order Go might happen to take). */
  ghost function EnumerationOf(keys: set<string>): (order: seq<string>)
    ensures Enumerates(order, keys)
    decreases |keys|
  {
    if keys == {} then []
    else
      var k :| k in keys;
      var rest := EnumerationOf(keys - {k});
      assert forall j :: 0 <= j < |rest| ==> rest[j] != k;
      [k] + rest
  }

  /** An enumeration is exactly as long as the set it enumerates. */
  lemma {:induction false} EnumerationLength(order: seq<string>, keys: set<string>)
    requires Enumerates(order, keys)
    ensures |order| == |keys|
    decreases |order|
  {
    if order != [] {
      var last := order[|order| - 1];
      var init := order[..|order| - 1];
      assert order == init + [last];
      forall k ensures k in init <==> k in keys - {last} {
        if k in init {
          var i :| 0 <= i < |init| && init[i] == k;
          assert order[i] == k;
        }
      }
      EnumerationLength(init, keys - {last});
    }
  }

  /** Extending an enumeration of `done` by a fresh key enumerates `done + {k}`. */
  lemma ExtendEnumeration(order: seq<string>, done: set<string>, k: string)
    requires Enumerates(order, done)
    requires k !in done
    ensures Enumerates(order + [k], done + {k})
  {
  }

  /** Two enumerations of disjoint sets, put together, enumerate the union. */
  lemma ConcatEnumerations(a: seq<string>, sa: set<string>, b: seq<string>, sb: set<string>)
    requires Enumerates(a, sa) && Enumerates(b, sb)
    requires sa !! sb
    ensures Enumerates(a + b, sa + sb)
  {
    var ab := a + b;
    forall i, j | 0 <= i < j < |ab| ensures ab[i] != ab[j] {
      if j < |a| {
      } else if i >= |a| {
        assert ab[i] == b[i - |a|] && ab[j] == b[j - |a|];
      } else {
        assert ab[i] == a[i] && ab[i] in sa;
        assert ab[j] == b[j - |a|] && ab[j] in sb;
      }
    }
  }

  /** Dropping the element at `j` enumerates the set without it. */
  lemma DropAt(order: seq<string>, keys: set<string>, j: nat)
    requires Enumerates(order, keys)
    requires j < |order|
    ensures Enumerates(order[..j] + order[j + 1..], keys - {order[j]})
  {
    var rest := order[..j] + order[j + 1..];
    forall a, b | 0 <= a < b < |rest| ensures rest[a] != rest[b] {
      var a' := if a < j then a else a + 1;
      var b' := if b < j then b else b + 1;
      assert rest[a] == order[a'] && rest[b] == order[b'];
    }
    forall x ensures x in rest <==> x in keys - {order[j]} {
      if x in rest {
        var i :| 0 <= i < |rest| && rest[i] == x;
        var i' := if i < j then i else i + 1;
        assert order[i'] == x;
      }
    }
  }

  /** A loop over `keys` that has visited `order` and now visits `k` from the `remaining` ones. */
  lemma VisitNext(order: seq<string>, keys: set<string>, remaining: set<string>, k: string)
    requires remaining <= keys && k in remaining
    requires Enumerates(order, keys - remaining)
    ensures Enumerates(order + [k], keys - (remaining - {k}))
  {
    ExtendEnumeration(order, keys - remaining, k);
    assert (keys - remaining) + {k} == keys - (remaining - {k});
  }

  /** A loop that stops early: some order of the keys it has not visited completes the one it took. */
  lemma CompleteEnumeration(order: seq<string>, keys: set<string>, remaining: set<string>) returns (full: seq<string>)
    requires remaining <= keys
    requires Enumerates(order, keys - remaining)
    ensures Enumerates(full, keys)
    ensures |order| <= |full| && full[..|order|] == order
  {
    var rest := EnumerationOf(remaining);
    ConcatEnumerations(order, keys - remaining, rest, remaining);
    assert (keys - remaining) + remaining == keys;
    full := order + rest;
  }
}
