/**
  The serialisation of the cold-host list kept in the proxy's shared-data slot:
  the hostnames joined with "~", and split on "~" when read back. The byte slice
  Go stores is modelled as a string, one character per byte.
 */
module SharedData {

  /** Key of the shared-data slot holding the encoded cold-host list. */
  const ScaledToZeroClustersKey: string := "scaled_to_zero_clusters_key"

  /** The separator placed between two hostnames. */
  const Splitter: char := '~'

  /** Number of separators in `b`. */
  function Separators(b: string): nat {
    multiset(b)[Splitter]
  }

  /** `strings.Join(data, "~")`. */
  function Encode(data: seq<string>): string {
    if |data| == 0 then []
    else if |data| == 1 then data[0]
    else data[0] + [Splitter] + Encode(data[1..])
  }

  /** `strings.Split(b, "~")`: always at least one part, one more than there are separators. */
  function Decode(b: string): (parts: seq<string>)
    ensures |parts| == Separators(b) + 1
    ensures forall i :: 0 <= i < |parts| ==> Splitter !in parts[i]
  {
    if b == [] then [[]]
    else
      assert b == [b[0]] + b[1..];
      var rest := Decode(b[1..]);
      if b[0] == Splitter then [[]] + rest
      else [[b[0]] + rest[0]] + rest[1..]
  }

  /** Reading back a piece that holds no separator, followed by anything. */
  lemma {:induction false} DecodeAfterPiece(x: string, tail: string)
    requires Splitter !in x
    ensures Decode(x + tail) == [x + Decode(tail)[0]] + Decode(tail)[1..]
    decreases |x|
  {
    if x != [] {
      assert x + tail == [x[0]] + (x[1..] + tail);
      DecodeAfterPiece(x[1..], tail);
      assert (x + tail)[1..] == x[1..] + tail;
      assert [x[0]] + (x[1..] + Decode(tail)[0]) == x + Decode(tail)[0];
    } else {
      var parts := Decode(tail);
      assert x + tail == tail && x + parts[0] == parts[0];
      assert parts == [parts[0]] + parts[1..];
    }
  }

  /** A non-empty list of separator-free hostnames survives the round trip. */
  lemma {:induction false} DecodeEncode(data: seq<string>)
    requires |data| > 0
    requires forall i :: 0 <= i < |data| ==> Splitter !in data[i]
    ensures Decode(Encode(data)) == data
    decreases |data|
  {
    if |data| == 1 {
      DecodeAfterPiece(data[0], []);
      assert data[0] + [] == data[0];
    } else {
      var tail := [Splitter] + Encode(data[1..]);
      assert Encode(data) == data[0] + tail;
      DecodeAfterPiece(data[0], tail);
      assert tail == [tail[0]] + tail[1..] && tail[1..] == Encode(data[1..]);
      DecodeEncode(data[1..]);
      assert Decode(tail) == [[]] + data[1..];
      assert data[0] + [] == data[0];
    }
  }

  /** The empty list does not survive: it comes back as one empty hostname. */
  lemma EncodeEmptyDecodesToEmptyHost()
    ensures Encode([]) == Encode([""])
    ensures Decode(Encode([])) == [""]
  {
  }

  /** Joining a first piece that is itself prefixed by `a`. */
  lemma EncodeFirstPrefixed(a: string, x: string, ys: seq<string>)
    ensures Encode([a + x] + ys) == a + Encode([x] + ys)
  {
    if ys != [] {
      assert ([a + x] + ys)[1..] == ys && ([x] + ys)[1..] == ys;
    }
  }

  /** Every stored value reads back to itself: `Encode` undoes `Decode` on all inputs. */
  lemma {:induction false} EncodeDecode(b: string)
    ensures Encode(Decode(b)) == b
    decreases |b|
  {
    if b != [] {
      var rest := Decode(b[1..]);
      EncodeDecode(b[1..]);
      if b[0] == Splitter {
        assert ([[]] + rest)[1..] == rest;
        assert Encode([[]] + rest) == [] + [Splitter] + Encode(rest);
      } else {
        assert rest == [rest[0]] + rest[1..];
        EncodeFirstPrefixed([b[0]], rest[0], rest[1..]);
      }
      assert b == [b[0]] + b[1..];
    }
  }
}
