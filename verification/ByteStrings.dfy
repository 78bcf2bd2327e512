/** Bytes, strings of them, and strings put together from parts. */
module ByteStrings {
  type Byte = x: nat | x < 256
  type Bytes = seq<Byte>

  function Flatten(parts: seq<Bytes>): Bytes {
    if parts == [] then [] else parts[0] + Flatten(parts[1..])
  }

  lemma {:induction false} FlattenConcat(a: seq<Bytes>, b: seq<Bytes>)
    ensures Flatten(a + b) == Flatten(a) + Flatten(b)
    decreases |a|
  {
    if a == [] {
      assert a + b == b;
    } else {
      FlattenConcat(a[1..], b);
      assert (a + b)[1..] == a[1..] + b;
      assert a[0] + (Flatten(a[1..]) + Flatten(b)) == a[0] + Flatten(a[1..]) + Flatten(b);
    }
  }

  lemma FlattenSnoc(parts: seq<Bytes>, part: Bytes)
    ensures Flatten(parts + [part]) == Flatten(parts) + part
  {
    FlattenConcat(parts, [part]);
    assert Flatten([part]) == part;
  }

  lemma FlattenTaken(parts: seq<Bytes>, n: nat)
    requires n < |parts|
    ensures Flatten(parts[..n + 1]) == Flatten(parts[..n]) + parts[n]
    ensures |Flatten(parts[..n + 1])| <= |Flatten(parts)|
  {
    assert parts[..n + 1] == parts[..n] + [parts[n]];
    FlattenSnoc(parts[..n], parts[n]);
    assert parts == parts[..n + 1] + parts[n + 1..];
    FlattenConcat(parts[..n + 1], parts[n + 1..]);
  }
}
