/** Byte strings and texts, the concatenation of a list of byte strings, and optional values. */
module ByteStrings {

  newtype Byte = b: int | 0 <= b < 0x100

  type Bytes = seq<Byte>

  /** A character of a string: a signed byte. */
  newtype Char = c: int | -128 <= c < 128

  type Chars = seq<Char>

  datatype Option<+T> = None | Some(value: T)

  /** The concatenation of all the parts, in order. */
  function Flatten(parts: seq<Bytes>): Bytes {
    if parts == [] then [] else parts[0] + Flatten(parts[1..])
  }

  lemma Associate<T>(a: seq<T>, b: seq<T>, c: seq<T>)
    ensures a + (b + c) == (a + b) + c
  {}

  lemma {:induction false} FlattenConcat(a: seq<Bytes>, b: seq<Bytes>)
    ensures Flatten(a + b) == Flatten(a) + Flatten(b)
  {
    if a == [] {
      assert a + b == b;
    } else {
      var rest := a[1..];
      assert (a + b)[0] == a[0] && (a + b)[1..] == rest + b;
      FlattenConcat(rest, b);
      Associate(a[0], Flatten(rest), Flatten(b));
    }
  }

  lemma FlattenSnoc(a: seq<Bytes>, x: Bytes)
    ensures Flatten(a + [x]) == Flatten(a) + x
  {
    FlattenConcat(a, [x]);
  }

  /** Flattening a prefix of the list gives a prefix of the flattened list. */
  lemma FlattenTake(parts: seq<Bytes>, k: nat)
    requires k <= |parts|
    ensures Flatten(parts[..k]) <= Flatten(parts)
    ensures k < |parts| ==> Flatten(parts[..k + 1]) == Flatten(parts[..k]) + parts[k]
  {
    assert parts == parts[..k] + parts[k..];
    FlattenConcat(parts[..k], parts[k..]);
    if k < |parts| {
      assert parts[..k + 1] == parts[..k] + [parts[k]];
      FlattenSnoc(parts[..k], parts[k]);
    }
  }
}
