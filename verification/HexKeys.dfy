/**
 * The names of the files in which bundles are kept: the characters of the bundle key in hexadecimal. A
 * character is a signed byte, and a negative one is printed as the eight digits of a 32-bit integer.
 */
module HexKeys {
  import opened ByteStrings

  type Hash = string

  function Digit(d: int): (c: char)
    requires 0 <= d < 16
    ensures c == "0123456789abcdef"[d]
  {
    if d < 10 then '0' + d as char else 'a' + (d - 10) as char
  }

  /** At least two digits, zero-filled; `ffffff80` to `ffffffff` for negative characters. */
  function HexOf(c: Char): string {
    if c >= 0 then [Digit(c as int / 16), Digit(c as int % 16)]
    else "ffffff" + [Digit((c as int + 256) / 16), Digit((c as int + 256) % 16)]
  }

  function HashOf(key: Chars): Hash {
    if key == [] then [] else HexOf(key[0]) + HashOf(key[1..])
  }

  /** The loop over the characters. */
  method ComputeHash(key: Chars) returns (h: Hash)
    ensures h == HashOf(key)
  {
    h := [];
    for i := 0 to |key|
      invariant h + HashOf(key[i..]) == HashOf(key)
    {
      HashFrom(h, key, i);
      h := h + HexOf(key[i]);
    }
  }

  lemma HashFrom(h: Hash, key: Chars, i: nat)
    requires i < |key|
    ensures h + HashOf(key[i..]) == (h + HexOf(key[i])) + HashOf(key[i + 1..])
  {
    assert key[i..][1..] == key[i + 1..];
    assert HashOf(key[i..]) == HexOf(key[i]) + HashOf(key[i + 1..]);
    Associate(h, HexOf(key[i]), HashOf(key[i + 1..]));
  }

  lemma DigitIsInjective(a: int, b: int)
    requires 0 <= a < 16 && 0 <= b < 16 && Digit(a) == Digit(b)
    ensures a == b
  {}

  /** The first digit of a character tells how many follow. */
  lemma FirstDigit(c: Char)
    ensures HexOf(c)[0] == 'f' <==> c < 0
    ensures |HexOf(c)| == if c < 0 then 8 else 2
  {
    if c >= 0 {
      assert c as int / 16 < 8;
    }
  }

  lemma HexIsInjective(a: Char, b: Char)
    requires HexOf(a) == HexOf(b)
    ensures a == b
  {
    FirstDigit(a);
    FirstDigit(b);
    var n := |HexOf(a)|;
    var x := if a < 0 then a as int + 256 else a as int;
    var y := if b < 0 then b as int + 256 else b as int;
    assert HexOf(a)[n - 2] == Digit(x / 16) && HexOf(a)[n - 1] == Digit(x % 16);
    assert HexOf(b)[n - 2] == Digit(y / 16) && HexOf(b)[n - 1] == Digit(y % 16);
    DigitIsInjective(x / 16, y / 16);
    DigitIsInjective(x % 16, y % 16);
  }

  /** Distinct keys never share a file. */
  lemma {:induction false} HashIsInjective(a: Chars, b: Chars)
    requires HashOf(a) == HashOf(b)
    ensures a == b
  {
    if a == [] || b == [] {
      if a != [] { FirstDigit(a[0]); }
      if b != [] { FirstDigit(b[0]); }
    } else {
      var p, q := HexOf(a[0]), HexOf(b[0]);
      FirstDigit(a[0]);
      FirstDigit(b[0]);
      assert HashOf(a)[0] == p[0] && HashOf(b)[0] == q[0];
      assert |p| == |q|;
      assert p == HashOf(a)[..|p|] && q == HashOf(b)[..|q|];
      HexIsInjective(a[0], b[0]);
      assert HashOf(a)[|p|..] == HashOf(a[1..]) && HashOf(b)[|q|..] == HashOf(b[1..]);
      HashIsInjective(a[1..], b[1..]);
    }
  }
}
