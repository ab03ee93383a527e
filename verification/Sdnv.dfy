/**
 * Self-delimiting numeric values, section 4.1 of RFC 5050: seven bits per byte, most significant first, and
 * the high bit set in all bytes but the last. Values have 64 bits. Byte strings are prefixed by their length.
 */
module Sdnv {
  import opened ByteStrings
  import opened Modular

  const MAX_LENGTH: nat := 10
  const LIMIT: nat := 0x1_0000_0000_0000_0000

  /** What was read, and what is left of the input; reading fails on invalid or truncated input. */
  datatype Parsed<+T> = Parsed(value: T, rest: Bytes)

  // ---------------------------------------------------------------- writing

  /** The bytes before the last one. */
  function Leading(n: nat): Bytes {
    if n == 0 then [] else Leading(n / 128) + [(128 + n % 128) as Byte]
  }

  function Encode(n: nat): Bytes {
    Leading(n / 128) + [(n % 128) as Byte]
  }

  /** The two loops of the encoder: the length is determined first, then the buffer is filled backwards. */
  method EncodeValue(val: nat) returns (data: array<Byte>)
    ensures fresh(data) && data[..] == Encode(val)
  {
    var len := LengthOf(val);
    data := new Byte[len];
    var v, bp, highBit := val, len, 0;
    while bp > 0
      invariant 0 <= bp <= len && highBit == (if bp == len then 0 else 128)
      invariant bp == len ==> v == val
      invariant bp < len ==> |Leading(v)| == bp && Leading(v) + data[bp..] == Encode(val)
      decreases bp
    {
      bp := bp - 1;
      ghost var tail := data[bp + 1..];
      data[bp] := (highBit + v % 128) as Byte;
      assert data[bp..] == [data[bp]] + tail;
      if highBit == 0 {
        assert tail == [];
      } else {
        assert Leading(v) == Leading(v / 128) + [data[bp]];
      }
      highBit := 128;
      v := v / 128;
    }
    assert data[0..] == data[..];
  }

  method LengthOf(val: nat) returns (len: nat)
    ensures len == |Encode(val)|
  {
    len := 1;
    var tmp: nat := val / 128;
    while tmp != 0
      invariant len + |Leading(tmp)| == |Encode(val)|
      decreases tmp
    {
      tmp := tmp / 128;
      len := len + 1;
    }
  }

  // ---------------------------------------------------------------- reading

  predicate Last(b: Byte) {
    b < 128
  }

  /** The number of bytes up to the first one without the high bit. */
  function Extent(s: Bytes): Option<nat> {
    if s == [] then None
    else if Last(s[0]) then Some(1)
    else var k := Extent(s[1..]); if k.Some? then Some(1 + k.value) else None
  }

  /** Seven bits of each byte are shifted into a 64-bit value. */
  function ValueOf(s: Bytes): nat {
    if s == [] then 0
    else var k := |s| - 1; (ValueOf(s[..k]) * 128 + s[k] as int % 128) % LIMIT
  }

  lemma {:induction false} ExtentFits(s: Bytes)
    ensures Extent(s).Some? ==> 1 <= Extent(s).value <= |s|
  {
    if s != [] && !Last(s[0]) { ExtentFits(s[1..]); }
  }

  /** The only ten-byte values allowed have a single bit in the first byte; longer ones are an overflow. */
  function Decode(s: Bytes): Option<Parsed<nat>> {
    var k := Extent(s);
    if k.None? then None
    else
      ExtentFits(s);
      if k.value > MAX_LENGTH || (k.value == MAX_LENGTH && s[0] != 0x81) then None
      else Some(Parsed(ValueOf(s[..k.value]), s[k.value..]))
  }

  method DecodeValue(s: Bytes) returns (r: Option<Parsed<nat>>)
    ensures r == Decode(s)
  {
    var val, len := 0, 0;
    ExtentFits(s);
    while true
      invariant 0 <= len <= |s| && val == ValueOf(s[..len])
      invariant Extent(s) == if Extent(s[len..]).Some? then Some(len + Extent(s[len..]).value) else None
      decreases |s| - len
    {
      if len == |s| { return None; }
      assert s[..len + 1][..len] == s[..len];
      val := (val * 128 + s[len] as int % 128) % LIMIT;
      len := len + 1;
      assert s[len - 1..][1..] == s[len..];
      if Last(s[len - 1]) { break; }
    }
    if len > MAX_LENGTH || (len == MAX_LENGTH && s[0] != 0x81) { return None; }
    return Some(Parsed(val, s[len..]));
  }

  // ---------------------------------------------------------------- round trip

  function Pow128(k: nat): (r: nat)
    ensures r >= 1
  {
    if k == 0 then 1 else 128 * Pow128(k - 1)
  }

  lemma DivideTwice(m: nat, p: nat)
    requires p > 0
    ensures (m / 128) / p == m / (128 * p)
  {
    var q, r := m / (128 * p), m % (128 * p);
    assert m == 128 * (p * q) + r && 0 <= r < 128 * p;
    assert m / 128 == p * q + r / 128 && 0 <= r / 128 < p;
    QuotientIsUnique(m / 128, p, q, r / 128);
  }

  lemma QuotientIsUnique(x: nat, p: nat, q: nat, r: nat)
    requires p > 0 && x == p * q + r && r < p
    ensures x / p == q
  {
    var d := x / p - q;
    assert x == p * (x / p) + x % p;
    assert p * d == r - x % p;
    MultipleIsFar(p, d);
  }

  lemma {:induction false} LeadingIsShort(m: nat, k: nat)
    requires m < Pow128(k)
    ensures |Leading(m)| <= k
  {
    if m > 0 { LeadingIsShort(m / 128, k - 1); }
  }

  /** The first byte holds the topmost seven bits. */
  lemma {:induction false} LeadingTop(m: nat, k: nat)
    requires Pow128(k) <= m < Pow128(k + 1)
    ensures |Leading(m)| == k + 1
    ensures Leading(m)[0] as int == 128 + m / Pow128(k)
  {
    if k == 0 {
      assert Leading(m / 128) == [];
    } else {
      LeadingTop(m / 128, k - 1);
      DivideTwice(m, Pow128(k - 1));
    }
  }

  /** The k-th group of seven bits, counted from the lowest. */
  function Group(n: nat, k: nat): nat {
    n / Pow128(k) % 128
  }

  lemma NextGroup(n: nat, k: nat)
    ensures Group(n / 128, k) == Group(n, k + 1)
  {
    DivideTwice(n, Pow128(k));
  }

  lemma {:induction false} LeadingAt(m: nat, i: nat)
    requires i < |Leading(m)|
    ensures Leading(m)[i] as int == 128 + Group(m, |Leading(m)| - 1 - i)
  {
    var k := |Leading(m)| - 1;
    if i < k {
      LeadingAt(m / 128, i);
      NextGroup(m, k - 1 - i);
      assert Leading(m)[i] == Leading(m / 128)[i];
    } else {
      assert Pow128(0) == 1;
    }
  }

  /** The i-th byte holds the i-th group of seven bits from the top, and all but the last have the high bit. */
  lemma EncodingAt(n: nat, i: nat)
    requires i < |Encode(n)|
    ensures Encode(n)[i] as int == (if i == |Encode(n)| - 1 then 0 else 128) + n / Pow128(|Encode(n)| - 1 - i) % 128
  {
    var k := |Encode(n)| - 1;
    if i < k {
      LeadingAt(n / 128, i);
      NextGroup(n, k - 1 - i);
      assert Encode(n)[i] == Leading(n / 128)[i];
      assert Group(n, k - i) == n / Pow128(k - i) % 128;
    } else {
      assert Pow128(0) == 1;
    }
  }

  lemma {:induction false} LeadingIsMinimal(m: nat)
    requires m > 0
    ensures Pow128(|Leading(m)| - 1) <= m < Pow128(|Leading(m)|)
  {
    if m / 128 > 0 { LeadingIsMinimal(m / 128); }
  }

  /** No byte is wasted. */
  lemma EncodingIsMinimal(n: nat)
    ensures n < Pow128(|Encode(n)|)
    ensures |Encode(n)| > 1 ==> Pow128(|Encode(n)| - 1) <= n
  {
    if n / 128 > 0 { LeadingIsMinimal(n / 128); }
  }

  lemma EncodingFits(n: nat)
    requires n < LIMIT
    ensures 1 <= |Encode(n)| <= MAX_LENGTH
    ensures |Encode(n)| == MAX_LENGTH ==> Encode(n)[0] == 0x81
  {
    var m, p := n / 128, Pow128(8);
    assert p == 0x100_0000_0000_0000 by {
      assert Pow128(2) == 0x4000;
      assert Pow128(4) == 0x1000_0000;
      assert Pow128(6) == 0x400_0000_0000;
    }
    assert m < 2 * p;
    if m < p {
      LeadingIsShort(m, 8);
    } else {
      LeadingTop(m, 8);
      QuotientIsUnique(m, p, 1, m - p);
    }
  }

  lemma {:induction false} ExtentOfLeading(a: Bytes, b: Bytes)
    requires forall i :: 0 <= i < |a| ==> !Last(a[i])
    requires b != [] && Last(b[0])
    ensures Extent(a + b) == Some(|a| + 1)
  {
    if a == [] {
      assert a + b == b;
    } else {
      ExtentOfLeading(a[1..], b);
      assert (a + b)[1..] == a[1..] + b;
    }
  }

  /** Shifting in the last seven bits, with or without the high bit. */
  lemma ShiftedIn(s: Bytes, n: nat, highBit: nat)
    requires n < LIMIT && ValueOf(s) == n / 128 && (highBit == 0 || highBit == 128)
    ensures ValueOf(s + [(highBit + n % 128) as Byte]) == n
  {
    var b := (highBit + n % 128) as Byte;
    var t := s + [b];
    assert t[..|s|] == s && t[|s|] == b;
    assert b as int % 128 == n % 128;
    assert n / 128 * 128 + n % 128 == n;
  }

  lemma {:induction false} ValueOfLeading(n: nat)
    requires n < LIMIT
    ensures ValueOf(Leading(n)) == n
    ensures forall i :: 0 <= i < |Leading(n)| ==> !Last(Leading(n)[i])
  {
    if n > 0 {
      ValueOfLeading(n / 128);
      ShiftedIn(Leading(n / 128), n, 128);
    }
  }

  lemma ExtentOfEncoding(n: nat, rest: Bytes)
    requires n < LIMIT
    ensures Extent(Encode(n) + rest) == Some(|Encode(n)|)
  {
    var leading, last := Leading(n / 128), [(n % 128) as Byte];
    ValueOfLeading(n / 128);
    ExtentOfLeading(leading, last + rest);
    assert Encode(n) + rest == leading + (last + rest);
  }

  lemma ValueOfEncoding(n: nat)
    requires n < LIMIT
    ensures ValueOf(Encode(n)) == n
  {
    ValueOfLeading(n / 128);
    var leading := Leading(n / 128);
    ShiftedIn(leading, n, 0);
    assert Encode(n) == leading + [(0 + n % 128) as Byte];
  }

  /** Every 64-bit value is read back, whatever follows it. */
  lemma SdnvRoundTrip(n: nat, rest: Bytes)
    requires n < LIMIT
    ensures Decode(Encode(n) + rest) == Some(Parsed(n, rest))
  {
    var e, s := Encode(n), Encode(n) + rest;
    EncodingFits(n);
    ExtentOfEncoding(n, rest);
    ValueOfEncoding(n);
    assert s[..|e|] == e && s[|e|..] == rest && s[0] == e[0];
  }

  /** A value of k bytes: the high bit is set in all but the last, and ten bytes begin with a single bit. */
  predicate StartsWithValue(s: Bytes, k: nat) {
    && 1 <= k <= 10 && k <= |s| && s[k - 1] < 128
    && (forall i :: 0 <= i < k - 1 ==> s[i] >= 128)
    && (k == 10 ==> s[0] == 0x81)
  }

  lemma {:induction false} ExtentMeans(s: Bytes, k: nat)
    ensures Extent(s) == Some(k) <==> 1 <= k <= |s| && s[k - 1] < 128 && forall i :: 0 <= i < k - 1 ==> s[i] >= 128
  {
    if s != [] && !Last(s[0]) {
      if k > 0 {
        ExtentMeans(s[1..], k - 1);
        assert forall i :: 0 < i < k && i < |s| ==> s[i] == s[1..][i - 1];
      }
      assert 1 < k <= |s| ==> s[0] >= 128;
    }
  }

  /** Exactly the inputs that start with such a value are accepted, and its bytes are taken. */
  lemma DecodesIff(s: Bytes)
    ensures Decode(s).Some? <==> exists k: nat :: StartsWithValue(s, k)
    ensures forall k: nat :: StartsWithValue(s, k) ==> Decode(s) == Some(Parsed(ValueOf(s[..k]), s[k..]))
  {
    forall k: nat | StartsWithValue(s, k)
      ensures Extent(s) == Some(k)
    {
      ExtentMeans(s, k);
    }
    if Decode(s).Some? {
      ExtentMeans(s, Extent(s).value);
      assert StartsWithValue(s, Extent(s).value);
    }
  }

  // ---------------------------------------------------------------- byte strings

  function EncodeString(s: Bytes): (r: Bytes)
    ensures |r| >= 1
  {
    Encode(|s|) + s
  }

  function DecodeString(s: Bytes): Option<Parsed<Bytes>> {
    var len := Decode(s);
    if len.None? || len.value.value > |len.value.rest| then None
    else Some(Parsed(len.value.rest[..len.value.value], len.value.rest[len.value.value..]))
  }

  lemma StringRoundTrip(s: Bytes, rest: Bytes)
    requires |s| < LIMIT
    ensures DecodeString(EncodeString(s) + rest) == Some(Parsed(s, rest))
  {
    SdnvRoundTrip(|s|, s + rest);
    assert EncodeString(s) + rest == Encode(|s|) + (s + rest);
    assert (s + rest)[..|s|] == s && (s + rest)[|s|..] == rest;
  }
}
