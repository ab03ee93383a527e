/** The names of bundles, from which the names of their files are made: `[timestamp.sequence.offset] source`. */
module BundleNames {
  import opened BundleOrder
  import opened ByteStrings
  import opened HexKeys

  const OPEN: Char := 91
  const DOT: Char := 46
  const CLOSE: Char := 93
  const SPACE: Char := 32

  predicate IsDigit(c: Char) {
    48 <= c <= 57
  }

  function DigitChar(d: int): Char
    requires 0 <= d < 10
  {
    (48 + d) as Char
  }

  function Decimal(n: nat): Chars {
    if n < 10 then [DigitChar(n)] else Decimal(n / 10) + [DigitChar(n % 10)]
  }

  /** What follows the sequence number; only a fragment has its offset in its name. */
  function NameTail(id: BundleId): Chars {
    if id.fragment then [DOT] + (Decimal(id.offset) + ([CLOSE, SPACE] + id.source)) else [CLOSE, SPACE] + id.source
  }

  function NameOf(id: BundleId): Chars {
    [OPEN] + (Decimal(id.timestamp) + ([DOT] + (Decimal(id.sequence) + NameTail(id))))
  }

  function FileName(id: BundleId): Hash {
    HashOf(NameOf(id))
  }

  lemma {:induction false} DecimalHasDigits(n: nat)
    ensures Decimal(n) != [] && forall i :: 0 <= i < |Decimal(n)| ==> IsDigit(Decimal(n)[i])
  {
    if n >= 10 { DecimalHasDigits(n / 10); }
  }

  lemma {:induction false} DecimalIsInjective(a: nat, b: nat)
    requires Decimal(a) == Decimal(b)
    ensures a == b
  {
    var s, k := Decimal(a), |Decimal(a)| - 1;
    if a >= 10 { DecimalHasDigits(a / 10); }
    if b >= 10 { DecimalHasDigits(b / 10); }
    assert s[k] == DigitChar(a % 10) == DigitChar(b % 10);
    if a >= 10 && b >= 10 {
      assert s[..k] == Decimal(a / 10) == Decimal(b / 10);
      DecimalIsInjective(a / 10, b / 10);
    }
  }

  /** Digits end where something else begins. */
  lemma {:induction false} DigitsSplit(x: Chars, u: Chars, y: Chars, v: Chars)
    requires x + u == y + v && u != [] && v != [] && !IsDigit(u[0]) && !IsDigit(v[0])
    requires (forall i :: 0 <= i < |x| ==> IsDigit(x[i])) && (forall i :: 0 <= i < |y| ==> IsDigit(y[i]))
    ensures x == y && u == v
  {
    if x == [] || y == [] {
      assert x + u == (if x == [] then u else x + u) && y + v == (if y == [] then v else y + v);
      assert (x + u)[0] == (y + v)[0];
    } else {
      assert (x + u)[0] == x[0] && (y + v)[0] == y[0];
      assert (x + u)[1..] == x[1..] + u && (y + v)[1..] == y[1..] + v;
      DigitsSplit(x[1..], u, y[1..], v);
    }
  }

  lemma NumberThen(a: nat, u: Chars, b: nat, v: Chars)
    requires Decimal(a) + u == Decimal(b) + v && u != [] && v != [] && !IsDigit(u[0]) && !IsDigit(v[0])
    ensures a == b && u == v
  {
    DecimalHasDigits(a);
    DecimalHasDigits(b);
    DigitsSplit(Decimal(a), u, Decimal(b), v);
    DecimalIsInjective(a, b);
  }

  lemma Cut(x: Char, u: Chars, y: Char, v: Chars)
    requires [x] + u == [y] + v
    ensures x == y && u == v
  {
    assert ([x] + u)[0] == x && ([y] + v)[0] == y;
    assert ([x] + u)[1..] == u && ([y] + v)[1..] == v;
  }

  lemma TailIsInjective(a: BundleId, b: BundleId)
    requires Canonical(a) && Canonical(b) && NameTail(a) == NameTail(b)
    ensures a.fragment == b.fragment && a.offset == b.offset && a.source == b.source
  {
    var u, v := [CLOSE, SPACE] + a.source, [CLOSE, SPACE] + b.source;
    assert NameTail(a)[0] == (if a.fragment then DOT else CLOSE);
    assert NameTail(b)[0] == (if b.fragment then DOT else CLOSE);
    if a.fragment {
      Cut(DOT, Decimal(a.offset) + u, DOT, Decimal(b.offset) + v);
      NumberThen(a.offset, u, b.offset, v);
    }
    assert a.source == u[2..] && b.source == v[2..];
  }

  lemma NameIsInjective(a: BundleId, b: BundleId)
    requires Canonical(a) && Canonical(b) && NameOf(a) == NameOf(b)
    ensures a == b
  {
    var a3, b3 := Decimal(a.sequence) + NameTail(a), Decimal(b.sequence) + NameTail(b);
    Cut(OPEN, Decimal(a.timestamp) + ([DOT] + a3), OPEN, Decimal(b.timestamp) + ([DOT] + b3));
    NumberThen(a.timestamp, [DOT] + a3, b.timestamp, [DOT] + b3);
    Cut(DOT, a3, DOT, b3);
    NumberThen(a.sequence, NameTail(a), b.sequence, NameTail(b));
    TailIsInjective(a, b);
  }

  /** Distinct bundles never share a file. */
  lemma FileNameIsInjective(a: BundleId, b: BundleId)
    requires Canonical(a) && Canonical(b) && FileName(a) == FileName(b)
    ensures a == b
  {
    HashIsInjective(NameOf(a), NameOf(b));
    NameIsInjective(a, b);
  }
}
