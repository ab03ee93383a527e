/**
 * Lists of coded items in a byte stream: written one after the other, and read back either by their number
 * or as long as bytes of an announced total length remain.
 */
module CodedLists {
  import opened ByteStrings
  import opened Modular
  import opened Sdnv

  type Printer<!T> = T -> Bytes
  type Parser<T> = Bytes -> Option<Parsed<T>>

  /** The item is read back, whatever follows it. */
  ghost predicate ReadsBack<T(!new)>(write: Printer<T>, read: Parser<T>, x: T) {
    write(x) != [] && forall rest :: read(write(x) + rest) == Some(Parsed(x, rest))
  }

  function PrintAll<T>(write: Printer<T>, xs: seq<T>): Bytes {
    if xs == [] then [] else write(xs[0]) + PrintAll(write, xs[1..])
  }

  function TotalLength<T>(length: T -> nat, xs: seq<T>): nat {
    if xs == [] then 0 else length(xs[0]) + TotalLength(length, xs[1..])
  }

  function Prepend<T>(xs: seq<T>, r: Option<Parsed<seq<T>>>): Option<Parsed<seq<T>>> {
    if r.None? then None else Some(Parsed(xs + r.value.value, r.value.rest))
  }

  /** A given number of items. */
  function ParseCount<T>(read: Parser<T>, count: nat, s: Bytes): Option<Parsed<seq<T>>> {
    if count == 0 then Some(Parsed([], s))
    else
      var first := read(s);
      if first.None? then None else Prepend([first.value.value], ParseCount(read, count - 1, first.value.rest))
  }

  /** Conversion to a signed 32-bit integer. */
  function ToInt32(n: int): int {
    var r := n % 0x1_0000_0000;
    if r < 0x8000_0000 then r else r - 0x1_0000_0000
  }

  /** Items as long as bytes remain, counted in 32 bits; reading an item takes at least a byte. */
  function ParseWhile<T>(read: Parser<T>, length: T -> nat, remain: int, s: Bytes): Option<Parsed<seq<T>>>
    decreases |s|
  {
    if remain <= 0 then Some(Parsed([], s))
    else
      var first := read(s);
      if first.None? || |first.value.rest| >= |s| then None
      else
        Prepend([first.value.value],
                ParseWhile(read, length, ToInt32(remain - length(first.value.value)), first.value.rest))
  }

  // ---------------------------------------------------------------- the loops

  method WriteAll<T>(write: Printer<T>, xs: seq<T>) returns (s: Bytes)
    ensures s == PrintAll(write, xs)
  {
    s := [];
    for i := 0 to |xs|
      invariant s + PrintAll(write, xs[i..]) == PrintAll(write, xs)
    {
      assert xs[i..][1..] == xs[i + 1..];
      s := s + write(xs[i]);
    }
  }

  method AddLengths<T>(length: T -> nat, xs: seq<T>) returns (n: nat)
    ensures n == TotalLength(length, xs)
  {
    n := 0;
    for i := 0 to |xs|
      invariant n + TotalLength(length, xs[i..]) == TotalLength(length, xs)
    {
      assert xs[i..][1..] == xs[i + 1..];
      n := n + length(xs[i]);
    }
  }

  lemma PrependTwice<T>(xs: seq<T>, x: T, r: Option<Parsed<seq<T>>>)
    ensures Prepend(xs, Prepend([x], r)) == Prepend(xs + [x], r)
  {
    if r.Some? { assert xs + ([x] + r.value.value) == xs + [x] + r.value.value; }
  }

  method ReadCount<T>(read: Parser<T>, count: nat, s: Bytes) returns (r: Option<Parsed<seq<T>>>)
    ensures r == ParseCount(read, count, s)
  {
    var xs: seq<T>, rest := [], s;
    ghost var whole := ParseCount(read, count, s);
    assert Prepend([], whole) == whole by { if whole.Some? { assert [] + whole.value.value == whole.value.value; } }
    for i := 0 to count
      invariant whole == Prepend(xs, ParseCount(read, count - i, rest))
    {
      var first := read(rest);
      if first.None? { return None; }
      PrependTwice(xs, first.value.value, ParseCount(read, count - i - 1, first.value.rest));
      xs := xs + [first.value.value];
      rest := first.value.rest;
    }
    assert xs + [] == xs;
    return Some(Parsed(xs, rest));
  }

  /** The values that a 32-bit counter has. */
  const COUNTER: nat := 0x1_0000_0000

  /** Whatever is read takes at least a byte. */
  ghost predicate Consumes<T(!new)>(read: Parser<T>) {
    forall s :: read(s).Some? ==> |read(s).value.rest| < |s|
  }

  /** A loop that counts with 32 bits: it never reaches a greater number, and goes on until the input ends. */
  method ReadCount32<T(!new)>(read: Parser<T>, count: nat, s: Bytes) returns (r: Option<Parsed<seq<T>>>)
    requires Consumes(read)
    ensures r == if count < COUNTER then ParseCount(read, count, s) else None
  {
    var xs: seq<T>, rest, i := [], s, 0;
    ghost var whole := if count < COUNTER then ParseCount(read, count, s) else None;
    assert Prepend([], whole) == whole by { if whole.Some? { assert [] + whole.value.value == whole.value.value; } }
    while i < count
      invariant 0 <= i < COUNTER
      invariant count < COUNTER ==> i <= count && whole == Prepend(xs, ParseCount(read, count - i, rest))
      decreases |rest|
    {
      var first := read(rest);
      if first.None? { return None; }
      if count < COUNTER {
        PrependTwice(xs, first.value.value, ParseCount(read, count - i - 1, first.value.rest));
      }
      xs := xs + [first.value.value];
      i := (i + 1) % COUNTER;
      rest := first.value.rest;
    }
    assert xs + [] == xs;
    return Some(Parsed(xs, rest));
  }

  method ReadWhile<T>(read: Parser<T>, length: T -> nat, total: int, s: Bytes) returns (r: Option<Parsed<seq<T>>>)
    ensures r == ParseWhile(read, length, total, s)
  {
    var xs: seq<T>, rest, remain := [], s, total;
    ghost var whole := ParseWhile(read, length, total, s);
    assert Prepend([], whole) == whole by { if whole.Some? { assert [] + whole.value.value == whole.value.value; } }
    while remain > 0
      invariant whole == Prepend(xs, ParseWhile(read, length, remain, rest))
      decreases |rest|
    {
      var first := read(rest);
      if first.None? || |first.value.rest| >= |rest| { return None; }
      var x := first.value.value;
      PrependTwice(xs, x, ParseWhile(read, length, ToInt32(remain - length(x)), first.value.rest));
      xs := xs + [x];
      remain := ToInt32(remain - length(x));
      rest := first.value.rest;
    }
    assert xs + [] == xs;
    return Some(Parsed(xs, rest));
  }

  // ---------------------------------------------------------------- reading back

  /** Parts of a message written together, and what follows it. */
  lemma Regrouped(a: Bytes, b: Bytes, c: Bytes, d: Bytes, rest: Bytes)
    ensures (a + (b + (c + d))) + rest == a + (b + (c + (d + rest)))
  {
    Regrouped3(b, c, d, rest);
    assert (a + (b + (c + d))) + rest == a + ((b + (c + d)) + rest);
  }

  lemma Regrouped3(a: Bytes, b: Bytes, c: Bytes, rest: Bytes)
    ensures (a + (b + c)) + rest == a + (b + (c + rest))
  {
    assert (b + c) + rest == b + (c + rest);
    assert (a + (b + c)) + rest == a + ((b + c) + rest);
  }


  lemma FirstReadsBack<T(!new)>(write: Printer<T>, read: Parser<T>, xs: seq<T>, rest: Bytes)
    requires xs != [] && ReadsBack(write, read, xs[0])
    ensures read(PrintAll(write, xs) + rest) == Some(Parsed(xs[0], PrintAll(write, xs[1..]) + rest))
    ensures |PrintAll(write, xs[1..]) + rest| < |PrintAll(write, xs) + rest|
  {
    var rest' := PrintAll(write, xs[1..]) + rest;
    assert PrintAll(write, xs) + rest == write(xs[0]) + rest';
  }

  lemma {:induction false} CountedReadBack<T(!new)>(write: Printer<T>, read: Parser<T>, xs: seq<T>, rest: Bytes)
    requires forall i :: 0 <= i < |xs| ==> ReadsBack(write, read, xs[i])
    ensures ParseCount(read, |xs|, PrintAll(write, xs) + rest) == Some(Parsed(xs, rest))
  {
    if xs == [] {
      assert PrintAll(write, xs) + rest == rest;
    } else {
      FirstReadsBack(write, read, xs, rest);
      CountedReadBack(write, read, xs[1..], rest);
      assert xs == [xs[0]] + xs[1..];
    }
  }

  lemma ToInt32Difference(a: int, b: int)
    ensures ToInt32(ToInt32(a) - b) == ToInt32(a - b)
  {
    var m := 0x1_0000_0000;
    var d := a / m;
    var q, r := (a - b) / m, (a - b) % m;
    var x := ToInt32(a) - b;
    var e := if a % m < 0x8000_0000 then d else d + 1;
    assert ToInt32(a) == a - m * e;
    assert x == m * (q - e) + r;
    RemainderIsUnique(x, m, q - e, r);
  }

  /** The remaining length stays positive, in 32 bits, until the last item is read. */
  predicate LengthsFit<T>(length: T -> nat, xs: seq<T>) {
    xs != [] ==> ToInt32(TotalLength(length, xs)) > 0 && LengthsFit(length, xs[1..])
  }

  lemma PrependedIs<T>(x: T, r: Option<Parsed<seq<T>>>, xs: seq<T>, rest: Bytes)
    ensures Prepend([x], r) == Some(Parsed([x] + xs, rest)) <==> r == Some(Parsed(xs, rest))
  {
    if r.Some? && [x] + r.value.value == [x] + xs {
      assert r.value.value == ([x] + r.value.value)[1..] && xs == ([x] + xs)[1..];
    }
  }

  /**
   * The loop ends exactly when the announced length is used up, with all items read, if and only if no
   * remaining length on the way wraps round to something that is not positive.
   */
  lemma {:induction false} LoopReadsAllIff<T(!new)>(
    write: Printer<T>, read: Parser<T>, length: T -> nat, xs: seq<T>, rest: Bytes)
    requires forall i :: 0 <= i < |xs| ==> ReadsBack(write, read, xs[i])
    ensures LengthsFit(length, xs)
            <==> var s := PrintAll(write, xs) + rest;
                 ParseWhile(read, length, ToInt32(TotalLength(length, xs)), s) == Some(Parsed(xs, rest))
  {
    if xs == [] {
      assert PrintAll(write, xs) + rest == rest;
    } else {
      var total := TotalLength(length, xs);
      FirstReadsBack(write, read, xs, rest);
      ToInt32Difference(total, length(xs[0]));
      LoopReadsAllIff(write, read, length, xs[1..], rest);
      assert xs == [xs[0]] + xs[1..];
      var s' := PrintAll(write, xs[1..]) + rest;
      PrependedIs(xs[0], ParseWhile(read, length, ToInt32(TotalLength(length, xs[1..])), s'), xs[1..], rest);
    }
  }

  /** Below two gigabytes every list of non-empty items fits. */
  lemma {:induction false} SmallLengthsFit<T>(length: T -> nat, xs: seq<T>)
    requires TotalLength(length, xs) < 0x8000_0000 && forall i :: 0 <= i < |xs| ==> length(xs[i]) > 0
    ensures LengthsFit(length, xs)
  {
    if xs != [] { SmallLengthsFit(length, xs[1..]); }
  }

  lemma {:induction false} TotalLengthIsExact<T>(write: Printer<T>, length: T -> nat, xs: seq<T>)
    requires forall i :: 0 <= i < |xs| ==> length(xs[i]) == |write(xs[i])|
    ensures TotalLength(length, xs) == |PrintAll(write, xs)|
  {
    if xs != [] { TotalLengthIsExact(write, length, xs[1..]); }
  }

  lemma {:induction false} CountIsKept<T>(read: Parser<T>, count: nat, s: Bytes)
    ensures ParseCount(read, count, s).Some? ==> |ParseCount(read, count, s).value.value| == count
  {
    if count > 0 && read(s).Some? { CountIsKept(read, count - 1, read(s).value.rest); }
  }

  // ---------------------------------------------------------------- lists that stand too late

  /** Bytes of which each is a whole number. */
  predicate SmallBytes(s: Bytes) {
    forall i :: 0 <= i < |s| ==> s[i] < 128
  }

  /** `r` is `q` with as many small bytes before it as `p` has. */
  ghost predicate Late(p: Bytes, q: Bytes, r: Bytes) {
    exists p' :: |p'| == |p| && SmallBytes(p') && r == p' + q
  }

  /** If the item is read back from behind some small bytes, what follows is behind as many again. */
  ghost predicate Slides<T(!new)>(write: Printer<T>, read: Parser<T>, x: T) {
    forall p, q, r :: p != [] && SmallBytes(p) && read(p + (write(x) + q)) == Some(Parsed(x, r)) ==> Late(p, q, r)
  }

  lemma FirstOfCount<T>(read: Parser<T>, s: Bytes, xs: seq<T>, r: Bytes)
    requires xs != [] && ParseCount(read, |xs|, s) == Some(Parsed(xs, r))
    ensures read(s).Some? && read(s).value.value == xs[0]
    ensures ParseCount(read, |xs| - 1, read(s).value.rest) == Some(Parsed(xs[1..], r))
  {
    var first := read(s).value;
    var others := ParseCount(read, |xs| - 1, first.rest);
    assert xs == [first.value] + others.value.value;
    assert xs[1..] == others.value.value;
  }

  /** Items read back from behind some small bytes leave as many bytes over: never nothing. */
  lemma {:induction false} ListSlides<T(!new)>(
    write: Printer<T>, read: Parser<T>, p: Bytes, xs: seq<T>, rest: Bytes, r: Bytes)
    requires p != [] && SmallBytes(p) && forall i :: 0 <= i < |xs| ==> Slides(write, read, xs[i])
    requires ParseCount(read, |xs|, p + (PrintAll(write, xs) + rest)) == Some(Parsed(xs, r))
    ensures |r| == |p| + |rest|
    decreases |xs|
  {
    if xs == [] {
      assert PrintAll(write, xs) + rest == rest;
    } else {
      var q, s := PrintAll(write, xs[1..]) + rest, p + (PrintAll(write, xs) + rest);
      assert PrintAll(write, xs) + rest == write(xs[0]) + q;
      FirstOfCount(read, s, xs, r);
      assert Late(p, q, read(s).value.rest);
      var p' :| |p'| == |p| && SmallBytes(p') && read(s).value.rest == p' + q;
      ListSlides(write, read, p', xs[1..], rest, r);
    }
  }
}
