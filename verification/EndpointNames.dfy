/** Endpoint identifiers, written as scheme and scheme-specific part with a colon between. */
module EndpointNames {
  import opened ByteStrings

  const COLON: Byte := 58

  datatype Eid = Eid(scheme: Bytes, ssp: Bytes)

  /** `dtn:none`, the null endpoint. */
  const NONE := Eid([100, 116, 110], [110, 111, 110, 101])

  predicate Blank(b: Byte) {
    b == 32 || b == 9
  }

  function Text(e: Eid): Bytes {
    e.scheme + [COLON] + e.ssp
  }

  predicate AllBlank(s: Bytes) {
    forall i :: 0 <= i < |s| ==> Blank(s[i])
  }

  function TrimLeft(s: Bytes): Bytes {
    if s != [] && Blank(s[0]) && !AllBlank(s) then TrimLeft(s[1..]) else s
  }

  function TrimRight(s: Bytes): Bytes
    decreases |s|
  {
    if s != [] && Blank(s[|s| - 1]) && !AllBlank(s) then TrimRight(s[..|s| - 1]) else s
  }

  function FirstColon(s: Bytes): (r: Option<nat>)
    ensures r.Some? ==> r.value < |s| && s[r.value] == COLON && COLON !in s[..r.value]
    ensures r.None? ==> COLON !in s
  {
    if s == [] then None
    else if s[0] == COLON then Some(0)
    else
      var k := FirstColon(s[1..]);
      if k.None? then None
      else assert s[..1 + k.value] == [s[0]] + s[1..][..k.value]; Some(1 + k.value)
  }

  /** Blanks around the text are dropped; without a colon it denotes no endpoint. */
  function Parse(text: Bytes): Eid {
    var s := TrimRight(TrimLeft(text));
    var k := FirstColon(s);
    if k.None? then NONE else Eid(s[..k.value], s[k.value + 1..])
  }

  /** What every parsed identifier satisfies. */
  predicate Proper(e: Eid) {
    && COLON !in e.scheme
    && (e.scheme != [] ==> !Blank(e.scheme[0]))
    && (e.ssp != [] ==> !Blank(e.ssp[|e.ssp| - 1]))
  }

  lemma {:induction false} TrimmedEnds(s: Bytes)
    requires !AllBlank(s)
    ensures !AllBlank(TrimLeft(s)) && |TrimLeft(s)| <= |s| && !Blank(TrimLeft(s)[0])
    ensures Blank(s[0]) ==> |TrimLeft(s)| < |s|
  {
    if Blank(s[0]) {
      assert forall i :: 0 < i < |s| ==> s[1..][i - 1] == s[i];
      TrimmedEnds(s[1..]);
    }
  }

  lemma {:induction false} TrimRightShortens(s: Bytes)
    requires !AllBlank(s)
    ensures |TrimRight(s)| <= |s| && TrimRight(s) != [] && !Blank(TrimRight(s)[|TrimRight(s)| - 1])
    ensures Blank(s[|s| - 1]) ==> |TrimRight(s)| < |s|
    ensures TrimRight(s)[0] == s[0]
    decreases |s|
  {
    if Blank(s[|s| - 1]) {
      assert !AllBlank(s[..|s| - 1]) by {
        var i :| 0 <= i < |s| && !Blank(s[i]);
        assert s[..|s| - 1][i] == s[i];
      }
      TrimRightShortens(s[..|s| - 1]);
    }
  }

  lemma TextIsNotBlank(e: Eid)
    ensures !AllBlank(Text(e)) && |Text(e)| == |e.scheme| + 1 + |e.ssp|
  {
    assert Text(e)[|e.scheme|] == COLON;
  }

  lemma FirstColonOfText(e: Eid)
    requires COLON !in e.scheme
    ensures FirstColon(Text(e)) == Some(|e.scheme|)
  {
    var t, k := Text(e), FirstColon(Text(e));
    assert t[|e.scheme|] == COLON;
    assert t[..|e.scheme|] == e.scheme;
  }

  /** An identifier is read back from its text exactly if it is proper. */
  lemma EidRoundTripIff(e: Eid)
    ensures Parse(Text(e)) == e <==> Proper(e)
  {
    var t := Text(e);
    TextIsNotBlank(e);
    if Proper(e) {
      assert t[0] == (if e.scheme == [] then COLON else e.scheme[0]);
      assert t[|t| - 1] == (if e.ssp == [] then COLON else e.ssp[|e.ssp| - 1]);
      assert TrimRight(TrimLeft(t)) == t;
      FirstColonOfText(e);
    } else if Parse(t) == e {
      ParsedIsProper(t);
    }
  }

  lemma ParsedIsProper(text: Bytes)
    requires !AllBlank(text)
    ensures Proper(Parse(text))
  {
    TrimmedEnds(text);
    var left := TrimLeft(text);
    TrimRightShortens(left);
    var s := TrimRight(left);
    var k := FirstColon(s);
    if k.Some? {
      var e := Parse(text);
      assert e.scheme != [] ==> e.scheme[0] == s[0];
      assert e.ssp != [] ==> e.ssp[|e.ssp| - 1] == s[|s| - 1];
    }
  }

  function Ascii(s: string): Bytes
    requires forall i :: 0 <= i < |s| ==> s[i] < 128 as char
  {
    seq(|s|, i requires 0 <= i < |s| => s[i] as int as Byte)
  }

  /** The characters that matter, and how the null endpoint and any other are written. */
  lemma Written(e: Eid, b: Byte)
    ensures Text(e) == e.scheme + Ascii(":") + e.ssp
    ensures Text(NONE) == Ascii("dtn:none") && Parse(Ascii("dtn:none")) == NONE
    ensures Blank(b) <==> b as char in " \t"
  {
    EidRoundTripIff(NONE);
    assert Text(NONE) == Ascii("dtn:none");
  }
}
