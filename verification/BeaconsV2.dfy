/**
 * Version 2 of the discovery beacons. The printer tests its flags with a logical AND, so that with any flag
 * set the identifier and the services are written both, while the parser reads what the flags announce.
 */
module BeaconsV2 {
  import opened Beacons
  import opened ByteStrings
  import opened CodedLists
  import opened EndpointNames
  import opened Sdnv

  const VERSION_2: Byte := 2

  function FlagsV2(a: Announcement): Byte {
    (if a.eid != NONE then 1 else 0) + if a.services != [] then 2 else 0
  }

  predicate ContainsEid(flags: Byte) {
    flags % 2 == 1
  }

  predicate ContainsServices(flags: Byte) {
    flags / 2 % 2 == 1
  }

  function TwoBytes(n: nat): (r: Bytes)
    requires n < 0x1_0000
    ensures |r| == 2 && r[0] as int * 256 + r[1] as int == n
  {
    [(n / 256) as Byte, (n % 256) as Byte]
  }

  /** The two flags are the lowest bits, whatever the others are. */
  lemma FlagsAreBits(flags: Byte, others: nat, services: bool, eid: bool)
    requires flags as int == 4 * others + (if services then 2 else 0) + if eid then 1 else 0
    ensures ContainsServices(flags) == services && ContainsEid(flags) == eid
  {}

  /** The identifier, the number of services and the services. */
  function BodyV2(a: Announcement): Bytes {
    EncodeString(Text(a.eid)) + (Encode(|a.services|) + PrintAll(PrintService, a.services))
  }

  function PrintV2(a: Announcement, sequence: nat): Bytes
    requires sequence < 0x1_0000
  {
    [VERSION_2, FlagsV2(a)] + TwoBytes(sequence) + if FlagsV2(a) == 0 then [] else BodyV2(a)
  }

  // ---------------------------------------------------------------- parsing

  /** The loop counts with 32 bits: it cannot reach a greater number before the input ends. */
  function ParseCounted(count: nat, s: Bytes): Option<Parsed<seq<Service>>> {
    if count < COUNTER then ParseCount(ParseService, count, s) else None
  }

  function ParseServicesV2(flags: Byte, prior: seq<Service>, s: Bytes): Option<Parsed<seq<Service>>> {
    if !ContainsServices(flags) then Some(Parsed(prior, s))
    else
      var count := Decode(s);
      if count.None? then None else ParseCounted(count.value.value, count.value.rest)
  }

  function ParseEidV2(flags: Byte, prior: Eid, s: Bytes): Option<Parsed<Eid>> {
    if !ContainsEid(flags) then Some(Parsed(prior, s))
    else
      var eid := DecodeString(s);
      if eid.None? then None else Some(Parsed(Parse(eid.value.value), eid.value.rest))
  }

  function ParseTailV2(flags: Byte, prior: seq<Service>, eid: Option<Parsed<Eid>>): Option<Parsed<Announcement>> {
    if eid.None? then None
    else WithServices(flags, eid.value.value, ParseServicesV2(flags, prior, eid.value.rest))
  }

  function ParseV2(prior: Announcement, s: Bytes): Option<Parsed<Announcement>> {
    if |s| < 4 || s[0] != VERSION_2 then None
    else ParseTailV2(s[1], prior.services, ParseEidV2(s[1], prior.eid, s[4..]))
  }

  lemma DecodeConsumes(s: Bytes)
    ensures Decode(s).Some? ==> |Decode(s).value.rest| < |s|
  {
    ExtentFits(s);
  }

  lemma ServiceConsumes(s: Bytes)
    ensures ParseService(s).Some? ==> |ParseService(s).value.rest| < |s|
  {
    DecodeConsumes(s);
    var name := DecodeString(s);
    if name.Some? { DecodeConsumes(name.value.rest); }
  }

  lemma ServicesConsume()
    ensures Consumes(ParseService)
  {
    forall s
      ensures ParseService(s).Some? ==> |ParseService(s).value.rest| < |s|
    {
      ServiceConsumes(s);
    }
  }

  method ParseBeaconV2(prior: Announcement, s: Bytes) returns (r: Option<Parsed<Announcement>>)
    ensures r == ParseV2(prior, s)
  {
    if |s| < 4 || s[0] != VERSION_2 { return None; }
    var flags := s[1];
    var eid := ParseEidV2(flags, prior.eid, s[4..]);
    if eid.None? { return None; }
    var services, rest := prior.services, eid.value.rest;
    if ContainsServices(flags) {
      var count := DecodeValue(rest);
      if count.None? { return None; }
      ServicesConsume();
      var list := ReadCount32(ParseService, count.value.value, count.value.rest);
      if list.None? { return None; }
      services, rest := list.value.value, list.value.rest;
    }
    return Some(Parsed(Announcement(flags, eid.value.value, services), rest));
  }

  // ---------------------------------------------------------------- with an endpoint

  lemma EidReadBack(flags: Byte, prior: Eid, eid: Eid, list: Bytes)
    requires ContainsEid(flags) && |Text(eid)| < LIMIT
    ensures ParseEidV2(flags, prior, EncodeString(Text(eid)) + list) == Some(Parsed(Parse(Text(eid)), list))
  {
    StringRoundTrip(Text(eid), list);
  }

  lemma CountedStage(flags: Byte, prior: seq<Service>, s: Bytes, count: nat, list: Bytes)
    requires ContainsServices(flags) && Decode(s) == Some(Parsed(count, list))
    ensures ParseServicesV2(flags, prior, s) == ParseCounted(count, list)
  {}

  /** The services are read back wholly, unless there are too many to count. */
  lemma ListReadBack(flags: Byte, prior: seq<Service>, services: seq<Service>, rest: Bytes)
    requires AllWritable(services) && ContainsServices(flags)
    ensures var s := Encode(|services|) + (PrintAll(PrintService, services) + rest);
            ParseServicesV2(flags, prior, s) == if |services| < COUNTER then Some(Parsed(services, rest)) else None
  {
    var list := PrintAll(PrintService, services) + rest;
    SdnvRoundTrip(|services|, list);
    CountedStage(flags, prior, Encode(|services|) + list, |services|, list);
    ServicesReadBack(services);
    CountedReadBack(PrintService, ParseService, services, rest);
  }

  /** The bytes after the sequence number. */
  lemma TailOfPrinted(a: Announcement, sequence: nat, rest: Bytes)
    requires sequence < 0x1_0000 && FlagsV2(a) != 0
    ensures var s := PrintV2(a, sequence) + rest;
            && |s| >= 4 && s[0] == VERSION_2 && s[1] == FlagsV2(a)
            && s[4..] == EncodeString(Text(a.eid)) + (Encode(|a.services|) + (PrintAll(PrintService, a.services) + rest))
  {
    var s, text := PrintV2(a, sequence) + rest, EncodeString(Text(a.eid));
    var count, list := Encode(|a.services|), PrintAll(PrintService, a.services);
    assert s[4..] == (text + (count + list)) + rest;
    Regrouped3(text, count, list, rest);
  }

  /** How the parser sees a printed beacon with an endpoint. */
  lemma ParsePrinted(prior: Announcement, a: Announcement, sequence: nat, rest: Bytes)
    requires sequence < 0x1_0000 && |Text(a.eid)| < LIMIT && a.eid != NONE
    ensures var list := Encode(|a.services|) + (PrintAll(PrintService, a.services) + rest);
            ParseV2(prior, PrintV2(a, sequence) + rest)
            == ParseTailV2(FlagsV2(a), prior.services, Some(Parsed(Parse(Text(a.eid)), list)))
  {
    TailOfPrinted(a, sequence, rest);
    EidReadBack(FlagsV2(a), prior.eid, a.eid, Encode(|a.services|) + (PrintAll(PrintService, a.services) + rest));
  }

  lemma TailStage(flags: Byte, prior: seq<Service>, eid: Eid, list: Bytes, services: Option<Parsed<seq<Service>>>)
    requires ParseServicesV2(flags, prior, list) == services
    ensures ParseTailV2(flags, prior, Some(Parsed(eid, list))) == WithServices(flags, eid, services)
  {}

  lemma Joined(prior: Announcement, a: Announcement, sequence: nat, rest: Bytes, services: Option<Parsed<seq<Service>>>)
    requires sequence < 0x1_0000 && |Text(a.eid)| < LIMIT && a.eid != NONE
    requires var list := Encode(|a.services|) + (PrintAll(PrintService, a.services) + rest);
             ParseServicesV2(FlagsV2(a), prior.services, list) == services
    ensures ParseV2(prior, PrintV2(a, sequence) + rest) == WithServices(FlagsV2(a), Parse(Text(a.eid)), services)
  {
    ParsePrinted(prior, a, sequence, rest);
  }

  /** With an endpoint and services. */
  lemma ParsedWithEndpoint(prior: Announcement, a: Announcement, sequence: nat, rest: Bytes)
    requires sequence < 0x1_0000 && AnnouncementWritable(a) && a.services != [] && a.eid != NONE
    ensures ParseV2(prior, PrintV2(a, sequence) + rest)
            == WithServices(3, Parse(Text(a.eid)), if |a.services| < COUNTER then Some(Parsed(a.services, rest)) else None)
  {
    assert FlagsV2(a) == 3;
    ListReadBack(3, prior.services, a.services, rest);
    Joined(prior, a, sequence, rest, if |a.services| < COUNTER then Some(Parsed(a.services, rest)) else None);
  }

  lemma NoServiceFlag(prior: seq<Service>, s: Bytes)
    ensures ParseServicesV2(1, prior, s) == Some(Parsed(prior, s))
  {}

  /** With an endpoint but no services: the endpoint is read, and the written count of 0 is left over. */
  lemma WithoutServices(prior: Announcement, a: Announcement, sequence: nat, rest: Bytes)
    requires sequence < 0x1_0000 && |Text(a.eid)| < LIMIT && a.services == [] && a.eid != NONE
    ensures ParseV2(prior, PrintV2(a, sequence) + rest)
            == Some(Parsed(Announcement(1, Parse(Text(a.eid)), prior.services), Encode(0) + rest))
  {
    ParsePrinted(prior, a, sequence, rest);
    assert PrintAll(PrintService, a.services) + rest == rest;
    NoServiceFlag(prior.services, Encode(0) + rest);
  }

  // ---------------------------------------------------------------- without an endpoint

  lemma SmallNumber(s: Bytes)
    requires s != [] && s[0] < 128
    ensures Decode(s) == Some(Parsed(s[0] as int, s[1..])) && Encode(s[0] as int) == [s[0]]
  {
    var n := s[0] as int;
    assert n / 128 == 0 && Leading(0) == [] && Encode(n) == [s[0]];
    SdnvRoundTrip(n, s[1..]);
    assert [s[0]] + s[1..] == s;
  }

  /** Bytes that repeat what stands some places before them are small if the first ones are. */
  lemma {:induction false} RepeatedBytesAreSmall(s: Bytes, v: Bytes, period: nat, k: nat)
    requires 0 < period && period + |v| <= |s| && k <= |v| && SmallBytes(s[..period])
    requires forall i :: 0 <= i < |v| ==> s[period + i] == v[i] && s[1 + i] == v[i]
    requires period > 1
    ensures forall i :: 0 <= i < period + k ==> s[i] < 128
    decreases k
  {
    if k > 0 {
      RepeatedBytesAreSmall(s, v, period, k - 1);
      assert s[period + (k - 1)] == v[k - 1] == s[1 + (k - 1)];
    } else {
      forall i | 0 <= i < period
        ensures s[i] < 128
      {
        assert s[..period][i] == s[i];
      }
    }
  }

  /** A string that is read back from behind small bytes has a length of one small byte itself. */
  lemma StringSlides(p: Bytes, v: Bytes, q: Bytes, r: Bytes)
    requires p != [] && SmallBytes(p) && DecodeString(p + (EncodeString(v) + q)) == Some(Parsed(v, r))
    ensures Late(p, q, r)
  {
    var s, n := p + (EncodeString(v) + q), |v|;
    SmallNumber(s);
    assert s[0] == p[0];
    StringAt(s, v, r);
    assert n == p[0] as int;
    assert EncodeString(v) == [p[0]] + v;
    var front := p + ([p[0]] + v);
    assert s == front + q;
    FrontIsSmall(p, v, s);
    var p' := front[1 + n..];
    assert r == p' + q;
  }

  lemma StringAt(s: Bytes, v: Bytes, r: Bytes)
    requires s != [] && s[0] < 128 && Decode(s) == Some(Parsed(s[0] as int, s[1..]))
    requires DecodeString(s) == Some(Parsed(v, r))
    ensures |v| == s[0] as int && 1 + |v| <= |s| && s[1..][..|v|] == v && r == s[1 + |v|..]
  {}

  lemma FrontIsSmall(p: Bytes, v: Bytes, s: Bytes)
    requires p != [] && SmallBytes(p) && p + ([p[0]] + v) <= s
    requires |v| + 1 <= |s| && s[1..][..|v|] == v
    ensures SmallBytes(p + ([p[0]] + v))
  {
    var front, period := p + ([p[0]] + v), |p| + 1;
    assert s[..|front|] == front;
    assert SmallBytes(s[..period]) by { assert s[..period] == p + [p[0]]; }
    forall i | 0 <= i < |v|
      ensures s[period + i] == v[i] && s[1 + i] == v[i]
    {
      assert front[period + i] == v[i];
      assert s[1..][..|v|][i] == s[1 + i];
    }
    RepeatedBytesAreSmall(s, v, period, |v|);
    assert |front| == period + |v|;
  }

  lemma TwoStrings(s: Bytes, x: Service, r: Bytes) returns (middle: Bytes)
    requires ParseService(s) == Some(Parsed(x, r))
    ensures DecodeString(s) == Some(Parsed(x.name, middle)) && DecodeString(middle) == Some(Parsed(x.parameters, r))
  {
    middle := DecodeString(s).value.rest;
  }

  lemma StringsSlide(p: Bytes, v: Bytes, w: Bytes, q: Bytes, middle: Bytes, r: Bytes)
    requires p != [] && SmallBytes(p)
    requires DecodeString(p + (EncodeString(v) + (EncodeString(w) + q))) == Some(Parsed(v, middle))
    requires DecodeString(middle) == Some(Parsed(w, r))
    ensures Late(p, q, r)
  {
    var q1 := EncodeString(w) + q;
    StringSlides(p, v, q1, middle);
    var p1 :| |p1| == |p| && SmallBytes(p1) && middle == p1 + q1;
    StringSlides(p1, w, q, r);
    SameLength(p1, p, q, r);
  }

  lemma SameLength(p1: Bytes, p: Bytes, q: Bytes, r: Bytes)
    requires |p1| == |p| && Late(p1, q, r)
    ensures Late(p, q, r)
  {}

  lemma ServiceShape(x: Service, q: Bytes)
    ensures PrintService(x) + q == EncodeString(x.name) + (EncodeString(x.parameters) + q)
  {}

  lemma ServiceSlides(p: Bytes, x: Service, q: Bytes, r: Bytes)
    requires p != [] && SmallBytes(p) && ParseService(p + (PrintService(x) + q)) == Some(Parsed(x, r))
    ensures Late(p, q, r)
  {
    ServiceShape(x, q);
    var middle := TwoStrings(p + (PrintService(x) + q), x, r);
    StringsSlide(p, x.name, x.parameters, q, middle, r);
  }

  lemma EveryServiceSlides(x: Service)
    ensures Slides(PrintService, ParseService, x)
  {
    forall p, q, r | p != [] && SmallBytes(p) && ParseService(p + (PrintService(x) + q)) == Some(Parsed(x, r))
      ensures Late(p, q, r)
    {
      ServiceSlides(p, x, q, r);
    }
  }

  /** Behind the name of the null endpoint and the number of services no list of services is read back wholly. */
  lemma NeverReadBack(services: seq<Service>, rest: Bytes)
    ensures var body := Text(NONE) + (Encode(|services|) + (PrintAll(PrintService, services) + rest));
            ParseCount(ParseService, 8, body) != Some(Parsed(services, rest))
  {
    var all := PrintAll(PrintService, services);
    var body := Text(NONE) + (Encode(|services|) + (all + rest));
    if ParseCount(ParseService, 8, body) == Some(Parsed(services, rest)) {
      CountIsKept(ParseService, 8, body);
      NullNameIsSmall();
      NotBehindNine(Text(NONE) + Encode(8), services, rest);
      Associate(Text(NONE), Encode(8), all + rest);
    }
  }

  lemma NullNameIsSmall()
    ensures |Text(NONE)| == 8 && Text(NONE) + Encode(8) != [] && SmallBytes(Text(NONE) + Encode(8))
  {
    SmallNumber([8]);
  }

  lemma NotBehindNine(p: Bytes, services: seq<Service>, rest: Bytes)
    requires p != [] && SmallBytes(p)
    ensures ParseCount(ParseService, |services|, p + (PrintAll(PrintService, services) + rest)) != Some(Parsed(services, rest))
  {
    if ParseCount(ParseService, |services|, p + (PrintAll(PrintService, services) + rest)) == Some(Parsed(services, rest)) {
      forall i | 0 <= i < |services|
        ensures Slides(PrintService, ParseService, services[i])
      {
        EveryServiceSlides(services[i]);
      }
      ListSlides(PrintService, ParseService, p, services, rest, rest);
    }
  }

  lemma NullStage(prior: Announcement, s: Bytes, body: Bytes)
    requires |s| >= 4 && s[0] == VERSION_2 && s[1] == 2 && Decode(s[4..]) == Some(Parsed(8, body))
    ensures ParseV2(prior, s) == WithServices(2, prior.eid, ParseCount(ParseService, 8, body))
  {
    CountedStage(2, prior.services, s[4..], 8, body);
    TailStage(2, prior.services, prior.eid, s[4..], ParseCount(ParseService, 8, body));
  }

  /** Without an endpoint the parser takes the length of the null endpoint's name for the number of services. */
  lemma ParsedWithoutEndpoint(prior: Announcement, a: Announcement, sequence: nat, rest: Bytes)
    requires sequence < 0x1_0000 && a.services != [] && a.eid == NONE
    ensures var body := Text(NONE) + (Encode(|a.services|) + (PrintAll(PrintService, a.services) + rest));
            ParseV2(prior, PrintV2(a, sequence) + rest)
            == WithServices(2, prior.eid, ParseCount(ParseService, 8, body))
  {
    var s, list := PrintV2(a, sequence) + rest, Encode(|a.services|) + (PrintAll(PrintService, a.services) + rest);
    var body := Text(NONE) + list;
    TailOfPrinted(a, sequence, rest);
    NullNameIsSmall();
    Associate(Encode(8), Text(NONE), list);
    SdnvRoundTrip(8, body);
    NullStage(prior, s, body);
  }

  /** No list of services, of whatever length, is read back wholly behind the unannounced name. */
  lemma NullEndpointIsMisread(prior: Announcement, a: Announcement, sequence: nat, rest: Bytes, eid: Eid)
    requires sequence < 0x1_0000 && a.services != [] && a.eid == NONE
    ensures ParseV2(prior, PrintV2(a, sequence) + rest) != Some(Parsed(Announcement(2, eid, a.services), rest))
  {
    var body := Text(NONE) + (Encode(|a.services|) + (PrintAll(PrintService, a.services) + rest));
    ParsedWithoutEndpoint(prior, a, sequence, rest);
    NeverReadBack(a.services, rest);
    ReadBackIff(2, prior.eid, ParseCount(ParseService, 8, body), 2, eid, a.services, rest);
  }

  // ---------------------------------------------------------------- the exact condition

  lemma EmptyBeacon(prior: Announcement, a: Announcement, sequence: nat, rest: Bytes)
    requires sequence < 0x1_0000 && FlagsV2(a) == 0
    ensures ParseV2(prior, PrintV2(a, sequence) + rest) == Some(Parsed(Announcement(0, prior.eid, prior.services), rest))
  {
    assert (PrintV2(a, sequence) + rest)[4..] == rest;
  }

  /**
   * Version 2, for every announcement and every earlier contents: the beacon is read back, with nothing of
   * it left, if and only if it has services, not too many to count, and a proper endpoint that is not null;
   * or it has neither, and the announcement that is filled had neither.
   */
  lemma V2RoundTripIff(prior: Announcement, a: Announcement, sequence: nat, rest: Bytes)
    requires sequence < 0x1_0000 && AnnouncementWritable(a)
    ensures ParseV2(prior, PrintV2(a, sequence) + rest) == Some(Parsed(Announcement(FlagsV2(a), a.eid, a.services), rest))
            <==> if a.services != [] then a.eid != NONE && Proper(a.eid) && |a.services| < COUNTER
                 else a.eid == NONE && prior.eid == NONE && prior.services == []
  {
    if a.services != [] && a.eid != NONE {
      ParsedWithEndpoint(prior, a, sequence, rest);
      EidRoundTripIff(a.eid);
    } else if a.services != [] {
      NullEndpointIsMisread(prior, a, sequence, rest, a.eid);
    } else if a.eid != NONE {
      WithoutServices(prior, a, sequence, rest);
      assert |Encode(0) + rest| > |rest|;
    } else {
      EmptyBeacon(prior, a, sequence, rest);
    }
  }
}
