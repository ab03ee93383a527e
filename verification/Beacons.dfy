/**
 * Discovery beacons: services, announcements and version 1 of the format. A beacon announces an endpoint and
 * its services. Printing and parsing are compared for every beacon; the parser fills an announcement that
 * may hold earlier contents.
 */
module Beacons {
  import opened ByteStrings
  import opened CodedLists
  import opened EndpointNames
  import opened Sdnv

  // ---------------------------------------------------------------- services

  datatype Service = Service(name: Bytes, parameters: Bytes)

  /** The lengths have to be values that can be written. */
  predicate Writable(s: Service) {
    |s.name| < LIMIT && |s.parameters| < LIMIT
  }

  function PrintService(s: Service): Bytes {
    EncodeString(s.name) + EncodeString(s.parameters)
  }

  function StringLength(s: Bytes): nat {
    |Encode(|s|)| + |s|
  }

  function ServiceLength(s: Service): nat {
    StringLength(s.name) + StringLength(s.parameters)
  }

  function ParseService(s: Bytes): Option<Parsed<Service>> {
    var name := DecodeString(s);
    if name.None? then None
    else
      var parameters := DecodeString(name.value.rest);
      if parameters.None? then None
      else Some(Parsed(Service(name.value.value, parameters.value.value), parameters.value.rest))
  }

  lemma ServiceStages(s: Bytes, name: Bytes, middle: Bytes, parameters: Bytes, rest: Bytes)
    requires DecodeString(s) == Some(Parsed(name, middle)) && DecodeString(middle) == Some(Parsed(parameters, rest))
    ensures ParseService(s) == Some(Parsed(Service(name, parameters), rest))
  {}

  /** The announced length is the number of bytes written. */
  lemma ServiceLengthIsExact(s: Service)
    ensures ServiceLength(s) == |PrintService(s)| >= 2
  {}

  lemma ServiceRoundTrip(s: Service, rest: Bytes)
    requires Writable(s)
    ensures ParseService(PrintService(s) + rest) == Some(Parsed(s, rest))
  {
    var name, parameters := EncodeString(s.name), EncodeString(s.parameters);
    StringRoundTrip(s.name, parameters + rest);
    StringRoundTrip(s.parameters, rest);
    assert PrintService(s) + rest == name + (parameters + rest);
    ServiceStages(PrintService(s) + rest, s.name, parameters + rest, s.parameters, rest);
  }

  lemma ServiceReadsBack(s: Service)
    requires Writable(s)
    ensures ReadsBack(PrintService, ParseService, s) && ServiceLength(s) == |PrintService(s)|
  {
    ServiceLengthIsExact(s);
    forall rest
      ensures ParseService(PrintService(s) + rest) == Some(Parsed(s, rest))
    {
      ServiceRoundTrip(s, rest);
    }
  }

  predicate AllWritable(services: seq<Service>) {
    |services| < LIMIT && forall i :: 0 <= i < |services| ==> Writable(services[i])
  }

  lemma ServicesReadBack(services: seq<Service>)
    requires AllWritable(services)
    ensures forall i :: 0 <= i < |services| ==> ReadsBack(PrintService, ParseService, services[i])
    ensures forall i :: 0 <= i < |services| ==> ServiceLength(services[i]) == |PrintService(services[i])|
  {
    forall i | 0 <= i < |services|
      ensures ReadsBack(PrintService, ParseService, services[i])
      ensures ServiceLength(services[i]) == |PrintService(services[i])|
    {
      ServiceReadsBack(services[i]);
    }
  }

  // ---------------------------------------------------------------- version 1: printing

  const VERSION_1: Byte := 1
  const SHORT: Byte := 1

  datatype Announcement = Announcement(flags: Byte, eid: Eid, services: seq<Service>)

  function WithShortFlag(flags: Byte): Byte {
    if flags % 2 == 1 then flags else flags + 1
  }

  function BeaconLength(a: Announcement): nat {
    StringLength(Text(a.eid)) + TotalLength(ServiceLength, a.services)
  }

  function PrintV1(a: Announcement): Bytes {
    if a.services == [] then [VERSION_1, WithShortFlag(a.flags)]
    else
      [VERSION_1, a.flags] +
      (Encode(BeaconLength(a)) + (EncodeString(Text(a.eid)) + PrintAll(PrintService, a.services)))
  }

  /** The lengths of the services are added up first, then the services are written. */
  method PrintBeaconV1(a: Announcement) returns (stream: Bytes)
    ensures stream == PrintV1(a) && stream[..1] == [1]
  {
    if |a.services| == 0 {
      return [VERSION_1, WithShortFlag(a.flags)];
    }
    var eid := Text(a.eid);
    var beaconLen := AddLengths(ServiceLength, a.services);
    beaconLen := StringLength(eid) + beaconLen;
    var list := WriteAll(PrintService, a.services);
    stream := [VERSION_1, a.flags] + (Encode(beaconLen) + (EncodeString(eid) + list));
  }

  // ---------------------------------------------------------------- version 1: parsing

  function WithServices(flags: Byte, eid: Eid, list: Option<Parsed<seq<Service>>>): Option<Parsed<Announcement>> {
    if list.None? then None else Some(Parsed(Announcement(flags, eid, list.value.value), list.value.rest))
  }

  /** What is read before the services. */
  datatype HeadV1 = HeadV1(flags: Byte, len: nat, text: Bytes)

  function ParseHeadV1(flags: Byte, s: Bytes): Option<Parsed<HeadV1>> {
    var len := Decode(s);
    if len.None? then None
    else
      var text := DecodeString(len.value.rest);
      if text.None? then None else Some(Parsed(HeadV1(flags, len.value.value, text.value.value), text.value.rest))
  }

  /** What the identifier leaves of the announced length. */
  function RemainV1(head: HeadV1): int {
    ToInt32(ToInt32(head.len) - StringLength(head.text))
  }

  function ParseTailV1(head: Option<Parsed<HeadV1>>): Option<Parsed<Announcement>> {
    if head.None? then None
    else
      var h := head.value.value;
      WithServices(h.flags, Parse(h.text), ParseWhile(ParseService, ServiceLength, RemainV1(h), head.value.rest))
  }

  function ParseV1(prior: Announcement, s: Bytes): Option<Parsed<Announcement>> {
    if |s| < 2 || s[0] != VERSION_1 then None
    else if s[1] == SHORT then Some(Parsed(Announcement(s[1], NONE, prior.services), s[2..]))
    else ParseTailV1(ParseHeadV1(s[1], s[2..]))
  }

  method ParseBeaconV1(prior: Announcement, s: Bytes) returns (r: Option<Parsed<Announcement>>)
    ensures r == ParseV1(prior, s)
  {
    if |s| < 2 || s[0] != VERSION_1 { return None; }
    if s[1] == SHORT { return Some(Parsed(Announcement(s[1], NONE, prior.services), s[2..])); }
    var head := ReadHeadV1(s[1], s[2..]);
    if head.None? { return None; }
    var h := head.value.value;
    var list := ReadWhile(ParseService, ServiceLength, RemainV1(h), head.value.rest);
    if list.None? { return None; }
    return Some(Parsed(Announcement(h.flags, Parse(h.text), list.value.value), list.value.rest));
  }

  method ReadHeadV1(flags: Byte, s: Bytes) returns (r: Option<Parsed<HeadV1>>)
    ensures r == ParseHeadV1(flags, s)
  {
    var len := DecodeValue(s);
    if len.None? { return None; }
    var text := DecodeString(len.value.rest);
    if text.None? { return None; }
    return Some(Parsed(HeadV1(flags, len.value.value, text.value.value), text.value.rest));
  }

  // ---------------------------------------------------------------- version 1: round trip

  predicate AnnouncementWritable(a: Announcement) {
    AllWritable(a.services) && |Text(a.eid)| < LIMIT && BeaconLength(a) < LIMIT
  }

  lemma HeadStages(flags: Byte, s: Bytes, len: nat, body: Bytes, text: Bytes, list: Bytes)
    requires Decode(s) == Some(Parsed(len, body)) && DecodeString(body) == Some(Parsed(text, list))
    ensures ParseHeadV1(flags, s) == Some(Parsed(HeadV1(flags, len, text), list))
  {}

  lemma HeadRoundTrip(flags: Byte, len: nat, text: Bytes, list: Bytes)
    requires len < LIMIT && |text| < LIMIT
    ensures var s := Encode(len) + (EncodeString(text) + list);
            ParseHeadV1(flags, s) == Some(Parsed(HeadV1(flags, len, text), list))
  {
    var body := EncodeString(text) + list;
    SdnvRoundTrip(len, body);
    StringRoundTrip(text, list);
    HeadStages(flags, Encode(len) + body, len, body, text, list);
  }

  lemma HeadFirst(prior: Announcement, flags: Byte, body: Bytes)
    requires flags != SHORT
    ensures ParseV1(prior, [VERSION_1, flags] + body) == ParseTailV1(ParseHeadV1(flags, body))
  {
    assert ([VERSION_1, flags] + body)[2..] == body;
  }

  /** How the parser sees a printed beacon. */
  lemma ParsePrintedV1(prior: Announcement, a: Announcement, rest: Bytes)
    requires AnnouncementWritable(a) && a.services != [] && a.flags != SHORT
    ensures var head, list := HeadV1(a.flags, BeaconLength(a), Text(a.eid)), PrintAll(PrintService, a.services) + rest;
            ParseV1(prior, PrintV1(a) + rest) == ParseTailV1(Some(Parsed(head, list)))
  {
    var text, len, all := Text(a.eid), BeaconLength(a), PrintAll(PrintService, a.services);
    var body := Encode(len) + (EncodeString(text) + (all + rest));
    V1Shape(a, rest);
    HeadFirst(prior, a.flags, body);
    HeadRoundTrip(a.flags, len, text, all + rest);
  }

  lemma V1Shape(a: Announcement, rest: Bytes)
    requires a.services != []
    ensures var all := PrintAll(PrintService, a.services);
            PrintV1(a) + rest
            == [VERSION_1, a.flags] + (Encode(BeaconLength(a)) + (EncodeString(Text(a.eid)) + (all + rest)))
  {
    Regrouped([VERSION_1, a.flags], Encode(BeaconLength(a)), EncodeString(Text(a.eid)), PrintAll(PrintService, a.services), rest);
  }

  lemma RemainIsServices(a: Announcement)
    ensures RemainV1(HeadV1(a.flags, BeaconLength(a), Text(a.eid))) == ToInt32(TotalLength(ServiceLength, a.services))
  {
    ToInt32Difference(BeaconLength(a), StringLength(Text(a.eid)));
  }

  lemma ReadBackIff(
    flags: Byte, eid: Eid, list: Option<Parsed<seq<Service>>>, flags': Byte, eid': Eid, xs: seq<Service>, rest: Bytes)
    ensures WithServices(flags, eid, list) == Some(Parsed(Announcement(flags', eid', xs), rest))
            <==> flags == flags' && eid == eid' && list == Some(Parsed(xs, rest))
  {}

  /**
   * Version 1: a beacon with services is read back, with nothing of it left, exactly if its flags are not
   * the short flag alone, its identifier is proper and its lengths fit.
   */
  lemma V1RoundTripIff(prior: Announcement, a: Announcement, rest: Bytes)
    requires AnnouncementWritable(a) && a.services != []
    ensures ParseV1(prior, PrintV1(a) + rest) == Some(Parsed(a, rest))
            <==> a.flags != SHORT && Proper(a.eid) && LengthsFit(ServiceLength, a.services)
  {
    if a.flags == SHORT {
      ShortFlagHidesServices(prior, a, rest);
    } else {
      ParsePrintedV1(prior, a, rest);
      RemainIsServices(a);
      ServicesReadBack(a.services);
      LoopReadsAllIff(PrintService, ParseService, ServiceLength, a.services, rest);
      EidRoundTripIff(a.eid);
      var s, remain := PrintAll(PrintService, a.services) + rest, ToInt32(TotalLength(ServiceLength, a.services));
      ReadBackIff(a.flags, Parse(Text(a.eid)), ParseWhile(ParseService, ServiceLength, remain, s),
                  a.flags, a.eid, a.services, rest);
    }
  }

  lemma ShortStage(prior: Announcement, body: Bytes)
    ensures ParseV1(prior, [VERSION_1, SHORT] + body) == Some(Parsed(Announcement(SHORT, NONE, prior.services), body))
  {
    assert ([VERSION_1, SHORT] + body)[2..] == body;
  }

  lemma ShortFlagHidesServices(prior: Announcement, a: Announcement, rest: Bytes)
    requires a.services != [] && a.flags == SHORT
    ensures ParseV1(prior, PrintV1(a) + rest) != Some(Parsed(a, rest))
  {
    var len, text, all := Encode(BeaconLength(a)), EncodeString(Text(a.eid)), PrintAll(PrintService, a.services);
    V1Shape(a, rest);
    ShortStage(prior, len + (text + (all + rest)));
    LongerThanRest(len, text, all, rest);
  }

  lemma LongerThanRest(a: Bytes, b: Bytes, c: Bytes, rest: Bytes)
    requires a != []
    ensures a + (b + (c + rest)) != rest
  {
    assert |a + (b + (c + rest))| > |rest|;
  }

  /** For the flags the daemon sets, and below two gigabytes, every proper beacon is read back. */
  lemma V1RoundTrip(prior: Announcement, a: Announcement, rest: Bytes)
    requires AnnouncementWritable(a) && a.services != [] && a.flags == 0 && Proper(a.eid)
    requires BeaconLength(a) < 0x8000_0000
    ensures ParseV1(prior, PrintV1(a) + rest) == Some(Parsed(a, rest))
  {
    forall i | 0 <= i < |a.services|
      ensures ServiceLength(a.services[i]) > 0
    {
      ServiceLengthIsExact(a.services[i]);
    }
    SmallLengthsFit(ServiceLength, a.services);
    V1RoundTripIff(prior, a, rest);
  }

  /**
   * A beacon without services, alone in its packet, is read exactly if its flags are 0 or the short flag: then
   * as the short flag without an endpoint, with the services found before, and nothing left.
   */
  lemma ShortBeaconIff(prior: Announcement, a: Announcement)
    requires a.services == []
    ensures ParseV1(prior, PrintV1(a)).Some? <==> a.flags <= 1
    ensures a.flags <= 1 ==>
              PrintV1(a) == [1, 1] && ParseV1(prior, PrintV1(a)) == Some(Parsed(Announcement(1, NONE, prior.services), []))
  {
    var s := PrintV1(a);
    assert s[2..] == [];
    if a.flags > 1 { assert Decode([]) == None; }
  }

  /** Behind anything else in the packet a short beacon takes its two bytes and no more. */
  lemma ShortBeaconTakesTwo(prior: Announcement, a: Announcement, rest: Bytes)
    requires a.services == [] && a.flags <= 1
    ensures ParseV1(prior, PrintV1(a) + rest) == Some(Parsed(Announcement(1, NONE, prior.services), rest))
  {
    assert PrintV1(a) == [VERSION_1, SHORT];
    ShortStage(prior, rest);
  }
}
