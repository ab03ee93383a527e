/**
 * The messages of the routing handshake: a request lists the identifiers of the items asked for, a response
 * carries items, each with its identifier and length. The receiver keeps the raw bytes of each item under
 * its identifier.
 */
module Handshakes {
  import opened ByteStrings
  import opened CodedLists
  import opened Sdnv

  const REQUEST: nat := 1
  const RESPONSE: nat := 2

  /** An item with the length it announces and the bytes it writes. */
  datatype Item = Item(id: nat, announced: nat, payload: Bytes)

  datatype Message =
    | Request(ids: seq<nat>)
    | Response(lifetime: nat, items: seq<Item>)

  /** What the receiver has of a message. */
  datatype Received = Received(kind: nat, lifetime: nat, requests: set<nat>, raw: map<nat, Bytes>)

  // ---------------------------------------------------------------- summary vectors as items

  /** A Bloom filter's table, prefixed by its size. */
  function PrintVector(table: Bytes): Bytes {
    EncodeString(table)
  }

  function VectorLength(table: Bytes): nat {
    |Encode(|table|)| + |table|
  }

  const SUMMARY_VECTOR: nat := 1
  const PURGE_VECTOR: nat := 1

  function VectorItem(id: nat, table: Bytes): Item {
    Item(id, VectorLength(table), PrintVector(table))
  }

  /** Announces as many bytes as it writes, and can be written. */
  predicate Honest(item: Item) {
    item.announced == |item.payload| && item.id < LIMIT && |item.payload| < LIMIT
  }

  /** A vector announces its length correctly, and its table is read back. */
  lemma VectorRoundTrip(id: nat, table: Bytes, rest: Bytes)
    requires id < LIMIT && VectorLength(table) < LIMIT
    ensures Honest(VectorItem(id, table))
    ensures DecodeString(VectorItem(id, table).payload + rest) == Some(Parsed(table, rest))
  {
    StringRoundTrip(table, rest);
  }

  // ---------------------------------------------------------------- printing

  function PrintItem(item: Item): Bytes {
    Encode(item.id) + (Encode(item.announced) + item.payload)
  }

  function Print(m: Message): Bytes {
    match m
    case Request(ids) => Encode(REQUEST) + (Encode(|ids|) + PrintAll(Encode, ids))
    case Response(lifetime, items) =>
      Encode(RESPONSE) + (Encode(lifetime) + (Encode(|items|) + PrintAll(PrintItem, items)))
  }

  lemma SmallIsOneByte(n: nat)
    requires n < 128
    ensures Encode(n) == [n as Byte]
  {
    assert Leading(n / 128) == [];
  }

  method PrintMessage(m: Message) returns (stream: Bytes)
    ensures stream == Print(m) && stream[0] == if m.Request? then 1 else 2
  {
    SmallIsOneByte(REQUEST);
    SmallIsOneByte(RESPONSE);
    match m
    case Request(ids) =>
      var list := WriteAll(Encode, ids);
      stream := Encode(REQUEST) + (Encode(|ids|) + list);
    case Response(lifetime, items) =>
      var list := WriteAll(PrintItem, items);
      stream := Encode(RESPONSE) + (Encode(lifetime) + (Encode(|items|) + list));
  }

  // ---------------------------------------------------------------- parsing

  function Copy(len: nat, s: Bytes): Option<Parsed<Bytes>> {
    if len <= |s| then Some(Parsed(s[..len], s[len..])) else None
  }

  function ParseItem(s: Bytes): Option<Parsed<Item>> {
    var id := Decode(s);
    if id.None? then None
    else
      var len := Decode(id.value.rest);
      if len.None? then None
      else
        var data := Copy(len.value.value, len.value.rest);
        if data.None? then None
        else Some(Parsed(Item(id.value.value, len.value.value, data.value.value), data.value.rest))
  }

  /** A number, and that many elements. */
  function ParseList<T>(read: Parser<T>, s: Bytes): Option<Parsed<seq<T>>> {
    var count := Decode(s);
    if count.None? then None else ParseCount(read, count.value.value, count.value.rest)
  }

  /** Later items replace earlier ones with the same identifier. */
  function Keep(raw: map<nat, Bytes>, items: seq<Item>): map<nat, Bytes>
    decreases |items|
  {
    if items == [] then raw
    else var k := |items| - 1; Keep(raw, items[..k])[items[k].id := items[k].payload]
  }

  lemma KeepNext(raw: map<nat, Bytes>, items: seq<Item>, x: Item)
    ensures Keep(raw, items + [x]) == Keep(raw, items)[x.id := x.payload]
  {
    assert (items + [x])[..|items|] == items;
  }

  function WithRequests(prior: Received, ids: Option<Parsed<seq<nat>>>): Option<Parsed<Received>> {
    if ids.None? then None
    else
      var all := prior.requests + set id | id in ids.value.value;
      Some(Parsed(prior.(kind := REQUEST, requests := all), ids.value.rest))
  }

  function WithItems(prior: Received, lifetime: nat, items: Option<Parsed<seq<Item>>>): Option<Parsed<Received>> {
    if items.None? then None
    else
      Some(Parsed(prior.(kind := RESPONSE, lifetime := lifetime, raw := Keep(prior.raw, items.value.value)),
                  items.value.rest))
  }

  function ParseResponse(prior: Received, s: Bytes): Option<Parsed<Received>> {
    var lifetime := Decode(s);
    if lifetime.None? then None
    else WithItems(prior, lifetime.value.value, ParseList(ParseItem, lifetime.value.rest))
  }

  function ParseMessage(prior: Received, s: Bytes): Option<Parsed<Received>> {
    var kind := Decode(s);
    if kind.None? then None
    else if kind.value.value == REQUEST then WithRequests(prior, ParseList(Decode, kind.value.rest))
    else if kind.value.value == RESPONSE then ParseResponse(prior, kind.value.rest)
    else Some(Parsed(prior.(kind := kind.value.value), kind.value.rest))
  }

  /** The loops of the parser: the items are filed as they are read. */
  method ReadItems(prior: map<nat, Bytes>, s: Bytes) returns (raw: map<nat, Bytes>, rest: Bytes, ok: bool)
    ensures var items := ParseList(ParseItem, s);
            && ok == items.Some?
            && (ok ==> raw == Keep(prior, items.value.value) && rest == items.value.rest)
  {
    raw, rest, ok := prior, s, false;
    var count := DecodeValue(s);
    if count.None? { return; }
    raw, rest, ok := FileItems(ParseItem, count.value.value, prior, count.value.rest);
  }

  method FileItems(read: Parser<Item>, count: nat, prior: map<nat, Bytes>, s: Bytes)
    returns (raw: map<nat, Bytes>, rest: Bytes, ok: bool)
    ensures var items := ParseCount(read, count, s);
            && ok == items.Some?
            && (ok ==> raw == Keep(prior, items.value.value) && rest == items.value.rest)
  {
    raw, rest, ok := prior, s, false;
    ghost var whole, items := ParseCount(read, count, rest), [];
    assert Prepend([], whole) == whole by { if whole.Some? { assert [] + whole.value.value == whole.value.value; } }
    for i := 0 to count
      invariant whole == Prepend(items, ParseCount(read, count - i, rest))
      invariant raw == Keep(prior, items)
    {
      var item := read(rest);
      if item.None? { return; }
      var x := item.value.value;
      PrependTwice(items, x, ParseCount(read, count - i - 1, item.value.rest));
      KeepNext(prior, items, x);
      raw := raw[x.id := x.payload];
      items := items + [x];
      rest := item.value.rest;
    }
    assert items + [] == items;
    ok := true;
  }

  /** The loop that collects the identifiers of a request. */
  method ReadRequests(prior: set<nat>, s: Bytes) returns (requests: set<nat>, rest: Bytes, ok: bool)
    ensures var ids := ParseList(Decode, s);
            && ok == ids.Some?
            && (ok ==> requests == prior + (set id | id in ids.value.value) && rest == ids.value.rest)
  {
    requests, rest, ok := prior, s, false;
    var count := DecodeValue(s);
    if count.None? { return; }
    var ids := ReadCount(Decode, count.value.value, count.value.rest);
    if ids.None? { return; }
    var list := ids.value.value;
    for i := 0 to |list|
      invariant requests == prior + set id | id in list[..i]
    {
      assert list[..i + 1] == list[..i] + [list[i]];
      requests := requests + {list[i]};
    }
    assert list[..|list|] == list;
    rest, ok := ids.value.rest, true;
  }

  // ---------------------------------------------------------------- round trips

  lemma ItemStages(s: Bytes, id: nat, s1: Bytes, len: nat, s2: Bytes, payload: Bytes, rest: Bytes)
    requires Decode(s) == Some(Parsed(id, s1)) && Decode(s1) == Some(Parsed(len, s2))
    requires s2 == payload + rest && |payload| == len
    ensures ParseItem(s) == Some(Parsed(Item(id, len, payload), rest))
  {
    assert s2[..len] == payload && s2[len..] == rest;
  }

  lemma ItemRoundTrip(item: Item, rest: Bytes)
    requires Honest(item)
    ensures ParseItem(PrintItem(item) + rest) == Some(Parsed(item, rest))
  {
    var id, len := Encode(item.id), Encode(item.announced);
    var s2 := item.payload + rest;
    var s1 := len + s2;
    SdnvRoundTrip(item.id, s1);
    SdnvRoundTrip(item.announced, s2);
    Regrouped3(id, len, item.payload, rest);
    ItemStages(PrintItem(item) + rest, item.id, s1, item.announced, s2, item.payload, rest);
  }

  lemma ItemsReadBack(items: seq<Item>)
    requires forall i :: 0 <= i < |items| ==> Honest(items[i])
    ensures forall i :: 0 <= i < |items| ==> ReadsBack(PrintItem, ParseItem, items[i])
  {
    forall i | 0 <= i < |items|
      ensures ReadsBack(PrintItem, ParseItem, items[i])
    {
      forall rest
        ensures ParseItem(PrintItem(items[i]) + rest) == Some(Parsed(items[i], rest))
      {
        ItemRoundTrip(items[i], rest);
      }
    }
  }

  lemma NumbersReadBack(ids: seq<nat>)
    requires forall i :: 0 <= i < |ids| ==> ids[i] < LIMIT
    ensures forall i :: 0 <= i < |ids| ==> ReadsBack(Encode, Decode, ids[i])
  {
    forall i | 0 <= i < |ids|
      ensures ReadsBack(Encode, Decode, ids[i])
    {
      forall rest
        ensures Decode(Encode(ids[i]) + rest) == Some(Parsed(ids[i], rest))
      {
        SdnvRoundTrip(ids[i], rest);
      }
    }
  }

  lemma ListRoundTrip<T(!new)>(write: Printer<T>, read: Parser<T>, xs: seq<T>, rest: Bytes)
    requires |xs| < LIMIT && forall i :: 0 <= i < |xs| ==> ReadsBack(write, read, xs[i])
    ensures ParseList(read, Encode(|xs|) + (PrintAll(write, xs) + rest)) == Some(Parsed(xs, rest))
  {
    SdnvRoundTrip(|xs|, PrintAll(write, xs) + rest);
    CountedReadBack(write, read, xs, rest);
  }

  lemma RequestStages(prior: Received, s: Bytes, list: Bytes)
    requires Decode(s) == Some(Parsed(REQUEST, list))
    ensures ParseMessage(prior, s) == WithRequests(prior, ParseList(Decode, list))
  {}

  lemma KindFirst(prior: Received, s: Bytes, body: Bytes)
    requires Decode(s) == Some(Parsed(RESPONSE, body))
    ensures ParseMessage(prior, s) == ParseResponse(prior, body)
  {}

  lemma LifetimeNext(prior: Received, body: Bytes, lifetime: nat, list: Bytes, items: seq<Item>, rest: Bytes)
    requires Decode(body) == Some(Parsed(lifetime, list)) && ParseList(ParseItem, list) == Some(Parsed(items, rest))
    ensures ParseResponse(prior, body) == WithItems(prior, lifetime, Some(Parsed(items, rest)))
  {}

  /** A request is read back as the set of identifiers it lists, in whatever order. */
  lemma RequestRoundTrip(prior: Received, ids: seq<nat>, rest: Bytes)
    requires |ids| < LIMIT && forall i :: 0 <= i < |ids| ==> ids[i] < LIMIT
    ensures var all := prior.requests + set id | id in ids;
            ParseMessage(prior, Print(Request(ids)) + rest)
            == Some(Parsed(prior.(kind := 1, requests := all), rest))
  {
    var numbers := PrintAll(Encode, ids);
    var list := Encode(|ids|) + (numbers + rest);
    SdnvRoundTrip(REQUEST, list);
    Regrouped3(Encode(REQUEST), Encode(|ids|), numbers, rest);
    NumbersReadBack(ids);
    ListRoundTrip(Encode, Decode, ids, rest);
    RequestStages(prior, Encode(REQUEST) + list, list);
  }

  lemma ResponseBodyRoundTrip(prior: Received, lifetime: nat, items: seq<Item>, rest: Bytes)
    requires lifetime < LIMIT && |items| < LIMIT && forall i :: 0 <= i < |items| ==> Honest(items[i])
    ensures var body := Encode(lifetime) + (Encode(|items|) + (PrintAll(PrintItem, items) + rest));
            ParseResponse(prior, body) == WithItems(prior, lifetime, Some(Parsed(items, rest)))
  {
    var list := Encode(|items|) + (PrintAll(PrintItem, items) + rest);
    SdnvRoundTrip(lifetime, list);
    ItemsReadBack(items);
    ListRoundTrip(PrintItem, ParseItem, items, rest);
    LifetimeNext(prior, Encode(lifetime) + list, lifetime, list, items, rest);
  }

  lemma ResponseShape(lifetime: nat, items: seq<Item>, rest: Bytes)
    ensures Print(Response(lifetime, items)) + rest
            == Encode(RESPONSE) + (Encode(lifetime) + (Encode(|items|) + (PrintAll(PrintItem, items) + rest)))
  {
    Regrouped(Encode(RESPONSE), Encode(lifetime), Encode(|items|), PrintAll(PrintItem, items), rest);
  }

  /** A response is read back with its lifetime and the items filed under their identifiers. */
  lemma ResponseRoundTrip(prior: Received, lifetime: nat, items: seq<Item>, rest: Bytes)
    requires lifetime < LIMIT && |items| < LIMIT && forall i :: 0 <= i < |items| ==> Honest(items[i])
    ensures ParseMessage(prior, Print(Response(lifetime, items)) + rest)
            == Some(Parsed(prior.(kind := 2, lifetime := lifetime, raw := Keep(prior.raw, items)), rest))
  {
    var body := Encode(lifetime) + (Encode(|items|) + (PrintAll(PrintItem, items) + rest));
    ResponseShape(lifetime, items, rest);
    SdnvRoundTrip(RESPONSE, body);
    KindFirst(prior, Encode(RESPONSE) + body, body);
    ResponseBodyRoundTrip(prior, lifetime, items, rest);
  }

  /** Under each identifier are the bytes of the last item that carries it, and nothing else changes. */
  lemma {:induction false} LastItemIsKept(raw: map<nat, Bytes>, items: seq<Item>, id: nat)
    ensures id in Keep(raw, items) <==> id in raw || exists i :: 0 <= i < |items| && items[i].id == id
    ensures forall i :: 0 <= i < |items| && items[i].id == id && (forall j :: i < j < |items| ==> items[j].id != id)
                        ==> Keep(raw, items)[id] == items[i].payload
    ensures (forall i :: 0 <= i < |items| ==> items[i].id != id) && id in raw ==> Keep(raw, items)[id] == raw[id]
    decreases |items|
  {
    if items != [] {
      var k := |items| - 1;
      LastItemIsKept(raw, items[..k], id);
      assert forall i :: 0 <= i < k ==> items[..k][i] == items[i];
      assert items[k].id == id ==> exists i :: 0 <= i < |items| && items[i].id == id;
    }
  }

  /** Both kinds of vector have the same identifier: of a response with both, only the second is received. */
  lemma SecondVectorReplacesFirst(prior: Received, lifetime: nat, summary: Bytes, purged: Bytes, rest: Bytes)
    requires lifetime < LIMIT && VectorLength(summary) < LIMIT && VectorLength(purged) < LIMIT
    ensures var items := [VectorItem(SUMMARY_VECTOR, summary), VectorItem(PURGE_VECTOR, purged)];
            var received := prior.(kind := 2, lifetime := lifetime, raw := prior.raw[1 := PrintVector(purged)]);
            ParseMessage(prior, Print(Response(lifetime, items)) + rest) == Some(Parsed(received, rest))
  {
    var items := [VectorItem(SUMMARY_VECTOR, summary), VectorItem(PURGE_VECTOR, purged)];
    VectorRoundTrip(SUMMARY_VECTOR, summary, []);
    VectorRoundTrip(PURGE_VECTOR, purged, []);
    ResponseRoundTrip(prior, lifetime, items, rest);
    TwoKept(prior.raw, items[0], items[1]);
    assert items == [items[0], items[1]];
  }

  lemma TwoKept(raw: map<nat, Bytes>, first: Item, second: Item)
    requires first.id == second.id
    ensures Keep(raw, [first, second]) == raw[second.id := second.payload]
  {
    assert Keep(raw, []) == raw;
    KeepNext(raw, [], first);
    assert [] + [first] == [first] && [first] + [second] == [first, second];
    KeepNext(raw, [first], second);
  }
}
