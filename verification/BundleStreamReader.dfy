/**
 * The reading end of an ordered stream over bundles. Arriving chunks are kept in a set ordered by sequence
 * number, stale ones are dropped, a gap is waited for or skipped, and each chunk is read in pieces of one
 * buffer.
 */
module BundleStreamReader {
  import opened ByteStrings
  import opened BundleStreamWriter

  /**
   * What one request to the callback yields: a chunk, or nothing because it timed out. `late` tells whether
   * more than the receive timeout has passed since the reader began to wait.
   */
  datatype Item = Item(chunk: Option<Chunk>, late: bool)

  datatype Reader = Reader(
    chunks: seq<Chunk>,       // buffered, by ascending sequence number
    offset: nat,              // bytes already read of the first buffered chunk
    inSeq: nat,
    streaming: bool,
    lastReceived: bool,
    timeout: nat,             // 0 is "none"
    delivered: seq<Chunk>,    // the chunks reported as delivered, in order
    out: Bytes)               // history: all bytes returned so far

  datatype Outcome = Data(bytes: Bytes) | Eof | WouldBlock

  datatype Result = Result(outcome: Outcome, reader: Reader, rest: seq<Item>)

  function FreshReader(waitSeqZero: bool, timeout: nat): Reader {
    Reader([], 0, 0, waitSeqZero, false, timeout, [], [])
  }

  /** Insertion into the ordered set: a number that is present already keeps its chunk. */
  function Insert(chunks: seq<Chunk>, c: Chunk): (r: seq<Chunk>)
    ensures |r| <= |chunks| + 1 && r != []
  {
    if chunks == [] then [c]
    else if c.number < chunks[0].number then [c] + chunks
    else if c.number == chunks[0].number then chunks
    else [chunks[0]] + Insert(chunks[1..], c)
  }

  lemma InsertBehind(chunks: seq<Chunk>, k: nat, c: Chunk)
    requires k < |chunks| && chunks[k].number < c.number
    ensures chunks[..k] + Insert(chunks[k..], c) == chunks[..k + 1] + Insert(chunks[k + 1..], c)
  {
    var rest := Insert(chunks[k + 1..], c);
    assert chunks[k..][1..] == chunks[k + 1..];
    assert chunks[..k + 1] == chunks[..k] + [chunks[k]];
    Associate(chunks[..k], [chunks[k]], rest);
  }

  function Accept(r: Reader, c: Option<Chunk>): Reader {
    if c.Some? && c.value.number >= r.inSeq then r.(chunks := Insert(r.chunks, c.value)) else r
  }

  /** The reader cannot go on with what it has buffered. */
  predicate NeedsInput(r: Reader) {
    r.chunks == [] || r.inSeq != r.chunks[0].number
  }

  /** One round of the receiving loops; only with something buffered may missing chunks be skipped. */
  function Receive(r: Reader, item: Item): (r': Reader)
    ensures |r'.chunks| <= |r.chunks| + 1
  {
    var a := Accept(r, item.chunk);
    if r.chunks != [] && ((r.timeout > 0 && item.late) || !r.streaming) then
      a.(inSeq := a.chunks[0].number, streaming := true)
    else a
  }

  function PieceOf(r: Reader): Bytes
    requires r.chunks != [] && r.offset <= |r.chunks[0].payload|
  {
    var rest := r.chunks[0].payload[r.offset..];
    if |rest| < BUFF_SIZE then rest else rest[..BUFF_SIZE]
  }

  /** Read up to one buffer of the first chunk; reaching the end of its payload consumes it. */
  function ReadPiece(r: Reader): Reader
    requires r.chunks != [] && r.offset <= |r.chunks[0].payload|
  {
    var c, bytes := r.chunks[0], PieceOf(r);
    if |c.payload| - r.offset < BUFF_SIZE then
      r.(lastReceived := r.lastReceived || c.end, delivered := r.delivered + [c], chunks := r.chunks[1..],
         offset := 0, inSeq := r.inSeq + 1, out := r.out + bytes)
    else
      r.(offset := r.offset + BUFF_SIZE, out := r.out + bytes)
  }

  predicate OffsetFits(r: Reader) {
    r.offset == 0 || (r.chunks != [] && r.inSeq == r.chunks[0].number && r.offset <= |r.chunks[0].payload|)
  }

  function Weight(r: Reader, feed: seq<Item>): nat {
    2 * |feed| + |r.chunks|
  }

  /** One call of `underflow`, fed by the requests it makes; it blocks when it needs more than there is. */
  function Underflow(r: Reader, feed: seq<Item>): (res: Result)
    requires OffsetFits(r)
    decreases Weight(r, feed)
  {
    if r.lastReceived then Result(Eof, r, feed)
    else if NeedsInput(r) then
      if feed == [] then Result(WouldBlock, r, [])
      else Underflow(Receive(r, feed[0]), feed[1..])
    else
      var r' := ReadPiece(r);
      if PieceOf(r) == [] then Underflow(r', feed) else Result(Data(PieceOf(r)), r', feed)
  }

  // ---------------------------------------------------------------- the object

  class BundleStreamIn {
    var chunks: seq<Chunk>
    var chunkOffset: nat
    var inSeq: nat
    var streaming: bool
    var lastChunkReceived: bool
    const timeoutReceive: nat

    var feed: seq<Item>           // what the callback will yield
    var delivered: seq<Chunk>     // what was reported to the callback
    ghost var out: Bytes

    ghost function Value(): Reader
      reads this
    {
      Reader(chunks, chunkOffset, inSeq, streaming, lastChunkReceived, timeoutReceive, delivered, out)
    }

    constructor (waitSeqZero: bool, timeout: nat, source: seq<Item>)
      ensures Value() == FreshReader(waitSeqZero, timeout) && feed == source
    {
      chunks, chunkOffset, inSeq, streaming, lastChunkReceived := [], 0, 0, waitSeqZero, false;
      timeoutReceive, feed, delivered, out := timeout, source, [], [];
    }

    method InsertChunk(c: Chunk)
      modifies this`chunks
      ensures chunks == Insert(old(chunks), c)
    {
      var k := 0;
      while k < |chunks| && chunks[k].number < c.number
        invariant 0 <= k <= |chunks|
        invariant chunks == old(chunks)
        invariant Insert(chunks, c) == chunks[..k] + Insert(chunks[k..], c)
      {
        InsertBehind(chunks, k, c);
        k := k + 1;
      }
      assert chunks == chunks[..k] + chunks[k..];
      if k == |chunks| || chunks[k].number != c.number {
        chunks := chunks[..k] + ([c] + chunks[k..]);
      }
    }

    /** One request to the callback: an arriving chunk is kept unless it is stale. */
    method RequestChunk() returns (item: Item)
      requires feed != []
      modifies this`feed, this`chunks
      ensures item == old(feed)[0] && feed == old(feed)[1..]
      ensures Value() == Accept(old(Value()), item.chunk)
    {
      item := feed[0];
      feed := feed[1..];
      if item.chunk.Some? && item.chunk.value.number >= inSeq {
        InsertChunk(item.chunk.value);
      }
    }

    method ReadFirstChunk() returns (bytes: Bytes)
      requires chunks != [] && chunkOffset <= |chunks[0].payload|
      modifies this`lastChunkReceived, this`delivered, this`chunks, this`chunkOffset, this`inSeq, this`out
      ensures bytes == PieceOf(old(Value())) && Value() == ReadPiece(old(Value()))
    {
      var c := chunks[0];
      var rest := c.payload[chunkOffset..];
      bytes := if |rest| < BUFF_SIZE then rest else rest[..BUFF_SIZE];
      out := out + bytes;
      if |rest| < BUFF_SIZE {
        if c.end { lastChunkReceived := true; }
        delivered := delivered + [c];
        chunks := chunks[1..];
        chunkOffset := 0;
        inSeq := inSeq + 1;
      } else {
        chunkOffset := chunkOffset + |bytes|;
      }
    }

    /** One round of the wait for the next number; missing chunks are skipped after the timeout or at the start. */
    method WaitForTurn()
      requires feed != [] && chunks != []
      modifies this`feed, this`chunks, this`inSeq, this`streaming
      ensures Value() == Receive(old(Value()), old(feed)[0]) && feed == old(feed)[1..]
      ensures (timeoutReceive > 0 && old(feed)[0].late) || !old(streaming)
              ==> streaming && chunks != [] && inSeq == chunks[0].number
      ensures !((timeoutReceive > 0 && old(feed)[0].late) || !old(streaming))
              ==> streaming == old(streaming) && inSeq == old(inSeq)
    {
      var item := RequestChunk();
      if (timeoutReceive > 0 && item.late) || !streaming {
        inSeq := chunks[0].number;
        streaming := true;
      }
    }

    method UnderflowNow() returns (o: Outcome)
      requires OffsetFits(Value())
      modifies this
      ensures Result(o, Value(), feed) == Underflow(old(Value()), old(feed))
      decreases Weight(Value(), feed)
    {
      ghost var goal, weight := Underflow(Value(), feed), Weight(Value(), feed);
      if lastChunkReceived { return Eof; }

      while |chunks| == 0
        invariant OffsetFits(Value()) && !lastChunkReceived
        invariant Underflow(Value(), feed) == goal && Weight(Value(), feed) <= weight
        decreases |feed|
      {
        if |feed| == 0 { return WouldBlock; }
        ghost var r := Value();
        var item := RequestChunk();
        assert Value() == Receive(r, item);
      }

      while inSeq != chunks[0].number
        invariant OffsetFits(Value()) && !lastChunkReceived && chunks != []
        invariant Underflow(Value(), feed) == goal && Weight(Value(), feed) <= weight
        decreases |feed|
      {
        if |feed| == 0 { return WouldBlock; }
        WaitForTurn();
      }

      var bytes := ReadFirstChunk();
      if |bytes| == 0 {
        o := UnderflowNow();
      } else {
        o := Data(bytes);
      }
    }
  }

  // ---------------------------------------------------------------- ordered delivery, whatever arrives

  ghost predicate Ascending(chunks: seq<Chunk>) {
    forall i, j :: 0 <= i < j < |chunks| ==> chunks[i].number < chunks[j].number
  }

  /** The bytes of the chunk that is partly read. */
  function Partial(r: Reader): Bytes
    requires OffsetFits(r)
  {
    if r.offset == 0 then [] else r.chunks[0].payload[..r.offset]
  }

  /**
   * Nothing buffered is stale, a partly read chunk is the first one and is next in turn, consumed sequence
   * numbers ascend, and the bytes returned are the consumed payloads followed by what was read of the first.
   */
  ghost predicate ReaderInv(r: Reader) {
    && OffsetFits(r)
    && Ascending(r.chunks)
    && (forall i :: 0 <= i < |r.chunks| ==> r.inSeq <= r.chunks[i].number)
    && Ascending(r.delivered)
    && (forall i :: 0 <= i < |r.delivered| ==> r.delivered[i].number < r.inSeq)
    && r.out == Flatten(Payloads(r.delivered)) + Partial(r)
  }

  lemma {:induction false} InsertOrdered(chunks: seq<Chunk>, c: Chunk)
    requires Ascending(chunks)
    ensures Ascending(Insert(chunks, c))
    ensures forall x :: x in Insert(chunks, c) ==> x == c || x in chunks
    ensures forall x :: x in chunks ==> x in Insert(chunks, c)
    ensures exists x :: x in Insert(chunks, c) && x.number == c.number
  {
    if chunks == [] {
      assert c in Insert(chunks, c);
    } else if c.number < chunks[0].number {
      assert c in Insert(chunks, c);
    } else if c.number == chunks[0].number {
      assert chunks[0] in Insert(chunks, c);
    } else {
      var rest := Insert(chunks[1..], c);
      InsertOrdered(chunks[1..], c);
      assert Insert(chunks, c) == [chunks[0]] + rest;
      forall j | 0 <= j < |rest|
        ensures chunks[0].number < rest[j].number
      {
        assert rest[j] in rest;
      }
      var x :| x in rest && x.number == c.number;
      assert x in Insert(chunks, c);
    }
  }

  lemma AcceptKeeps(r: Reader, c: Option<Chunk>)
    requires ReaderInv(r) && r.offset == 0
    ensures ReaderInv(Accept(r, c))
  {
    var a := Accept(r, c);
    if c.Some? && c.value.number >= r.inSeq {
      InsertOrdered(r.chunks, c.value);
      forall i | 0 <= i < |a.chunks|
        ensures r.inSeq <= a.chunks[i].number
      {
        assert a.chunks[i] in a.chunks;
      }
    }
  }

  lemma ReceiveKeeps(r: Reader, item: Item)
    requires ReaderInv(r) && NeedsInput(r)
    ensures var r' := Receive(r, item);
            && ReaderInv(r')
            && r'.out == r.out && r'.delivered == r.delivered && r.inSeq <= r'.inSeq && r.offset == 0
  {
    AcceptKeeps(r, item.chunk);
  }

  predicate ConsumesFirst(r: Reader)
    requires r.chunks != []
  {
    |r.chunks[0].payload| - r.offset < BUFF_SIZE
  }

  lemma RestOfFirst(r: Reader)
    requires OffsetFits(r) && !NeedsInput(r) && ConsumesFirst(r) && r.offset <= |r.chunks[0].payload|
    ensures r.chunks[0].payload == Partial(r) + PieceOf(r)
  {}

  lemma ConsumeKeepsData(r: Reader)
    requires ReaderInv(r) && !NeedsInput(r) && ConsumesFirst(r)
    ensures ReadPiece(r).out == Flatten(Payloads(ReadPiece(r).delivered))
  {
    RestOfFirst(r);
    PayloadsSnoc(r.delivered, r.chunks[0]);
    Associate(Flatten(Payloads(r.delivered)), Partial(r), PieceOf(r));
  }

  lemma ConsumeKeeps(r: Reader)
    requires ReaderInv(r) && !NeedsInput(r) && ConsumesFirst(r)
    ensures ReaderInv(ReadPiece(r))
  {
    var c, r' := r.chunks[0], ReadPiece(r);
    ConsumeKeepsData(r);
    assert r'.delivered == r.delivered + [c] && r'.chunks == r.chunks[1..];
    assert Partial(r') == [];
    assert Ascending(r'.chunks) && Ascending(r'.delivered);
  }

  lemma AdvancedPartial(r: Reader)
    requires OffsetFits(r) && !NeedsInput(r) && !ConsumesFirst(r)
    ensures OffsetFits(ReadPiece(r)) && Partial(ReadPiece(r)) == Partial(r) + PieceOf(r) && PieceOf(r) != []
  {}

  lemma AdvanceKeeps(r: Reader)
    requires ReaderInv(r) && !NeedsInput(r) && !ConsumesFirst(r)
    ensures ReaderInv(ReadPiece(r)) && PieceOf(r) != []
  {
    AdvancedPartial(r);
    Associate(Flatten(Payloads(r.delivered)), Partial(r), PieceOf(r));
  }

  /** From one call of `underflow` to the next: nothing is taken back, and exactly `bytes` are returned. */
  ghost predicate Progress(r: Reader, r': Reader, bytes: Bytes) {
    && r.delivered <= r'.delivered && r.inSeq <= r'.inSeq
    && r'.out == r.out + bytes
    && (r.offset > 0 && r.chunks != [] ==>
         || (r'.chunks == r.chunks && r'.delivered == r.delivered)
         || r.delivered + [r.chunks[0]] <= r'.delivered)
  }

  function BytesOf(o: Outcome): Bytes {
    if o.Data? then o.bytes else []
  }

  /**
   * For any arrivals, timeouts and settings every call of `underflow` keeps the order: chunks are consumed
   * with strictly ascending numbers, reported once each, and their payloads are what is returned. A partly
   * read chunk stays the first until it is consumed.
   */
  lemma {:induction false} UnderflowKeepsOrder(r: Reader, feed: seq<Item>)
    requires ReaderInv(r)
    ensures var res := Underflow(r, feed);
            && ReaderInv(res.reader) && Progress(r, res.reader, BytesOf(res.outcome))
            && (res.outcome.Data? ==> res.outcome.bytes != [])
            && (res.outcome.Eof? <==> res.reader.lastReceived && !res.outcome.Data?)
    decreases Weight(r, feed)
  {
    if r.lastReceived {
    } else if NeedsInput(r) {
      if feed != [] {
        ReceiveKeeps(r, feed[0]);
        UnderflowKeepsOrder(Receive(r, feed[0]), feed[1..]);
      }
    } else if ConsumesFirst(r) {
      ConsumeKeeps(r);
      if PieceOf(r) == [] {
        UnderflowKeepsOrder(ReadPiece(r), feed);
      }
    } else {
      AdvanceKeeps(r);
    }
  }

  /** A new reader, whatever its settings, has read nothing. */
  lemma FreshIsInOrder(waitSeqZero: bool, timeout: nat)
    ensures ReaderInv(FreshReader(waitSeqZero, timeout))
  {
    assert Flatten(Payloads([])) + [] == [];
  }

  // ---------------------------------------------------------------- when a gap is skipped

  /** A number below all others in the buffer. */
  ghost predicate IsSmallest(c: Chunk, chunks: seq<Chunk>) {
    c in chunks && forall x :: x in chunks ==> c.number <= x.number
  }

  lemma HeadIsSmallest(chunks: seq<Chunk>)
    requires chunks != [] && Ascending(chunks)
    ensures IsSmallest(chunks[0], chunks)
  {}

  /**
   * A reader that waits for a number can go on after one more request exactly if it has not begun to stream,
   * or its timeout is set and has passed, or the awaited chunk came; and then with the smallest it has. From then
   * on it streams.
   */
  lemma GoesOnIff(r: Reader, item: Item)
    requires ReaderInv(r) && NeedsInput(r) && r.chunks != []
    ensures var r' := Receive(r, item);
            && (!NeedsInput(r') <==>
                 !r.streaming || (r.timeout > 0 && item.late)
                 || (item.chunk.Some? && item.chunk.value.number == r.inSeq))
            && r'.chunks != [] && IsSmallest(r'.chunks[0], Accept(r, item.chunk).chunks)
            && (NeedsInput(r') ==> r'.inSeq == r.inSeq) && r'.streaming
  {
    AcceptKeeps(r, item.chunk);
    HeadIsSmallest(Accept(r, item.chunk).chunks);
    if item.chunk.Some? && item.chunk.value.number >= r.inSeq {
      InsertOrdered(r.chunks, item.chunk.value);
      InsertedHead(r.chunks, item.chunk.value);
    }
  }

  lemma InsertedHead(chunks: seq<Chunk>, c: Chunk)
    requires chunks != []
    ensures Insert(chunks, c)[0] == if c.number < chunks[0].number then c else chunks[0]
  {}

  /** The chunk is read next: it is consumed, or bytes of it are returned and it stays the first. */
  ghost predicate ReadsNext(c: Chunk, r: Reader, res: Result) {
    || r.delivered + [c] <= res.reader.delivered
    || (&& res.outcome.Data? && res.outcome.bytes != [] && res.outcome.bytes <= c.payload
        && res.reader.delivered == r.delivered && res.reader.chunks != [] && res.reader.chunks[0] == c)
  }

  lemma ReadsHead(r: Reader, feed: seq<Item>)
    requires ReaderInv(r) && !NeedsInput(r) && !r.lastReceived && r.offset == 0
    ensures ReadsNext(r.chunks[0], r, Underflow(r, feed))
  {
    if ConsumesFirst(r) {
      ConsumeKeeps(r);
      if PieceOf(r) == [] { UnderflowKeepsOrder(ReadPiece(r), feed); }
    } else {
      AdvanceKeeps(r);
      assert PieceOf(r) <= r.chunks[0].payload;
    }
  }

  /** Once the timeout has passed, a reader with something buffered goes on with the smallest number it has. */
  lemma LateSkips(r: Reader, feed: seq<Item>)
    requires ReaderInv(r) && NeedsInput(r) && r.chunks != [] && !r.lastReceived
    requires feed != [] && r.timeout > 0 && feed[0].late
    ensures exists c :: IsSmallest(c, Accept(r, feed[0].chunk).chunks) && ReadsNext(c, r, Underflow(r, feed))
  {
    ReceiveKeeps(r, feed[0]);
    GoesOnIff(r, feed[0]);
    var r' := Receive(r, feed[0]);
    ReadsHead(r', feed[1..]);
    assert IsSmallest(r'.chunks[0], Accept(r, feed[0].chunk).chunks) && ReadsNext(r'.chunks[0], r, Underflow(r, feed));
  }

  /**
   * A reader that does not wait for number zero starts, after its first chunk and one more request, with the
   * smaller of what these two brought; with number zero it starts at once.
   */
  lemma StartsWithSmallest(timeout: nat, c: Chunk, late: bool, feed: seq<Item>)
    requires c.number == 0 || feed != []
    ensures var r, first := FreshReader(false, timeout), Item(Some(c), late);
            var res := Underflow(r, [first] + feed);
            && (c.number == 0 ==> ReadsNext(c, r, res))
            && (c.number > 0 ==>
                 exists x :: IsSmallest(x, Accept(Accept(r, Some(c)), feed[0].chunk).chunks) && ReadsNext(x, r, res))
  {
    var r, first := FreshReader(false, timeout), Item(Some(c), late);
    var r1 := Receive(r, first);
    FreshIsInOrder(false, timeout);
    ReceiveKeeps(r, first);
    assert r1 == Accept(r, Some(c)) && r1.chunks == [c];
    assert ([first] + feed)[1..] == feed;
    if c.number == 0 {
      ReadsHead(r1, feed);
    } else {
      ReceiveKeeps(r1, feed[0]);
      GoesOnIff(r1, feed[0]);
      var r2 := Receive(r1, feed[0]);
      ReadsHead(r2, feed[1..]);
      assert IsSmallest(r2.chunks[0], Accept(r1, feed[0].chunk).chunks) && ReadsNext(r2.chunks[0], r, Underflow(r2, feed[1..]));
    }
  }

  /** Requests that bring nothing change nothing while nothing is buffered. */
  lemma EmptyRequest(r: Reader, late: bool, feed: seq<Item>)
    requires OffsetFits(r) && r.chunks == [] && !r.lastReceived
    ensures Underflow(r, [Item(None, late)] + feed) == Underflow(r, feed)
  {
    assert ([Item(None, late)] + feed)[1..] == feed;
  }
}
