/** From the bytes written at one end of a bundle stream to the bytes read at the other. */
module BundleStreamRoundTrip {
  import opened ByteStrings
  import opened BundleStreamWriter
  import opened BundleStreamReader

  function Remaining(r: Reader): nat {
    if r.chunks == [] || |r.chunks[0].payload| < r.offset then 0 else |r.chunks[0].payload| - r.offset
  }

  /** A call that returns data either consumes something or gets on with the first chunk. */
  lemma {:induction false} UnderflowAdvances(r: Reader, feed: seq<Item>)
    requires OffsetFits(r)
    ensures var res := Underflow(r, feed);
            && OffsetFits(res.reader)
            && Weight(res.reader, res.rest) <= Weight(r, feed)
            && (res.outcome.Data? && Weight(res.reader, res.rest) == Weight(r, feed)
                ==> Remaining(res.reader) < Remaining(r))
    decreases Weight(r, feed)
  {
    if r.lastReceived {
    } else if NeedsInput(r) {
      if feed != [] {
        UnderflowAdvances(Receive(r, feed[0]), feed[1..]);
      }
    } else if PieceOf(r) == [] {
      UnderflowAdvances(ReadPiece(r), feed);
    }
  }

  /** Call `underflow` for as long as it returns data. */
  function ReadToEnd(r: Reader, feed: seq<Item>): Result
    requires OffsetFits(r)
    decreases Weight(r, feed), Remaining(r)
  {
    var res := Underflow(r, feed);
    UnderflowAdvances(r, feed);
    if res.outcome.Data? then ReadToEnd(res.reader, res.rest) else res
  }

  method ReadAll(s: BundleStreamIn) returns (o: Outcome)
    requires OffsetFits(s.Value())
    modifies s
    ensures Result(o, s.Value(), s.feed) == ReadToEnd(old(s.Value()), old(s.feed))
  {
    UnderflowAdvances(s.Value(), s.feed);
    o := s.UnderflowNow();
    while o.Data?
      invariant OffsetFits(s.Value())
      invariant (if o.Data? then ReadToEnd(s.Value(), s.feed) else Result(o, s.Value(), s.feed))
                == ReadToEnd(old(s.Value()), old(s.feed))
      decreases o.Data?, Weight(s.Value(), s.feed), Remaining(s.Value())
    {
      UnderflowAdvances(s.Value(), s.feed);
      o := s.UnderflowNow();
    }
  }

  lemma {:induction false} ReadingKeepsOrder(r: Reader, feed: seq<Item>)
    requires ReaderInv(r)
    ensures ReaderInv(ReadToEnd(r, feed).reader) && r.delivered <= ReadToEnd(r, feed).reader.delivered
    decreases Weight(r, feed), Remaining(r)
  {
    var res := Underflow(r, feed);
    UnderflowAdvances(r, feed);
    UnderflowKeepsOrder(r, feed);
    if res.outcome.Data? { ReadingKeepsOrder(res.reader, res.rest); }
  }

  /**
   * Every run of a reader, for any arrivals, timeouts and settings: the numbers of the chunks it consumed
   * strictly ascend, each was reported once, and the bytes it returned are their payloads in that order,
   * followed by what was read of the chunk that is now the first.
   */
  lemma DeliveryIsOrdered(waitSeqZero: bool, timeout: nat, feed: seq<Item>)
    ensures var r := ReadToEnd(FreshReader(waitSeqZero, timeout), feed).reader;
            && Ascending(r.delivered)
            && OffsetFits(r) && r.out == Flatten(Payloads(r.delivered)) + Partial(r)
            && forall i :: 0 <= i < |r.chunks| ==> r.inSeq <= r.chunks[i].number
  {
    FreshIsInOrder(waitSeqZero, timeout);
    ReadingKeepsOrder(FreshReader(waitSeqZero, timeout), feed);
  }

  /** No request takes longer than the timeout, or there is none. */
  predicate InTime(timeout: nat, feed: seq<Item>) {
    timeout == 0 || forall i :: 0 <= i < |feed| ==> !feed[i].late
  }

  /** The chunks consumed since `was` are those from the number it waited for, without a gap. */
  ghost predicate WithoutGap(was: Reader, r: Reader) {
    && r.streaming && |was.delivered| <= |r.delivered| && r.inSeq - was.inSeq == |r.delivered| - |was.delivered|
    && forall i :: |was.delivered| <= i < |r.delivered| ==> r.delivered[i].number == was.inSeq + i - |was.delivered|
  }

  lemma ReceiveLeavesNoGap(was: Reader, r: Reader, item: Item)
    requires ReaderInv(r) && WithoutGap(was, r) && (r.timeout == 0 || !item.late)
    ensures WithoutGap(was, Receive(r, item)) && Receive(r, item).timeout == r.timeout
  {}

  lemma ConsumeLeavesNoGap(was: Reader, r: Reader)
    requires ReaderInv(r) && WithoutGap(was, r) && !NeedsInput(r) && ConsumesFirst(r)
    ensures WithoutGap(was, ReadPiece(r)) && ReadPiece(r).timeout == r.timeout
  {}

  lemma {:induction false} UnderflowLeavesNoGap(was: Reader, r: Reader, feed: seq<Item>)
    requires ReaderInv(r) && WithoutGap(was, r) && InTime(r.timeout, feed)
    ensures var res := Underflow(r, feed);
            WithoutGap(was, res.reader) && InTime(res.reader.timeout, res.rest)
    decreases Weight(r, feed)
  {
    if r.lastReceived {
    } else if NeedsInput(r) {
      if feed != [] {
        ReceiveKeeps(r, feed[0]);
        ReceiveLeavesNoGap(was, r, feed[0]);
        UnderflowLeavesNoGap(was, Receive(r, feed[0]), feed[1..]);
      }
    } else if ConsumesFirst(r) {
      ConsumeKeeps(r);
      ConsumeLeavesNoGap(was, r);
      if PieceOf(r) == [] { UnderflowLeavesNoGap(was, ReadPiece(r), feed); }
    }
  }

  lemma {:induction false} ReadingLeavesNoGap(was: Reader, r: Reader, feed: seq<Item>)
    requires ReaderInv(r) && WithoutGap(was, r) && InTime(r.timeout, feed)
    ensures WithoutGap(was, ReadToEnd(r, feed).reader)
    decreases Weight(r, feed), Remaining(r)
  {
    var res := Underflow(r, feed);
    UnderflowAdvances(r, feed);
    UnderflowKeepsOrder(r, feed);
    UnderflowLeavesNoGap(was, r, feed);
    if res.outcome.Data? { ReadingLeavesNoGap(was, res.reader, res.rest); }
  }

  /**
   * Once a reader has begun to stream, after a skip or not, all that it consumes is numbered from the one it
   * waits for, without a gap, as long as no request is late.
   */
  lemma StreamingSkipsNothing(r: Reader, feed: seq<Item>)
    requires ReaderInv(r) && r.streaming && InTime(r.timeout, feed)
    ensures var delivered := ReadToEnd(r, feed).reader.delivered;
            && r.delivered <= delivered
            && forall i :: |r.delivered| <= i < |delivered| ==> delivered[i].number == r.inSeq + i - |r.delivered|
  {
    ReadingKeepsOrder(r, feed);
    ReadingLeavesNoGap(r, r, feed);
  }

  /** A reader that waits for number zero skips nothing as long as no request is late, whatever its timeout. */
  lemma NothingIsSkippedInTime(timeout: nat, feed: seq<Item>)
    requires InTime(timeout, feed)
    ensures var delivered := ReadToEnd(FreshReader(true, timeout), feed).reader.delivered;
            forall i :: 0 <= i < |delivered| ==> delivered[i].number == i
  {
    FreshIsInOrder(true, timeout);
    StreamingSkipsNothing(FreshReader(true, timeout), feed);
  }

  // ---------------------------------------------------------------- a complete stream arrives

  ghost predicate Offers(feed: seq<Item>, c: Chunk) {
    exists k :: 0 <= k < |feed| && feed[k].chunk == Some(c)
  }

  ghost predicate OnlyFrom(feed: seq<Item>, stream: seq<Chunk>) {
    forall k :: 0 <= k < |feed| && feed[k].chunk.Some? ==> feed[k].chunk.value in stream
  }

  /** In any order, with any repetitions, every chunk of the stream arrives and no other does. */
  ghost predicate AllArrive(feed: seq<Item>, stream: seq<Chunk>) {
    OnlyFrom(feed, stream) && forall i :: 0 <= i < |stream| ==> Offers(feed, stream[i])
  }

  /** A reader that waits for every chunk is on its way through the stream. */
  ghost predicate OnTrack(stream: seq<Chunk>, r: Reader, feed: seq<Item>) {
    && ReaderInv(r) && r.streaming && InTime(r.timeout, feed)
    && r.inSeq <= |stream| && r.delivered == stream[..r.inSeq]
    && (forall i :: 0 <= i < |r.chunks| ==> r.chunks[i] in stream)
    && OnlyFrom(feed, stream)
    && (forall i :: r.inSeq <= i < |stream| ==> stream[i] in r.chunks || Offers(feed, stream[i]))
    && (r.lastReceived <==> r.inSeq == |stream|)
  }

  lemma StillOffered(feed: seq<Item>, c: Chunk)
    requires feed != [] && Offers(feed, c) && feed[0].chunk != Some(c)
    ensures Offers(feed[1..], c)
  {
    var k :| 0 <= k < |feed| && feed[k].chunk == Some(c);
    assert feed[1..][k - 1].chunk == Some(c);
  }

  lemma ReceivedFromStream(stream: seq<Chunk>, r: Reader, item: Item)
    requires ReaderInv(r) && NeedsInput(r) && (item.chunk.Some? ==> item.chunk.value in stream)
    requires forall i :: 0 <= i < |r.chunks| ==> r.chunks[i] in stream
    ensures forall c :: c in Accept(r, item.chunk).chunks ==> c in stream
    ensures forall c :: c in r.chunks ==> c in Accept(r, item.chunk).chunks
  {
    if item.chunk.Some? && item.chunk.value.number >= r.inSeq { InsertOrdered(r.chunks, item.chunk.value); }
  }

  lemma ReceiveStaysOnTrack(stream: seq<Chunk>, r: Reader, feed: seq<Item>)
    requires CompleteStream(stream) && OnTrack(stream, r, feed) && NeedsInput(r) && feed != []
    ensures OnTrack(stream, Receive(r, feed[0]), feed[1..])
  {
    ReceiveKeeps(r, feed[0]);
    ReceivedFromStream(stream, r, feed[0]);
    var item, r', rest := feed[0], Receive(r, feed[0]), feed[1..];
    assert r'.chunks == Accept(r, item.chunk).chunks;
    forall i | r.inSeq <= i < |stream|
      ensures stream[i] in r'.chunks || Offers(rest, stream[i])
    {
      if item.chunk == Some(stream[i]) {
        InsertedIsThere(stream, r.chunks, stream[i]);
      } else if stream[i] !in r.chunks {
        StillOffered(feed, stream[i]);
      }
    }
  }

  lemma InsertedIsThere(stream: seq<Chunk>, chunks: seq<Chunk>, c: Chunk)
    requires CompleteStream(stream) && c in stream && Ascending(chunks)
    requires forall i :: 0 <= i < |chunks| ==> chunks[i] in stream
    ensures c in Insert(chunks, c)
  {
    InsertOrdered(chunks, c);
    var x :| x in Insert(chunks, c) && x.number == c.number;
    assert x in stream;
  }

  /** A reader on its way never runs dry before the end. */
  lemma NeverStuck(stream: seq<Chunk>, r: Reader)
    requires CompleteStream(stream) && OnTrack(stream, r, []) && !r.lastReceived
    ensures !NeedsInput(r)
  {
    assert !Offers([], stream[r.inSeq]);
    assert stream[r.inSeq] in r.chunks;
  }

  lemma ConsumeStaysOnTrack(stream: seq<Chunk>, r: Reader, feed: seq<Item>)
    requires CompleteStream(stream) && OnTrack(stream, r, feed) && !r.lastReceived
    requires !NeedsInput(r) && ConsumesFirst(r)
    ensures OnTrack(stream, ReadPiece(r), feed)
  {
    ConsumeKeeps(r);
    var c, r' := r.chunks[0], ReadPiece(r);
    assert c in stream;
    assert c == stream[r.inSeq];
    assert stream[..r.inSeq + 1] == stream[..r.inSeq] + [c];
    forall i | r'.inSeq <= i < |stream|
      ensures stream[i] in r'.chunks || Offers(feed, stream[i])
    {
      if stream[i] in r.chunks {
        assert stream[i] != c;
      }
    }
  }

  lemma {:induction false} UnderflowStaysOnTrack(stream: seq<Chunk>, r: Reader, feed: seq<Item>)
    requires CompleteStream(stream) && OnTrack(stream, r, feed)
    ensures var res := Underflow(r, feed);
            !res.outcome.WouldBlock? && OnTrack(stream, res.reader, res.rest)
    decreases Weight(r, feed)
  {
    if r.lastReceived {
    } else if NeedsInput(r) {
      if feed == [] {
        NeverStuck(stream, r);
      } else {
        ReceiveStaysOnTrack(stream, r, feed);
        UnderflowStaysOnTrack(stream, Receive(r, feed[0]), feed[1..]);
      }
    } else if ConsumesFirst(r) {
      ConsumeStaysOnTrack(stream, r, feed);
      if PieceOf(r) == [] {
        UnderflowStaysOnTrack(stream, ReadPiece(r), feed);
      }
    } else {
      AdvanceKeeps(r);
    }
  }

  lemma NumbersAreSmall(stream: seq<Chunk>, r: Reader, feed: seq<Item>)
    requires CompleteStream(stream) && OnTrack(stream, r, feed)
    ensures forall i :: 0 <= i < |r.chunks| ==> r.chunks[i].number < |stream|
  {}

  lemma {:induction false} ReadToEndOfStream(stream: seq<Chunk>, r: Reader, feed: seq<Item>)
    requires CompleteStream(stream) && OnTrack(stream, r, feed)
    ensures var res := ReadToEnd(r, feed);
            && res.outcome.Eof? && res.reader.out == Flatten(Payloads(stream)) && res.reader.delivered == stream
    decreases Weight(r, feed), Remaining(r)
  {
    var res := Underflow(r, feed);
    UnderflowStaysOnTrack(stream, r, feed);
    UnderflowAdvances(r, feed);
    UnderflowKeepsOrder(r, feed);
    if res.outcome.Data? {
      ReadToEndOfStream(stream, res.reader, res.rest);
    } else {
      assert stream[..|stream|] == stream;
      NumbersAreSmall(stream, res.reader, res.rest);
      assert res.reader.offset == 0;
    }
  }

  /**
   * The round trip. Any bytes but none, written and flushed once with any chunk size, the bundles arriving in
   * any order and any number of times each: a reader that waits for sequence number zero, and whose timeout
   * never passes or is not set, reads exactly these bytes and then the end of the stream, and reports every
   * bundle delivered once.
   */
  lemma RoundTrip(bytes: Bytes, chunkSize: nat, timeout: nat, feed: seq<Item>)
    requires bytes != [] && AllArrive(feed, ChunksOf(bytes, chunkSize)) && InTime(timeout, feed)
    ensures var res := ReadToEnd(FreshReader(true, timeout), feed);
            && res.outcome.Eof?
            && res.reader.out == bytes
            && res.reader.delivered == ChunksOf(bytes, chunkSize)
  {
    var stream, r := ChunksOf(bytes, chunkSize), FreshReader(true, timeout);
    ChunksCarryTheBytes(bytes, chunkSize);
    assert Flatten(Payloads([])) + [] == [];
    assert stream[..0] == [];
    ReadToEndOfStream(stream, r, feed);
  }
}
