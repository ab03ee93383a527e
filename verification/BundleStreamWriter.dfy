/**
 * The writing end of an ordered stream over bundles: written bytes are collected in a fixed buffer, the
 * buffer is appended to the payload of the current chunk, and a payload that exceeds the chunk size is sent
 * as a numbered bundle.
 */
module BundleStreamWriter {
  import opened ByteStrings

  const BUFF_SIZE: nat := 5120

  /** A stream bundle: its sequence number, the BEGIN and END flags, and its payload. */
  datatype Chunk = Chunk(number: nat, begin: bool, end: bool, payload: Bytes)

  datatype Writer = Writer(buffer: Bytes, payload: Bytes, number: nat, firstChunk: bool, sent: seq<Chunk>)

  const FRESH_WRITER := Writer([], [], 0, true, [])

  function FlushPayload(w: Writer, final: bool): Writer {
    if w.firstChunk && w.payload == [] then w
    else Writer(w.buffer, [], w.number + 1, false, w.sent + [Chunk(w.number, w.firstChunk, final, w.payload)])
  }

  function Overflow(w: Writer, c: Option<Byte>, chunkSize: nat): Writer {
    var bytes := w.buffer + if c.Some? then [c.value] else [];
    if bytes == [] then w.(buffer := [])
    else
      var w' := w.(buffer := [], payload := w.payload + bytes);
      if |w'.payload| > chunkSize then FlushPayload(w', false) else w'
  }

  function PutByte(w: Writer, c: Byte, chunkSize: nat): Writer {
    if |w.buffer| < BUFF_SIZE - 1 then w.(buffer := w.buffer + [c]) else Overflow(w, Some(c), chunkSize)
  }

  function Sync(w: Writer, chunkSize: nat): Writer {
    FlushPayload(Overflow(w, None, chunkSize), true)
  }

  function PutBytes(w: Writer, bytes: Bytes, chunkSize: nat): Writer
    decreases |bytes|
  {
    if bytes == [] then w
    else var k := |bytes| - 1; PutByte(PutBytes(w, bytes[..k], chunkSize), bytes[k], chunkSize)
  }

  /** The bundles sent for these bytes, written in any way and then flushed once. */
  function ChunksOf(bytes: Bytes, chunkSize: nat): seq<Chunk> {
    Sync(PutBytes(FRESH_WRITER, bytes, chunkSize), chunkSize).sent
  }

  function Payloads(chunks: seq<Chunk>): (r: seq<Bytes>)
    ensures |r| == |chunks|
    ensures forall i :: 0 <= i < |r| ==> r[i] == chunks[i].payload
  {
    seq(|chunks|, i requires 0 <= i < |chunks| => chunks[i].payload)
  }

  lemma PayloadsSnoc(chunks: seq<Chunk>, c: Chunk)
    ensures Flatten(Payloads(chunks + [c])) == Flatten(Payloads(chunks)) + c.payload
  {
    assert Payloads(chunks + [c]) == Payloads(chunks) + [c.payload];
    FlattenSnoc(Payloads(chunks), c.payload);
  }

  // ---------------------------------------------------------------- the object

  class BundleStreamOut {
    const chunkSize: nat
    const inBuf: array<Byte>
    var pptr: nat
    var chunkPayload: Bytes
    var outSeq: nat
    var firstChunk: bool
    var put: seq<Chunk>

    ghost predicate Valid()
      reads this, inBuf
    {
      inBuf.Length == BUFF_SIZE && pptr < BUFF_SIZE
    }

    ghost function Value(): Writer
      requires Valid()
      reads this, inBuf
    {
      Writer(inBuf[..pptr], chunkPayload, outSeq, firstChunk, put)
    }

    constructor (size: nat)
      ensures Valid() && fresh(inBuf) && chunkSize == size && Value() == FRESH_WRITER
    {
      chunkSize, pptr, chunkPayload, outSeq, firstChunk, put := size, 0, [], 0, true, [];
      inBuf := new Byte[BUFF_SIZE];
    }

    method FlushChunk(final: bool)
      requires Valid()
      modifies this`chunkPayload, this`outSeq, this`firstChunk, this`put
      ensures Valid() && Value() == FlushPayload(old(Value()), final)
    {
      if firstChunk && |chunkPayload| == 0 { return; }
      var block := Chunk(outSeq, firstChunk, final, chunkPayload);
      if firstChunk { firstChunk := false; }
      put := put + [block];
      chunkPayload := [];
      outSeq := outSeq + 1;
    }

    method HandleOverflow(c: Option<Byte>)
      requires Valid()
      modifies this`pptr, this`chunkPayload, this`outSeq, this`firstChunk, this`put, inBuf
      ensures Valid() && Value() == Overflow(old(Value()), c, chunkSize)
    {
      var iend := pptr;
      pptr := 0;
      if c.Some? {
        inBuf[iend] := c.value;
        iend := iend + 1;
      }
      assert inBuf[..iend] == old(inBuf[..pptr]) + if c.Some? then [c.value] else [];
      if iend == 0 { return; }
      chunkPayload := chunkPayload + inBuf[..iend];
      if |chunkPayload| > chunkSize {
        FlushChunk(false);
      }
    }

    method Write(bytes: Bytes)
      requires Valid()
      modifies this`pptr, this`chunkPayload, this`outSeq, this`firstChunk, this`put, inBuf
      ensures Valid() && Value() == PutBytes(old(Value()), bytes, chunkSize)
    {
      var k := 0;
      while k < |bytes|
        invariant 0 <= k <= |bytes|
        invariant Valid() && Value() == PutBytes(old(Value()), bytes[..k], chunkSize)
      {
        assert bytes[..k + 1][..k] == bytes[..k];
        if pptr < BUFF_SIZE - 1 {
          inBuf[pptr] := bytes[k];
          pptr := pptr + 1;
        } else {
          HandleOverflow(Some(bytes[k]));
        }
        k := k + 1;
      }
      assert bytes[..k] == bytes;
    }

    method Flush()
      requires Valid()
      modifies this`pptr, this`chunkPayload, this`outSeq, this`firstChunk, this`put, inBuf
      ensures Valid() && Value() == Sync(old(Value()), chunkSize)
    {
      HandleOverflow(None);
      FlushChunk(true);
    }
  }

  /** Writes in several calls are one write of all their bytes. */
  lemma {:induction false} WritesConcatenate(w: Writer, a: Bytes, b: Bytes, chunkSize: nat)
    ensures PutBytes(PutBytes(w, a, chunkSize), b, chunkSize) == PutBytes(w, a + b, chunkSize)
    decreases |b|
  {
    if b == [] {
      assert a + b == a;
    } else {
      var k := |b| - 1;
      WritesConcatenate(w, a, b[..k], chunkSize);
      assert (a + b)[..|a + b| - 1] == a + b[..k];
    }
  }

  // ---------------------------------------------------------------- what is sent

  /** Chunks sent so far: numbered from 0, only the first one BEGIN, none END, each just over the chunk size. */
  ghost predicate Unfinished(chunks: seq<Chunk>, chunkSize: nat) {
    forall i :: 0 <= i < |chunks| ==>
      && chunks[i].number == i
      && chunks[i].begin == (i == 0)
      && !chunks[i].end
      && chunkSize < |chunks[i].payload| <= chunkSize + BUFF_SIZE
  }

  ghost predicate WriterInv(w: Writer, chunkSize: nat, written: Bytes) {
    && |w.buffer| < BUFF_SIZE
    && |w.payload| <= chunkSize
    && w.number == |w.sent|
    && w.firstChunk == (w.sent == [])
    && Unfinished(w.sent, chunkSize)
    && Flatten(Payloads(w.sent)) + w.payload + w.buffer == written
  }

  lemma SentAllOf(w: Writer, added: Bytes, written: Bytes)
    requires Flatten(Payloads(w.sent)) + w.payload + w.buffer == written
    ensures var payload := w.payload + (w.buffer + added);
            && Flatten(Payloads(w.sent)) + payload == written + added
            && Flatten(Payloads(w.sent + [Chunk(w.number, w.firstChunk, false, payload)])) == written + added
  {
    PayloadsSnoc(w.sent, Chunk(w.number, w.firstChunk, false, w.payload + (w.buffer + added)));
  }

  /** What an overflow does, as one of two cases. */
  lemma OverflowShape(w: Writer, c: Option<Byte>, chunkSize: nat)
    requires |w.payload| <= chunkSize
    ensures var payload := w.payload + (w.buffer + if c.Some? then [c.value] else []);
            Overflow(w, c, chunkSize)
            == if |payload| > chunkSize
               then w.(buffer := [], payload := [], number := w.number + 1, firstChunk := false,
                       sent := w.sent + [Chunk(w.number, w.firstChunk, false, payload)])
               else w.(buffer := [], payload := payload)
  {
    assert w.payload + [] == w.payload;
  }

  lemma NothingBuffered(w: Writer, written: Bytes)
    requires w.buffer == [] && Flatten(Payloads(w.sent)) + w.payload == written
    ensures Flatten(Payloads(w.sent)) + w.payload + w.buffer == written
  {}

  lemma OverflowKeeps(w: Writer, c: Option<Byte>, chunkSize: nat, written: Bytes)
    requires WriterInv(w, chunkSize, written)
    ensures var w' := Overflow(w, c, chunkSize);
            && WriterInv(w', chunkSize, written + if c.Some? then [c.value] else [])
            && w'.buffer == []
  {
    var added := if c.Some? then [c.value] else [];
    SentAllOf(w, added, written);
    OverflowShape(w, c, chunkSize);
    NothingBuffered(Overflow(w, c, chunkSize), written + added);
  }

  lemma {:induction false} PutBytesKeeps(w: Writer, bytes: Bytes, chunkSize: nat, written: Bytes)
    requires WriterInv(w, chunkSize, written)
    ensures WriterInv(PutBytes(w, bytes, chunkSize), chunkSize, written + bytes)
    decreases |bytes|
  {
    if bytes == [] {
      assert written + bytes == written;
    } else {
      var k := |bytes| - 1;
      var p := PutBytes(w, bytes[..k], chunkSize);
      PutBytesKeeps(w, bytes[..k], chunkSize, written);
      assert written + bytes == (written + bytes[..k]) + [bytes[k]];
      if |p.buffer| >= BUFF_SIZE - 1 {
        OverflowKeeps(p, Some(bytes[k]), chunkSize, written + bytes[..k]);
      }
    }
  }

  /** A whole stream: numbered 0..n-1, only the first is BEGIN, only the last is END. */
  ghost predicate CompleteStream(chunks: seq<Chunk>) {
    && chunks != []
    && forall i :: 0 <= i < |chunks| ==>
         && chunks[i].number == i
         && chunks[i].begin == (i == 0)
         && chunks[i].end == (i == |chunks| - 1)
  }

  /** Nothing written, nothing sent. */
  lemma NothingSentForNothing(chunkSize: nat)
    ensures ChunksOf([], chunkSize) == []
  {
    assert Overflow(FRESH_WRITER, None, chunkSize) == FRESH_WRITER;
  }

  /**
   * Any non-empty input is sent as a complete stream whose payloads concatenate to it; every chunk but the
   * last exceeds the chunk size, and by at most one buffer; the last never exceeds it.
   */
  lemma ChunksCarryTheBytes(bytes: Bytes, chunkSize: nat)
    requires bytes != []
    ensures var chunks := ChunksOf(bytes, chunkSize);
            && CompleteStream(chunks)
            && Flatten(Payloads(chunks)) == bytes
            && (forall i :: 0 <= i < |chunks| - 1 ==> chunkSize < |chunks[i].payload| <= chunkSize + BUFF_SIZE)
            && |chunks[|chunks| - 1].payload| <= chunkSize
  {
    assert Flatten(Payloads([])) + [] + [] == [];
    PutBytesKeeps(FRESH_WRITER, bytes, chunkSize, []);
    assert [] + bytes == bytes;
    var w := PutBytes(FRESH_WRITER, bytes, chunkSize);
    OverflowKeeps(w, None, chunkSize, bytes);
    var w' := Overflow(w, None, chunkSize);
    assert bytes + [] == bytes;
    PayloadsSnoc(w'.sent, Chunk(w'.number, w'.firstChunk, true, w'.payload));
  }
}
