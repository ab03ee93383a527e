/**
 * What the outbound half of a stream makes of a sequence of flushed messages, and when the inbound half of
 * the peer takes all of it. A message whose length is a positive multiple of the segment size ends without
 * a LAST mark, because at the flush nothing is buffered any more.
 */
module Segmentation {
  import opened ByteStrings
  import opened DatagramStream
  import opened Modular
  import opened StopAndWait

  datatype Link = Link(bufSize: nat, maxSeqNo: nat) {
    predicate Valid() { bufSize > 0 && maxSeqNo > 0 }
  }

  function PutAll(link: Link, o: Outbound, bytes: Bytes): Outbound
    requires link.Valid()
    decreases |bytes|
  {
    if bytes == [] then o
    else
      var k := |bytes| - 1;
      Put(PutAll(link, o, bytes[..k]), bytes[k], link.bufSize, link.maxSeqNo)
  }

  function WriteMessage(link: Link, o: Outbound, message: Bytes): Outbound
    requires link.Valid()
  {
    Flush(PutAll(link, o, message), link.maxSeqNo)
  }

  /** The outbound half after writing and flushing each of the messages. */
  function WriteAll(link: Link, messages: seq<Bytes>): Outbound
    requires link.Valid()
    decreases |messages|
  {
    if messages == [] then FRESH_OUTBOUND
    else
      var k := |messages| - 1;
      WriteMessage(link, WriteAll(link, messages[..k]), messages[k])
  }

  /** The same bytes written and flushed on the stream object produce the same segments. */
  method SendMessage(s: Stream, message: Bytes)
    requires s.Valid() && !s.abort && s.outLen == 0
    modifies s`outLen, s`sent, s`outSeqNum, s`outMark, s.outBuf
    ensures s.Valid()
    ensures s.Out() == WriteMessage(Link(s.bufSize, s.maxSeqNo), old(s.Out()), message)
  {
    ghost var link := Link(s.bufSize, s.maxSeqNo);
    var k := 0;
    while k < |message|
      invariant 0 <= k <= |message|
      invariant s.Valid() && !s.abort
      invariant s.Out() == PutAll(link, old(s.Out()), message[..k])
    {
      assert message[..k + 1][..k] == message[..k];
      var _ := s.WriteByte(message[k], true);
      k := k + 1;
    }
    assert message[..k] == message;
    var _ := s.Sync(true);
  }

  function SegmentsOf(frames: seq<Frame>): (r: seq<Segment>)
    ensures |r| == |frames|
    ensures forall i :: 0 <= i < |r| ==> r[i] == Segment(frames[i].mark, frames[i].payload)
  {
    seq(|frames|, i requires 0 <= i < |frames| => Segment(frames[i].mark, frames[i].payload))
  }

  function Total(frames: seq<Frame>): Bytes {
    Flatten(Payloads(SegmentsOf(frames)))
  }

  lemma TotalSnoc(frames: seq<Frame>, f: Frame)
    ensures Total(frames + [f]) == Total(frames) + f.payload
  {
    assert Payloads(SegmentsOf(frames + [f])) == Payloads(SegmentsOf(frames)) + [f.payload];
    FlattenSnoc(Payloads(SegmentsOf(frames)), f.payload);
  }

  // ---------------------------------------------------------------- the shape of the segments

  /** Segments of legal size, numbered consecutively, with the next number ready. */
  ghost predicate WellShaped(link: Link, o: Outbound)
    requires link.Valid()
  {
    && (forall i :: 0 <= i < |o.sent| ==>
         && 1 <= |o.sent[i].payload| <= link.bufSize
         && o.sent[i].seqno == i % link.maxSeqNo)
    && o.seqno == |o.sent| % link.maxSeqNo
  }

  /**
   * While a message is being written: `o.sent` extends `before` by full segments, the first marked FIRST
   * and the others unmarked.
   */
  ghost predicate InMessage(link: Link, before: seq<Frame>, o: Outbound)
    requires link.Valid()
  {
    && before <= o.sent
    && |o.buffer| < link.bufSize
    && o.mark == (if |o.sent| == |before| then FIRST else MIDDLE)
    && forall i :: |before| <= i < |o.sent| ==>
         |o.sent[i].payload| == link.bufSize && o.sent[i].mark == if i == |before| then FIRST else MIDDLE
  }

  lemma EmitShape(link: Link, before: seq<Frame>, o: Outbound)
    requires link.Valid() && WellShaped(link, o) && InMessage(link, before, o.(buffer := []))
    requires |o.buffer| == link.bufSize
    ensures var o' := Emit(o, link.maxSeqNo);
            && WellShaped(link, o') && InMessage(link, before, o')
            && Total(o'.sent) == Total(o.sent) + o.buffer
  {
    TotalSnoc(o.sent, Frame(o.mark, o.seqno, o.buffer));
    RemainderOfNext(|o.sent|, link.maxSeqNo);
  }

  lemma PutShape(link: Link, before: seq<Frame>, o: Outbound, c: Byte)
    requires link.Valid() && WellShaped(link, o) && InMessage(link, before, o)
    ensures var o' := Put(o, c, link.bufSize, link.maxSeqNo);
            && WellShaped(link, o') && InMessage(link, before, o')
            && Total(o'.sent) + o'.buffer == Total(o.sent) + o.buffer + [c]
            && link.bufSize * (|o'.sent| - |before|) + |o'.buffer| == link.bufSize * (|o.sent| - |before|) + |o.buffer| + 1
  {
    var o', full := Put(o, c, link.bufSize, link.maxSeqNo), o.(buffer := o.buffer + [c]);
    if |full.buffer| == link.bufSize {
      EmitShape(link, before, full);
      assert o'.buffer == [];
      assert Total(o'.sent) + [] == Total(o.sent) + (o.buffer + [c]);
      assert link.bufSize * (|o'.sent| - |before|) == link.bufSize * (|o.sent| - |before|) + link.bufSize;
    }
  }

  lemma {:induction false} PutAllShape(link: Link, o: Outbound, bytes: Bytes)
    requires link.Valid() && WellShaped(link, o) && o.buffer == [] && o.mark == FIRST
    ensures var o' := PutAll(link, o, bytes);
            && WellShaped(link, o') && InMessage(link, o.sent, o')
            && Total(o'.sent) + o'.buffer == Total(o.sent) + bytes
            && link.bufSize * (|o'.sent| - |o.sent|) + |o'.buffer| == |bytes|
    decreases |bytes|
  {
    if bytes != [] {
      var k := |bytes| - 1;
      PutAllShape(link, o, bytes[..k]);
      PutShape(link, o.sent, PutAll(link, o, bytes[..k]), bytes[k]);
      assert bytes == bytes[..k] + [bytes[k]];
      assert Total(o.sent) + bytes == (Total(o.sent) + bytes[..k]) + [bytes[k]];
    }
  }

  /** A message whose length is a positive multiple of the segment size. */
  predicate EndsOpen(link: Link, message: Bytes)
    requires link.Valid()
  {
    message != [] && |message| % link.bufSize == 0
  }

  /**
   * A written and flushed message: nothing stays buffered, an empty one sends nothing, any other one sends
   * segments of which only the first is FIRST and only the last is LAST, and that one only unless the
   * message ends open.
   */
  lemma WriteMessageShape(link: Link, o: Outbound, message: Bytes)
    requires link.Valid() && WellShaped(link, o) && o.buffer == [] && o.mark == FIRST
    ensures var o' := WriteMessage(link, o, message);
            && WellShaped(link, o') && o'.buffer == [] && o'.mark == FIRST
            && Total(o'.sent) == Total(o.sent) + message
            && o.sent <= o'.sent
            && (message == [] <==> |o'.sent| == |o.sent|)
            && forall i :: |o.sent| <= i < |o'.sent| ==>
                 && o'.sent[i].mark.first == (i == |o.sent|)
                 && o'.sent[i].mark.last == (i == |o'.sent| - 1 && !EndsOpen(link, message))
  {
    PutAllShape(link, o, message);
    var p, o' := PutAll(link, o, message), WriteMessage(link, o, message);
    RemainderIsUnique(|message|, link.bufSize, |p.sent| - |o.sent|, |p.buffer|);
    if p.buffer != [] {
      TotalSnoc(p.sent, Frame(p.mark.(last := true), p.seqno, p.buffer));
      RemainderOfNext(|p.sent|, link.maxSeqNo);
    }
  }

  /**
   * For any messages: segments hold 1 to `bufSize` bytes, are numbered consecutively modulo the maximum and
   * concatenate to the messages.
   */
  lemma {:induction false} SegmentsCarryTheMessages(link: Link, messages: seq<Bytes>)
    requires link.Valid()
    ensures var o := WriteAll(link, messages);
            && WellShaped(link, o) && o.buffer == [] && o.mark == FIRST
            && Total(o.sent) == Flatten(messages)
    decreases |messages|
  {
    if messages != [] {
      var k := |messages| - 1;
      SegmentsCarryTheMessages(link, messages[..k]);
      WriteMessageShape(link, WriteAll(link, messages[..k]), messages[k]);
      assert messages == messages[..k] + [messages[k]];
      FlattenSnoc(messages[..k], messages[k]);
    }
  }

  // ---------------------------------------------------------------- the receiver on a loss-free channel

  /** The inbound half after all frames arrived in order, the reader emptying the slot after each. */
  function ReceiveAll(i: Inbound, frames: seq<Frame>, maxSeqNo: nat): Inbound
    requires maxSeqNo > 0
    decreases |frames|
  {
    if frames == [] then i
    else
      var k := |frames| - 1;
      Enqueue(ReceiveAll(i, frames[..k], maxSeqNo), frames[k], maxSeqNo).(pending := None)
  }

  /** The receiver aborts nowhere exactly when the marks fit. */
  lemma {:induction false} AcceptedIffWellMarked(frames: seq<Frame>, maxSeqNo: nat)
    requires maxSeqNo > 0
    requires forall i :: 0 <= i < |frames| ==> frames[i].seqno == i % maxSeqNo
    ensures var i := ReceiveAll(FRESH_INBOUND, frames, maxSeqNo);
            && (!i.aborted <==> WellMarked(SegmentsOf(frames)))
            && (!i.aborted ==> i.expected == |frames| % maxSeqNo
                               && i.expectFirst == (frames == [] || frames[|frames| - 1].mark.last))
    decreases |frames|
  {
    if frames != [] {
      var k := |frames| - 1;
      AcceptedIffWellMarked(frames[..k], maxSeqNo);
      RemainderOfNext(k, maxSeqNo);
      var longer, shorter := SegmentsOf(frames), SegmentsOf(frames[..k]);
      assert longer == shorter + [longer[k]];
      MarksOfPrefix(shorter, longer[k]);
      if WellMarked(shorter) && MarkFits(longer, k) {
        forall i | 0 <= i < |longer|
          ensures MarkFits(longer, i)
        {
          if i < k { assert MarkFits(shorter, i); }
        }
      }
    }
  }

  /** Whether the segments of these messages end without a LAST mark. */
  predicate LeavesOpen(link: Link, messages: seq<Bytes>)
    requires link.Valid()
    decreases |messages|
  {
    messages != [] &&
    var k := |messages| - 1;
    if messages[k] == [] then LeavesOpen(link, messages[..k]) else EndsOpen(link, messages[k])
  }

  lemma {:induction false} OpenEnd(link: Link, messages: seq<Bytes>)
    requires link.Valid()
    ensures var sent := WriteAll(link, messages).sent;
            LeavesOpen(link, messages) <==> sent != [] && !sent[|sent| - 1].mark.last
    decreases |messages|
  {
    if messages != [] {
      var k := |messages| - 1;
      OpenEnd(link, messages[..k]);
      SegmentsCarryTheMessages(link, messages[..k]);
      WriteMessageShape(link, WriteAll(link, messages[..k]), messages[k]);
    }
  }

  /** No message that ends open is followed by one that is not empty. */
  ghost predicate NoOpenMessageFollowed(link: Link, messages: seq<Bytes>)
    requires link.Valid()
  {
    forall i, j :: 0 <= i < j < |messages| && EndsOpen(link, messages[i]) ==> messages[j] == []
  }

  lemma {:induction false} OpenIsSomewhere(link: Link, messages: seq<Bytes>)
    requires link.Valid()
    ensures LeavesOpen(link, messages) ==> exists i :: 0 <= i < |messages| && EndsOpen(link, messages[i])
    ensures NoOpenMessageFollowed(link, messages) && (exists i :: 0 <= i < |messages| && EndsOpen(link, messages[i]))
            ==> LeavesOpen(link, messages)
    decreases |messages|
  {
    if messages != [] {
      var k := |messages| - 1;
      OpenIsSomewhere(link, messages[..k]);
      if LeavesOpen(link, messages) && messages[k] == [] {
        var i :| 0 <= i < k && EndsOpen(link, messages[..k][i]);
        assert EndsOpen(link, messages[i]);
      }
      if NoOpenMessageFollowed(link, messages) && exists i :: 0 <= i < |messages| && EndsOpen(link, messages[i]) {
        var i :| 0 <= i < |messages| && EndsOpen(link, messages[i]);
        if i < k { assert EndsOpen(link, messages[..k][i]); }
      }
    }
  }

  lemma ConditionStep(link: Link, messages: seq<Bytes>)
    requires link.Valid() && messages != []
    ensures var k := |messages| - 1;
            NoOpenMessageFollowed(link, messages)
            <==> NoOpenMessageFollowed(link, messages[..k]) && (messages[k] == [] || !LeavesOpen(link, messages[..k]))
  {
    var k := |messages| - 1;
    var shorter := messages[..k];
    OpenIsSomewhere(link, shorter);
    if NoOpenMessageFollowed(link, messages) {
      forall i, j | 0 <= i < j < k && EndsOpen(link, shorter[i])
        ensures shorter[j] == []
      {
        assert EndsOpen(link, messages[i]);
      }
    }
    if NoOpenMessageFollowed(link, shorter) && (messages[k] == [] || !LeavesOpen(link, shorter)) {
      forall i, j | 0 <= i < j < |messages| && EndsOpen(link, messages[i])
        ensures messages[j] == []
      {
        assert EndsOpen(link, shorter[i]);
        if j < k { assert shorter[j] == []; }
      }
    }
  }

  lemma MarksAfterMessage(link: Link, o: Outbound, message: Bytes)
    requires link.Valid() && WellShaped(link, o) && o.buffer == [] && o.mark == FIRST
    ensures WellMarked(SegmentsOf(WriteMessage(link, o, message).sent))
            <==> WellMarked(SegmentsOf(o.sent)) && (message == [] || o.sent == [] || o.sent[|o.sent| - 1].mark.last)
  {
    WriteMessageShape(link, o, message);
    ExtendedMarks(SegmentsOf(o.sent), SegmentsOf(WriteMessage(link, o, message).sent));
  }

  lemma {:induction false} MarksFitIff(link: Link, messages: seq<Bytes>)
    requires link.Valid()
    ensures WellMarked(SegmentsOf(WriteAll(link, messages).sent)) <==> NoOpenMessageFollowed(link, messages)
    decreases |messages|
  {
    if messages != [] {
      var k := |messages| - 1;
      MarksFitIff(link, messages[..k]);
      ConditionStep(link, messages);
      OpenEnd(link, messages[..k]);
      SegmentsCarryTheMessages(link, messages[..k]);
      MarksAfterMessage(link, WriteAll(link, messages[..k]), messages[k]);
    }
  }

  /** Appending one message's segments keeps the marks fitting exactly when the earlier ones ended closed. */
  lemma ExtendedMarks(a: seq<Segment>, b: seq<Segment>)
    requires a <= b
    requires forall i :: |a| <= i < |b| ==> b[i].mark.first == (i == |a|)
    requires forall i :: |a| <= i < |b| - 1 ==> !b[i].mark.last
    ensures WellMarked(b) <==> WellMarked(a) && (|a| == |b| || a == [] || a[|a| - 1].mark.last)
  {
    if WellMarked(b) {
      forall i | 0 <= i < |a|
        ensures MarkFits(a, i)
      {
        assert MarkFits(b, i);
      }
      if |a| < |b| { assert MarkFits(b, |a|); }
    }
    if WellMarked(a) && (|a| == |b| || a == [] || a[|a| - 1].mark.last) {
      forall i | 0 <= i < |b|
        ensures MarkFits(b, i)
      {
        if i < |a| { assert MarkFits(a, i); }
      }
    }
  }

  /**
   * Over a loss-free channel the receiver takes every segment of the messages without aborting exactly when
   * no message whose length is a positive multiple of the segment size is followed by a non-empty one.
   */
  lemma ReceiverAgreesIff(link: Link, messages: seq<Bytes>)
    requires link.Valid()
    ensures var i := ReceiveAll(FRESH_INBOUND, WriteAll(link, messages).sent, link.maxSeqNo);
            !i.aborted <==> NoOpenMessageFollowed(link, messages)
  {
    SegmentsCarryTheMessages(link, messages);
    AcceptedIffWellMarked(WriteAll(link, messages).sent, link.maxSeqNo);
    MarksFitIff(link, messages);
  }

  /**
   * End to end: if the segments of such messages are what a stop-and-wait sender works through, it never
   * moves past a segment that was not accepted, and what is read is a prefix of the messages.
   */
  lemma MessagesOverStopAndWait(link: Link, messages: seq<Bytes>, run: seq<State>, i: nat)
    requires link.Valid() && link.maxSeqNo >= 2
    requires NoOpenMessageFollowed(link, messages)
    requires IsRun(link.maxSeqNo, run) && i < |run|
    requires run[i].tx.segments <= SegmentsOf(WriteAll(link, messages).sent)
    ensures Completed(run[i].tx) <= run[i].rx.accepted
    ensures run[i].rx.read <= Flatten(messages)
  {
    var all, some := SegmentsOf(WriteAll(link, messages).sent), run[i].tx.segments;
    SegmentsCarryTheMessages(link, messages);
    MarksFitIff(link, messages);
    forall k | 0 <= k < |some|
      ensures MarkFits(some, k)
    {
      assert MarkFits(all, k);
    }
    AdvancesOnlyPastAccepted(link.maxSeqNo, run, i);
    ReadIsPrefixOfSent(link.maxSeqNo, run, i);
    assert Payloads(all)[..|some|] == Payloads(some);
    FlattenTake(Payloads(all), |some|);
  }
}
