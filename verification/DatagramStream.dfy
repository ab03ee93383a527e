/**
 * The stream that a datagram connection keeps for each peer: the inbound half checks frames and hands
 * their payload to the reader through a one-slot buffer, the outbound half cuts written bytes into
 * marked and numbered segments.
 *
 * `Inbound` and `Outbound` are the two halves as values, with one function per lock-protected region.
 * `Stream` is the object that updates buffers and counters in place; each method is proved against the
 * function of its region.
 */
module DatagramStream {
  import opened ByteStrings

  /** The segment marks: FIRST, LAST, both, or none of them (a middle segment). */
  datatype Mark = Mark(first: bool, last: bool)

  const FIRST := Mark(true, false)
  const MIDDLE := Mark(false, false)

  datatype Frame = Frame(mark: Mark, seqno: nat, payload: Bytes)

  // ---------------------------------------------------------------- inbound half

  /**
   * `pending` is the payload of a frame that was accepted while the reader had not yet emptied `slot`:
   * the receiving thread waits with it. An empty `slot` is a free one.
   */
  datatype Inbound = Inbound(expected: nat, expectFirst: bool, aborted: bool, pending: Option<Bytes>, slot: Bytes)

  /** `Thrown` frames get no acknowledgement; `Refused` and `Accepted` ones do. */
  datatype Verdict = Thrown | Refused | Accepted

  const FRESH_INBOUND := Inbound(0, true, false, None, [])

  function Judge(i: Inbound, f: Frame): Verdict {
    if i.aborted then Thrown
    else if i.expected != f.seqno then (if f.mark.first then Thrown else Refused)
    else if i.expectFirst != f.mark.first then Refused
    else Accepted
  }

  /** The inbound half once a frame has been judged; every frame that is not accepted aborts the stream. */
  function Enqueue(i: Inbound, f: Frame, maxSeqNo: nat): Inbound
    requires maxSeqNo > 0
  {
    if Judge(i, f).Accepted? then
      i.(expected := (i.expected + 1) % maxSeqNo, expectFirst := f.mark.last, pending := Some(f.payload))
    else
      i.(aborted := true)
  }

  /** The waiting payload moves into the free slot. */
  function HandOver(i: Inbound): Inbound
    requires i.pending.Some? && i.slot == []
  {
    i.(pending := None, slot := i.pending.value)
  }

  // ---------------------------------------------------------------- outbound half

  /** `buffer` holds the bytes written since the last segment, `sent` every segment handed to the link. */
  datatype Outbound = Outbound(buffer: Bytes, mark: Mark, seqno: nat, sent: seq<Frame>)

  const FRESH_OUTBOUND := Outbound([], FIRST, 0, [])

  /** The buffered bytes leave as one segment. */
  function Emit(o: Outbound, maxSeqNo: nat): Outbound
    requires maxSeqNo > 0
  {
    Outbound([], MIDDLE, (o.seqno + 1) % maxSeqNo, o.sent + [Frame(o.mark, o.seqno, o.buffer)])
  }

  /** Write one byte; the byte that fills the buffer sends it. */
  function Put(o: Outbound, c: Byte, bufSize: nat, maxSeqNo: nat): Outbound
    requires maxSeqNo > 0
  {
    var o' := o.(buffer := o.buffer + [c]);
    if |o'.buffer| < bufSize then o' else Emit(o', maxSeqNo)
  }

  /** Flush: what is buffered becomes the last segment of the message; nothing is sent when nothing is buffered. */
  function Flush(o: Outbound, maxSeqNo: nat): Outbound
    requires maxSeqNo > 0
  {
    var o' := o.(mark := o.mark.(last := true));
    (if o'.buffer == [] then o' else Emit(o', maxSeqNo)).(mark := FIRST)
  }

  datatype ReadResult = Data(bytes: Bytes) | WouldBlock | StreamAborted

  // ---------------------------------------------------------------- the object

  class Stream {
    const bufSize: nat
    const maxSeqNo: nat

    var expectFirst: bool
    var inSeqNum: nat
    var abort: bool
    const queueBuf: array<Byte>
    var queueBufLen: nat
    var waiting: Option<Bytes>

    var outMark: Mark
    var outSeqNum: nat
    const outBuf: array<Byte>
    var outLen: nat
    var sent: seq<Frame>

    ghost predicate Valid()
      reads this, queueBuf, outBuf
    {
      && bufSize > 0 && maxSeqNo > 0
      && queueBuf != outBuf
      && queueBuf.Length == bufSize && outBuf.Length == bufSize
      && queueBufLen <= bufSize && outLen < bufSize
      && (waiting.Some? ==> |waiting.value| <= bufSize)
    }

    ghost function In(): Inbound
      requires Valid()
      reads this, queueBuf, outBuf
    {
      Inbound(inSeqNum, expectFirst, abort, waiting, queueBuf[..queueBufLen])
    }

    ghost function Out(): Outbound
      requires Valid()
      reads this, queueBuf, outBuf
    {
      Outbound(outBuf[..outLen], outMark, outSeqNum, sent)
    }

    constructor (maxMsgLen: nat, maxSeq: nat)
      requires maxMsgLen > 0 && maxSeq > 0
      ensures Valid() && fresh(queueBuf) && fresh(outBuf)
      ensures bufSize == maxMsgLen && maxSeqNo == maxSeq
      ensures In() == FRESH_INBOUND && Out() == FRESH_OUTBOUND
    {
      bufSize, maxSeqNo := maxMsgLen, maxSeq;
      expectFirst, inSeqNum, abort, queueBufLen, waiting := true, 0, false, 0, None;
      outMark, outSeqNum, outLen, sent := FIRST, 0, 0, [];
      queueBuf := new Byte[maxMsgLen];
      outBuf := new Byte[maxMsgLen];
    }

    /** A frame arrives: the part of `queue` before the wait for a free buffer. */
    method Queue(f: Frame) returns (v: Verdict)
      requires Valid() && waiting.None? && |f.payload| <= bufSize
      modifies this`abort, this`expectFirst, this`inSeqNum, this`waiting
      ensures Valid()
      ensures v == Judge(old(In()), f)
      ensures In() == Enqueue(old(In()), f, maxSeqNo)
      ensures v.Accepted? <==> !old(abort) && f.seqno == old(inSeqNum) && f.mark.first == old(expectFirst)
      ensures v.Thrown? <==> old(abort) || (f.seqno != old(inSeqNum) && f.mark.first)
      ensures v.Accepted? ==> !abort && inSeqNum == (old(inSeqNum) + 1) % maxSeqNo && expectFirst == f.mark.last
                              && waiting == Some(f.payload)
      ensures !v.Accepted? ==> abort && inSeqNum == old(inSeqNum) && expectFirst == old(expectFirst) && waiting.None?
    {
      if abort { return Thrown; }
      if inSeqNum != f.seqno {
        abort := true;
        if f.mark.first { return Thrown; }
        return Refused;
      }
      if expectFirst && !f.mark.first {
        abort := true;
        return Refused;
      } else if !expectFirst && f.mark.first {
        abort := true;
        return Refused;
      }
      if f.mark.last {
        expectFirst := true;
      } else {
        expectFirst := false;
      }
      inSeqNum := (inSeqNum + 1) % maxSeqNo;
      waiting := Some(f.payload);
      return Accepted;
    }

    /** The part of `queue` after the wait: copy the payload into the free buffer. */
    method CopyIntoSlot()
      requires Valid() && waiting.Some? && queueBufLen == 0
      modifies this`waiting, this`queueBufLen, queueBuf
      ensures Valid()
      ensures In() == HandOver(old(In()))
    {
      var buf := waiting.value;
      var k := 0;
      while k < |buf|
        invariant k <= |buf| <= bufSize
        invariant queueBuf[..k] == buf[..k]
      {
        queueBuf[k] := buf[k];
        k := k + 1;
      }
      queueBufLen := |buf|;
      waiting := None;
    }

    /** The reader takes the slot; with an empty slot it fails on an aborted stream and otherwise blocks. */
    method Underflow() returns (r: ReadResult)
      requires Valid()
      modifies this`queueBufLen
      ensures Valid()
      ensures In() == old(In()).(slot := [])
      ensures r.Data? <==> old(In()).slot != []
      ensures r.Data? ==> r.bytes == old(In()).slot
      ensures r.StreamAborted? <==> old(In()).slot == [] && abort
    {
      if queueBufLen == 0 {
        if abort { return StreamAborted; }
        return WouldBlock;
      }
      r := Data(queueBuf[..queueBufLen]);
      queueBufLen := 0;
    }

    /** Send what is buffered plus `c`; `delivered` is whether the link took the segment or raised an error. */
    method Overflow(c: Option<Byte>, delivered: bool) returns (ok: bool)
      requires Valid()
      modifies this`outLen, this`sent, this`outSeqNum, this`outMark, outBuf
      ensures Valid()
      ensures ok <==> !abort && (delivered || (old(outLen) == 0 && c.None?))
      ensures abort ==> Out() == old(Out())
      ensures !abort ==>
        var o := old(Out()).(buffer := old(Out()).buffer + if c.Some? then [c.value] else []);
        Out() == if o.buffer == [] then o else if delivered then Emit(o, maxSeqNo) else o.(buffer := [])
    {
      if abort { return false; }
      var bytes := outLen;
      outLen := 0;
      if c.Some? {
        outBuf[bytes] := c.value;
        bytes := bytes + 1;
      }
      assert outBuf[..bytes] == old(outBuf[..outLen]) + if c.Some? then [c.value] else [];
      if bytes == 0 { return true; }
      if !delivered { return false; }
      sent := sent + [Frame(outMark, outSeqNum, outBuf[..bytes])];
      outSeqNum := (outSeqNum + 1) % maxSeqNo;
      outMark := MIDDLE;
      return true;
    }

    /** Write one byte: it goes into the buffer, even of an aborted stream, while there is room for one more. */
    method WriteByte(c: Byte, delivered: bool) returns (ok: bool)
      requires Valid()
      modifies this`outLen, this`sent, this`outSeqNum, this`outMark, outBuf
      ensures Valid()
      ensures ok <==> old(outLen) < bufSize - 1 || (!abort && delivered)
      ensures !abort && delivered ==> Out() == Put(old(Out()), c, bufSize, maxSeqNo)
      ensures !ok ==> Out() == old(Out()).(buffer := if abort then old(Out()).buffer else [])
      ensures old(outLen) < bufSize - 1 ==> Out() == old(Out()).(buffer := old(Out()).buffer + [c])
    {
      if outLen < bufSize - 1 {
        outBuf[outLen] := c;
        outLen := outLen + 1;
        ok := true;
      } else {
        ok := Overflow(Some(c), delivered);
      }
    }

    /** Flush the message. A failed flush leaves the mark of the last segment set. */
    method Sync(delivered: bool) returns (ok: bool)
      requires Valid()
      modifies this`outLen, this`sent, this`outSeqNum, this`outMark, outBuf
      ensures Valid()
      ensures ok <==> !abort && (delivered || old(outLen) == 0)
      ensures ok ==> Out() == Flush(old(Out()), maxSeqNo)
      ensures !ok ==> Out() == old(Out()).(mark := old(Out()).mark.(last := true),
                                           buffer := if abort then old(Out()).buffer else [])
    {
      outMark := outMark.(last := true);
      assert Out().buffer + [] == Out().buffer;
      ok := Overflow(None, delivered);
      if ok { outMark := FIRST; }
    }
  }

  // ---------------------------------------------------------------- sending one segment with acknowledgements

  const MAX_SENDS := 5

  /** The part of the connection that sends a segment and waits for its acknowledgement; -1 is "none yet". */
  class AckWaiter {
    var lastAck: int
    var waitAck: int
    var transmitted: seq<Frame>

    constructor ()
      ensures lastAck == -1 && waitAck == -1 && transmitted == []
    {
      lastAck, waitAck, transmitted := -1, -1, [];
    }

    /** An acknowledgement counts only for the segment being sent. */
    method Ack(seqno: nat)
      modifies this`lastAck
      ensures lastAck == if old(waitAck) == seqno then seqno else old(lastAck)
    {
      if waitAck == seqno { lastAck := seqno; }
    }

    /**
     * Send `f` until it is acknowledged, at most five times. `windows[i]` lists the acknowledgements that
     * arrive during the i-th wait. Fails exactly when none of the five waits saw this sequence number and
     * it was not the one acknowledged last (which it can be only when there is a single sequence number).
     */
    method StreamSend(f: Frame, windows: seq<seq<nat>>) returns (ok: bool)
      requires |windows| >= MAX_SENDS
      modifies this
      ensures waitAck == f.seqno
      ensures ok <==> old(lastAck) == f.seqno || exists i :: 0 <= i < 5 && f.seqno in windows[i]
      ensures lastAck == if ok then f.seqno else old(lastAck)
      ensures transmitted == old(transmitted) +
                             Copies(f, if old(lastAck) == f.seqno then 1 else SendsNeeded(f.seqno, windows, 0))
    {
      waitAck := f.seqno;
      var i := 0;
      while i < MAX_SENDS
        invariant 0 <= i <= MAX_SENDS
        invariant waitAck == f.seqno && lastAck == old(lastAck)
        invariant forall j :: 0 <= j < i ==> f.seqno !in windows[j]
        invariant i > 0 ==> old(lastAck) != f.seqno
        invariant transmitted == old(transmitted) + Copies(f, i)
        invariant SendsNeeded(f.seqno, windows, 0) == i + SendsNeeded(f.seqno, windows, i)
      {
        transmitted := transmitted + [f];
        var k := 0;
        while k < |windows[i]|
          invariant 0 <= k <= |windows[i]|
          invariant waitAck == f.seqno
          invariant lastAck == if f.seqno in windows[i][..k] then f.seqno else old(lastAck)
          invariant transmitted == old(transmitted) + Copies(f, i) + [f]
        {
          Ack(windows[i][k]);
          k := k + 1;
        }
        assert windows[i][..k] == windows[i];
        assert Copies(f, i) + [f] == Copies(f, i + 1);
        if lastAck == waitAck { return true; }
        i := i + 1;
      }
      return false;
    }
  }

  function Copies(f: Frame, n: nat): seq<Frame> {
    seq(n, _ => f)
  }

  /** How many sends, counting from wait `i` on, until an acknowledgement arrives or five are spent. */
  function SendsNeeded(seqno: nat, windows: seq<seq<nat>>, i: nat): (n: nat)
    requires i <= MAX_SENDS <= |windows|
    ensures n <= MAX_SENDS - i
    decreases MAX_SENDS - i
  {
    if i == MAX_SENDS then 0
    else if seqno in windows[i] then 1
    else 1 + SendsNeeded(seqno, windows, i + 1)
  }
}
