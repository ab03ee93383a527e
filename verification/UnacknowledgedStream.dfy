/**
 * A datagram connection without flow control: nothing is repeated, and the channel may lose frames but keeps
 * their order. The receiver notices a gap by the sequence number alone, and aborts the stream for good.
 */
module UnacknowledgedStream {
  import opened ByteStrings
  import opened DatagramStream
  import opened Modular
  import opened StopAndWait
  import opened Segmentation

  /** The receiver together with the bytes it has passed on. */
  datatype Reception = Reception(stream: Inbound, passed: Bytes)

  /** One frame arrives, and an accepted payload is passed on to the reader. */
  function Take(r: Reception, f: Frame, maxSeqNo: nat): Reception
    requires maxSeqNo > 0
  {
    Reception(Enqueue(r.stream, f, maxSeqNo).(pending := None),
              if Judge(r.stream, f).Accepted? then r.passed + f.payload else r.passed)
  }

  function TakeAll(frames: seq<Frame>, arrivals: seq<nat>, maxSeqNo: nat): Reception
    requires maxSeqNo > 0 && forall k :: 0 <= k < |arrivals| ==> arrivals[k] < |frames|
    decreases |arrivals|
  {
    if arrivals == [] then Reception(FRESH_INBOUND, [])
    else
      var k := |arrivals| - 1;
      Take(TakeAll(frames, arrivals[..k], maxSeqNo), frames[arrivals[k]], maxSeqNo)
  }

  /** The indices of the frames that get through: in order, and never more than `burst` lost in a row. */
  ghost predicate Lossy(count: nat, arrivals: seq<nat>, burst: nat) {
    && (forall k :: 0 <= k < |arrivals| ==> arrivals[k] < count)
    && (forall k :: 0 < k < |arrivals| ==> arrivals[k - 1] < arrivals[k] <= arrivals[k - 1] + burst + 1)
    && (arrivals != [] ==> arrivals[0] <= burst)
  }

  ghost predicate Numbered(frames: seq<Frame>, maxSeqNo: nat)
    requires maxSeqNo > 0
  {
    forall i :: 0 <= i < |frames| ==> frames[i].seqno == i % maxSeqNo
  }

  lemma TotalTake(frames: seq<Frame>, k: nat)
    requires k <= |frames|
    ensures Total(frames[..k]) <= Total(frames)
  {
    var parts := Payloads(SegmentsOf(frames));
    assert parts[..k] == Payloads(SegmentsOf(frames[..k]));
    FlattenTake(parts, k);
  }

  /** Either exactly the first `count` frames were passed on, or the stream is aborted behind a prefix. */
  ghost predicate Gapless(frames: seq<Frame>, count: nat, r: Reception, maxSeqNo: nat)
    requires maxSeqNo > 0
  {
    && r.passed <= Total(frames)
    && (!r.stream.aborted ==>
         count <= |frames| && r.stream.expected == count % maxSeqNo && r.passed == Total(frames[..count]))
  }

  lemma TakeNext(frames: seq<Frame>, k: nat, r: Reception, maxSeqNo: nat)
    requires maxSeqNo > 0 && Numbered(frames, maxSeqNo) && Gapless(frames, k, r, maxSeqNo)
    requires k < |frames| && !r.stream.aborted
    ensures Gapless(frames, k + 1, Take(r, frames[k], maxSeqNo), maxSeqNo)
  {
    RemainderOfNext(k, maxSeqNo);
    assert frames[..k + 1] == frames[..k] + [frames[k]];
    TotalSnoc(frames[..k], frames[k]);
    TotalTake(frames, k + 1);
  }

  lemma TakeLater(frames: seq<Frame>, k: nat, later: nat, r: Reception, maxSeqNo: nat)
    requires maxSeqNo > 0 && Numbered(frames, maxSeqNo) && Gapless(frames, k, r, maxSeqNo)
    requires k < later < |frames| && later < k + maxSeqNo
    ensures var r' := Take(r, frames[later], maxSeqNo);
            r'.stream.aborted && Gapless(frames, k + 1, r', maxSeqNo)
  {
    CloseNumbersDiffer(maxSeqNo, k, later);
  }

  lemma TakeOne(frames: seq<Frame>, k: nat, at: nat, r: Reception, maxSeqNo: nat)
    requires maxSeqNo > 0 && Numbered(frames, maxSeqNo) && Gapless(frames, k, r, maxSeqNo)
    requires !r.stream.aborted ==> k <= at < k + maxSeqNo
    requires at < |frames|
    ensures var r' := Take(r, frames[at], maxSeqNo);
            Gapless(frames, k + 1, r', maxSeqNo) && (!r'.stream.aborted ==> at == k)
  {
    if !r.stream.aborted {
      if at == k {
        TakeNext(frames, k, r, maxSeqNo);
      } else {
        TakeLater(frames, k, at, r, maxSeqNo);
      }
    }
  }

  lemma LossyPrefix(count: nat, arrivals: seq<nat>, burst: nat)
    requires Lossy(count, arrivals, burst) && arrivals != []
    ensures Lossy(count, arrivals[..|arrivals| - 1], burst)
    ensures var k := |arrivals| - 1;
            && arrivals[k] < count
            && (k > 0 ==> arrivals[..k][k - 1] < arrivals[k] <= arrivals[..k][k - 1] + burst + 1)
            && (k == 0 ==> arrivals[0] <= burst)
  {}

  lemma {:induction false} GaplessUntilAborted(frames: seq<Frame>, arrivals: seq<nat>, maxSeqNo: nat, burst: nat)
    requires maxSeqNo > burst && Numbered(frames, maxSeqNo) && Lossy(|frames|, arrivals, burst)
    ensures var r := TakeAll(frames, arrivals, maxSeqNo);
            && Gapless(frames, |arrivals|, r, maxSeqNo)
            && (!r.stream.aborted && arrivals != [] ==> arrivals[|arrivals| - 1] == |arrivals| - 1)
    decreases |arrivals|
  {
    if arrivals == [] {
      assert frames[..0] == [];
    } else {
      var k := |arrivals| - 1;
      LossyPrefix(|frames|, arrivals, burst);
      GaplessUntilAborted(frames, arrivals[..k], maxSeqNo, burst);
      TakeOne(frames, k, arrivals[k], TakeAll(frames, arrivals[..k], maxSeqNo), maxSeqNo);
    }
  }

  /** All frame lists and all losses in bursts of at most `burst`: what is passed on is a prefix of what was sent. */
  ghost predicate PrefixUnderLoss(maxSeqNo: nat, burst: nat)
    requires maxSeqNo > 0
  {
    forall frames, arrivals ::
      Numbered(frames, maxSeqNo) && Lossy(|frames|, arrivals, burst)
      ==> TakeAll(frames, arrivals, maxSeqNo).passed <= Total(frames)
  }

  /** Complete one-segment messages, each different from the one before. */
  function OneSegmentMessages(maxSeqNo: nat): (frames: seq<Frame>)
    requires maxSeqNo > 0
    ensures |frames| == maxSeqNo + 1 && Numbered(frames, maxSeqNo)
    ensures frames[0].payload == [0] && frames[maxSeqNo].payload == [1]
  {
    seq(maxSeqNo + 1, i => Frame(Mark(true, true), i % maxSeqNo, [if i == maxSeqNo then 1 else 0]))
  }

  /** Losing a whole round of sequence numbers goes unnoticed. */
  lemma WholeRoundGoesUnnoticed(maxSeqNo: nat)
    requires maxSeqNo > 0
    ensures var frames := OneSegmentMessages(maxSeqNo);
            && Lossy(|frames|, [maxSeqNo], maxSeqNo)
            && !(TakeAll(frames, [maxSeqNo], maxSeqNo).passed <= Total(frames))
  {
    var frames := OneSegmentMessages(maxSeqNo);
    RemainderIsUnique(maxSeqNo, maxSeqNo, 1, 0);
    assert [maxSeqNo][..0] == [];
    assert TakeAll(frames, [], maxSeqNo) == Reception(FRESH_INBOUND, []);
    assert TakeAll(frames, [maxSeqNo], maxSeqNo).passed == [] + [1];
    TotalTake(frames, 1);
    assert frames[..1] == [] + [frames[0]];
    TotalSnoc([], frames[0]);
    assert Total(frames)[0] == 0;
  }

  /** Delivery is a prefix under every loss exactly as long as bursts are shorter than a round of numbers. */
  lemma PrefixIffBurstsAreShort(maxSeqNo: nat, burst: nat)
    requires maxSeqNo > 0
    ensures PrefixUnderLoss(maxSeqNo, burst) <==> burst < maxSeqNo
  {
    if burst < maxSeqNo {
      forall frames, arrivals | Numbered(frames, maxSeqNo) && Lossy(|frames|, arrivals, burst)
        ensures TakeAll(frames, arrivals, maxSeqNo).passed <= Total(frames)
      {
        GaplessUntilAborted(frames, arrivals, maxSeqNo, burst);
      }
    } else {
      var frames := OneSegmentMessages(maxSeqNo);
      WholeRoundGoesUnnoticed(maxSeqNo);
      assert Lossy(|frames|, [maxSeqNo], burst);
      assert Numbered(frames, maxSeqNo);
    }
  }
}
