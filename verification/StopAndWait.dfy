/**
 * One direction of a datagram connection with stop-and-wait flow control, as a state machine: the sending
 * thread, a channel for frames, a channel for acknowledgements, the receiving thread and the reader. Both
 * channels may lose and duplicate what they carry at any position, but keep the order.
 *
 * Sequence numbers are taken modulo `maxSeqNo`. The absolute index of a segment is kept beside every frame
 * and acknowledgement in flight, and `accepted`, `handled` and `acked` record the history; no guard reads them.
 */
module StopAndWait {
  import opened ByteStrings
  import opened DatagramStream
  import opened Modular

  datatype Segment = Segment(mark: Mark, payload: Bytes)

  datatype Flight = Flight(index: nat, frame: Frame)
  datatype AckFlight = AckFlight(index: nat, seqno: nat)

  /** Outside `stream_send`; about to send; waiting for the acknowledgement; gave up for good. */
  datatype Phase = Idle | Ready | Waiting | Failed

  /** The sending side. `segments` lists every segment handed to `stream_send`. */
  datatype Sender = Sender(
    segments: seq<Segment>,
    phase: Phase,
    sends: nat,
    outSeqNum: nat,
    waitAck: int,
    lastAck: int,
    acked: int)               // history: index of the last acknowledgement that counted, or -1

  /** The receiving side. `inHand` is the frame whose payload waits for the slot, `read` all the reader took. */
  datatype Receiver = Receiver(
    stream: Inbound,
    inHand: Option<Flight>,
    read: Bytes,
    accepted: nat,            // history: number of segments accepted
    handled: int)             // history: index of the last frame judged, or -1

  datatype State = State(tx: Sender, frames: seq<Flight>, acks: seq<AckFlight>, rx: Receiver)

  datatype Step =
    | Submit(segment: Segment)
    | Transmit
    | Timeout
    | Succeed
    | LoseFrame(at: nat)
    | DuplicateFrame(at: nat)
    | LoseAck(at: nat)
    | DuplicateAck(at: nat)
    | ReceiveFrame
    | FillSlot
    | Read
    | ReceiveAck
    | Close
    | DropPending

  const INITIAL :=
    State(Sender([], Idle, 0, 0, -1, -1, -1), [], [], Receiver(FRESH_INBOUND, None, [], 0, -1))

  function RemoveAt<T>(s: seq<T>, i: nat): (r: seq<T>)
    requires i < |s|
    ensures |r| == |s| - 1
    ensures forall k :: 0 <= k < |r| ==> r[k] == s[if k < i then k else k + 1]
  {
    s[..i] + s[i + 1..]
  }

  function DoubleAt<T>(s: seq<T>, i: nat): (r: seq<T>)
    requires i < |s|
    ensures |r| == |s| + 1
    ensures forall k :: 0 <= k < |r| ==> r[k] == s[if k <= i then k else k - 1]
  {
    s[..i + 1] + s[i..]
  }

  predicate Enabled(s: State, step: Step) {
    match step
    case Submit(segment) => s.tx.phase.Idle?
    case Transmit => s.tx.phase.Ready? && s.tx.segments != []
    case Timeout => s.tx.phase.Waiting?
    case Succeed => s.tx.phase.Waiting? && s.tx.lastAck == s.tx.waitAck
    case LoseFrame(at) => at < |s.frames|
    case DuplicateFrame(at) => at < |s.frames|
    case LoseAck(at) => at < |s.acks|
    case DuplicateAck(at) => at < |s.acks|
    case ReceiveFrame => s.frames != [] && s.rx.stream.pending.None?
    case FillSlot => s.rx.stream.pending.Some? && s.rx.inHand.Some? && s.rx.stream.slot == []
    case Read => s.rx.stream.slot != []
    case ReceiveAck => s.acks != []
    case Close => s.rx.stream.slot == []
    case DropPending => s.rx.stream.aborted && s.rx.stream.pending.Some?
  }

  function AckFor(f: Flight): AckFlight {
    AckFlight(f.index, f.frame.seqno)
  }

  /** The frame that the sender puts on the wire for its current segment. */
  function CurrentFlight(tx: Sender): Flight
    requires tx.segments != []
  {
    var i := |tx.segments| - 1;
    Flight(i, Frame(tx.segments[i].mark, tx.outSeqNum, tx.segments[i].payload))
  }

  function TakeAck(tx: Sender, a: AckFlight): Sender {
    if tx.waitAck == a.seqno then tx.(lastAck := a.seqno, acked := a.index) else tx
  }

  function Submitted(tx: Sender, segment: Segment): Sender {
    tx.(segments := tx.segments + [segment], phase := Ready, sends := 0, waitAck := tx.outSeqNum)
  }

  function Transmitted(tx: Sender): Sender {
    tx.(phase := Waiting, sends := tx.sends + 1)
  }

  function TimedOut(tx: Sender): Sender {
    tx.(phase := if tx.sends < MAX_SENDS then Ready else Failed)
  }

  function Succeeded(n: nat, tx: Sender): Sender
    requires n > 0
  {
    tx.(phase := Idle, outSeqNum := (tx.outSeqNum + 1) % n)
  }

  function TakeFrame(n: nat, rx: Receiver, f: Flight): Receiver
    requires n > 0
  {
    var rx' := rx.(stream := Enqueue(rx.stream, f.frame, n), handled := f.index);
    if Judge(rx.stream, f.frame).Accepted? then rx'.(inHand := Some(f), accepted := rx.accepted + 1) else rx'
  }

  function Apply(n: nat, s: State, step: Step): State
    requires n > 0 && Enabled(s, step)
  {
    match step
    case Submit(segment) => s.(tx := Submitted(s.tx, segment))
    case Transmit => s.(tx := Transmitted(s.tx), frames := s.frames + [CurrentFlight(s.tx)])
    case Timeout => s.(tx := TimedOut(s.tx))
    case Succeed => s.(tx := Succeeded(n, s.tx))
    case LoseFrame(at) => s.(frames := RemoveAt(s.frames, at))
    case DuplicateFrame(at) => s.(frames := DoubleAt(s.frames, at))
    case LoseAck(at) => s.(acks := RemoveAt(s.acks, at))
    case DuplicateAck(at) => s.(acks := DoubleAt(s.acks, at))
    case ReceiveFrame =>
      var f := s.frames[0];
      s.(frames := s.frames[1..],
         rx := TakeFrame(n, s.rx, f),
         acks := if Judge(s.rx.stream, f.frame).Refused? then s.acks + [AckFor(f)] else s.acks)
    case FillSlot =>
      s.(rx := s.rx.(stream := HandOver(s.rx.stream), inHand := None), acks := s.acks + [AckFor(s.rx.inHand.value)])
    case Read =>
      s.(rx := s.rx.(read := s.rx.read + s.rx.stream.slot, stream := s.rx.stream.(slot := [])))
    case ReceiveAck =>
      s.(acks := s.acks[1..], tx := TakeAck(s.tx, s.acks[0]))
    case Close =>
      s.(rx := s.rx.(stream := s.rx.stream.(aborted := true)))
    case DropPending =>
      s.(rx := s.rx.(stream := s.rx.stream.(pending := None), inHand := None))
  }

  ghost predicate Next(n: nat, s: State, s': State)
    requires n > 0
  {
    exists step :: Enabled(s, step) && s' == Apply(n, s, step)
  }

  /** A run: the states a connection goes through, starting with a fresh one. */
  ghost predicate IsRun(n: nat, run: seq<State>)
    requires n > 0
  {
    && run != [] && run[0] == INITIAL
    && forall i :: 0 <= i < |run| - 1 ==> Next(n, run[i], run[i + 1])
  }

  function Payloads(segments: seq<Segment>): (r: seq<Bytes>)
    ensures |r| == |segments|
  {
    seq(|segments|, i requires 0 <= i < |segments| => segments[i].payload)
  }

  /** Every message starts with a FIRST segment and only there: what the receiver's mark check asks for. */
  predicate WellMarked(segments: seq<Segment>) {
    forall i :: 0 <= i < |segments| ==> MarkFits(segments, i)
  }

  predicate MarkFits(segments: seq<Segment>, i: nat)
    requires i < |segments|
  {
    segments[i].mark.first == (i == 0 || segments[i - 1].mark.last)
  }

  /** The number of segments for which `stream_send` has returned without an error. */
  function Completed(tx: Sender): nat {
    if tx.phase.Idle? || tx.segments == [] then |tx.segments| else |tx.segments| - 1
  }

  // ---------------------------------------------------------------- the invariant

  ghost predicate SenderInv(n: nat, tx: Sender)
    requires n > 0
  {
    && (tx.phase.Idle? || tx.segments != [])
    && tx.outSeqNum == Completed(tx) % n
    && (tx.segments == [] ==> tx.waitAck == -1)
    && (tx.segments != [] ==> tx.waitAck == (|tx.segments| - 1) % n)
    && -1 <= tx.acked
    && tx.lastAck == (if tx.acked == -1 then -1 else tx.acked % n)
    && |tx.segments| - 2 <= tx.acked <= |tx.segments| - 1
    && (tx.phase.Idle? ==> tx.acked == |tx.segments| - 1)
  }

  predicate IsFlightOf(n: nat, segments: seq<Segment>, f: Flight)
    requires n > 0
  {
    && f.index < |segments|
    && f.frame == Frame(segments[f.index].mark, f.index % n, segments[f.index].payload)
  }

  /** Frames in flight are copies of sent segments, in order, none older than the last one judged. */
  ghost predicate FramesInv(n: nat, segments: seq<Segment>, frames: seq<Flight>, handled: int)
    requires n > 0
  {
    && (forall i, j :: 0 <= i < j < |frames| ==> frames[i].index <= frames[j].index)
    && (forall i :: 0 <= i < |frames| ==> IsFlightOf(n, segments, frames[i]) && handled <= frames[i].index)
  }

  /** An acknowledgement in flight lies between the last one that counted and the last frame judged. */
  ghost predicate AckFits(n: nat, s: State, a: AckFlight)
    requires n > 0
  {
    a.seqno == a.index % n && s.tx.acked <= a.index <= s.rx.handled && Covered(s, a.index)
  }

  ghost predicate InOrder(acks: seq<AckFlight>) {
    forall i, j :: 0 <= i < j < |acks| ==> acks[i].index <= acks[j].index
  }

  /** Acknowledgements in flight are in order and fit. */
  ghost predicate AcksInv(n: nat, s: State)
    requires n > 0
  {
    && InOrder(s.acks)
    && (forall i :: 0 <= i < |s.acks| ==> AckFits(n, s, s.acks[i]))
    && s.tx.acked <= s.rx.handled
    && (s.tx.acked >= 0 ==> Covered(s, s.tx.acked))
  }

  /** An acknowledged segment was accepted, unless the marks were wrong and the stream is aborted. */
  predicate Covered(s: State, index: nat) {
    index < s.rx.accepted || (s.rx.stream.aborted && !WellMarked(s.tx.segments))
  }

  ghost predicate ReceiverInv(n: nat, segments: seq<Segment>, rx: Receiver)
    requires n > 0
  {
    && rx.accepted <= rx.handled + 1 <= |segments|
    && (rx.inHand.Some? <==> rx.stream.pending.Some?)
    && (rx.inHand.Some? ==>
         && rx.inHand.value.index == rx.accepted - 1 == rx.handled
         && IsFlightOf(n, segments, rx.inHand.value)
         && rx.inHand.value.frame.payload == rx.stream.pending.value)
    && (!rx.stream.aborted ==>
         && rx.stream.expected == rx.accepted % n
         && rx.stream.expectFirst == (rx.accepted == 0 || segments[rx.accepted - 1].mark.last))
  }

  function Arrived(rx: Receiver): Bytes {
    rx.read + rx.stream.slot + (if rx.stream.pending.Some? then rx.stream.pending.value else [])
  }

  ghost predicate DataInv(segments: seq<Segment>, rx: Receiver) {
    && rx.accepted <= |segments|
    && Arrived(rx) <= Flatten(Payloads(segments[..rx.accepted]))
    && (!rx.stream.aborted ==> Arrived(rx) == Flatten(Payloads(segments[..rx.accepted])))
  }

  ghost predicate Inv(n: nat, s: State)
    requires n > 0
  {
    && SenderInv(n, s.tx)
    && FramesInv(n, s.tx.segments, s.frames, s.rx.handled)
    && AcksInv(n, s)
    && ReceiverInv(n, s.tx.segments, s.rx)
    && DataInv(s.tx.segments, s.rx)
  }

  // ---------------------------------------------------------------- every step keeps it

  lemma PayloadsTake(segments: seq<Segment>, k: nat)
    requires k < |segments|
    ensures Payloads(segments[..k + 1]) == Payloads(segments[..k]) + [segments[k].payload]
  {}

  lemma MarksOfPrefix(segments: seq<Segment>, segment: Segment)
    ensures WellMarked(segments + [segment]) ==> WellMarked(segments)
  {
    var longer := segments + [segment];
    if WellMarked(longer) {
      forall i | 0 <= i < |segments|
        ensures MarkFits(segments, i)
      {
        assert MarkFits(longer, i);
      }
    }
  }

  lemma SubmitKeeps(n: nat, s: State, segment: Segment)
    requires n >= 2 && Inv(n, s) && Enabled(s, Submit(segment))
    ensures Inv(n, Apply(n, s, Submit(segment)))
  {
    var s' := Apply(n, s, Submit(segment));
    assert s'.tx.segments[..s.rx.accepted] == s.tx.segments[..s.rx.accepted];
    MarksOfPrefix(s.tx.segments, segment);
  }

  lemma SenderStepKeeps(n: nat, s: State, step: Step)
    requires n >= 2 && Inv(n, s) && Enabled(s, step)
    requires step.Transmit? || step.Timeout? || step.Succeed?
    ensures Inv(n, Apply(n, s, step))
  {
    if step.Succeed? {
      RemainderOfNext(|s.tx.segments| - 1, n);
      if s.tx.acked == |s.tx.segments| - 2 && s.tx.acked >= 0 {
        CloseNumbersDiffer(n, s.tx.acked, s.tx.acked + 1);
      }
    }
  }

  lemma FrameChannelKeeps(n: nat, s: State, at: nat)
    requires n >= 2 && Inv(n, s) && at < |s.frames|
    ensures Inv(n, Apply(n, s, LoseFrame(at))) && Inv(n, Apply(n, s, DuplicateFrame(at)))
  {
    FramesLostOrDoubled(n, s.tx.segments, s.frames, s.rx.handled, at);
    assert Apply(n, s, LoseFrame(at)).rx == s.rx && Apply(n, s, DuplicateFrame(at)).rx == s.rx;
  }

  lemma FramesLostOrDoubled(n: nat, segments: seq<Segment>, frames: seq<Flight>, handled: int, at: nat)
    requires n >= 2 && FramesInv(n, segments, frames, handled) && at < |frames|
    ensures FramesInv(n, segments, RemoveAt(frames, at), handled)
    ensures FramesInv(n, segments, DoubleAt(frames, at), handled)
  {}

  lemma AcksLostOrDoubled(acks: seq<AckFlight>, at: nat)
    requires InOrder(acks) && at < |acks|
    ensures InOrder(RemoveAt(acks, at)) && InOrder(DoubleAt(acks, at))
    ensures forall a :: a in RemoveAt(acks, at) || a in DoubleAt(acks, at) ==> a in acks
  {}

  /** Acknowledgements that fit a state fit any other that differs in the channels only. */
  lemma AcksElsewhere(n: nat, s: State, s': State)
    requires n > 0 && AcksInv(n, s) && s'.tx == s.tx && s'.rx == s.rx && InOrder(s'.acks)
    requires forall a :: a in s'.acks ==> a in s.acks
    ensures AcksInv(n, s')
  {
    forall i | 0 <= i < |s'.acks|
      ensures AckFits(n, s', s'.acks[i])
    {
      assert s'.acks[i] in s'.acks;
      var j :| 0 <= j < |s.acks| && s'.acks[i] == s.acks[j];
      assert AckFits(n, s, s.acks[j]);
    }
  }

  lemma LoseAckKeeps(n: nat, s: State, at: nat)
    requires n >= 2 && Inv(n, s) && at < |s.acks|
    ensures Inv(n, Apply(n, s, LoseAck(at)))
  {
    AcksLostOrDoubled(s.acks, at);
    AcksElsewhere(n, s, Apply(n, s, LoseAck(at)));
  }

  lemma DuplicateAckKeeps(n: nat, s: State, at: nat)
    requires n >= 2 && Inv(n, s) && at < |s.acks|
    ensures Inv(n, Apply(n, s, DuplicateAck(at)))
  {
    AcksLostOrDoubled(s.acks, at);
    AcksElsewhere(n, s, Apply(n, s, DuplicateAck(at)));
  }

  /** Acknowledgements keep fitting while the receiver goes on, and a new one behind them may be added. */
  lemma AcksCarryOver(n: nat, s: State, s': State, more: seq<AckFlight>)
    requires n > 0 && AcksInv(n, s) && s'.tx == s.tx && s'.acks == s.acks + more && |more| <= 1
    requires s.rx.handled <= s'.rx.handled && s.rx.accepted <= s'.rx.accepted && (s.rx.stream.aborted ==> s'.rx.stream.aborted)
    requires forall i :: 0 <= i < |more| ==> AckFits(n, s', more[i]) && s.rx.handled <= more[i].index
    ensures AcksInv(n, s')
  {
    forall i | 0 <= i < |s'.acks|
      ensures AckFits(n, s', s'.acks[i])
      ensures i < |s.acks| ==> s'.acks[i].index <= s.rx.handled
    {
      if i < |s.acks| { assert AckFits(n, s, s.acks[i]); } else { assert s'.acks[i] == more[i - |s.acks|]; }
    }
  }

  lemma ReaderStepKeeps(n: nat, s: State, step: Step)
    requires n >= 2 && Inv(n, s) && Enabled(s, step)
    requires step.FillSlot? || step.Read? || step.Close? || step.DropPending?
    ensures Inv(n, Apply(n, s, step))
  {
    var s' := Apply(n, s, step);
    if step.DropPending? {
      assert Arrived(s'.rx) <= Arrived(s.rx);
    } else {
      assert Arrived(s'.rx) == Arrived(s.rx);
    }
    AcksCarryOver(n, s, s', if step.FillSlot? then [AckFor(s.rx.inHand.value)] else []);
  }

  /** An acknowledgement counts only if it is for the current segment: stale numbers are never taken for it. */
  lemma ReceiveAckKeeps(n: nat, s: State)
    requires n >= 2 && Inv(n, s) && Enabled(s, ReceiveAck)
    ensures Inv(n, Apply(n, s, ReceiveAck))
    ensures s.tx.waitAck == s.acks[0].seqno ==> s.acks[0].index == |s.tx.segments| - 1
  {
    var a := s.acks[0];
    if a.index != |s.tx.segments| - 1 {
      CloseNumbersDiffer(n, a.index, a.index + 1);
    }
  }

  /** The sender is never more than one segment ahead of a receiver that has not aborted. */
  lemma SenderIsClose(n: nat, s: State)
    requires n >= 2 && Inv(n, s) && !s.rx.stream.aborted
    ensures Completed(s.tx) <= s.rx.accepted
  {
    if s.tx.acked >= 0 { assert Covered(s, s.tx.acked); }
  }

  lemma AcceptedIsNext(n: nat, s: State)
    requires n >= 2 && Inv(n, s) && Enabled(s, ReceiveFrame) && !s.rx.stream.aborted
    ensures var f := s.frames[0];
            && f.index <= s.rx.accepted
            && (f.frame.seqno == s.rx.stream.expected <==> f.index == s.rx.accepted)
  {
    var f := s.frames[0];
    SenderIsClose(n, s);
    if f.index != s.rx.accepted {
      CloseNumbersDiffer(n, f.index, f.index + 1);
    }
  }

  lemma AcceptKeepsData(n: nat, s: State)
    requires n >= 2 && Inv(n, s) && Enabled(s, ReceiveFrame) && Judge(s.rx.stream, s.frames[0].frame).Accepted?
    ensures DataInv(s.tx.segments, TakeFrame(n, s.rx, s.frames[0]))
  {
    var k := s.rx.accepted;
    AcceptedIsNext(n, s);
    PayloadsTake(s.tx.segments, k);
    FlattenSnoc(Payloads(s.tx.segments[..k]), s.tx.segments[k].payload);
    assert Arrived(TakeFrame(n, s.rx, s.frames[0])) == Arrived(s.rx) + s.tx.segments[k].payload;
  }

  lemma FramesTaken(n: nat, segments: seq<Segment>, frames: seq<Flight>, handled: int)
    requires n > 0 && FramesInv(n, segments, frames, handled) && frames != []
    ensures FramesInv(n, segments, frames[1..], frames[0].index)
    ensures handled <= frames[0].index < |segments| && IsFlightOf(n, segments, frames[0])
  {
    forall i | 0 <= i < |frames[1..]|
      ensures frames[1..][i] == frames[i + 1] && frames[0].index <= frames[i + 1].index
    {}
  }

  lemma AcceptKeepsReceiver(n: nat, segments: seq<Segment>, rx: Receiver, f: Flight)
    requires n >= 2 && ReceiverInv(n, segments, rx) && IsFlightOf(n, segments, f) && Judge(rx.stream, f.frame).Accepted?
    requires f.index == rx.accepted
    ensures ReceiverInv(n, segments, TakeFrame(n, rx, f))
  {
    RemainderOfNext(rx.accepted, n);
  }

  lemma AcceptKeeps(n: nat, s: State)
    requires n >= 2 && Inv(n, s) && Enabled(s, ReceiveFrame) && Judge(s.rx.stream, s.frames[0].frame).Accepted?
    ensures Inv(n, Apply(n, s, ReceiveFrame)) && s.frames[0].index == s.rx.accepted
  {
    AcceptedIsNext(n, s);
    FramesTaken(n, s.tx.segments, s.frames, s.rx.handled);
    AcceptKeepsReceiver(n, s.tx.segments, s.rx, s.frames[0]);
    AcceptKeepsData(n, s);
    AcksCarryOver(n, s, Apply(n, s, ReceiveFrame), []);
  }

  /** A frame that is refused is a copy of an accepted one, or its mark is wrong. */
  lemma RefusedIsCovered(n: nat, s: State)
    requires n >= 2 && Inv(n, s) && Enabled(s, ReceiveFrame) && Judge(s.rx.stream, s.frames[0].frame).Refused?
    ensures Covered(Apply(n, s, ReceiveFrame), s.frames[0].index)
  {
    var f := s.frames[0];
    AcceptedIsNext(n, s);
    if f.index == s.rx.accepted { assert !MarkFits(s.tx.segments, f.index); }
  }

  lemma RejectKeeps(n: nat, s: State)
    requires n >= 2 && Inv(n, s) && Enabled(s, ReceiveFrame) && !Judge(s.rx.stream, s.frames[0].frame).Accepted?
    ensures Inv(n, Apply(n, s, ReceiveFrame))
  {
    var s', f := Apply(n, s, ReceiveFrame), s.frames[0];
    var refused := Judge(s.rx.stream, f.frame).Refused?;
    FramesTaken(n, s.tx.segments, s.frames, s.rx.handled);
    if refused { RefusedIsCovered(n, s); }
    AcksCarryOver(n, s, s', if refused then [AckFor(f)] else []);
    assert Arrived(s'.rx) == Arrived(s.rx);
  }

  /** A frame is accepted only if it carries the next segment: stale numbers are never taken for it. */
  lemma ReceiveFrameKeeps(n: nat, s: State)
    requires n >= 2 && Inv(n, s) && Enabled(s, ReceiveFrame)
    ensures Inv(n, Apply(n, s, ReceiveFrame))
    ensures Judge(s.rx.stream, s.frames[0].frame).Accepted? ==> s.frames[0].index == s.rx.accepted
  {
    if Judge(s.rx.stream, s.frames[0].frame).Accepted? { AcceptKeeps(n, s); } else { RejectKeeps(n, s); }
  }

  lemma StepKeeps(n: nat, s: State, step: Step)
    requires n >= 2 && Inv(n, s) && Enabled(s, step)
    ensures Inv(n, Apply(n, s, step))
  {
    match step
    case Submit(segment) => SubmitKeeps(n, s, segment);
    case Transmit | Timeout | Succeed => SenderStepKeeps(n, s, step);
    case LoseFrame(at) => FrameChannelKeeps(n, s, at);
    case DuplicateFrame(at) => FrameChannelKeeps(n, s, at);
    case LoseAck(at) => LoseAckKeeps(n, s, at);
    case DuplicateAck(at) => DuplicateAckKeeps(n, s, at);
    case ReceiveFrame => ReceiveFrameKeeps(n, s);
    case ReceiveAck => ReceiveAckKeeps(n, s);
    case FillSlot | Read | Close | DropPending => ReaderStepKeeps(n, s, step);
  }

  lemma {:induction false} RunKeeps(n: nat, run: seq<State>, i: nat)
    requires n >= 2 && IsRun(n, run) && i < |run|
    ensures Inv(n, run[i])
  {
    if i > 0 {
      RunKeeps(n, run, i - 1);
      assert Next(n, run[i - 1], run[i]);
      var step :| Enabled(run[i - 1], step) && run[i] == Apply(n, run[i - 1], step);
      StepKeeps(n, run[i - 1], step);
    }
  }

  // ---------------------------------------------------------------- main results

  ghost predicate PrefixSafe(s: State) {
    s.rx.read <= Flatten(Payloads(s.tx.segments))
  }

  /** In every run over two or more sequence numbers the reader has read a prefix of what was sent. */
  lemma ReadIsPrefixOfSent(n: nat, run: seq<State>, i: nat)
    requires n >= 2 && IsRun(n, run) && i < |run|
    ensures PrefixSafe(run[i])
  {
    RunKeeps(n, run, i);
    var s := run[i];
    assert Payloads(s.tx.segments)[..s.rx.accepted] == Payloads(s.tx.segments[..s.rx.accepted]);
    FlattenTake(Payloads(s.tx.segments), s.rx.accepted);
    assert s.rx.read <= Arrived(s.rx);
  }

  /** With well-formed marks the sender never moves past a segment that the receiver has not accepted. */
  lemma AdvancesOnlyPastAccepted(n: nat, run: seq<State>, i: nat)
    requires n >= 2 && IsRun(n, run) && i < |run|
    requires WellMarked(run[i].tx.segments)
    ensures Completed(run[i].tx) <= run[i].rx.accepted <= |run[i].tx.segments|
  {
    RunKeeps(n, run, i);
    var s := run[i];
    if s.tx.acked >= 0 { assert Covered(s, s.tx.acked); }
  }

  ghost predicate SendsBounded(tx: Sender) {
    tx.sends <= 5 && (tx.phase.Ready? ==> tx.sends < 5) && (tx.phase.Failed? ==> tx.sends == 5) && (tx.phase.Waiting? ==> tx.sends > 0)
  }

  lemma SendsStep(n: nat, s: State, step: Step)
    requires n > 0 && Enabled(s, step) && SendsBounded(s.tx)
    ensures SendsBounded(Apply(n, s, step).tx)
    ensures s.tx.phase.Failed? && !step.ReceiveAck? ==> Apply(n, s, step).tx == s.tx
  {}

  lemma SendsNext(n: nat, s: State, s': State)
    requires n > 0 && Next(n, s, s') && SendsBounded(s.tx)
    ensures SendsBounded(s'.tx)
  {
    var step :| Enabled(s, step) && s' == Apply(n, s, step);
    SendsStep(n, s, step);
  }

  /** Over any number of sequence numbers, every segment is sent at most five times, and given up after the fifth. */
  lemma {:induction false} SendsAreBounded(n: nat, run: seq<State>, i: nat)
    requires n > 0 && IsRun(n, run) && i < |run|
    ensures SendsBounded(run[i].tx) && run[i].tx.sends <= 5 && (run[i].tx.phase.Failed? ==> run[i].tx.sends == 5)
  {
    if i > 0 {
      SendsAreBounded(n, run, i - 1);
      assert Next(n, run[i - 1], run[i]);
      SendsNext(n, run[i - 1], run[i]);
    }
  }

  // ---------------------------------------------------------------- both conditions are needed

  lemma Steps(n: nat, s: State, step: Step)
    requires n > 0 && Enabled(s, step)
    ensures Next(n, s, Apply(n, s, step))
  {}

  const SEVEN := Segment(Mark(true, true), [7])
  const COPY := Flight(0, Frame(Mark(true, true), 0, [7]))

  /** A run over a single sequence number: the only frame is duplicated, and both copies are accepted. */
  function ReadTwice(i: nat): State {
    var ready := Sender([SEVEN], Ready, 0, 0, 0, -1, -1);
    var tx := ready.(phase := Waiting, sends := 1);
    var rx := INITIAL.rx;
    var held := FRESH_INBOUND.(pending := Some([7]));
    var full := FRESH_INBOUND.(slot := [7]);
    var ack := AckFlight(0, 0);
    match i
    case 0 => INITIAL
    case 1 => State(ready, [], [], rx)
    case 2 => State(tx, [COPY], [], rx)
    case 3 => State(tx, [COPY, COPY], [], rx)
    case 4 => State(tx, [COPY], [], Receiver(held, Some(COPY), [], 1, 0))
    case 5 => State(tx, [COPY], [ack], Receiver(full, None, [], 1, 0))
    case 6 => State(tx, [COPY], [ack], Receiver(FRESH_INBOUND, None, [7], 1, 0))
    case 7 => State(tx, [], [ack], Receiver(held, Some(COPY), [7], 2, 0))
    case 8 => State(tx, [], [ack, ack], Receiver(full, None, [7], 2, 0))
    case _ => State(tx, [], [ack, ack], Receiver(FRESH_INBOUND, None, [7, 7], 2, 0))
  }

  lemma SentTwice(i: nat)
    requires i < 3
    ensures Next(1, ReadTwice(i), ReadTwice(i + 1))
  {
    var step := if i == 0 then Submit(SEVEN) else if i == 1 then Transmit else DuplicateFrame(0);
    assert ReadTwice(i + 1) == Apply(1, ReadTwice(i), step);
  }

  lemma FirstRead(i: nat)
    requires 3 <= i < 6
    ensures Next(1, ReadTwice(i), ReadTwice(i + 1))
  {
    var step := if i == 3 then ReceiveFrame else if i == 4 then FillSlot else Read;
    assert ReadTwice(i + 1) == Apply(1, ReadTwice(i), step);
  }

  lemma SecondRead(i: nat)
    requires 6 <= i < 9
    ensures Next(1, ReadTwice(i), ReadTwice(i + 1))
  {
    var step := if i == 6 then ReceiveFrame else if i == 7 then FillSlot else Read;
    assert ReadTwice(i + 1) == Apply(1, ReadTwice(i), step);
  }

  /** With a single sequence number one duplicated frame is read twice. */
  lemma OneNumberIsUnsafe() returns (run: seq<State>)
    ensures IsRun(1, run)
    ensures !PrefixSafe(run[|run| - 1])
  {
    run := seq(10, i requires 0 <= i < 10 => ReadTwice(i));
    forall i | 0 <= i < 9
      ensures Next(1, run[i], run[i + 1])
    {
      if i < 3 { SentTwice(i); } else if i < 6 { FirstRead(i); } else { SecondRead(i); }
    }
    assert Payloads([SEVEN]) == [[7]];
    assert |Flatten([[7]])| == 1;
  }

  /** Prefix safety of all runs holds exactly when there are at least two sequence numbers. */
  lemma SafeIffTwoNumbers(n: nat)
    requires n > 0
    ensures (forall run, i | IsRun(n, run) && 0 <= i < |run| :: PrefixSafe(run[i])) <==> n >= 2
  {
    if n >= 2 {
      forall run, i | IsRun(n, run) && 0 <= i < |run|
        ensures PrefixSafe(run[i])
      {
        ReadIsPrefixOfSent(n, run, i);
      }
    } else {
      var run := OneNumberIsUnsafe();
      assert IsRun(n, run) && !PrefixSafe(run[|run| - 1]);
    }
  }

  /**
   * What becomes of a frame that arrives, in every run. After an abort it is ignored. The next segment is
   * accepted if its mark fits, and otherwise refused and acknowledged. A repeated one is acknowledged again
   * exactly if it is not marked FIRST. All but the accepted one abort the stream.
   */
  lemma AnswerToFrame(n: nat, run: seq<State>, i: nat)
    requires n >= 2 && IsRun(n, run) && i < |run| && Enabled(run[i], ReceiveFrame)
    ensures var s, s', f := run[i], Apply(n, run[i], ReceiveFrame), run[i].frames[0];
            var ack := [AckFlight(f.index, f.index % n)];
            && s'.frames == s.frames[1..] && s'.rx.read == s.rx.read && s'.rx.stream.slot == s.rx.stream.slot
            && (s.rx.stream.aborted ==> s'.acks == s.acks && s'.rx.accepted == s.rx.accepted && s'.rx.stream.aborted)
            && (!s.rx.stream.aborted && f.index < s.rx.accepted ==>
                 && s'.rx.stream.aborted && s'.rx.accepted == s.rx.accepted
                 && s'.acks == s.acks + if f.frame.mark.first then [] else ack)
            && (!s.rx.stream.aborted && f.index >= s.rx.accepted ==>
                 && f.index == s.rx.accepted && f.index < |s.tx.segments|
                 && (MarkFits(s.tx.segments, f.index) ==>
                      && !s'.rx.stream.aborted && s'.rx.accepted == s.rx.accepted + 1 && s'.acks == s.acks
                      && s'.rx.stream.pending == Some(s.tx.segments[f.index].payload))
                 && (!MarkFits(s.tx.segments, f.index) ==>
                      s'.rx.stream.aborted && s'.rx.accepted == s.rx.accepted && s'.acks == s.acks + ack))
  {
    RunKeeps(n, run, i);
    var s := run[i];
    FramesTaken(n, s.tx.segments, s.frames, s.rx.handled);
    if !s.rx.stream.aborted { AcceptedIsNext(n, s); }
  }

  /** A segment is acknowledged for the first time when its payload has moved into the free slot. */
  lemma AcknowledgedWhenHandedOver(n: nat, run: seq<State>, i: nat)
    requires n >= 2 && IsRun(n, run) && i < |run| && Enabled(run[i], FillSlot)
    ensures var s, s', k := run[i], Apply(n, run[i], FillSlot), run[i].rx.accepted - 1;
            && 0 <= k < |s.tx.segments|
            && s'.acks == s.acks + [AckFlight(k, k % n)]
            && s'.rx.stream.slot == s.tx.segments[k].payload && s'.rx.stream.pending.None?
  {
    RunKeeps(n, run, i);
  }

  /**
   * With well-formed marks the receiver aborts on a frame exactly if it has accepted that segment already: a
   * single resend or duplicate that arrives ends the connection.
   */
  lemma AbortsIffRepeated(n: nat, run: seq<State>, i: nat)
    requires n >= 2 && IsRun(n, run) && i < |run| && WellMarked(run[i].tx.segments)
    requires !run[i].rx.stream.aborted && Enabled(run[i], ReceiveFrame)
    ensures Apply(n, run[i], ReceiveFrame).rx.stream.aborted <==> run[i].frames[0].index < run[i].rx.accepted
  {
    RunKeeps(n, run, i);
    AcceptedIsNext(n, run[i]);
    assert MarkFits(run[i].tx.segments, run[i].frames[0].index);
  }

  /** While the receiver has not aborted, all that `stream_send` returned for has arrived. */
  lemma CompletedHasArrived(n: nat, run: seq<State>, i: nat)
    requires n >= 2 && IsRun(n, run) && i < |run| && !run[i].rx.stream.aborted
    ensures Flatten(Payloads(run[i].tx.segments[..Completed(run[i].tx)])) <= Arrived(run[i].rx)
  {
    RunKeeps(n, run, i);
    var s := run[i];
    SenderIsClose(n, s);
    var done, all := Payloads(s.tx.segments[..Completed(s.tx)]), Payloads(s.tx.segments[..s.rx.accepted]);
    assert all[..Completed(s.tx)] == done;
    FlattenTake(all, Completed(s.tx));
  }

  /**
   * While the receiver has not aborted and nothing is pending, it can be closed exactly if the reader has read
   * all that was accepted; closing aborts the stream and changes nothing else.
   */
  lemma ClosedWhenAllIsRead(n: nat, run: seq<State>, i: nat)
    requires n >= 2 && IsRun(n, run) && i < |run|
    requires !run[i].rx.stream.aborted && run[i].rx.stream.pending.None?
    ensures var s := run[i];
            && s.rx.accepted <= |s.tx.segments|
            && (Enabled(s, Close) <==> s.rx.read == Flatten(Payloads(s.tx.segments[..s.rx.accepted])))
            && (Enabled(s, Close) ==>
                 Apply(n, s, Close) == s.(rx := s.rx.(stream := s.rx.stream.(aborted := true))))
  {
    RunKeeps(n, run, i);
    var rx := run[i].rx;
    assert Arrived(rx) == rx.read + rx.stream.slot;
    assert |Arrived(rx)| == |rx.read| + |rx.stream.slot|;
  }
}
