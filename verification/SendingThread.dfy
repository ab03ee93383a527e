/**
 * The loop of `stream_send`, which the object runs in one call, is a sequence of the sender's steps in the
 * state machine: submit, then transmit, take the acknowledgements that arrive, and succeed or time out.
 */
module SendingThread {
  import opened ByteStrings
  import opened DatagramStream
  import opened StopAndWait

  function Numbers(window: seq<AckFlight>): (r: seq<nat>)
    ensures |r| == |window| && forall i :: 0 <= i < |r| ==> r[i] == window[i].seqno
  {
    seq(|window|, i requires 0 <= i < |window| => window[i].seqno)
  }

  function AllNumbers(windows: seq<seq<AckFlight>>): (r: seq<seq<nat>>)
    ensures |r| == |windows| && forall i :: 0 <= i < |r| ==> r[i] == Numbers(windows[i])
  {
    seq(|windows|, i requires 0 <= i < |windows| => Numbers(windows[i]))
  }

  /** The steps that receive the acknowledgements of one wait. */
  function Hear(tx: Sender, window: seq<AckFlight>): Sender
    decreases |window|
  {
    if window == [] then tx else var k := |window| - 1; TakeAck(Hear(tx, window[..k]), window[k])
  }

  /** From the `i`-th transmission on: each wait ends in success or, without the acknowledgement, in a timeout. */
  function SendLoop(n: nat, tx: Sender, windows: seq<seq<AckFlight>>, i: nat): Sender
    requires n > 0 && i < MAX_SENDS <= |windows| && tx.phase.Ready? && tx.sends == i
    decreases MAX_SENDS - i
  {
    var heard := Hear(Transmitted(tx), windows[i]);
    HearKeeps(Transmitted(tx), windows[i]);
    if heard.lastAck == heard.waitAck then Succeeded(n, heard)
    else
      var tx' := TimedOut(heard);
      if tx'.phase.Ready? then SendLoop(n, tx', windows, i + 1) else tx'
  }

  lemma {:induction false} HearKeeps(tx: Sender, window: seq<AckFlight>)
    ensures var r := Hear(tx, window);
            && r.phase == tx.phase && r.sends == tx.sends && r.waitAck == tx.waitAck && r.outSeqNum == tx.outSeqNum
            && r.lastAck == if tx.waitAck in Numbers(window) then tx.waitAck else tx.lastAck
    decreases |window|
  {
    if window != [] {
      var k := |window| - 1;
      HearKeeps(tx, window[..k]);
      assert Numbers(window) == Numbers(window[..k]) + [window[k].seqno];
    }
  }

  lemma {:induction false} LoopOutcome(n: nat, tx: Sender, windows: seq<seq<AckFlight>>, i: nat)
    requires n > 0 && i < MAX_SENDS <= |windows| && tx.phase.Ready? && tx.sends == i && tx.waitAck >= 0
    ensures var r, numbers := SendLoop(n, tx, windows, i), AllNumbers(windows);
            && (r.phase.Idle? || r.phase.Failed?)
            && (r.phase.Idle? <==> tx.lastAck == tx.waitAck || exists j :: i <= j < MAX_SENDS && tx.waitAck in numbers[j])
            && r.waitAck == tx.waitAck
            && r.lastAck == (if r.phase.Idle? then tx.waitAck else tx.lastAck)
            && r.sends == i + if tx.lastAck == tx.waitAck then 1 else SendsNeeded(tx.waitAck, numbers, i)
    decreases MAX_SENDS - i
  {
    var heard := Hear(Transmitted(tx), windows[i]);
    HearKeeps(Transmitted(tx), windows[i]);
    if heard.lastAck != heard.waitAck && i + 1 < MAX_SENDS {
      LoopOutcome(n, TimedOut(heard), windows, i + 1);
    }
  }

  /** One call of `stream_send` on the object has the outcome of the sender's steps. */
  method SendSegment(w: AckWaiter, n: nat, tx: Sender, x: Segment, windows: seq<seq<AckFlight>>) returns (ok: bool)
    requires n > 0 && |windows| >= MAX_SENDS && tx.phase.Idle? && w.lastAck == tx.lastAck
    modifies w
    ensures var r := SendLoop(n, Submitted(tx, x), windows, 0);
            && (ok <==> r.phase.Idle?)
            && w.lastAck == r.lastAck && w.waitAck == r.waitAck
            && |w.transmitted| == |old(w.transmitted)| + r.sends
  {
    LoopOutcome(n, Submitted(tx, x), windows, 0);
    var f := Frame(x.mark, tx.outSeqNum, x.payload);
    ok := w.StreamSend(f, AllNumbers(windows));
  }
}
