/**
 * Exactly which segments a stop-and-wait sender may be given: those with well-formed marks. For any others
 * there is a run in which everything goes well up to the first wrong mark, and that segment is refused,
 * acknowledged and passed over.
 */
module StopAndWaitMarks {
  import opened ByteStrings
  import opened DatagramStream
  import opened Modular
  import opened StopAndWait

  /** The numbers of the last of `count` segments, or -1. */
  function LastNumber(n: nat, count: nat): int
    requires n > 0
  {
    if count == 0 then -1 else (count - 1) % n
  }

  function RestingReceiver(n: nat, segments: seq<Segment>): Receiver
    requires n > 0
  {
    var k := |segments|;
    Receiver(Inbound(k % n, k == 0 || segments[k - 1].mark.last, false, None, []), None, Flatten(Payloads(segments)), k, k - 1)
  }

  /** All segments were sent once, accepted, read and acknowledged. */
  function Resting(n: nat, segments: seq<Segment>): State
    requires n > 0
  {
    var k := |segments|;
    State(Sender(segments, Idle, if k == 0 then 0 else 1, k % n, LastNumber(n, k), LastNumber(n, k), k - 1), [], [],
          RestingReceiver(n, segments))
  }

  function FlightOf(n: nat, k: nat, x: Segment): Flight
    requires n > 0
  {
    Flight(k, Frame(x.mark, k % n, x.payload))
  }

  /** One more segment is on its way. */
  function Sending(n: nat, segments: seq<Segment>, x: Segment): State
    requires n > 0
  {
    var k := |segments|;
    State(Sender(segments + [x], Waiting, 1, k % n, k % n, LastNumber(n, k), k - 1), [FlightOf(n, k, x)], [],
          RestingReceiver(n, segments))
  }

  lemma Extended(n: nat, run: seq<State>, step: Step) returns (longer: seq<State>)
    requires n > 0 && IsRun(n, run) && Enabled(run[|run| - 1], step)
    ensures IsRun(n, longer) && longer[|longer| - 1] == Apply(n, run[|run| - 1], step)
  {
    var last := run[|run| - 1];
    longer := run + [Apply(n, last, step)];
    Steps(n, last, step);
    forall i | 0 <= i < |longer| - 1
      ensures Next(n, longer[i], longer[i + 1])
    {
      if i < |run| - 1 { assert Next(n, run[i], run[i + 1]); }
    }
  }

  lemma SendStep(n: nat, run: seq<State>, segments: seq<Segment>, x: Segment) returns (longer: seq<State>)
    requires n >= 2 && IsRun(n, run) && run[|run| - 1] == Resting(n, segments)
    ensures IsRun(n, longer) && longer[|longer| - 1] == Sending(n, segments, x)
  {
    var first := Extended(n, run, Submit(x));
    longer := Extended(n, first, Transmit);
  }

  /** The receiver takes the segment into its slot and acknowledges it. */
  function Slotted(n: nat, segments: seq<Segment>, x: Segment): State
    requires n > 0
  {
    var s, k := Sending(n, segments, x), |segments|;
    State(s.tx, [], [AckFlight(k, k % n)],
          Receiver(Inbound((k + 1) % n, x.mark.last, false, None, x.payload), None, s.rx.read, k + 1, k))
  }

  lemma AcceptStep(n: nat, run: seq<State>, segments: seq<Segment>, x: Segment) returns (longer: seq<State>)
    requires n >= 2 && IsRun(n, run) && run[|run| - 1] == Sending(n, segments, x)
    requires MarkFits(segments + [x], |segments|)
    ensures IsRun(n, longer) && longer[|longer| - 1] == Slotted(n, segments, x)
  {
    var first := Extended(n, run, ReceiveFrame);
    RemainderOfNext(|segments|, n);
    longer := Extended(n, first, FillSlot);
  }

  lemma ReadStep(n: nat, run: seq<State>, segments: seq<Segment>, x: Segment) returns (longer: seq<State>)
    requires n >= 2 && IsRun(n, run) && run[|run| - 1] == Slotted(n, segments, x)
    ensures IsRun(n, longer)
    ensures longer[|longer| - 1] == Slotted(n, segments, x).(rx := RestingReceiver(n, segments + [x]))
  {
    PayloadsTake(segments + [x], |segments|);
    assert (segments + [x])[..|segments| + 1] == segments + [x] && (segments + [x])[..|segments|] == segments;
    FlattenSnoc(Payloads(segments), x.payload);
    if x.payload == [] {
      assert Flatten(Payloads(segments)) + [] == Flatten(Payloads(segments));
      longer := run;
    } else {
      longer := Extended(n, run, Read);
    }
  }

  lemma ConfirmStep(n: nat, run: seq<State>, segments: seq<Segment>, x: Segment) returns (longer: seq<State>)
    requires n >= 2 && IsRun(n, run)
    requires run[|run| - 1] == Slotted(n, segments, x).(rx := RestingReceiver(n, segments + [x]))
    ensures IsRun(n, longer) && longer[|longer| - 1] == Resting(n, segments + [x])
  {
    var first := Extended(n, run, ReceiveAck);
    RemainderOfNext(|segments|, n);
    longer := Extended(n, first, Succeed);
  }

  /** Well-marked segments can all be delivered. */
  lemma {:induction false} Delivered(n: nat, segments: seq<Segment>) returns (run: seq<State>)
    requires n >= 2 && WellMarked(segments)
    ensures IsRun(n, run) && run[|run| - 1] == Resting(n, segments)
    decreases |segments|
  {
    if segments == [] {
      assert Payloads([]) == [];
      run := [INITIAL];
    } else {
      var k := |segments| - 1;
      var done, x := segments[..k], segments[k];
      assert segments == done + [x];
      MarksOfPrefix(done, x);
      run := Delivered(n, done);
      run := SendStep(n, run, done, x);
      assert MarkFits(segments, k);
      run := AcceptStep(n, run, done, x);
      run := ReadStep(n, run, done, x);
      run := ConfirmStep(n, run, done, x);
    }
  }

  lemma RefusedStep(n: nat, run: seq<State>, segments: seq<Segment>, x: Segment) returns (longer: seq<State>)
    requires n >= 2 && IsRun(n, run) && run[|run| - 1] == Sending(n, segments, x)
    requires !MarkFits(segments + [x], |segments|)
    ensures IsRun(n, longer)
    ensures var s := longer[|longer| - 1];
            s.tx.segments == segments + [x] && Completed(s.tx) == |segments| + 1 && s.rx.accepted == |segments|
  {
    longer := Extended(n, run, ReceiveFrame);
    longer := Extended(n, longer, ReceiveAck);
    longer := Extended(n, longer, Succeed);
  }

  /** A segment with a wrong mark behind well-marked ones is refused, yet the sender moves past it. */
  lemma WrongMarkIsPassedOver(n: nat, segments: seq<Segment>, x: Segment) returns (run: seq<State>)
    requires n >= 2 && WellMarked(segments) && !MarkFits(segments + [x], |segments|)
    ensures IsRun(n, run)
    ensures var s := run[|run| - 1];
            s.tx.segments == segments + [x] && Completed(s.tx) == |segments| + 1 > s.rx.accepted == |segments|
  {
    run := Delivered(n, segments);
    run := SendStep(n, run, segments, x);
    run := RefusedStep(n, run, segments, x);
  }

  lemma ResendStep(n: nat, run: seq<State>, segments: seq<Segment>, x: Segment) returns (longer: seq<State>)
    requires n >= 2 && IsRun(n, run)
    requires run[|run| - 1] == Slotted(n, segments, x).(rx := RestingReceiver(n, segments + [x]))
    ensures IsRun(n, longer) && longer[|longer| - 1].rx.stream.aborted
    ensures longer[|longer| - 1].tx.segments == segments + [x]
  {
    longer := Extended(n, run, LoseAck(0));
    longer := Extended(n, longer, Timeout);
    longer := Extended(n, longer, Transmit);
    CloseNumbersDiffer(n, |segments|, |segments| + 1);
    longer := Extended(n, longer, ReceiveFrame);
  }

  /** For any well-marked segments: one lost acknowledgement is enough to end the connection after the last of them. */
  lemma LostAckEndsConnection(n: nat, segments: seq<Segment>, x: Segment) returns (run: seq<State>)
    requires n >= 2 && WellMarked(segments + [x])
    ensures IsRun(n, run)
    ensures run[|run| - 1].tx.segments == segments + [x] && run[|run| - 1].rx.stream.aborted
  {
    MarksOfPrefix(segments, x);
    assert MarkFits(segments + [x], |segments|);
    run := Delivered(n, segments);
    run := SendStep(n, run, segments, x);
    run := AcceptStep(n, run, segments, x);
    run := ReadStep(n, run, segments, x);
    run := ResendStep(n, run, segments, x);
  }

  lemma {:induction false} FirstMisfit(segments: seq<Segment>, k: nat) returns (at: nat)
    requires k <= |segments| && WellMarked(segments[..k]) && !WellMarked(segments)
    ensures at < |segments| && WellMarked(segments[..at]) && !MarkFits(segments, at)
    decreases |segments| - k
  {
    assert segments[..|segments|] == segments;
    if !MarkFits(segments, k) {
      at := k;
    } else {
      var longer := segments[..k + 1];
      forall i | 0 <= i < |longer|
        ensures MarkFits(longer, i)
      {
        if i < k { assert MarkFits(segments[..k], i); }
      }
      at := FirstMisfit(segments, k + 1);
    }
  }

  /** In every run over a part of these segments the sender moves only past accepted ones. */
  ghost predicate NeverPassesOver(n: nat, segments: seq<Segment>)
    requires n > 0
  {
    forall run: seq<State>, i :: IsRun(n, run) && 0 <= i < |run| && run[i].tx.segments <= segments
                                 ==> Completed(run[i].tx) <= run[i].rx.accepted
  }

  /** The sender moves past accepted segments only, in all runs, if and only if the marks are well formed. */
  lemma AdvancesSafelyIff(n: nat, segments: seq<Segment>)
    requires n >= 2
    ensures NeverPassesOver(n, segments) <==> WellMarked(segments)
  {
    if WellMarked(segments) {
      forall run: seq<State>, i | IsRun(n, run) && 0 <= i < |run| && run[i].tx.segments <= segments
        ensures Completed(run[i].tx) <= run[i].rx.accepted
      {
        var some := run[i].tx.segments;
        forall k | 0 <= k < |some|
          ensures MarkFits(some, k)
        {
          assert MarkFits(segments, k);
        }
        AdvancesOnlyPastAccepted(n, run, i);
      }
    } else {
      assert segments[..0] == [];
      var at := FirstMisfit(segments, 0);
      var done, x := segments[..at], segments[at];
      assert done + [x] == segments[..at + 1];
      assert !MarkFits(done + [x], at);
      var run := WrongMarkIsPassedOver(n, done, x);
      assert run[|run| - 1].tx.segments <= segments;
    }
  }
}
