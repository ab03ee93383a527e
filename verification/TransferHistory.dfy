/**
 * Runs of the transfer system told from their step lists alone: which steps raise which events, which
 * bundle an acknowledgement answers, who holds a slot, and what the retransmission extension has heard.
 */
module TransferHistory {
  import opened Retransmission
  import opened ByteStrings
  import opened Transfers

  function One(b: bool): nat {
    if b then 1 else 0
  }

  // ---------------------------------------------------------------- events raised and handled

  /** The bundle that has waited longest for the answer of the peer. */
  predicate IsOldestSent(s: State, n: Eid, id: BundleId) {
    n in s.conns && s.conns[n].sent != [] && s.conns[n].sent[0] == id
  }

  predicate IsInHand(s: State, n: Eid, id: BundleId) {
    n in s.conns && s.conns[n].current == Some(id)
  }

  predicate IsHeadRetry(s: State, n: Eid, id: BundleId) {
    s.retry.queue != [] && s.retry.queue[0].destination == n && s.retry.queue[0].id == id
  }

  /** The step hands the bundle over for this neighbour, and this comes of it. */
  predicate HandsOver(s: State, step: Step, n: Eid, id: BundleId, handoff: Handoff) {
    step == Route(n, id, handoff) || (step.ClockTick? && step.handoff == handoff && IsHeadRetry(s, n, id))
  }

  function Repetitions(queue: seq<Retry>, n: Eid, id: BundleId): nat {
    if queue == [] then 0
    else One(queue[0].destination == n && queue[0].id == id) + Repetitions(queue[1..], n, id)
  }

  /** A requeue is the last straw: eight repetitions of this bundle are on file. */
  predicate EndsRetries(s: State, step: Step, n: Eid, id: BundleId) {
    step.HandleRequeue? && step.n == n && step.id == id && id in s.retry.entries && s.retry.entries[id].count >= 8
  }

  /** How often a step raises an event. */
  function Raises(s: State, step: Step, e: Signal): nat {
    match e
    case Completed(n, id) => One(step == Forwarded(n) && IsOldestSent(s, n, id))
    case Aborted(n, id, refused) =>
      if refused then One(step == Transfers.Refused(n) && IsOldestSent(s, n, id))
      else One(step == Missing(n) && IsInHand(s, n, id)) + One(step == DyingEnds(n, id, true))
           + One(HandsOver(s, step, n, id, NoNeighbour)) + One(EndsRetries(s, step, n, id))
           + if step.BundleExpires? && step.id == id then Repetitions(s.retry.queue, n, id) else 0
    case Requeued(n, id) =>
      One(step == SenderFails(n) && IsInHand(s, n, id)) + One(step == DyingEnds(n, id, false))
      + One(HandsOver(s, step, n, id, NoConnection))
      + if step == ConnectionDown(n) && n in s.conns
        then multiset(s.conns[n].queue)[id] + multiset(s.conns[n].sent)[id] else 0
  }

  /** The step takes this event to handle it. */
  predicate Handles(step: Step, e: Signal) {
    match e
    case Completed(n, id) => step == HandleCompleted(n, id)
    case Aborted(n, id, refused) =>
      step == HandleAborted(n, id, refused, true) || step == HandleAborted(n, id, refused, false)
    case Requeued(n, id) => step.HandleRequeue? && step.n == n && step.id == id
  }

  lemma {:induction false} RequeueCount(peer: Eid, ids: seq<BundleId>, e: Signal)
    ensures multiset(RequeueAll(peer, ids))[e] == if e.Requeued? && e.peer == peer then multiset(ids)[e.id] else 0
    decreases |ids|
  {
    var all := RequeueAll(peer, ids);
    if ids != [] {
      var k := |ids| - 1;
      RequeueCount(peer, ids[..k], e);
      assert ids == ids[..k] + [ids[k]];
      assert all == RequeueAll(peer, ids[..k]) + [Requeued(peer, ids[k])];
    }
  }

  lemma {:induction false} AbortCount(queue: seq<Retry>, gone: BundleId, e: Signal)
    ensures multiset(AbortEvents(Only(queue, gone)))[e]
            == if e.Aborted? && !e.refused && e.id == gone then Repetitions(queue, e.peer, e.id) else 0
  {
    if queue != [] {
      var rest := Only(queue[1..], gone);
      AbortCount(queue[1..], gone, e);
      if queue[0].id == gone {
        var first := Aborted(queue[0].destination, gone, false);
        assert AbortEvents(Only(queue, gone)) == [first] + AbortEvents(rest);
      }
    }
  }

  lemma OneMore(s: State, raised: Signal, e: Signal)
    ensures Raise(s, raised).events[e] == s.events[e] + One(e == raised)
  {}

  /** The step changes the number of pending events of this kind by those it raises and the one it handles. */
  ghost predicate Accounts(s: State, step: Step, e: Signal)
    requires Enabled(s, step)
  {
    Apply(s, step).events[e] + One(Handles(step, e)) == s.events[e] + Raises(s, step, e)
  }

  lemma QuietSignals(s: State, step: Step, e: Signal)
    requires Enabled(s, step) && (step.AddNeighbour? || step.Fetch? || step.StartWriting? || step.DoneWriting?)
    ensures Accounts(s, step, e)
  {}

  lemma SenderSignals(s: State, step: Step, e: Signal)
    requires Enabled(s, step) && (step.Missing? || step.SenderFails?)
    ensures Accounts(s, step, e)
  {
    var id := s.conns[step.n].current.value;
    OneMore(s, if step.Missing? then Aborted(step.n, id, false) else Requeued(step.n, id), e);
  }

  lemma AnswerSignals(s: State, step: Step, e: Signal)
    requires Enabled(s, step) && (step.Forwarded? || step.Refused?)
    ensures Accounts(s, step, e)
  {
    var id := s.conns[step.n].sent[0];
    OneMore(s, if step.Forwarded? then Completed(step.n, id) else Aborted(step.n, id, true), e);
  }

  lemma DownSignals(s: State, step: Step, e: Signal)
    requires Enabled(s, step) && step.ConnectionDown?
    ensures Accounts(s, step, e)
  {
    var c := s.conns[step.n];
    RequeueCount(step.n, c.queue, e);
    RequeueCount(step.n, c.sent, e);
    assert Apply(s, step).events == s.events + multiset(RequeueAll(step.n, c.queue)) + multiset(RequeueAll(step.n, c.sent));
  }

  lemma DyingSignals(s: State, step: Step, e: Signal)
    requires Enabled(s, step) && step.DyingEnds?
    ensures Accounts(s, step, e)
  {
    OneMore(s, if step.deleted then Aborted(step.n, step.id, false) else Requeued(step.n, step.id), e);
  }

  lemma ExpirySignals(s: State, step: Step, e: Signal)
    requires step.BundleExpires?
    ensures Accounts(s, step, e)
  {
    AbortCount(s.retry.queue, step.id, e);
  }

  lemma HandoffEvents(s: State, n: Eid, id: BundleId, handoff: Handoff, e: Signal)
    ensures TransferTo(s, n, id, handoff).events[e]
            == s.events[e] + One(handoff == NoNeighbour && e == Aborted(n, id, false))
               + One(handoff == NoConnection && e == Requeued(n, id))
  {}

  lemma RouteSignals(s: State, step: Step, e: Signal)
    requires Enabled(s, step) && step.Route?
    ensures Accounts(s, step, e)
  {
    var n, id := step.n, step.id;
    HandoffEvents(s.(transit := s.transit[n := s.transit[n] + {id}]), n, id, step.handoff, e);
  }

  lemma TickSignals(s: State, step: Step, e: Signal)
    requires Enabled(s, step) && step.ClockTick?
    ensures Accounts(s, step, e)
  {
    var head := s.retry.queue[0];
    HandoffEvents(s.(retry := Notify(s.retry, Tick(step.now))), head.destination, head.id, step.handoff, e);
  }

  lemma OneLess(s: State, handled: Signal, e: Signal)
    requires handled in s.events
    ensures Consume(s, handled).events[e] + One(e == handled) == s.events[e]
  {}

  lemma CompletionSignals(s: State, step: Step, e: Signal)
    requires Enabled(s, step) && step.HandleCompleted?
    ensures Accounts(s, step, e)
  {
    OneLess(s, Completed(step.n, step.id), e);
  }

  lemma AbortSignals(s: State, step: Step, e: Signal)
    requires Enabled(s, step) && step.HandleAborted?
    ensures Accounts(s, step, e)
  {
    OneLess(s, Aborted(step.n, step.id, step.refused), e);
  }

  lemma GivingUpSignals(s: State, step: Step, e: Signal)
    requires Enabled(s, step) && step.HandleRequeue? && GivesUp(s.retry, step.id)
    ensures Accounts(s, step, e)
  {
    OneLess(s, Requeued(step.n, step.id), e);
    OneMore(Consume(s, Requeued(step.n, step.id)), Aborted(step.n, step.id, false), e);
  }

  lemma RepetitionSignals(s: State, step: Step, e: Signal)
    requires Enabled(s, step) && step.HandleRequeue? && !GivesUp(s.retry, step.id)
    ensures Accounts(s, step, e)
  {
    OneLess(s, Requeued(step.n, step.id), e);
  }

  predicate OfConnection(step: Step) {
    step.Fetch? || step.Missing? || step.StartWriting? || step.DoneWriting? || step.SenderFails?
    || step.Forwarded? || step.Refused?
  }

  lemma ConnectionSignals(s: State, step: Step, e: Signal)
    requires Enabled(s, step) && OfConnection(step)
    ensures Accounts(s, step, e)
  {
    if step.Missing? || step.SenderFails? {
      SenderSignals(s, step, e);
    } else if step.Forwarded? || step.Refused? {
      AnswerSignals(s, step, e);
    } else {
      QuietSignals(s, step, e);
    }
  }

  lemma LossSignals(s: State, step: Step, e: Signal)
    requires Enabled(s, step) && (step.ConnectionDown? || step.DyingEnds? || step.BundleExpires?)
    ensures Accounts(s, step, e)
  {
    if step.ConnectionDown? {
      DownSignals(s, step, e);
    } else if step.DyingEnds? {
      DyingSignals(s, step, e);
    } else {
      ExpirySignals(s, step, e);
    }
  }

  lemma RouterSignals(s: State, step: Step, e: Signal)
    requires Enabled(s, step)
    requires step.Route? || step.ClockTick? || step.HandleCompleted? || step.HandleAborted? || step.HandleRequeue?
    ensures Accounts(s, step, e)
  {
    if step.Route? {
      RouteSignals(s, step, e);
    } else if step.ClockTick? {
      TickSignals(s, step, e);
    } else if step.HandleRequeue? {
      if GivesUp(s.retry, step.id) {
        GivingUpSignals(s, step, e);
      } else {
        RepetitionSignals(s, step, e);
      }
    } else if step.HandleCompleted? {
      CompletionSignals(s, step, e);
    } else {
      AbortSignals(s, step, e);
    }
  }

  /**
   * What each step does to the pending events: an event of any kind, neighbour and bundle is raised by
   * exactly the steps named in `Raises` and leaves only by being handled.
   */
  lemma StepSignals(s: State, step: Step, e: Signal)
    requires Enabled(s, step)
    ensures Accounts(s, step, e)
  {
    if OfConnection(step) {
      ConnectionSignals(s, step, e);
    } else if step.ConnectionDown? || step.DyingEnds? || step.BundleExpires? {
      LossSignals(s, step, e);
    } else if step.AddNeighbour? {
      QuietSignals(s, step, e);
    } else {
      RouterSignals(s, step, e);
    }
  }

  ghost function RaisedBy(run: seq<State>, steps: seq<Step>, e: Signal, i: nat): nat
    requires i <= |steps| <= |run|
  {
    if i == 0 then 0 else RaisedBy(run, steps, e, i - 1) + Raises(run[i - 1], steps[i - 1], e)
  }

  function HandledBy(steps: seq<Step>, e: Signal, i: nat): nat
    requires i <= |steps|
  {
    if i == 0 then 0 else HandledBy(steps, e, i - 1) + One(Handles(steps[i - 1], e))
  }

  /** In every run, the events raised are those handled and those still pending. */
  lemma {:induction false} EventsAreAccountedFor(run: seq<State>, steps: seq<Step>, e: Signal, i: nat)
    requires Follows(run, steps) && i <= |steps|
    ensures RaisedBy(run, steps, e, i) == HandledBy(steps, e, i) + run[i].events[e]
  {
    if i > 0 {
      EventsAreAccountedFor(run, steps, e, i - 1);
      StepSignals(run[i - 1], steps[i - 1], e);
    }
  }

  // ---------------------------------------------------------------- a connection is first in, first out

  /**
   * What has gone through a connection since it was opened: the bundles handed to it, how many of them its
   * sender has fetched, those it began to write, how many of these the peer has answered, and what the
   * sender is at.
   */
  datatype Log = Log(handed: seq<BundleId>, fetched: nat, started: seq<BundleId>, answered: nat, phase: Phase)

  datatype Phase = Idle | Holding | Writing

  const EMPTY_LOG := Log([], 0, [], 0, Idle)

  function NextPhase(phase: Phase, step: Step, n: Eid): Phase {
    if step == Fetch(n) then Holding
    else if step == StartWriting(n) then Writing
    else if step == DoneWriting(n) || step == Missing(n) || step == SenderFails(n) then Idle
    else phase
  }

  function Handed(s: State, step: Step, n: Eid): seq<BundleId> {
    if step.Route? && step.n == n && step.handoff == Queued then [step.id]
    else if step.ClockTick? && step.handoff == Queued && s.retry.queue != [] && s.retry.queue[0].destination == n
    then [s.retry.queue[0].id]
    else []
  }

  function Started(log: Log, step: Step, n: Eid): seq<BundleId> {
    if step == StartWriting(n) && 0 < log.fetched <= |log.handed| then [log.handed[log.fetched - 1]] else []
  }

  ghost function LogAt(run: seq<State>, steps: seq<Step>, n: Eid, i: nat): Log
    requires i <= |steps| <= |run|
  {
    if i == 0 then EMPTY_LOG
    else
      var log, step := LogAt(run, steps, n, i - 1), steps[i - 1];
      if step == ConnectionDown(n) then EMPTY_LOG
      else Log(log.handed + Handed(run[i - 1], step, n),
               log.fetched + One(step == Fetch(n)),
               log.started + Started(log, step, n),
               log.answered + One(step == Forwarded(n) || step == Transfers.Refused(n)),
               NextPhase(log.phase, step, n))
  }

  /** The queues of a connection are the parts of its log not yet fetched and not yet answered. */
  ghost predicate Matches(s: State, n: Eid, log: Log) {
    && log.fetched <= |log.handed| && log.answered <= |log.started|
    && (if n !in s.conns then log == EMPTY_LOG
        else
          var c := s.conns[n];
          && c.queue == log.handed[log.fetched..] && c.sent == log.started[log.answered..]
          && (c.current.Some? <==> log.phase != Idle) && (log.phase != Idle ==> c.writing == (log.phase == Writing))
          && (c.current.Some? ==> log.fetched > 0 && c.current.value == log.handed[log.fetched - 1]))
  }

  ghost predicate LogStep(s: State, step: Step, n: Eid, log: Log, log': Log) {
    if step == ConnectionDown(n) then log' == EMPTY_LOG
    else log' == Log(log.handed + Handed(s, step, n), log.fetched + One(step == Fetch(n)),
                     log.started + Started(log, step, n),
                     log.answered + One(step == Forwarded(n) || step == Transfers.Refused(n)),
                     NextPhase(log.phase, step, n))
  }

  lemma EnqueueMatches(s: State, m: Eid, id: BundleId, n: Eid, log: Log)
    requires Matches(s, n, log)
    ensures Matches(Enqueue(s, m, id), n, log.(handed := log.handed + if m == n then [id] else []))
  {
    var longer := log.handed + [id];
    assert longer[log.fetched..] == log.handed[log.fetched..] + [id];
    assert log.handed + [] == log.handed;
  }

  lemma HandoffMatches(s: State, m: Eid, id: BundleId, handoff: Handoff, n: Eid, log: Log)
    requires Matches(s, n, log)
    ensures Matches(TransferTo(s, m, id, handoff), n,
                    log.(handed := log.handed + if handoff == Queued && m == n then [id] else []))
  {
    EnqueueMatches(s, m, id, n, log);
    assert log.handed + [] == log.handed;
  }

  lemma RouteMatches(s: State, m: Eid, id: BundleId, handoff: Handoff, n: Eid, log: Log, log': Log)
    requires var step := Route(m, id, handoff);
             Enabled(s, step) && Matches(s, n, log) && LogStep(s, step, n, log, log')
    ensures Matches(Apply(s, Route(m, id, handoff)), n, log')
  {
    HandoffMatches(s.(transit := s.transit[m := s.transit[m] + {id}]), m, id, handoff, n, log);
    assert log.started + [] == log.started;
    assert log' == log.(handed := log.handed + if handoff == Queued && m == n then [id] else []);
  }

  lemma TickMatches(s: State, now: nat, handoff: Handoff, n: Eid, log: Log, log': Log)
    requires var step := ClockTick(now, handoff);
             Enabled(s, step) && Matches(s, n, log) && LogStep(s, step, n, log, log')
    ensures Matches(Apply(s, ClockTick(now, handoff)), n, log')
  {
    var head := s.retry.queue[0];
    HandoffMatches(s.(retry := Notify(s.retry, Tick(now))), head.destination, head.id, handoff, n, log);
    assert log.started + [] == log.started;
    assert log' == log.(handed := log.handed + if handoff == Queued && head.destination == n then [head.id] else []);
  }

  lemma FetchMatches(s: State, m: Eid, n: Eid, log: Log, log': Log)
    requires Enabled(s, Fetch(m)) && Matches(s, n, log) && LogStep(s, Fetch(m), n, log, log')
    ensures Matches(Apply(s, Fetch(m)), n, log')
  {
    assert log.handed + [] == log.handed && log.started + [] == log.started;
    var c := s.conns[m];
    if m == n { assert c.queue[1..] == log.handed[log.fetched + 1..]; }
  }

  lemma StartMatches(s: State, m: Eid, n: Eid, log: Log, log': Log)
    requires Enabled(s, StartWriting(m)) && Matches(s, n, log) && LogStep(s, StartWriting(m), n, log, log')
    ensures Matches(Apply(s, StartWriting(m)), n, log')
  {
    assert log.handed + [] == log.handed && log.started + [] == log.started;
    if m == n {
      assert log'.started[log.answered..] == log.started[log.answered..] + Started(log, StartWriting(n), n);
    }
  }

  lemma IdleMatches(s: State, s': State, m: Eid, writing: bool, n: Eid, log: Log)
    requires m in s.conns && s'.conns == s.conns[m := s.conns[m].(current := None, writing := writing)]
    requires Matches(s, n, log)
    ensures Matches(s', n, if m == n then log.(phase := Idle) else log)
  {}

  lemma DoneMatches(s: State, step: Step, n: Eid, log: Log, log': Log)
    requires Enabled(s, step) && Matches(s, n, log) && LogStep(s, step, n, log, log')
    requires step.DoneWriting? || step.Missing? || step.SenderFails?
    ensures Matches(Apply(s, step), n, log')
  {
    assert log.handed + [] == log.handed && log.started + [] == log.started;
    var writing := DoneConns(s, step);
    IdleMatches(s, Apply(s, step), step.n, writing, n, log);
  }

  lemma DoneConns(s: State, step: Step) returns (writing: bool)
    requires Enabled(s, step) && (step.DoneWriting? || step.Missing? || step.SenderFails?)
    ensures Apply(s, step).conns == s.conns[step.n := s.conns[step.n].(current := None, writing := writing)]
  {
    writing := Apply(s, step).conns[step.n].writing;
  }

  lemma AnswerMatches(s: State, step: Step, n: Eid, log: Log, log': Log)
    requires Enabled(s, step) && Matches(s, n, log) && LogStep(s, step, n, log, log')
    requires step.Forwarded? || step.Refused?
    ensures Matches(Apply(s, step), n, log')
  {
    assert log.handed + [] == log.handed && log.started + [] == log.started;
    var c := s.conns[step.n];
    assert Apply(s, step).conns == s.conns[step.n := c.(sent := c.sent[1..])];
    if step.n == n {
      assert c.sent[1..] == log.started[log.answered + 1..];
    }
  }

  lemma DownMatches(s: State, m: Eid, n: Eid, log: Log, log': Log)
    requires Enabled(s, ConnectionDown(m)) && Matches(s, n, log) && LogStep(s, ConnectionDown(m), n, log, log')
    ensures Matches(Apply(s, ConnectionDown(m)), n, log')
  {
    assert log.handed + [] == log.handed && log.started + [] == log.started;
  }

  ghost predicate KeepsConns(s: State, step: Step)
    requires Enabled(s, step)
  {
    Apply(s, step).conns == s.conns
  }

  lemma EventConns(s: State, step: Step)
    requires Enabled(s, step) && (step.AddNeighbour? || step.DyingEnds? || step.BundleExpires?)
    ensures KeepsConns(s, step)
  {}

  lemma EndingConns(s: State, step: Step)
    requires Enabled(s, step) && (step.HandleCompleted? || step.HandleAborted?)
    ensures KeepsConns(s, step)
  {}

  lemma RequeueConns(s: State, step: Step)
    requires Enabled(s, step) && step.HandleRequeue?
    ensures KeepsConns(s, step)
  {}

  lemma ElsewhereMatches(s: State, step: Step, s': State, n: Eid, log: Log, log': Log)
    requires Matches(s, n, log) && LogStep(s, step, n, log, log') && s'.conns == s.conns
    requires !OfConnection(step) && !step.ConnectionDown? && !step.Route? && !step.ClockTick?
    ensures Matches(s', n, log')
  {
    assert log.handed + [] == log.handed && log.started + [] == log.started;
  }

  lemma {:induction false} LogMatches(run: seq<State>, steps: seq<Step>, n: Eid, i: nat)
    requires Follows(run, steps) && i <= |steps|
    ensures Matches(run[i], n, LogAt(run, steps, n, i))
  {
    if i > 0 {
      LogMatches(run, steps, n, i - 1);
      var s, step := run[i - 1], steps[i - 1];
      var log, log' := LogAt(run, steps, n, i - 1), LogAt(run, steps, n, i);
      if step.Route? {
        RouteMatches(s, step.n, step.id, step.handoff, n, log, log');
      } else if step.ClockTick? {
        TickMatches(s, step.now, step.handoff, n, log, log');
      } else if step.Fetch? {
        FetchMatches(s, step.n, n, log, log');
      } else if step.StartWriting? {
        StartMatches(s, step.n, n, log, log');
      } else if step.DoneWriting? || step.Missing? || step.SenderFails? {
        DoneMatches(s, step, n, log, log');
      } else if step.Forwarded? || step.Refused? {
        AnswerMatches(s, step, n, log, log');
      } else if step.ConnectionDown? {
        DownMatches(s, step.n, n, log, log');
      } else {
        if step.AddNeighbour? || step.DyingEnds? || step.BundleExpires? {
          EventConns(s, step);
        } else if step.HandleRequeue? {
          RequeueConns(s, step);
        } else {
          EndingConns(s, step);
        }
        ElsewhereMatches(s, step, run[i], n, log, log');
      }
    }
  }

  /**
   * In every run, the k-th answer on a connection is about the k-th bundle whose writing began on it: an
   * acknowledgement completes this transfer and a refusal aborts it, once, and no other transfer.
   */
  lemma AnswersInOrder(run: seq<State>, steps: seq<Step>, n: Eid, i: nat, e: Signal)
    requires Follows(run, steps) && i < |steps| && (steps[i] == Forwarded(n) || steps[i] == Transfers.Refused(n))
    ensures var log := LogAt(run, steps, n, i);
            && log.answered < |log.started|
            && var answer := if steps[i] == Forwarded(n) then Completed(n, log.started[log.answered])
                             else Aborted(n, log.started[log.answered], true);
               run[i + 1].events[e] == run[i].events[e] + One(e == answer)
  {
    LogMatches(run, steps, n, i);
    StepSignals(run[i], steps[i], e);
  }

  /** Bundles are fetched in the order in which they were handed to the connection. */
  lemma FetchesInOrder(run: seq<State>, steps: seq<Step>, n: Eid, i: nat)
    requires Follows(run, steps) && i < |steps| && steps[i] == Fetch(n)
    ensures var log := LogAt(run, steps, n, i);
            log.fetched < |log.handed| && IsInHand(run[i + 1], n, log.handed[log.fetched])
  {
    LogMatches(run, steps, n, i);
  }

  /** The bundle the sender holds or writes is the one fetched last. */
  lemma SenderHolds(run: seq<State>, steps: seq<Step>, n: Eid, i: nat)
    requires Follows(run, steps) && i <= |steps| && n in run[i].conns
    ensures var log, c := LogAt(run, steps, n, i), run[i].conns[n];
            c.current == if log.phase == Idle || log.fetched == 0 || log.fetched > |log.handed| then None
                         else Some(log.handed[log.fetched - 1])
  {
    LogMatches(run, steps, n, i);
  }

  lemma PhaseEnables(s: State, n: Eid, log: Log)
    requires Matches(s, n, log)
    ensures Enabled(s, StartWriting(n)) <==> log.phase == Holding
    ensures Enabled(s, DoneWriting(n)) <==> log.phase == Writing
  {
    if n !in s.conns { assert log.phase == Idle; }
  }

  lemma HoldingEnables(s: State, n: Eid, log: Log)
    requires Matches(s, n, log)
    ensures Enabled(s, Missing(n)) <==> log.phase == Holding
    ensures Enabled(s, SenderFails(n)) <==> log.phase != Idle
  {
    if n !in s.conns { assert log.phase == Idle; }
  }

  lemma QueuesEnable(s: State, n: Eid, log: Log)
    requires Matches(s, n, log)
    ensures Enabled(s, Fetch(n)) <==> log.phase == Idle && log.fetched < |log.handed|
    ensures Enabled(s, Forwarded(n)) <==> log.answered < |log.started|
    ensures Enabled(s, Transfers.Refused(n)) <==> log.answered < |log.started|
  {}

  /**
   * In every run the sender of a connection fetches only when it is idle and something is queued, begins to
   * write what it has just fetched, once, or finds it missing, and ends what it began; answers can come as
   * long as something begun has none.
   */
  lemma SenderStepsIff(run: seq<State>, steps: seq<Step>, n: Eid, i: nat)
    requires Follows(run, steps) && i <= |steps|
    ensures var s, log := run[i], LogAt(run, steps, n, i);
            && (Enabled(s, Fetch(n)) <==> log.phase == Idle && log.fetched < |log.handed|)
            && (Enabled(s, StartWriting(n)) <==> log.phase == Holding)
            && (Enabled(s, Missing(n)) <==> log.phase == Holding)
            && (Enabled(s, DoneWriting(n)) <==> log.phase == Writing)
            && (Enabled(s, SenderFails(n)) <==> log.phase != Idle)
            && (Enabled(s, Forwarded(n)) <==> log.answered < |log.started|)
            && (Enabled(s, Transfers.Refused(n)) <==> log.answered < |log.started|)
  {
    LogMatches(run, steps, n, i);
    PhaseEnables(run[i], n, LogAt(run, steps, n, i));
    HoldingEnables(run[i], n, LogAt(run, steps, n, i));
    QueuesEnable(run[i], n, LogAt(run, steps, n, i));
  }

  // ---------------------------------------------------------------- senders of connections that are down

  /** The step takes a connection down while its sender is at this bundle. */
  predicate Orphans(s: State, step: Step, n: Eid, id: BundleId) {
    step == ConnectionDown(n) && IsInHand(s, n, id)
  }

  predicate EndsOrphan(step: Step, n: Eid, id: BundleId) {
    step.DyingEnds? && step.n == n && step.id == id
  }

  ghost predicate DyingRight(s: State, step: Step, n: Eid, id: BundleId)
    requires Enabled(s, step)
  {
    Apply(s, step).dying[(n, id)] + One(EndsOrphan(step, n, id)) == s.dying[(n, id)] + One(Orphans(s, step, n, id))
  }

  lemma DownDying(s: State, step: Step, n: Eid, id: BundleId)
    requires Enabled(s, step) && (step.ConnectionDown? || step.DyingEnds?)
    ensures DyingRight(s, step, n, id)
  {}

  lemma ConnectionDying(s: State, step: Step, n: Eid, id: BundleId)
    requires Enabled(s, step) && (OfConnection(step) || step.AddNeighbour?)
    ensures DyingRight(s, step, n, id)
  {}

  lemma HandlingDying(s: State, step: Step, n: Eid, id: BundleId)
    requires Enabled(s, step) && (step.HandleCompleted? || step.HandleAborted? || step.HandleRequeue?)
    ensures DyingRight(s, step, n, id)
  {}

  lemma RoutingDying(s: State, step: Step, n: Eid, id: BundleId)
    requires Enabled(s, step) && (step.Route? || step.ClockTick? || step.BundleExpires?)
    ensures DyingRight(s, step, n, id)
  {}

  lemma StepDying(s: State, step: Step, n: Eid, id: BundleId)
    requires Enabled(s, step)
    ensures DyingRight(s, step, n, id)
  {
    if step.ConnectionDown? || step.DyingEnds? {
      DownDying(s, step, n, id);
    } else if OfConnection(step) || step.AddNeighbour? {
      ConnectionDying(s, step, n, id);
    } else if step.Route? || step.ClockTick? || step.BundleExpires? {
      RoutingDying(s, step, n, id);
    } else {
      HandlingDying(s, step, n, id);
    }
  }

  ghost function Orphaned(run: seq<State>, steps: seq<Step>, n: Eid, id: BundleId, i: nat): nat
    requires i <= |steps| <= |run|
  {
    if i == 0 then 0 else Orphaned(run, steps, n, id, i - 1) + One(Orphans(run[i - 1], steps[i - 1], n, id))
  }

  function OrphansEnded(steps: seq<Step>, n: Eid, id: BundleId, i: nat): nat
    requires i <= |steps|
  {
    if i == 0 then 0 else OrphansEnded(steps, n, id, i - 1) + One(EndsOrphan(steps[i - 1], n, id))
  }

  /** In every run each bundle that was in hand when its connection went down is ended once or still to be ended. */
  lemma {:induction false} OrphansAreAccountedFor(run: seq<State>, steps: seq<Step>, n: Eid, id: BundleId, i: nat)
    requires Follows(run, steps) && i <= |steps|
    ensures Orphaned(run, steps, n, id, i) == OrphansEnded(steps, n, id, i) + run[i].dying[(n, id)]
  {
    if i > 0 {
      OrphansAreAccountedFor(run, steps, n, id, i - 1);
      StepDying(run[i - 1], steps[i - 1], n, id);
    }
  }

  // ---------------------------------------------------------------- slots

  predicate Ends(step: Step, n: Eid, id: BundleId) {
    (step.HandleCompleted? || step.HandleAborted?) && step.n == n && step.id == id
  }

  /** Since the last end of this transfer there was a routing decision for it. */
  function RoutedLast(steps: seq<Step>, n: Eid, id: BundleId, i: nat): bool
    requires i <= |steps|
  {
    i > 0 &&
    var step := steps[i - 1];
    (step.Route? && step.n == n && step.id == id) || (!Ends(step, n, id) && RoutedLast(steps, n, id, i - 1))
  }

  ghost predicate KeepsSlots(s: State, step: Step)
    requires Enabled(s, step)
  {
    Apply(s, step).transit == s.transit
  }

  lemma ConnectionSlots(s: State, step: Step)
    requires Enabled(s, step) && OfConnection(step)
    ensures KeepsSlots(s, step)
  {}

  lemma LossSlots(s: State, step: Step)
    requires Enabled(s, step) && (step.ConnectionDown? || step.DyingEnds? || step.BundleExpires?)
    ensures KeepsSlots(s, step)
  {}

  lemma RetrySlots(s: State, step: Step)
    requires Enabled(s, step) && (step.HandleRequeue? || step.ClockTick?)
    ensures KeepsSlots(s, step)
  {}

  lemma OtherSlots(s: State, step: Step)
    requires Enabled(s, step)
    requires !step.AddNeighbour? && !step.Route? && !step.HandleCompleted? && !step.HandleAborted?
    ensures KeepsSlots(s, step)
  {
    if OfConnection(step) {
      ConnectionSlots(s, step);
    } else if step.ConnectionDown? || step.DyingEnds? || step.BundleExpires? {
      LossSlots(s, step);
    } else {
      RetrySlots(s, step);
    }
  }

  ghost predicate SlotChange(s: State, step: Step, n: Eid, id: BundleId)
    requires Enabled(s, step)
  {
    Holds(Apply(s, step).transit, n, id)
    <==> (step.Route? && step.n == n && step.id == id) || (Holds(s.transit, n, id) && !Ends(step, n, id))
  }

  lemma TakenSlot(s: State, step: Step, n: Eid, id: BundleId)
    requires Enabled(s, step) && (step.AddNeighbour? || step.Route?)
    ensures SlotChange(s, step, n, id)
  {}

  lemma FreedSlot(s: State, step: Step, n: Eid, id: BundleId)
    requires Enabled(s, step) && (step.HandleCompleted? || step.HandleAborted?)
    ensures SlotChange(s, step, n, id)
  {}

  /** Routing takes its slot, handling the end of a transfer frees its own, and no other step touches a slot. */
  lemma StepSlots(s: State, step: Step, n: Eid, id: BundleId)
    requires Enabled(s, step)
    ensures SlotChange(s, step, n, id)
  {
    if step.AddNeighbour? || step.Route? {
      TakenSlot(s, step, n, id);
    } else if step.HandleCompleted? || step.HandleAborted? {
      FreedSlot(s, step, n, id);
    } else {
      OtherSlots(s, step);
    }
  }

  /** In every run a slot is taken exactly from the routing decision until the end of the transfer is handled. */
  lemma {:induction false} SlotHeldIff(run: seq<State>, steps: seq<Step>, n: Eid, id: BundleId, i: nat)
    requires Follows(run, steps) && i <= |steps|
    ensures Holds(run[i].transit, n, id) <==> RoutedLast(steps, n, id, i)
  {
    if i > 0 {
      SlotHeldIff(run, steps, n, id, i - 1);
      StepSlots(run[i - 1], steps[i - 1], n, id);
    }
  }

  // ---------------------------------------------------------------- the retransmission extension

  /** What the retransmission extension is told by a step. */
  function Told(step: Step): seq<Event> {
    match step
    case HandleCompleted(_, id) => [Removed(id, 0)]
    case HandleAborted(_, id, _, notified) => if notified then [Removed(id, 0)] else []
    case HandleRequeue(n, id, now) => [Requeue(n, id, now)]
    case ClockTick(now, _) => [Tick(now)]
    case BundleExpires(id, now) => [Expired(id, now)]
    case _ => []
  }

  function ToldBy(steps: seq<Step>, i: nat): seq<Event>
    requires i <= |steps|
  {
    if i == 0 then [] else ToldBy(steps, i - 1) + Told(steps[i - 1])
  }

  lemma ToldOnce(s: State, step: Step, past: seq<Event>)
    requires Enabled(s, step) && s.retry == AfterAll(past)
    ensures Apply(s, step).retry == AfterAll(past + Told(step))
  {
    var all := past + Told(step);
    if Told(step) == [] {
      assert all == past;
    } else {
      assert all[..|all| - 1] == past;
    }
  }

  /**
   * In every run of the whole system a bundle has at most eight repetitions on file since it was last
   * completed, aborted or given up, and the ninth requeue raises the abort event.
   */
  lemma {:induction false} RetriesOfRun(run: seq<State>, steps: seq<Step>, i: nat, id: BundleId)
    requires Follows(run, steps) && i <= |steps|
    ensures run[i].retry == AfterAll(ToldBy(steps, i))
    ensures var reps := RepetitionsSince(ToldBy(steps, i), id);
            && |reps| <= 8
            && (id in run[i].retry.entries <==> reps != [])
            && forall n, now :: EndsRetries(run[i], HandleRequeue(n, id, now), n, id) <==> |reps| == 8
  {
    if i > 0 {
      RetriesOfRun(run, steps, i - 1, id);
      ToldOnce(run[i - 1], steps[i - 1], ToldBy(steps, i - 1));
    }
    RetriesAreBounded(ToldBy(steps, i), id);
  }
}
