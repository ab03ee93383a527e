/**
 * The life of a transfer: a routing extension takes one of the neighbour's five transfer slots, the bundle
 * goes through the queues of a TCP connection, and events decide whether the slot is released or the bundle
 * is queued for retransmission. A slot is leaked when nothing is left that could ever release it.
 *
 * `State` holds the slots, the connections, the pending events and the retransmission extension; every
 * lock-protected action is one step.
 */
module Transfers {
  import opened Retransmission
  import opened ByteStrings

  const TRANSIT_MAX: nat := 5

  // ---------------------------------------------------------------- transfer slots of one neighbour

  datatype AcquireResult = Acquired | AlreadyInTransit | NoMoreTransfers

  class NeighborEntry {
    var transit: set<BundleId>

    constructor ()
      ensures transit == {}
    {
      transit := {};
    }

    method AcquireTransfer(id: BundleId) returns (r: AcquireResult)
      modifies this
      ensures r.AlreadyInTransit? <==> id in old(transit)
      ensures r.Acquired? <==> id !in old(transit) && |old(transit)| < 5
      ensures transit == if r.Acquired? then old(transit) + {id} else old(transit)
      ensures |old(transit)| <= 5 ==> |transit| <= 5
      ensures forall s: State, n, handoff :: n in s.transit && s.transit[n] == old(transit) ==>
                (Enabled(s, Route(n, id, handoff)) <==> r.Acquired?)
    {
      if id in transit { return AlreadyInTransit; }
      if |transit| >= TRANSIT_MAX { return NoMoreTransfers; }
      transit := transit + {id};
      return Acquired;
    }

    method ReleaseTransfer(id: BundleId)
      modifies this
      ensures transit == old(transit) - {id}
    {
      transit := transit - {id};
    }
  }

  // ---------------------------------------------------------------- one TCP connection

  /** Events that are raised and wait to be handled by the router. */
  datatype Signal =
    | Completed(peer: Eid, id: BundleId)
    | Aborted(peer: Eid, id: BundleId, refused: bool)
    | Requeued(peer: Eid, id: BundleId)

  /** `writing` is set once the current bundle has been put on the sent queue. */
  datatype Conn = Conn(queue: seq<BundleId>, current: Option<BundleId>, writing: bool, sent: seq<BundleId>)

  const NEW_CONN := Conn([], None, false, [])

  predicate HasConn(s: State, n: Eid, c: Conn) {
    n in s.conns && s.conns[n] == c
  }

  /** One requeue event for each of the bundles, in order. */
  function RequeueAll(peer: Eid, ids: seq<BundleId>): (r: seq<Signal>)
    ensures |r| == |ids| && forall i :: 0 <= i < |r| ==> r[i] == Requeued(peer, ids[i])
  {
    seq(|ids|, i requires 0 <= i < |ids| => Requeued(peer, ids[i]))
  }

  lemma RequeueAllCovers(peer: Eid, ids: seq<BundleId>, n: Eid, id: BundleId)
    ensures InEvents(multiset(RequeueAll(peer, ids)), n, id) <==> n == peer && id in ids
  {
    var r := RequeueAll(peer, ids);
    assert forall e :: e in multiset(r) <==> e in r;
    if id in ids {
      var i :| 0 <= i < |ids| && ids[i] == id;
      assert r[i] == Requeued(peer, id);
    }
  }

  class TCPConnection {
    const peer: Eid
    var queue: seq<BundleId>
    var current: Option<BundleId>
    var writing: bool
    var sentQueue: seq<BundleId>
    var lastAck: nat
    var raised: seq<Signal>
    var reported: seq<BundleId>     // bundle-forwarded events

    ghost function Value(): Conn
      reads this
    {
      Conn(queue, current, writing, sentQueue)
    }

    constructor (node: Eid)
      ensures peer == node && Value() == NEW_CONN && raised == [] && reported == []
    {
      peer, queue, current, writing, sentQueue, lastAck, raised, reported := node, [], None, false, [], 0, [], [];
    }

    /**
     * A transfer is acknowledged: what the step `Forwarded` does to this connection in any state. An
     * acknowledgement without a bundle in the queue changes nothing.
     */
    method EventBundleForwarded()
      modifies this
      ensures old(sentQueue) == [] ==>
                Value() == old(Value()) && raised == old(raised) && reported == old(reported) && lastAck == old(lastAck)
      ensures old(sentQueue) != [] ==>
                && raised == old(raised) + [Completed(peer, old(sentQueue)[0])] && sentQueue == old(sentQueue)[1..]
                && lastAck == 0 && reported == old(reported) + [old(sentQueue)[0]]
                && forall s: State :: HasConn(s, peer, old(Value())) ==>
                     Apply(s, Forwarded(peer)) == Raise(WithConn(s, peer, Value()), raised[|raised| - 1])
    {
      if |sentQueue| == 0 { return; }
      raised := raised + [Completed(peer, sentQueue[0])];
      reported := reported + [sentQueue[0]];
      sentQueue := sentQueue[1..];
      lastAck := 0;
    }

    /** A transfer is refused: what the step `Refused` does to this connection in any state. */
    method EventBundleRefused()
      modifies this
      ensures reported == old(reported)
      ensures old(sentQueue) == [] ==> Value() == old(Value()) && raised == old(raised) && lastAck == old(lastAck)
      ensures old(sentQueue) != [] ==>
                && raised == old(raised) + [Aborted(peer, old(sentQueue)[0], true)] && sentQueue == old(sentQueue)[1..]
                && lastAck == 0
                && forall s: State :: HasConn(s, peer, old(Value())) ==>
                     Apply(s, Refused(peer)) == Raise(WithConn(s, peer, Value()), raised[|raised| - 1])
    {
      if |sentQueue| == 0 { return; }
      raised := raised + [Aborted(peer, sentQueue[0], true)];
      sentQueue := sentQueue[1..];
      lastAck := 0;
    }

    /**
     * The connection is down: everything queued or sent but not acknowledged is requeued, as by the step
     * `ConnectionDown` in any state.
     */
    method ClearQueue()
      modifies this
      ensures Value() == old(Value()).(queue := [], sent := [])
      ensures raised == old(raised) + RequeueAll(peer, old(queue)) + RequeueAll(peer, old(sentQueue))
      ensures lastAck == if old(sentQueue) == [] then old(lastAck) else 0
      ensures reported == old(reported)
      ensures forall s: State :: HasConn(s, peer, old(Value())) ==>
                Apply(s, ConnectionDown(peer)).events == s.events + multiset(raised[|old(raised)|..])
    {
      RequeueQueue();
      RequeueSent();
      assert raised[|old(raised)|..] == RequeueAll(peer, old(queue)) + RequeueAll(peer, old(sentQueue));
    }

    method RequeueQueue()
      modifies this`queue, this`raised
      ensures queue == [] && raised == old(raised) + RequeueAll(peer, old(queue))
    {
      ghost var k := 0;
      while |queue| > 0
        invariant 0 <= k <= |old(queue)| && queue == old(queue)[k..]
        invariant raised == old(raised) + RequeueAll(peer, old(queue)[..k])
        decreases |queue|
      {
        raised := raised + [Requeued(peer, queue[0])];
        queue := queue[1..];
        k := k + 1;
      }
      assert old(queue)[..k] == old(queue);
    }

    method RequeueSent()
      modifies this`sentQueue, this`raised, this`lastAck
      ensures sentQueue == [] && raised == old(raised) + RequeueAll(peer, old(sentQueue))
      ensures lastAck == if old(sentQueue) == [] then old(lastAck) else 0
    {
      ghost var k := 0;
      while |sentQueue| > 0
        invariant 0 <= k <= |old(sentQueue)| && sentQueue == old(sentQueue)[k..]
        invariant raised == old(raised) + RequeueAll(peer, old(sentQueue)[..k])
        invariant lastAck == if k == 0 then old(lastAck) else 0
        decreases |sentQueue|
      {
        raised := raised + [Requeued(peer, sentQueue[0])];
        sentQueue := sentQueue[1..];
        lastAck := 0;
        k := k + 1;
      }
      assert old(sentQueue)[..k] == old(sentQueue);
    }
  }

  // ---------------------------------------------------------------- the whole system

  /**
   * `dying` are the bundles in the hands of sender threads whose connection is already down: each of them
   * ends with a requeue or an abort event.
   */
  datatype State = State(
    transit: map<Eid, set<BundleId>>,
    conns: map<Eid, Conn>,
    dying: multiset<(Eid, BundleId)>,
    events: multiset<Signal>,
    retry: RetryState)

  const INITIAL := State(map[], map[], multiset{}, multiset{}, NO_RETRIES)

  /** What becomes of handing a bundle to the connection manager. */
  datatype Handoff = Queued | NoNeighbour | NoConnection

  datatype Step =
    | AddNeighbour(n: Eid)
    | Route(n: Eid, id: BundleId, handoff: Handoff)
    | Fetch(n: Eid)
    | Missing(n: Eid)
    | StartWriting(n: Eid)
    | DoneWriting(n: Eid)
    | SenderFails(n: Eid)
    | Forwarded(n: Eid)
    | Refused(n: Eid)
    | ConnectionDown(n: Eid)
    | DyingEnds(n: Eid, id: BundleId, deleted: bool)
    | HandleCompleted(n: Eid, id: BundleId)
    | HandleAborted(n: Eid, id: BundleId, refused: bool, notified: bool)
    | HandleRequeue(n: Eid, id: BundleId, now: nat)
    | ClockTick(now: nat, handoff: Handoff)
    | BundleExpires(id: BundleId, now: nat)

  function Enqueue(s: State, n: Eid, id: BundleId): State {
    var c := if n in s.conns then s.conns[n] else NEW_CONN;
    s.(conns := s.conns[n := c.(queue := c.queue + [id])])
  }

  function TransferTo(s: State, n: Eid, id: BundleId, handoff: Handoff): State {
    match handoff
    case Queued => Enqueue(s, n, id)
    case NoNeighbour => s.(events := s.events + multiset{Aborted(n, id, false)})
    case NoConnection => s.(events := s.events + multiset{Requeued(n, id)})
  }

  function Release(transit: map<Eid, set<BundleId>>, n: Eid, id: BundleId): map<Eid, set<BundleId>> {
    if n in transit then transit[n := transit[n] - {id}] else transit
  }

  function AbortEvents(entries: seq<Retry>): (r: seq<Signal>)
    ensures |r| == |entries|
    ensures forall i :: 0 <= i < |r| ==> r[i] == Aborted(entries[i].destination, entries[i].id, false)
  {
    seq(|entries|, i requires 0 <= i < |entries| => Aborted(entries[i].destination, entries[i].id, false))
  }

  predicate Enabled(s: State, step: Step) {
    match step
    case AddNeighbour(n) => n !in s.transit
    case Route(n, id, _) => n in s.transit && id !in s.transit[n] && |s.transit[n]| < TRANSIT_MAX
    case Fetch(n) => n in s.conns && s.conns[n].current.None? && s.conns[n].queue != []
    case Missing(n) => n in s.conns && s.conns[n].current.Some? && !s.conns[n].writing
    case StartWriting(n) => n in s.conns && s.conns[n].current.Some? && !s.conns[n].writing
    case DoneWriting(n) => n in s.conns && s.conns[n].current.Some? && s.conns[n].writing
    case SenderFails(n) => n in s.conns && s.conns[n].current.Some?
    case Forwarded(n) => n in s.conns && s.conns[n].sent != []
    case Refused(n) => n in s.conns && s.conns[n].sent != []
    case ConnectionDown(n) => n in s.conns
    case DyingEnds(n, id, _) => (n, id) in s.dying
    case HandleCompleted(n, id) => Completed(n, id) in s.events
    case HandleAborted(n, id, refused, notified) => Aborted(n, id, refused) in s.events && (notified || refused)
    case HandleRequeue(n, id, _) => Requeued(n, id) in s.events
    case ClockTick(now, _) => IsDue(s.retry, now)
    case BundleExpires(_, _) => true
  }

  function WithConn(s: State, n: Eid, c: Conn): State {
    s.(conns := s.conns[n := c])
  }

  function Raise(s: State, e: Signal): State {
    s.(events := s.events + multiset{e})
  }

  function Consume(s: State, e: Signal): State {
    s.(events := s.events - multiset{e})
  }

  function Apply(s: State, step: Step): State
    requires Enabled(s, step)
  {
    match step
    case AddNeighbour(n) => s.(transit := s.transit[n := {}])
    case Route(n, id, handoff) =>
      TransferTo(s.(transit := s.transit[n := s.transit[n] + {id}]), n, id, handoff)
    case Fetch(n) =>
      var c := s.conns[n];
      WithConn(s, n, c.(queue := c.queue[1..], current := Some(c.queue[0]), writing := false))
    case Missing(n) =>
      var c := s.conns[n];
      Raise(WithConn(s, n, c.(current := None)), Aborted(n, c.current.value, false))
    case StartWriting(n) =>
      var c := s.conns[n];
      WithConn(s, n, c.(writing := true, sent := c.sent + [c.current.value]))
    case DoneWriting(n) =>
      var c := s.conns[n];
      WithConn(s, n, c.(current := None, writing := false))
    case SenderFails(n) =>
      var c := s.conns[n];
      Raise(WithConn(s, n, c.(current := None, writing := false)), Requeued(n, c.current.value))
    case Forwarded(n) =>
      var c := s.conns[n];
      Raise(WithConn(s, n, c.(sent := c.sent[1..])), Completed(n, c.sent[0]))
    case Refused(n) =>
      var c := s.conns[n];
      Raise(WithConn(s, n, c.(sent := c.sent[1..])), Aborted(n, c.sent[0], true))
    case ConnectionDown(n) =>
      var c := s.conns[n];
      s.(conns := s.conns - {n},
         events := s.events + multiset(RequeueAll(n, c.queue)) + multiset(RequeueAll(n, c.sent)),
         dying := s.dying + if c.current.Some? then multiset{(n, c.current.value)} else multiset{})
    case DyingEnds(n, id, deleted) =>
      Raise(s.(dying := s.dying - multiset{(n, id)}), if deleted then Aborted(n, id, false) else Requeued(n, id))
    case HandleCompleted(n, id) =>
      Consume(s, Completed(n, id)).(transit := Release(s.transit, n, id), retry := Notify(s.retry, Removed(id, 0)))
    case HandleAborted(n, id, refused, notified) =>
      Consume(s, Aborted(n, id, refused)).(
        transit := Release(s.transit, n, id),
        retry := if notified then Notify(s.retry, Removed(id, 0)) else s.retry)
    case HandleRequeue(n, id, now) =>
      var s' := Consume(s, Requeued(n, id)).(retry := Notify(s.retry, Requeue(n, id, now)));
      if GivesUp(s.retry, id) then Raise(s', Aborted(n, id, false)) else s'
    case ClockTick(now, handoff) =>
      var e := s.retry.queue[0];
      TransferTo(s.(retry := Notify(s.retry, Tick(now))), e.destination, e.id, handoff)
    case BundleExpires(id, now) =>
      s.(retry := Notify(s.retry, Expired(id, now)), events := s.events + multiset(AbortEvents(Only(s.retry.queue, id))))
  }

  ghost predicate Next(s: State, s': State) {
    exists step :: Enabled(s, step) && s' == Apply(s, step)
  }

  ghost predicate IsRun(run: seq<State>) {
    run != [] && run[0] == INITIAL && forall i :: 0 <= i < |run| - 1 ==> Next(run[i], run[i + 1])
  }

  // ---------------------------------------------------------------- live tokens

  predicate InConn(conns: map<Eid, Conn>, n: Eid, id: BundleId) {
    n in conns &&
    (id in conns[n].queue || id in conns[n].sent || (conns[n].current == Some(id) && !conns[n].writing))
  }

  ghost predicate InEvents(events: multiset<Signal>, n: Eid, id: BundleId) {
    || Completed(n, id) in events
    || Requeued(n, id) in events
    || Aborted(n, id, false) in events
    || Aborted(n, id, true) in events
  }

  ghost predicate InRetryQueue(queue: seq<Retry>, n: Eid, id: BundleId) {
    exists i :: 0 <= i < |queue| && queue[i].id == id && queue[i].destination == n
  }

  /** Something still under way will end in an event for this neighbour and bundle. */
  ghost predicate Token(s: State, n: Eid, id: BundleId) {
    || InConn(s.conns, n, id)
    || (n, id) in s.dying
    || InEvents(s.events, n, id)
    || InRetryQueue(s.retry.queue, n, id)
  }

  predicate Holds(transit: map<Eid, set<BundleId>>, n: Eid, id: BundleId) {
    n in transit && id in transit[n]
  }

  /** Every slot taken is backed by a token. */
  ghost predicate NoLeak(s: State) {
    forall n, id :: Holds(s.transit, n, id) ==> Token(s, n, id)
  }

  ghost predicate SlotsBounded(s: State) {
    forall n :: n in s.transit ==> |s.transit[n]| <= TRANSIT_MAX
  }

  /** Retry entries are filed under their own id. */
  ghost predicate EntriesFiled(r: RetryState) {
    forall id :: id in r.entries ==> r.entries[id].id == id
  }

  // ---------------------------------------------------------------- exactly when a step leaks a slot

  /** The set files the bundle under a transfer to another neighbour, and a further repetition is allowed. */
  predicate Misfiled(r: RetryState, n: Eid, id: BundleId) {
    id in r.entries && r.entries[id].destination != n && !GivesUp(r, id)
  }

  /**
   * A requeue is handled for a slot holder whose bundle is filed under another neighbour: the repetition goes
   * there instead. The slot is lost if this requeue was its last token.
   */
  ghost predicate Leaks(s: State, step: Step) {
    && step.HandleRequeue?
    && Misfiled(s.retry, step.n, step.id)
    && Holds(s.transit, step.n, step.id)
    && !Token(Consume(s, Requeued(step.n, step.id)), step.n, step.id)
  }

  lemma HandoffGivesToken(s: State, n: Eid, id: BundleId, handoff: Handoff)
    ensures Token(TransferTo(s, n, id, handoff), n, id)
  {}

  lemma HandoffKeepsTokens(s: State, n: Eid, id: BundleId, handoff: Handoff, m: Eid, other: BundleId)
    requires Token(s, m, other)
    ensures Token(TransferTo(s, n, id, handoff), m, other)
  {}

  /** The steps of the connections only move tokens about. */
  lemma ConnStepKeepsToken(s: State, step: Step, m: Eid, id: BundleId)
    requires Enabled(s, step) && Token(s, m, id)
    requires step.Missing? || step.StartWriting? || step.DoneWriting? || step.SenderFails?
    ensures Token(Apply(s, step), m, id)
  {}

  lemma QueueStepKeepsToken(s: State, step: Step, m: Eid, id: BundleId)
    requires Enabled(s, step) && Token(s, m, id)
    requires step.Fetch? || step.Forwarded? || step.Refused?
    ensures Token(Apply(s, step), m, id)
  {
    var c := s.conns[step.n];
    if step.Fetch? {
      assert c.queue == [c.queue[0]] + c.queue[1..];
    } else {
      assert c.sent == [c.sent[0]] + c.sent[1..];
    }
  }

  lemma DyingEndsKeepsToken(s: State, n: Eid, gone: BundleId, deleted: bool, m: Eid, id: BundleId)
    requires Enabled(s, DyingEnds(n, gone, deleted)) && Token(s, m, id)
    ensures Token(Apply(s, DyingEnds(n, gone, deleted)), m, id)
  {}

  /** The events raised for a connection that goes down name exactly what was queued or sent. */
  lemma DownEvents(n: Eid, c: Conn, m: Eid, id: BundleId)
    ensures InEvents(multiset(RequeueAll(n, c.queue)) + multiset(RequeueAll(n, c.sent)), m, id)
            <==> m == n && (id in c.queue || id in c.sent)
  {
    RequeueAllCovers(n, c.queue, m, id);
    RequeueAllCovers(n, c.sent, m, id);
  }

  lemma DownKeepsToken(s: State, n: Eid, m: Eid, id: BundleId)
    requires Enabled(s, ConnectionDown(n)) && Token(s, m, id)
    ensures Token(Apply(s, ConnectionDown(n)), m, id)
  {
    DownEvents(n, s.conns[n], m, id);
  }

  lemma TickKeepsToken(s: State, now: nat, handoff: Handoff, m: Eid, id: BundleId)
    requires Enabled(s, ClockTick(now, handoff)) && Token(s, m, id)
    ensures Token(Apply(s, ClockTick(now, handoff)), m, id)
  {
    var queue, mid := s.retry.queue, s.(retry := Notify(s.retry, Tick(now)));
    assert queue == [queue[0]] + mid.retry.queue;
    if queue[0].id == id && queue[0].destination == m {
      HandoffGivesToken(mid, m, id, handoff);
    } else {
      if InRetryQueue(queue, m, id) {
        var i :| 0 <= i < |queue| && queue[i].id == id && queue[i].destination == m;
        assert mid.retry.queue[i - 1] == queue[i];
      }
      assert Token(mid, m, id);
      HandoffKeepsTokens(mid, queue[0].destination, queue[0].id, handoff, m, id);
    }
  }

  lemma ExpiryKeepsToken(s: State, gone: BundleId, now: nat, m: Eid, id: BundleId)
    requires Token(s, m, id)
    ensures Token(Apply(s, BundleExpires(gone, now)), m, id)
  {
    if InRetryQueue(s.retry.queue, m, id) {
      ExpirySplits(s.retry.queue, gone, m, id);
    }
  }

  /** A waiting repetition of the expired bundle becomes an abort event, and any other stays in the queue. */
  lemma ExpirySplits(queue: seq<Retry>, gone: BundleId, m: Eid, id: BundleId)
    ensures InRetryQueue(queue, m, id)
            <==> InRetryQueue(Without(queue, gone), m, id)
                 || Aborted(m, id, false) in multiset(AbortEvents(Only(queue, gone)))
  {
    var only, rest := Only(queue, gone), Without(queue, gone);
    SplitById(queue, gone);
    QueueHolds(queue, m, id);
    QueueHolds(rest, m, id);
    QueueHolds(only, m, id);
    AbortsOf(only, m, id);
  }

  lemma QueueHolds(queue: seq<Retry>, m: Eid, id: BundleId)
    ensures InRetryQueue(queue, m, id) <==> exists e :: e in queue && e.id == id && e.destination == m
  {
    if e :| e in queue && e.id == id && e.destination == m {
      var i :| 0 <= i < |queue| && queue[i] == e;
    }
  }

  lemma AbortsOf(entries: seq<Retry>, m: Eid, id: BundleId)
    ensures Aborted(m, id, false) in multiset(AbortEvents(entries)) <==> InRetryQueue(entries, m, id)
  {
    var events := AbortEvents(entries);
    if InRetryQueue(entries, m, id) {
      var i :| 0 <= i < |entries| && entries[i].id == id && entries[i].destination == m;
      assert events[i] == Aborted(m, id, false);
    }
  }

  lemma HandleStepKeepsToken(s: State, step: Step, m: Eid, id: BundleId)
    requires Enabled(s, step) && Token(s, m, id)
    requires step.HandleCompleted? || step.HandleAborted?
    requires (m, id) != (step.n, step.id)
    ensures Token(Apply(s, step), m, id)
  {}

  lemma QueuedRetryIsToken(s: State, n: Eid, rid: BundleId, now: nat)
    requires Enabled(s, HandleRequeue(n, rid, now)) && EntriesFiled(s.retry) && !Misfiled(s.retry, n, rid)
    ensures Token(Apply(s, HandleRequeue(n, rid, now)), n, rid)
  {
    InLongerQueue(s.retry.queue, RetryFor(s.retry, n, rid, now), n, rid);
  }

  lemma OtherTokensStay(s: State, n: Eid, rid: BundleId, now: nat, m: Eid, id: BundleId)
    requires Enabled(s, HandleRequeue(n, rid, now)) && Token(Consume(s, Requeued(n, rid)), m, id)
    ensures Token(Apply(s, HandleRequeue(n, rid, now)), m, id)
  {
    InLongerQueue(s.retry.queue, RetryFor(s.retry, n, rid, now), m, id);
  }

  /** Handling a requeue turns its token into a waiting repetition or an abort event, unless it is misfiled. */
  lemma RequeueStepKeepsToken(s: State, n: Eid, rid: BundleId, now: nat, m: Eid, id: BundleId)
    requires Enabled(s, HandleRequeue(n, rid, now)) && Token(s, m, id) && EntriesFiled(s.retry)
    requires (m, id) == (n, rid) && Misfiled(s.retry, n, rid) ==> Token(Consume(s, Requeued(n, rid)), n, rid)
    ensures Token(Apply(s, HandleRequeue(n, rid, now)), m, id)
  {
    if (m, id) == (n, rid) && !Misfiled(s.retry, n, rid) {
      QueuedRetryIsToken(s, n, rid, now);
    } else {
      OtherTokensStay(s, n, rid, now, m, id);
    }
  }

  lemma InLongerQueue(queue: seq<Retry>, e: Retry, n: Eid, id: BundleId)
    ensures InRetryQueue(queue + [e], n, id) <==> InRetryQueue(queue, n, id) || (e.id == id && e.destination == n)
  {
    var longer := queue + [e];
    if InRetryQueue(queue, n, id) {
      var i :| 0 <= i < |queue| && queue[i].id == id && queue[i].destination == n;
      assert longer[i] == queue[i];
    } else if e.id == id && e.destination == n {
      assert longer[|queue|] == e;
    }
  }

  lemma RouteKeeps(s: State, step: Step)
    requires Enabled(s, step) && NoLeak(s) && step.Route?
    ensures NoLeak(Apply(s, step))
  {
    var n, id := step.n, step.id;
    var mid := s.(transit := s.transit[n := s.transit[n] + {id}]);
    forall m: Eid, other: BundleId | Holds(Apply(s, step).transit, m, other)
      ensures Token(Apply(s, step), m, other)
    {
      if (m, other) == (n, id) {
        HandoffGivesToken(mid, n, id, step.handoff);
      } else {
        assert Holds(s.transit, m, other);
        assert Token(mid, m, other);
        HandoffKeepsTokens(mid, n, id, step.handoff, m, other);
      }
    }
  }

  lemma OtherStepKeeps(s: State, step: Step)
    requires Enabled(s, step) && NoLeak(s) && EntriesFiled(s.retry) && !Leaks(s, step) && !step.Route?
    ensures NoLeak(Apply(s, step))
  {
    var s' := Apply(s, step);
    forall m: Eid, id: BundleId | Holds(s'.transit, m, id)
      ensures Token(s', m, id)
    {
      HeldBefore(s, step, m, id);
      StepKeepsToken(s, step, m, id);
    }
  }

  /** Only routing takes slots; handling the end of a transfer frees its own. */
  lemma HeldBefore(s: State, step: Step, m: Eid, id: BundleId)
    requires Enabled(s, step) && !step.Route? && Holds(Apply(s, step).transit, m, id)
    ensures Holds(s.transit, m, id)
    ensures step.HandleCompleted? || step.HandleAborted? ==> (m, id) != (step.n, step.id)
  {
    match step
    case AddNeighbour(_) =>
    case HandleCompleted(n, done) => HeldBeforeRelease(s.transit, n, done, m, id);
    case HandleAborted(n, done, _, _) => HeldBeforeRelease(s.transit, n, done, m, id);
    case ConnectionDown(_) => HeldBeforeEvent(s, step, m, id);
    case DyingEnds(_, _, _) => HeldBeforeEvent(s, step, m, id);
    case HandleRequeue(_, _, _) => HeldBeforeEvent(s, step, m, id);
    case ClockTick(_, _) => HeldBeforeEvent(s, step, m, id);
    case BundleExpires(_, _) => HeldBeforeEvent(s, step, m, id);
    case _ => HeldBeforeConnStep(s, step, m, id);
  }

  lemma HeldBeforeRelease(transit: map<Eid, set<BundleId>>, n: Eid, done: BundleId, m: Eid, id: BundleId)
    requires Holds(Release(transit, n, done), m, id)
    ensures Holds(transit, m, id) && (m, id) != (n, done)
  {}

  lemma HeldBeforeConnStep(s: State, step: Step, m: Eid, id: BundleId)
    requires Enabled(s, step) && Holds(Apply(s, step).transit, m, id)
    requires step.Fetch? || step.Missing? || step.StartWriting? || step.DoneWriting? || step.SenderFails?
             || step.Forwarded? || step.Refused?
    ensures Holds(s.transit, m, id)
  {}

  lemma HeldBeforeEvent(s: State, step: Step, m: Eid, id: BundleId)
    requires Enabled(s, step) && Holds(Apply(s, step).transit, m, id)
    requires step.ConnectionDown? || step.DyingEnds? || step.HandleRequeue? || step.ClockTick? || step.BundleExpires?
    ensures Holds(s.transit, m, id)
  {}

  lemma StepKeepsToken(s: State, step: Step, m: Eid, id: BundleId)
    requires Enabled(s, step) && EntriesFiled(s.retry) && !Leaks(s, step) && !step.Route?
    requires Holds(s.transit, m, id) && Token(s, m, id)
    requires step.HandleCompleted? || step.HandleAborted? ==> (m, id) != (step.n, step.id)
    ensures Token(Apply(s, step), m, id)
  {
    match step
    case AddNeighbour(_) =>
    case HandleCompleted(_, _) => HandleStepKeepsToken(s, step, m, id);
    case HandleAborted(_, _, _, _) => HandleStepKeepsToken(s, step, m, id);
    case HandleRequeue(n, rid, now) => RequeueStepKeepsToken(s, n, rid, now, m, id);
    case ClockTick(now, handoff) => TickKeepsToken(s, now, handoff, m, id);
    case BundleExpires(gone, now) => ExpiryKeepsToken(s, gone, now, m, id);
    case ConnectionDown(n) => DownKeepsToken(s, n, m, id);
    case DyingEnds(n, gone, deleted) => DyingEndsKeepsToken(s, n, gone, deleted, m, id);
    case Fetch(_) => QueueStepKeepsToken(s, step, m, id);
    case Forwarded(_) => QueueStepKeepsToken(s, step, m, id);
    case Refused(_) => QueueStepKeepsToken(s, step, m, id);
    case _ => ConnStepKeepsToken(s, step, m, id);
  }

  /** From a state without leaks, a step leaves one exactly if it is the misfiled requeue of a last token. */
  lemma StepLeaksIff(s: State, step: Step)
    requires Enabled(s, step) && NoLeak(s) && EntriesFiled(s.retry)
    ensures NoLeak(Apply(s, step)) <==> !Leaks(s, step)
  {
    if Leaks(s, step) {
      assert Holds(Apply(s, step).transit, step.n, step.id);
      InLongerQueue(s.retry.queue, RetryFor(s.retry, step.n, step.id, step.now), step.n, step.id);
    } else if step.Route? {
      RouteKeeps(s, step);
    } else {
      OtherStepKeeps(s, step);
    }
  }

  lemma NotifyKeepsFiling(r: RetryState, event: Event)
    requires EntriesFiled(r)
    ensures EntriesFiled(Notify(r, event))
  {}

  /** A run with its steps, from the start. */
  ghost predicate Follows(run: seq<State>, steps: seq<Step>) {
    && |run| == |steps| + 1 && run[0] == INITIAL
    && forall i :: 0 <= i < |steps| ==> Enabled(run[i], steps[i]) && run[i + 1] == Apply(run[i], steps[i])
  }

  lemma {:induction false} LeakFreeUpTo(run: seq<State>, steps: seq<Step>, i: nat)
    requires Follows(run, steps) && i < |run| && forall k :: 0 <= k < i ==> !Leaks(run[k], steps[k])
    ensures NoLeak(run[i]) && EntriesFiled(run[i].retry)
  {
    if i > 0 {
      LeakFreeUpTo(run, steps, i - 1);
      StepLeaksIff(run[i - 1], steps[i - 1]);
      StepKeepsFiling(run[i - 1], steps[i - 1]);
    }
  }

  lemma {:induction false} FilingOfRun(run: seq<State>, steps: seq<Step>, i: nat)
    requires Follows(run, steps) && i < |run|
    ensures EntriesFiled(run[i].retry)
  {
    if i > 0 {
      FilingOfRun(run, steps, i - 1);
      StepKeepsFiling(run[i - 1], steps[i - 1]);
    }
  }

  /** A run never leaks a slot, if and only if none of its steps is the misfiled requeue of a last token. */
  lemma RunLeaksIff(run: seq<State>, steps: seq<Step>)
    requires Follows(run, steps)
    ensures (forall i :: 0 <= i < |run| ==> NoLeak(run[i])) <==> forall i :: 0 <= i < |steps| ==> !Leaks(run[i], steps[i])
  {
    if forall i :: 0 <= i < |steps| ==> !Leaks(run[i], steps[i]) {
      forall i | 0 <= i < |run|
        ensures NoLeak(run[i])
      {
        LeakFreeUpTo(run, steps, i);
      }
    }
    if forall i :: 0 <= i < |run| ==> NoLeak(run[i]) {
      forall i | 0 <= i < |steps|
        ensures !Leaks(run[i], steps[i])
      {
        FilingOfRun(run, steps, i);
        StepLeaksIff(run[i], steps[i]);
        assert NoLeak(run[i + 1]);
      }
    }
  }

  /** In any state: a bundle that is filed under another neighbour can leak its slot two steps after it is routed. */
  lemma FiledElsewhereLeaks(s: State, n: Eid, id: BundleId, now: nat)
    requires Enabled(s, Route(n, id, NoConnection)) && Misfiled(s.retry, n, id) && !Token(s, n, id) && EntriesFiled(s.retry)
    ensures var s' := Apply(s, Route(n, id, NoConnection));
            Enabled(s', HandleRequeue(n, id, now)) && !NoLeak(Apply(s', HandleRequeue(n, id, now)))
  {
    var s' := Apply(s, Route(n, id, NoConnection));
    assert (s.events + multiset{Requeued(n, id)}) - multiset{Requeued(n, id)} == s.events;
    LostRepetition(s', n, id, now);
  }

  lemma LostRepetition(s: State, n: Eid, id: BundleId, now: nat)
    requires Enabled(s, HandleRequeue(n, id, now)) && Misfiled(s.retry, n, id) && Holds(s.transit, n, id)
    requires !Token(Consume(s, Requeued(n, id)), n, id) && EntriesFiled(s.retry)
    ensures !NoLeak(Apply(s, HandleRequeue(n, id, now)))
  {
    InLongerQueue(s.retry.queue, RetryFor(s.retry, n, id, now), n, id);
    assert Holds(Apply(s, HandleRequeue(n, id, now)).transit, n, id);
  }

  lemma StepKeepsFiling(s: State, step: Step)
    requires Enabled(s, step) && EntriesFiled(s.retry)
    ensures EntriesFiled(Apply(s, step).retry)
  {
    match step
    case HandleCompleted(_, id) => NotifyKeepsFiling(s.retry, Removed(id, 0));
    case HandleAborted(_, id, _, _) => NotifyKeepsFiling(s.retry, Removed(id, 0));
    case HandleRequeue(n, id, now) => NotifyKeepsFiling(s.retry, Requeue(n, id, now));
    case ClockTick(now, _) =>
      NotifyKeepsFiling(s.retry, Tick(now));
      assert Apply(s, step).retry == Notify(s.retry, Tick(now));
    case BundleExpires(id, now) => NotifyKeepsFiling(s.retry, Expired(id, now));
    case _ => assert Apply(s, step).retry == s.retry;
  }

  // ---------------------------------------------------------------- one neighbour per bundle at a time

  /** Anything still under way, or any entry of the retry set, names this neighbour for this bundle. */
  ghost predicate Mentions(s: State, n: Eid, id: BundleId) {
    || (n in s.conns && (id in s.conns[n].queue || id in s.conns[n].sent || s.conns[n].current == Some(id)))
    || (n, id) in s.dying
    || InEvents(s.events, n, id)
    || InRetryQueue(s.retry.queue, n, id)
    || (id in s.retry.entries && s.retry.entries[id].destination == n)
  }

  ghost predicate Undivided(s: State) {
    forall id, n, m :: Mentions(s, n, id) && Mentions(s, m, id) ==> n == m
  }

  /** A bundle is routed to a neighbour only when nothing under way or filed concerns another one. */
  ghost predicate RoutesCarefully(s: State, step: Step) {
    step.Route? ==> forall m :: Mentions(s, m, step.id) ==> m == step.n
  }

  lemma HandoffMentions(s: State, n: Eid, id: BundleId, handoff: Handoff, m: Eid, other: BundleId)
    requires Mentions(TransferTo(s, n, id, handoff), m, other)
    ensures Mentions(s, m, other) || (m, other) == (n, id)
  {}

  lemma ConnStepMentions(s: State, step: Step, m: Eid, id: BundleId)
    requires Enabled(s, step) && Mentions(Apply(s, step), m, id)
    requires step.Fetch? || step.Missing? || step.StartWriting? || step.DoneWriting? || step.SenderFails?
             || step.Forwarded? || step.Refused?
    ensures Mentions(s, m, id)
  {
    var c := s.conns[step.n];
    assert c.queue != [] ==> c.queue[0] in c.queue;
    assert c.sent != [] ==> c.sent[0] in c.sent;
  }

  lemma DownStepMentions(s: State, step: Step, m: Eid, id: BundleId)
    requires Enabled(s, step) && Mentions(Apply(s, step), m, id)
    requires step.ConnectionDown? || step.DyingEnds?
    ensures Mentions(s, m, id)
  {
    if step.ConnectionDown? { DownEvents(step.n, s.conns[step.n], m, id); }
  }

  lemma TickMentions(s: State, now: nat, handoff: Handoff, m: Eid, id: BundleId)
    requires Enabled(s, ClockTick(now, handoff)) && Mentions(Apply(s, ClockTick(now, handoff)), m, id)
    ensures Mentions(s, m, id)
  {
    var queue, mid := s.retry.queue, s.(retry := Notify(s.retry, Tick(now)));
    HandoffMentions(mid, queue[0].destination, queue[0].id, handoff, m, id);
    if InRetryQueue(mid.retry.queue, m, id) {
      var i :| 0 <= i < |mid.retry.queue| && mid.retry.queue[i].id == id && mid.retry.queue[i].destination == m;
      assert queue[i + 1] == mid.retry.queue[i];
    }
  }

  lemma ExpiryMentions(s: State, gone: BundleId, now: nat, m: Eid, id: BundleId)
    requires Mentions(Apply(s, BundleExpires(gone, now)), m, id)
    ensures Mentions(s, m, id)
  {
    ExpirySplits(s.retry.queue, gone, m, id);
    var aborts := AbortEvents(Only(s.retry.queue, gone));
    assert forall e: Signal :: e in multiset(aborts) ==> e.Aborted? && !e.refused;
  }

  lemma HandleStepMentions(s: State, step: Step, m: Eid, id: BundleId)
    requires Enabled(s, step) && Mentions(Apply(s, step), m, id)
    requires step.HandleCompleted? || step.HandleAborted?
    ensures Mentions(s, m, id)
  {}

  lemma RequeueStepMentions(s: State, n: Eid, rid: BundleId, now: nat, m: Eid, id: BundleId)
    requires Enabled(s, HandleRequeue(n, rid, now)) && EntriesFiled(s.retry)
    requires Mentions(Apply(s, HandleRequeue(n, rid, now)), m, id)
    ensures Mentions(s, m, id)
  {
    if !GivesUp(s.retry, rid) { FiledMentions(s, n, rid, now, m, id); }
  }

  lemma FiledMentions(s: State, n: Eid, rid: BundleId, now: nat, m: Eid, id: BundleId)
    requires Enabled(s, HandleRequeue(n, rid, now)) && EntriesFiled(s.retry) && !GivesUp(s.retry, rid)
    requires Mentions(Apply(s, HandleRequeue(n, rid, now)), m, id)
    ensures Mentions(s, m, id)
  {
    InLongerQueue(s.retry.queue, RetryFor(s.retry, n, rid, now), m, id);
  }

  lemma StepMentions(s: State, step: Step, m: Eid, id: BundleId)
    requires Enabled(s, step) && EntriesFiled(s.retry) && Mentions(Apply(s, step), m, id)
    ensures Mentions(s, m, id) || (step.Route? && (m, id) == (step.n, step.id))
  {
    match step
    case AddNeighbour(_) =>
    case Route(n, rid, handoff) =>
      HandoffMentions(s.(transit := s.transit[n := s.transit[n] + {rid}]), n, rid, handoff, m, id);
    case HandleCompleted(_, _) => HandleStepMentions(s, step, m, id);
    case HandleAborted(_, _, _, _) => HandleStepMentions(s, step, m, id);
    case HandleRequeue(n, rid, now) => RequeueStepMentions(s, n, rid, now, m, id);
    case ClockTick(now, handoff) => TickMentions(s, now, handoff, m, id);
    case BundleExpires(gone, now) => ExpiryMentions(s, gone, now, m, id);
    case ConnectionDown(_) => DownStepMentions(s, step, m, id);
    case DyingEnds(_, _, _) => DownStepMentions(s, step, m, id);
    case _ => ConnStepMentions(s, step, m, id);
  }

  lemma CarefulStepKeeps(s: State, step: Step)
    requires Enabled(s, step) && NoLeak(s) && EntriesFiled(s.retry) && Undivided(s) && RoutesCarefully(s, step)
    ensures var s' := Apply(s, step); NoLeak(s') && EntriesFiled(s'.retry) && Undivided(s')
  {
    var s' := Apply(s, step);
    StepLeaksIff(s, step);
    StepKeepsFiling(s, step);
    if step.HandleRequeue? && Misfiled(s.retry, step.n, step.id) {
      assert Mentions(s, step.n, step.id) && Mentions(s, s.retry.entries[step.id].destination, step.id);
    }
    forall id, n, m | Mentions(s', n, id) && Mentions(s', m, id)
      ensures n == m
    {
      StepMentions(s, step, n, id);
      StepMentions(s, step, m, id);
    }
  }

  ghost predicate IsCarefulRun(run: seq<State>) {
    && run != [] && run[0] == INITIAL
    && forall i :: 0 <= i < |run| - 1 ==> CarefulNext(run[i], run[i + 1])
  }

  ghost predicate CarefulNext(s: State, s': State) {
    exists step :: Enabled(s, step) && RoutesCarefully(s, step) && s' == Apply(s, step)
  }

  lemma {:induction false} CarefulRunKeeps(run: seq<State>, i: nat)
    requires IsCarefulRun(run) && i < |run|
    ensures NoLeak(run[i]) && EntriesFiled(run[i].retry) && Undivided(run[i])
  {
    if i > 0 {
      CarefulRunKeeps(run, i - 1);
      assert CarefulNext(run[i - 1], run[i]);
      var step :| Enabled(run[i - 1], step) && RoutesCarefully(run[i - 1], step) && run[i] == Apply(run[i - 1], step);
      CarefulStepKeeps(run[i - 1], step);
    }
  }

  /**
   * In every interleaving in which a bundle concerns one neighbour at a time, every taken slot is backed by
   * something that will release it.
   */
  lemma CarefulRunsNeverLeak(run: seq<State>, i: nat, n: Eid, id: BundleId)
    requires IsCarefulRun(run) && i < |run| && Holds(run[i].transit, n, id)
    ensures Token(run[i], n, id)
  {
    CarefulRunKeeps(run, i);
  }

  lemma ReleaseKeepsBound(s: State, n: Eid, id: BundleId)
    requires SlotsBounded(s)
    ensures forall m :: m in Release(s.transit, n, id) ==> |Release(s.transit, n, id)[m]| <= TRANSIT_MAX
  {
    if n in s.transit {
      var before, after := s.transit[n], s.transit[n] - {id};
      assert before == after + (before - after);
    }
  }

  lemma RouteKeepsBound(s: State, n: Eid, id: BundleId, handoff: Handoff)
    requires Enabled(s, Route(n, id, handoff)) && SlotsBounded(s)
    ensures SlotsBounded(Apply(s, Route(n, id, handoff)))
  {
    assert |s.transit[n] + {id}| == |s.transit[n]| + 1;
  }

  lemma SlotStep(s: State, step: Step)
    requires Enabled(s, step) && SlotsBounded(s)
    ensures SlotsBounded(Apply(s, step))
  {
    match step
    case Route(n, id, handoff) => RouteKeepsBound(s, n, id, handoff);
    case HandleCompleted(n, id) => ReleaseKeepsBound(s, n, id);
    case HandleAborted(n, id, _, _) => ReleaseKeepsBound(s, n, id);
    case _ =>
  }

  lemma {:induction false} SlotsOfRun(run: seq<State>, i: nat)
    requires IsRun(run) && i < |run|
    ensures SlotsBounded(run[i])
  {
    if i > 0 {
      SlotsOfRun(run, i - 1);
      assert Next(run[i - 1], run[i]);
      var step :| Enabled(run[i - 1], step) && run[i] == Apply(run[i - 1], step);
      SlotStep(run[i - 1], step);
    }
  }

  /** In every run at all no neighbour holds more than five slots. */
  lemma SlotsAreBounded(run: seq<State>, i: nat, n: Eid)
    requires IsRun(run) && i < |run| && n in run[i].transit
    ensures |run[i].transit[n]| <= 5
  {
    SlotsOfRun(run, i);
  }

  // ---------------------------------------------------------------- one holder at a time is not enough

  /** At any moment each bundle occupies a slot of at most one neighbour. */
  ghost predicate OneHolder(s: State) {
    forall id, n, m :: Holds(s.transit, n, id) && Holds(s.transit, m, id) ==> n == m
  }

  const FREE: map<Eid, set<BundleId>> := map[1 := {}, 2 := {}]
  const FIRST_HOLDS: map<Eid, set<BundleId>> := map[1 := {0}, 2 := {}]
  const SECOND_HOLDS: map<Eid, set<BundleId>> := map[1 := {}, 2 := {0}]

  const RQ1 := Requeued(1, 0)
  const RQ2 := Requeued(2, 0)
  const AB1 := Aborted(1, 0, false)

  function Connected(c: Conn, events: multiset<Signal>): State {
    State(FIRST_HOLDS, map[1 := c], multiset{}, events, NO_RETRIES)
  }

  function Apart(transit: map<Eid, set<BundleId>>, events: multiset<Signal>, retry: RetryState): State {
    State(transit, map[], multiset{}, events, retry)
  }

  /** The `count`-th repetition for neighbour 1, filed in the set and queued last. */
  function Filed(queue: seq<Retry>, e: Retry): RetryState {
    RetryState(queue, map[0 := e])
  }

  const E1 := Retry(0, 1, 1, 1)
  const E2 := Retry(0, 1, 2, 1)
  const E3 := Retry(0, 1, 3, 2)

  /**
   * The run. Bundle 0 is routed to neighbour 1 (3). Its sender fails after the bundle was put on the sent
   * queue, and the connection goes down: two requeue events for one transfer (7). The first of them ends in
   * an abort, which frees the slot (10). The bundle is routed to neighbour 2 (11), and only then the second
   * one is handled and files it under neighbour 1 (12); the requeue of neighbour 2 becomes one more
   * repetition for neighbour 1 (13).
   */
  function Leaking(i: nat): State {
    match i
    case 0 => INITIAL
    case 1 => INITIAL.(transit := map[1 := {}])
    case 2 => INITIAL.(transit := FREE)
    case 3 => Connected(Conn([0], None, false, []), multiset{})
    case 4 => Connected(Conn([], Some(0), false, []), multiset{})
    case 5 => Connected(Conn([], Some(0), true, [0]), multiset{})
    case 6 => Connected(Conn([], None, false, [0]), multiset{RQ1})
    case 7 => Apart(FIRST_HOLDS, multiset{RQ1, RQ1}, NO_RETRIES)
    case 8 => Apart(FIRST_HOLDS, multiset{RQ1}, Filed([E1], E1))
    case 9 => Apart(FIRST_HOLDS, multiset{RQ1, AB1}, Filed([], E1))
    case 10 => Apart(FREE, multiset{RQ1}, NO_RETRIES)
    case 11 => Apart(SECOND_HOLDS, multiset{RQ1, RQ2}, NO_RETRIES)
    case 12 => Apart(SECOND_HOLDS, multiset{RQ2}, Filed([E2], E2))
    case _ => Apart(SECOND_HOLDS, multiset{}, Filed([E2, E3], E3))
  }

  lemma Link01()
    ensures Next(Leaking(0), Leaking(1)) && Next(Leaking(1), Leaking(2))
  {
    assert Leaking(1) == Apply(Leaking(0), AddNeighbour(1));
    assert Leaking(2).transit == Leaking(1).transit[2 := {}];
    assert Leaking(2) == Apply(Leaking(1), AddNeighbour(2));
  }

  lemma Link2()
    ensures Next(Leaking(2), Leaking(3))
  {
    var s, c := Leaking(2), Conn([0], None, false, []);
    assert FREE[1] + {0} == {0};
    assert FREE[1 := {0}] == FIRST_HOLDS;
    assert [] + [0] == [0];
    assert s.conns[1 := c] == map[1 := c];
    assert Leaking(3) == Apply(s, Route(1, 0, Queued));
  }

  lemma Link3()
    ensures Next(Leaking(3), Leaking(4))
  {
    assert [0][1..] == [];
    assert Leaking(3).conns[1 := Conn([], Some(0), false, [])] == Leaking(4).conns;
    assert Leaking(4) == Apply(Leaking(3), Fetch(1));
  }

  lemma Link4()
    ensures Next(Leaking(4), Leaking(5))
  {
    assert [] + [0] == [0];
    assert Leaking(4).conns[1 := Conn([], Some(0), true, [0])] == Leaking(5).conns;
    assert Leaking(5) == Apply(Leaking(4), StartWriting(1));
  }

  lemma Link5()
    ensures Next(Leaking(5), Leaking(6))
  {
    assert Leaking(5).conns[1 := Conn([], None, false, [0])] == Leaking(6).conns;
    assert Leaking(6) == Apply(Leaking(5), SenderFails(1));
  }

  lemma Link6()
    ensures Next(Leaking(6), Leaking(7))
  {
    assert RequeueAll(1, [0]) == [RQ1];
    assert RequeueAll(1, []) == [];
    assert Leaking(6).conns - {1} == map[];
    assert Leaking(7) == Apply(Leaking(6), ConnectionDown(1));
  }

  lemma RequeueHandled(s: State, n: Eid, id: BundleId, now: nat, events: multiset<Signal>, retry: RetryState)
    requires Requeued(n, id) in s.events && !GivesUp(s.retry, id)
    requires s.events - multiset{Requeued(n, id)} == events && Notify(s.retry, Requeue(n, id, now)) == retry
    ensures Next(s, s.(events := events, retry := retry))
  {
    assert Apply(s, HandleRequeue(n, id, now)) == s.(events := events, retry := retry);
  }

  lemma Link7()
    ensures Next(Leaking(7), Leaking(8))
  {
    assert FirstRetry(0, 1, 0) == E1;
    assert Notify(NO_RETRIES, Requeue(1, 0, 0)) == Filed([E1], E1);
    assert multiset{RQ1, RQ1} - multiset{RQ1} == multiset{RQ1};
    RequeueHandled(Leaking(7), 1, 0, 0, multiset{RQ1}, Filed([E1], E1));
  }

  lemma Link8()
    ensures Next(Leaking(8), Leaking(9))
  {
    assert Notify(Leaking(8).retry, Tick(1)) == Filed([], E1);
    assert Leaking(9) == Apply(Leaking(8), ClockTick(1, NoNeighbour));
  }

  lemma AbortHandled(
    s: State, n: Eid, id: BundleId, transit: map<Eid, set<BundleId>>, events: multiset<Signal>, retry: RetryState)
    requires Aborted(n, id, false) in s.events && s.events - multiset{Aborted(n, id, false)} == events
    requires Release(s.transit, n, id) == transit && Notify(s.retry, Removed(id, 0)) == retry
    ensures Next(s, s.(transit := transit, events := events, retry := retry))
  {
    assert Apply(s, HandleAborted(n, id, false, true)) == s.(transit := transit, events := events, retry := retry);
  }

  lemma Link9()
    ensures Next(Leaking(9), Leaking(10))
  {
    assert FIRST_HOLDS[1] - {0} == {};
    assert FIRST_HOLDS[1 := {}] == FREE;
    assert Notify(Filed([], E1), Removed(0, 0)) == NO_RETRIES;
    assert multiset{RQ1, AB1} - multiset{AB1} == multiset{RQ1};
    AbortHandled(Leaking(9), 1, 0, FREE, multiset{RQ1}, NO_RETRIES);
  }

  lemma Link10()
    ensures Next(Leaking(10), Leaking(11))
  {
    assert FREE[2] + {0} == {0};
    assert FREE[2 := {0}] == SECOND_HOLDS;
    assert Leaking(11) == Apply(Leaking(10), Route(2, 0, NoConnection));
  }

  lemma Link11()
    ensures Next(Leaking(11), Leaking(12))
  {
    assert FirstRetry(0, 1, 1) == E2;
    assert Notify(NO_RETRIES, Requeue(1, 0, 1)) == Filed([E2], E2);
    assert multiset{RQ1, RQ2} - multiset{RQ1} == multiset{RQ2};
    RequeueHandled(Leaking(11), 1, 0, 1, multiset{RQ2}, Filed([E2], E2));
  }

  lemma Link12()
    ensures Next(Leaking(12), Leaking(13))
  {
    assert Pow2(1) == 2;
    assert Bump(E2, 1) == E3;
    assert [E2] + [E3] == [E2, E3];
    assert Notify(Filed([E2], E2), Requeue(2, 0, 1)) == Filed([E2, E3], E3);
    assert multiset{RQ2} - multiset{RQ2} == multiset{};
    RequeueHandled(Leaking(12), 2, 0, 1, multiset{}, Filed([E2, E3], E3));
  }

  /** A run in which every bundle has one holder at any time, and which ends with a leaked slot. */
  lemma OneHolderIsNotEnough() returns (run: seq<State>)
    ensures IsRun(run) && (forall i :: 0 <= i < |run| ==> OneHolder(run[i]))
    ensures !NoLeak(run[|run| - 1])
  {
    run := seq(14, i requires 0 <= i < 14 => Leaking(i));
    forall i | 0 <= i < 13
      ensures Next(run[i], run[i + 1])
    {
      LinkAt(i);
    }
    forall i | 0 <= i < 14
      ensures OneHolder(run[i])
    {
      HolderAt(i);
    }
    assert Holds(run[13].transit, 2, 0) && !Token(run[13], 2, 0);
  }

  lemma OnlyHolder(s: State, holder: Eid)
    requires forall n, id :: Holds(s.transit, n, id) ==> n == holder
    ensures OneHolder(s)
  {}

  lemma HoldersOf(n: Eid, id: BundleId)
    ensures Holds(FIRST_HOLDS, n, id) ==> n == 1
    ensures Holds(SECOND_HOLDS, n, id) ==> n == 2
    ensures !Holds(FREE, n, id) && !Holds(map[1 := {}], n, id) && !Holds(map[], n, id)
  {}

  lemma HolderAt(i: nat)
    ensures OneHolder(Leaking(i))
  {
    var s, holder := Leaking(i), if i <= 10 then 1 else 2;
    forall n: Eid, id: BundleId | Holds(s.transit, n, id)
      ensures n == holder
    {
      HoldersOf(n, id);
    }
    OnlyHolder(s, holder);
  }

  lemma LinkAt(i: nat)
    requires i < 13
    ensures Next(Leaking(i), Leaking(i + 1))
  {
    match i
    case 0 => Link01();
    case 1 => Link01();
    case 2 => Link2();
    case 3 => Link3();
    case 4 => Link4();
    case 5 => Link5();
    case 6 => Link6();
    case 7 => Link7();
    case 8 => Link8();
    case 9 => Link9();
    case 10 => Link10();
    case 11 => Link11();
    case _ => Link12();
  }
}
