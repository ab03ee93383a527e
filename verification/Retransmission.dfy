/**
 * The retransmission extension of the router. A bundle whose transfer has to be repeated waits in a FIFO
 * queue, each time twice as long as before; a set keyed by bundle id counts the repetitions. Every second
 * only the head of the queue is looked at.
 */
module Retransmission {
  import opened ByteStrings

  type BundleId = nat
  type Eid = nat

  const MAX_RETRIES: nat := 8
  const LONGEST_BACKOFF: nat := 128

  /** One waiting repetition: the `count`-th one of `id`, to be sent to `destination` from `timestamp` on. */
  datatype Retry = Retry(id: BundleId, destination: Eid, timestamp: nat, count: nat)

  datatype RetryState = RetryState(queue: seq<Retry>, entries: map<BundleId, Retry>)

  const NO_RETRIES := RetryState([], map[])

  function Pow2(n: nat): (r: nat)
    ensures r >= 1
  {
    if n == 0 then 1 else 2 * Pow2(n - 1)
  }

  /** Count one more repetition and let it wait twice as long as the one before, counting from `now`. */
  function Bump(e: Retry, now: nat): Retry {
    e.(count := e.count + 1, timestamp := now + Pow2(e.count))
  }

  function FirstRetry(id: BundleId, destination: Eid, now: nat): Retry {
    Bump(Retry(id, destination, 0, 0), now)
  }

  // ---------------------------------------------------------------- what each event does

  datatype Event =
    | Tick(now: nat)
    | Removed(id: BundleId, now: nat)                // transfer completed or aborted
    | Requeue(peer: Eid, id: BundleId, now: nat)
    | Expired(id: BundleId, now: nat)

  function RetryFor(s: RetryState, peer: Eid, id: BundleId, now: nat): Retry {
    if id in s.entries then Bump(s.entries[id], now) else FirstRetry(id, peer, now)
  }

  /** The ninth repetition is not made: the transfer is aborted instead. */
  predicate GivesUp(s: RetryState, id: BundleId) {
    id in s.entries && s.entries[id].count + 1 > MAX_RETRIES
  }

  predicate IsDue(s: RetryState, now: nat) {
    s.queue != [] && s.queue[0].timestamp <= now
  }

  function Without(queue: seq<Retry>, id: BundleId): (r: seq<Retry>)
    ensures |r| <= |queue|
  {
    if queue == [] then []
    else if queue[0].id == id then Without(queue[1..], id)
    else [queue[0]] + Without(queue[1..], id)
  }

  function Only(queue: seq<Retry>, id: BundleId): seq<Retry> {
    if queue == [] then []
    else if queue[0].id == id then [queue[0]] + Only(queue[1..], id)
    else Only(queue[1..], id)
  }

  lemma {:induction false} SplitById(queue: seq<Retry>, id: BundleId)
    ensures forall e :: e in Without(queue, id) <==> e in queue && e.id != id
    ensures forall e :: e in Only(queue, id) <==> e in queue && e.id == id
  {
    if queue != [] {
      SplitById(queue[1..], id);
      assert queue == [queue[0]] + queue[1..];
    }
  }

  function Notify(s: RetryState, e: Event): RetryState {
    match e
    case Tick(now) => if IsDue(s, now) then s.(queue := s.queue[1..]) else s
    case Removed(id, _) => s.(entries := s.entries - {id})
    case Requeue(peer, id, now) =>
      if GivesUp(s, id) then s.(entries := s.entries - {id})
      else
        var e := RetryFor(s, peer, id, now);
        RetryState(s.queue + [e], s.entries[id := e])
    case Expired(id, _) => s.(queue := Without(s.queue, id))
  }

  // ---------------------------------------------------------------- the object

  /** What the extension asks of its surroundings: send a bundle, or raise an abort event. */
  datatype Action = SendTo(entry: Retry) | Abort(peer: Eid, id: BundleId)

  class RetransmissionExtension {
    var queue: seq<Retry>
    var entries: map<BundleId, Retry>

    ghost function Value(): RetryState
      reads this
    {
      RetryState(queue, entries)
    }

    constructor ()
      ensures Value() == NO_RETRIES
    {
      queue, entries := [], map[];
    }

    method OnTick(now: nat) returns (actions: seq<Action>)
      modifies this
      ensures Value() == Notify(old(Value()), Tick(now))
      ensures actions == if old(queue) != [] && old(queue)[0].timestamp <= now then [SendTo(old(queue)[0])] else []
      ensures queue == if actions == [] then old(queue) else old(queue)[1..]
    {
      actions := [];
      if |queue| != 0 {
        var data := queue[0];
        if data.timestamp <= now {
          actions := [SendTo(data)];
          queue := queue[1..];
        }
      }
    }

    method OnRemoved(id: BundleId, now: nat)
      modifies this
      ensures Value() == Notify(old(Value()), Removed(id, now))
      ensures id !in entries && queue == old(queue)
      ensures forall other :: other != id ==> (other in entries <==> other in old(entries))
    {
      entries := entries - {id};
    }

    method OnRequeue(peer: Eid, id: BundleId, now: nat) returns (actions: seq<Action>)
      modifies this
      ensures Value() == Notify(old(Value()), Requeue(peer, id, now))
      ensures actions == if id in old(entries) && old(entries)[id].count >= 8 then [Abort(peer, id)] else []
      ensures actions == [] ==> id in entries && queue == old(queue) + [entries[id]]
      ensures actions != [] ==> id !in entries && queue == old(queue)
    {
      actions := [];
      if id in entries {
        var data2 := Bump(entries[id], now);
        entries := entries - {id};
        if data2.count <= MAX_RETRIES {
          entries := entries[id := data2];
          queue := queue + [data2];
        } else {
          actions := [Abort(peer, id)];
        }
      } else {
        var data := FirstRetry(id, peer, now);
        entries := entries[id := data];
        queue := queue + [data];
      }
    }

    /** The head of the queue drops out with an abort if it has expired, and goes to the back otherwise. */
    method RotateHead(id: BundleId) returns (actions: seq<Action>)
      requires queue != []
      modifies this`queue
      ensures queue == old(queue)[1..] + Kept(old(queue)[0], id) && actions == Aborts(Only([old(queue)[0]], id))
    {
      var data := queue[0];
      actions := [];
      assert [data][1..] == [];
      if data.id == id {
        actions := [Abort(data.destination, data.id)];
      } else {
        queue := queue + [data];
      }
      queue := queue[1..];
    }

    /** The queue is turned round once: expired entries drop out with an abort, the others keep their order. */
    method OnExpired(id: BundleId, now: nat) returns (actions: seq<Action>)
      modifies this`queue
      ensures Value() == Notify(old(Value()), Expired(id, now))
      ensures actions == Aborts(Only(old(queue), id))
    {
      actions := [];
      var elements := |queue|;
      ghost var was, kept := queue, [];
      for i := 0 to elements
        invariant queue == was[i..] + kept
        invariant kept + Without(was[i..], id) == Without(was, id)
        invariant actions + Aborts(Only(was[i..], id)) == Aborts(Only(was, id))
      {
        RotationStep(was, i, kept, actions, id);
        var more := RotateHead(id);
        actions := actions + more;
        kept := kept + Kept(was[i], id);
      }
    }
  }

  /** What stays of an entry. */
  function Kept(e: Retry, id: BundleId): seq<Retry> {
    if e.id == id then [] else [e]
  }

  lemma RotationStep(was: seq<Retry>, i: nat, kept: seq<Retry>, actions: seq<Action>, id: BundleId)
    requires i < |was|
    ensures (was[i..] + kept)[0] == was[i]
    ensures (was[i..] + kept)[1..] + Kept(was[i], id) == was[i + 1..] + (kept + Kept(was[i], id))
    ensures kept + Without(was[i..], id) == (kept + Kept(was[i], id)) + Without(was[i + 1..], id)
    ensures actions + Aborts(Only(was[i..], id)) == (actions + Aborts(Only([was[i]], id))) + Aborts(Only(was[i + 1..], id))
  {
    var e, rest := was[i], was[i + 1..];
    SplitFirst(was, i, id);
    assert [e][1..] == [];
    Associate(kept, Kept(e, id), Without(rest, id));
    Associate(actions, Aborts(Only([e], id)), Aborts(Only(rest, id)));
    assert (was[i..] + kept)[1..] == rest + kept;
    Associate(rest, kept, Kept(e, id));
  }

  lemma SplitFirst(queue: seq<Retry>, i: nat, id: BundleId)
    requires i < |queue|
    ensures var e, rest := queue[i], queue[i + 1..];
            && queue[i..] == [e] + rest
            && Without(queue[i..], id) == (if e.id == id then [] else [e]) + Without(rest, id)
            && Aborts(Only(queue[i..], id))
               == (if e.id == id then [Abort(e.destination, e.id)] else []) + Aborts(Only(rest, id))
  {
    assert queue[i..][1..] == queue[i + 1..];
  }

  function Aborts(entries: seq<Retry>): (r: seq<Action>)
    ensures |r| == |entries|
  {
    if entries == [] then []
    else [Abort(entries[0].destination, entries[0].id)] + Aborts(entries[1..])
  }

  /** Each abort names the neighbour and the bundle of its entry. */
  lemma {:induction false} AbortsName(entries: seq<Retry>, i: nat)
    requires i < |entries|
    ensures Aborts(entries)[i] == Abort(entries[i].destination, entries[i].id)
  {
    if i > 0 { AbortsName(entries[1..], i - 1); }
  }

  // ---------------------------------------------------------------- the number of repetitions is bounded

  function AfterAll(events: seq<Event>): RetryState
    decreases |events|
  {
    if events == [] then NO_RETRIES
    else var k := |events| - 1; Notify(AfterAll(events[..k]), events[k])
  }

  /**
   * The requeue events of `id` that led to a queued repetition since its transfer was last completed or
   * aborted, or given up with its ninth requeue; oldest first. Read off the event list alone.
   */
  function RepetitionsSince(events: seq<Event>, id: BundleId): seq<Event>
    decreases |events|
  {
    if events == [] then []
    else
      var k := |events| - 1;
      var past := RepetitionsSince(events[..k], id);
      match events[k]
      case Removed(other, _) => if other == id then [] else past
      case Requeue(_, other, _) =>
        if other != id then past
        else if |past| == 8 then []
        else past + [events[k]]
      case _ => past
  }

  /** The n-th repetition of a bundle waits 2^(n-1) seconds. */
  ghost predicate NthRepetition(e: Retry, n: nat, requeue: Event) {
    requeue.Requeue? && n >= 1 && e.id == requeue.id && e.count == n && e.timestamp == requeue.now + Pow2(n - 1)
  }

  /**
   * In every event run: an id is in the set exactly if repetitions of it were queued since it was last taken
   * out, at most eight of them; its entry is the last of them, waits 2^(n-1) seconds from its requeue, and
   * goes to the neighbour of the first.
   */
  lemma {:induction false} RetriesAreBounded(events: seq<Event>, id: BundleId)
    ensures var s, reps := AfterAll(events), RepetitionsSince(events, id);
            && |reps| <= 8
            && (id in s.entries <==> reps != [])
            && (reps != [] ==>
                 && reps[0].Requeue? && s.entries[id].destination == reps[0].peer
                 && NthRepetition(s.entries[id], |reps|, reps[|reps| - 1]) && s.entries[id].id == id)
    decreases |events|
  {
    if events != [] {
      RetriesAreBounded(events[..|events| - 1], id);
    }
  }

  /** Each of these requeues pushed exactly its repetition; with eight made, the next requeue aborts. */
  lemma RequeueEffect(events: seq<Event>, peer: Eid, id: BundleId, now: nat)
    ensures var s, reps := AfterAll(events), RepetitionsSince(events, id);
            var s' := Notify(s, Requeue(peer, id, now));
            && (GivesUp(s, id) <==> |reps| == 8)
            && (|reps| == 8 ==> s'.queue == s.queue && id !in s'.entries)
            && (|reps| < 8 ==>
                 exists e :: s'.queue == s.queue + [e] && NthRepetition(e, |reps| + 1, Requeue(peer, id, now))
                             && (reps != [] ==> reps[0].Requeue?)
                             && e.destination == if reps == [] then peer else reps[0].peer)
  {
    RetriesAreBounded(events, id);
    var s := AfterAll(events);
    if !GivesUp(s, id) {
      var e := RetryFor(s, peer, id, now);
      assert NthRepetition(e, |RepetitionsSince(events, id)| + 1, Requeue(peer, id, now));
      assert Notify(s, Requeue(peer, id, now)).queue == s.queue + [e];
    }
  }

  // ---------------------------------------------------------------- nobody is sent early

  /** The entry is a repetition, the eighth at most, made for a requeue among these events. */
  ghost predicate MadeBy(events: seq<Event>, e: Retry) {
    exists k :: 0 <= k < |events| && NthRepetition(e, e.count, events[k]) && e.count <= 8
  }

  lemma MadeEarlier(events: seq<Event>, k: nat, e: Retry)
    requires k <= |events| && MadeBy(events[..k], e)
    ensures MadeBy(events, e)
  {
    var j :| 0 <= j < k && NthRepetition(e, e.count, events[..k][j]);
    assert events[j] == events[..k][j];
  }

  /** Whatever waits in the queue was put there by a requeue. */
  lemma {:induction false} QueuedAreMade(events: seq<Event>)
    ensures forall e :: e in AfterAll(events).queue ==> MadeBy(events, e)
    decreases |events|
  {
    if events != [] {
      var k := |events| - 1;
      var s := AfterAll(events[..k]);
      QueuedAreMade(events[..k]);
      forall e | e in AfterAll(events).queue
        ensures MadeBy(events, e)
      {
        if e in s.queue {
          MadeEarlier(events, k, e);
        } else if events[k].Expired? {
          SplitById(s.queue, events[k].id);
        } else {
          RetriesAreBounded(events[..k], events[k].id);
          assert NthRepetition(e, e.count, events[k]);
        }
      }
    }
  }

  /** The entry is the n-th repetition, 1 <= n <= 8, of a requeue at least 2^(n-1) seconds ago. */
  ghost predicate HasWaited(events: seq<Event>, e: Retry, now: nat) {
    exists k, n :: 0 <= k < |events| && 1 <= n <= 8 && NthRepetition(e, n, events[k])
                   && events[k].now + Pow2(n - 1) <= now
  }

  lemma DueHasWaited(events: seq<Event>, e: Retry, now: nat)
    requires MadeBy(events, e)
    ensures HasWaited(events, e, now) <==> e.timestamp <= now
  {
    if e.timestamp <= now {
      var k :| 0 <= k < |events| && NthRepetition(e, e.count, events[k]) && e.count <= 8;
      assert events[k].now + Pow2(e.count - 1) <= now;
    }
  }

  /** In every event run a tick sends the head of the queue exactly if it has waited its time. */
  lemma SentWhenDue(events: seq<Event>, now: nat)
    ensures var queue, queue' := AfterAll(events).queue, Notify(AfterAll(events), Tick(now)).queue;
            && queue' == (if queue != [] && HasWaited(events, queue[0], now) then queue[1..] else queue)
            && (forall e :: e in queue ==> (HasWaited(events, e, now) <==> e.timestamp <= now))
  {
    QueuedAreMade(events);
    forall e | e in AfterAll(events).queue
      ensures HasWaited(events, e, now) <==> e.timestamp <= now
    {
      DueHasWaited(events, e, now);
    }
  }

  function TotalBackoff(n: nat): nat {
    if n == 0 then 0 else TotalBackoff(n - 1) + Pow2(n - 1)
  }

  lemma {:induction false} BackoffSum(n: nat)
    ensures TotalBackoff(n) + 1 == Pow2(n)
  {
    if n > 0 { BackoffSum(n - 1); }
  }

  lemma {:induction false} BackoffIsMonotone(m: nat, n: nat)
    requires m <= n
    ensures Pow2(m) <= Pow2(n)
  {
    if m < n { BackoffIsMonotone(m, n - 1); }
  }

  lemma BackoffLimits()
    ensures TotalBackoff(8) == 255 && Pow2(7) == 128
  {
    BackoffSum(MAX_RETRIES);
    assert Pow2(4) == 16;
    assert Pow2(8) == 256;
  }

  // ---------------------------------------------------------------- nobody waits for ever

  function Resume(s: RetryState, events: seq<Event>): RetryState
    decreases |events|
  {
    if events == [] then s
    else var k := |events| - 1; Notify(Resume(s, events[..k]), events[k])
  }

  /** What is left of the entries that were queued at first, in order. */
  function Left(s: RetryState, events: seq<Event>): seq<Retry>
    decreases |events|
  {
    if events == [] then s.queue
    else
      var k := |events| - 1;
      var left := Left(s, events[..k]);
      match events[k]
      case Tick(now) => if left != [] && left[0].timestamp <= now then left[1..] else left
      case Expired(id, _) => Without(left, id)
      case _ => left
  }

  lemma {:induction false} WithoutConcat(a: seq<Retry>, b: seq<Retry>, id: BundleId)
    ensures Without(a + b, id) == Without(a, id) + Without(b, id)
  {
    if a == [] {
      assert a + b == b;
    } else {
      var ab := a + b;
      assert ab[0] == a[0] && ab[1..] == a[1..] + b;
      WithoutConcat(a[1..], b, id);
      if a[0].id != id {
        assert Without(ab, id) == [a[0]] + Without(ab[1..], id);
      }
    }
  }

  /** The queue is FIFO: what is left of the old entries is in front of everything queued since. */
  lemma {:induction false} OldEntriesComeFirst(s: RetryState, events: seq<Event>)
    ensures Left(s, events) <= Resume(s, events).queue
    decreases |events|
  {
    if events != [] {
      var k := |events| - 1;
      OldEntriesComeFirst(s, events[..k]);
      var left, queue := Left(s, events[..k]), Resume(s, events[..k]).queue;
      if events[k].Expired? {
        assert queue == left + queue[|left|..];
        WithoutConcat(left, queue[|left|..], events[k].id);
      }
    }
  }

  lemma {:induction false} LeftAreOld(s: RetryState, events: seq<Event>)
    ensures forall e :: e in Left(s, events) ==> e in s.queue
    decreases |events|
  {
    if events != [] {
      var k := |events| - 1;
      LeftAreOld(s, events[..k]);
      if events[k].Expired? { SplitById(Left(s, events[..k]), events[k].id); }
    }
  }

  /** The number of ticks at or after a time. */
  function LateTicks(events: seq<Event>, time: nat): nat
    decreases |events|
  {
    if events == [] then 0
    else
      var k := |events| - 1;
      LateTicks(events[..k], time) + if events[k].Tick? && events[k].now >= time then 1 else 0
  }

  /**
   * Let every queued entry be due at `time` at the latest. However requeues and expiries go on, each tick
   * from then on takes one of the old entries out, until none is left.
   */
  lemma {:induction false} OldEntriesLeave(s: RetryState, events: seq<Event>, time: nat)
    requires forall e :: e in s.queue ==> e.timestamp <= time
    ensures |Left(s, events)| == 0 || |Left(s, events)| + LateTicks(events, time) <= |s.queue|
    decreases |events|
  {
    if events != [] {
      var k := |events| - 1;
      OldEntriesLeave(s, events[..k], time);
      OldEntriesComeFirst(s, events[..k]);
      LeftAreOld(s, events[..k]);
      var left := Left(s, events[..k]);
      if left != [] { assert left[0] in s.queue; }
    }
  }

  /** Entries made up to a time are due 128 seconds later at the latest. */
  lemma {:induction false} DueWithin128(events: seq<Event>, t: nat)
    requires forall i :: 0 <= i < |events| ==> events[i].now <= t
    ensures forall e :: e in AfterAll(events).queue ==> e.timestamp <= t + LONGEST_BACKOFF
    decreases |events|
  {
    if events != [] {
      var k := |events| - 1;
      DueWithin128(events[..k], t);
      if events[k].Expired? { SplitById(AfterAll(events[..k]).queue, events[k].id); }
      if events[k].Requeue? && !GivesUp(AfterAll(events[..k]), events[k].id) {
        var s, id := AfterAll(events[..k]), events[k].id;
        RetriesAreBounded(events[..k], id);
        BackoffLimits();
        if id in s.entries {
          BackoffIsMonotone(s.entries[id].count, MAX_RETRIES - 1);
        }
      }
    }
  }

  /**
   * Bounded wait: whatever happened up to time `t`, all n entries then queued have been sent again or removed
   * once n ticks have come at or after t + 128, although each tick looks at the head of the queue only.
   */
  lemma EveryRetryLeavesInTime(past: seq<Event>, t: nat, future: seq<Event>)
    requires forall i :: 0 <= i < |past| ==> past[i].now <= t
    requires LateTicks(future, t + LONGEST_BACKOFF) >= |AfterAll(past).queue|
    ensures Left(AfterAll(past), future) == []
  {
    DueWithin128(past, t);
    OldEntriesLeave(AfterAll(past), future, t + LONGEST_BACKOFF);
  }
}
