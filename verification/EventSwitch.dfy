/**
 * The event switch: events are raised for all receivers of their name, wait as tasks in one of three queues,
 * and are handled by worker threads. An event counts the tasks that refer to it and is deleted with the
 * last one; a blocking raise waits for that and deletes the event itself.
 */
module EventSwitch {
  import opened ByteStrings

  type EventId = nat
  type Receiver = nat
  type Name = string

  datatype Task = Task(receiver: Receiver, event: EventId)

  // ---------------------------------------------------------------- events

  /** `receivers` and `deletions` are history: for how many it was raised, and how often it was deleted. */
  datatype EventValue = EventValue(
    prio: int, autoDelete: bool, count: nat, processed: bool, receivers: nat, deletions: nat)

  function Fresh(prio: int, blocking: bool, receivers: nat): EventValue {
    EventValue(prio, !blocking, receivers, false, receivers, 0)
  }

  /** The end of one task; with the last one an auto-delete event is deleted. */
  function Decrement(e: EventValue): EventValue
    requires e.count > 0
  {
    e.(count := e.count - 1,
       processed := e.count == 1,
       deletions := e.deletions + if e.autoDelete && e.count == 1 then 1 else 0)
  }

  class Event {
    const prio: int
    var autoDelete: bool
    var refCount: nat
    var processed: bool

    constructor (p: int)
      ensures prio == p && autoDelete && !processed
    {
      prio, autoDelete, processed := p, true, false;
    }

    method SetRefCount(c: nat)
      modifies this`refCount
      ensures refCount == c
    {
      refCount := c;
    }

    /** Tells whether the caller has to delete the event; counting below zero is an error. */
    method DecrementRefCount() returns (delete: Option<bool>)
      modifies this`refCount, this`processed
      ensures delete.None? <==> old(refCount) == 0
      ensures delete.None? ==> refCount == old(refCount) && processed == old(processed)
      ensures forall receivers: nat, deletions: nat :: delete.Some? ==>
                var e' := Decrement(EventValue(prio, autoDelete, old(refCount), old(processed), receivers, deletions));
                && refCount == e'.count && processed == e'.processed
                && delete.value == (e'.deletions == deletions + 1)
    {
      if refCount == 0 { return None; }
      refCount := refCount - 1;
      processed := refCount == 0;
      if autoDelete {
        delete := Some(processed);
      } else {
        delete := Some(false);
      }
    }
  }

  // ---------------------------------------------------------------- the queues

  datatype Queues = Queues(prio: seq<Task>, normal: seq<Task>, low: seq<Task>)

  const NO_TASKS := Queues([], [], [])

  function PushTask(q: Queues, prio: int, t: Task): Queues {
    if prio > 0 then q.(prio := q.prio + [t])
    else if prio < 0 then q.(low := q.low + [t])
    else q.(normal := q.normal + [t])
  }

  /** A task for each receiver, in the order of registration. */
  function PushAll(q: Queues, prio: int, event: EventId, receivers: seq<Receiver>): Queues
    decreases |receivers|
  {
    if receivers == [] then q
    else var k := |receivers| - 1; PushTask(PushAll(q, prio, event, receivers[..k]), prio, Task(receivers[k], event))
  }

  /** One task for each receiver. */
  function TasksFor(event: EventId, receivers: seq<Receiver>): (r: seq<Task>)
    ensures |r| == |receivers| && forall i :: 0 <= i < |r| ==> r[i] == Task(receivers[i], event)
  {
    seq(|receivers|, i requires 0 <= i < |receivers| => Task(receivers[i], event))
  }

  lemma {:induction false} PushedAll(q: Queues, prio: int, event: EventId, receivers: seq<Receiver>)
    ensures PushAll(q, prio, event, receivers)
            == Queues(q.prio + if prio > 0 then TasksFor(event, receivers) else [],
                      q.normal + if prio == 0 then TasksFor(event, receivers) else [],
                      q.low + if prio < 0 then TasksFor(event, receivers) else [])
    decreases |receivers|
  {
    if receivers != [] {
      var k := |receivers| - 1;
      PushedAll(q, prio, event, receivers[..k]);
      assert TasksFor(event, receivers) == TasksFor(event, receivers[..k]) + [Task(receivers[k], event)];
    }
  }

  function NextTask(q: Queues): Task
    requires q != NO_TASKS
  {
    if q.prio != [] then q.prio[0] else if q.normal != [] then q.normal[0] else q.low[0]
  }

  function Popped(q: Queues): Queues
    requires q != NO_TASKS
  {
    if q.prio != [] then q.(prio := q.prio[1..])
    else if q.normal != [] then q.(normal := q.normal[1..])
    else q.(low := q.low[1..])
  }

  /** The tasks of one receiver, and those of all others. */
  function Of(tasks: seq<Task>, r: Receiver): seq<Task> {
    if tasks == [] then []
    else (if tasks[0].receiver == r then [tasks[0]] else []) + Of(tasks[1..], r)
  }

  function NotOf(tasks: seq<Task>, r: Receiver): seq<Task> {
    if tasks == [] then []
    else (if tasks[0].receiver == r then [] else [tasks[0]]) + NotOf(tasks[1..], r)
  }

  /** What is dropped and what stays, and how often. */
  lemma {:induction false} PurgeSplits(tasks: seq<Task>, r: Receiver)
    ensures forall t :: multiset(Of(tasks, r))[t] == if t.receiver == r then multiset(tasks)[t] else 0
    ensures forall t :: multiset(NotOf(tasks, r))[t] == if t.receiver == r then 0 else multiset(tasks)[t]
  {
    if tasks != [] {
      PurgeSplits(tasks[1..], r);
      assert tasks == [tasks[0]] + tasks[1..];
    }
  }

  /** A receiver is taken off a list once. */
  function Unlisted(receivers: seq<Receiver>, r: Receiver): seq<Receiver> {
    if receivers == [] then []
    else if receivers[0] == r then receivers[1..]
    else [receivers[0]] + Unlisted(receivers[1..], r)
  }

  lemma {:induction false} UnlistedIsOneLess(receivers: seq<Receiver>, r: Receiver)
    ensures multiset(Unlisted(receivers, r)) == multiset(receivers) - multiset{r}
  {
    if receivers != [] {
      var first, rest := receivers[0], receivers[1..];
      assert receivers == [first] + rest;
      assert multiset(receivers) == multiset{first} + multiset(rest);
      if first != r {
        UnlistedIsOneLess(rest, r);
        assert multiset([first] + Unlisted(rest, r)) == multiset{first} + multiset(Unlisted(rest, r));
      }
    }
  }

  function ListOf(receivers: map<Name, seq<Receiver>>, name: Name): seq<Receiver> {
    if name in receivers then receivers[name] else []
  }

  class EventQueue {
    var receivers: map<Name, seq<Receiver>>
    var prioQueue: seq<Task>
    var queue: seq<Task>
    var lowQueue: seq<Task>

    ghost function Value(): Queues
      reads this
    {
      Queues(prioQueue, queue, lowQueue)
    }

    constructor ()
      ensures receivers == map[] && Value() == NO_TASKS
    {
      receivers, prioQueue, queue, lowQueue := map[], [], [], [];
    }

    /** Without an entry for the name nothing happens, and the event's count is not even set. */
    method RaiseEvent(name: Name, event: EventId, evt: Event)
      modifies this`prioQueue, this`queue, this`lowQueue, evt`refCount
      ensures evt.refCount == if name in receivers then |receivers[name]| else old(evt.refCount)
      ensures Value() == PushAll(old(Value()), evt.prio, event, ListOf(receivers, name))
      ensures prioQueue == old(prioQueue) + if evt.prio > 0 then TasksFor(event, ListOf(receivers, name)) else []
      ensures queue == old(queue) + if evt.prio == 0 then TasksFor(event, ListOf(receivers, name)) else []
      ensures lowQueue == old(lowQueue) + if evt.prio < 0 then TasksFor(event, ListOf(receivers, name)) else []
    {
      PushedAll(Value(), evt.prio, event, ListOf(receivers, name));
      if name !in receivers { return; }
      var list := receivers[name];
      evt.SetRefCount(|list|);
      for i := 0 to |list|
        invariant receivers == old(receivers) && evt.refCount == |list|
        invariant Value() == PushAll(old(Value()), evt.prio, event, list[..i])
      {
        assert list[..i + 1][..i] == list[..i];
        var t := Task(list[i], event);
        if evt.prio > 0 {
          prioQueue := prioQueue + [t];
        } else if evt.prio < 0 {
          lowQueue := lowQueue + [t];
        } else {
          queue := queue + [t];
        }
      }
      assert list[..|list|] == list;
    }

    /** The highest non-empty queue is served first, each in order of arrival. */
    method TakeTask() returns (t: Task)
      requires Value() != NO_TASKS
      modifies this`prioQueue, this`queue, this`lowQueue
      ensures t == NextTask(old(Value())) && Value() == Popped(old(Value()))
      ensures old(prioQueue) != [] ==> old(prioQueue) == [t] + prioQueue && queue == old(queue) && lowQueue == old(lowQueue)
      ensures old(prioQueue) == [] && old(queue) != [] ==>
                prioQueue == [] && old(queue) == [t] + queue && lowQueue == old(lowQueue)
      ensures old(prioQueue) == old(queue) == [] ==> prioQueue == queue == [] && old(lowQueue) == [t] + lowQueue
    {
      if |prioQueue| > 0 {
        t := prioQueue[0];
        prioQueue := prioQueue[1..];
      } else if |queue| > 0 {
        t := queue[0];
        queue := queue[1..];
      } else {
        t := lowQueue[0];
        lowQueue := lowQueue[1..];
      }
    }

    method RegisterEventReceiver(name: Name, r: Receiver)
      modifies this`receivers
      ensures receivers == old(receivers)[name := ListOf(old(receivers), name) + [r]]
    {
      receivers := receivers[name := (if name in receivers then receivers[name] else []) + [r]];
    }

    /** The list without the first entry for the receiver. */
    method Cut(list: seq<Receiver>, r: Receiver) returns (shorter: seq<Receiver>)
      ensures shorter == Unlisted(list, r)
    {
      var i := 0;
      while i < |list| && list[i] != r
        invariant 0 <= i <= |list|
        invariant Unlisted(list, r) == list[..i] + Unlisted(list[i..], r)
      {
        UnlistedBehind(list, i, r);
        i := i + 1;
      }
      if i < |list| {
        assert list[i..][1..] == list[i + 1..];
        shorter := list[..i] + list[i + 1..];
      } else {
        assert list[i..] == [] && list[..i] + [] == list;
        shorter := list;
      }
    }

    method RemoveReceiver(name: Name, r: Receiver)
      modifies this`receivers
      ensures receivers == old(receivers)[name := Unlisted(ListOf(old(receivers), name), r)]
      ensures multiset(receivers[name]) == multiset(ListOf(old(receivers), name)) - multiset{r}
    {
      var list := if name in receivers then receivers[name] else [];
      UnlistedIsOneLess(list, r);
      var shorter := Cut(list, r);
      receivers := receivers[name := shorter];
    }

    /** Only the normal queue is searched, and the counts of the events are left as they are. */
    method PurgeTasks(r: Receiver)
      modifies this`queue
      ensures queue == NotOf(old(queue), r)
      ensures forall t :: multiset(queue)[t] == if t.receiver == r then 0 else multiset(old(queue))[t]
    {
      var i := 0;
      while i < |queue|
        invariant 0 <= i <= |queue|
        invariant queue[..i] + NotOf(queue[i..], r) == NotOf(old(queue), r)
        decreases |queue| - i
      {
        PurgeStep(queue, i, r);
        if queue[i].receiver == r {
          queue := queue[..i] + queue[i + 1..];
        } else {
          i := i + 1;
        }
      }
      assert queue[..i] + [] == queue;
      PurgeSplits(old(queue), r);
    }
  }

  lemma PurgeStep(queue: seq<Task>, i: nat, r: Receiver)
    requires i < |queue|
    ensures var shorter := queue[..i] + queue[i + 1..];
            && (queue[i].receiver == r ==> shorter[..i] + NotOf(shorter[i..], r) == queue[..i] + NotOf(queue[i..], r))
            && (queue[i].receiver != r ==> queue[..i + 1] + NotOf(queue[i + 1..], r) == queue[..i] + NotOf(queue[i..], r))
  {
    var shorter, rest := queue[..i] + queue[i + 1..], NotOf(queue[i + 1..], r);
    assert queue[i..][1..] == queue[i + 1..];
    if queue[i].receiver == r {
      assert shorter[..i] == queue[..i] && shorter[i..] == queue[i + 1..];
      assert NotOf(queue[i..], r) == rest;
    } else {
      assert queue[..i + 1] == queue[..i] + [queue[i]];
      assert NotOf(queue[i..], r) == [queue[i]] + rest;
    }
  }

  lemma UnlistedBehind(list: seq<Receiver>, i: nat, r: Receiver)
    requires i < |list| && list[i] != r
    ensures list[..i] + Unlisted(list[i..], r) == list[..i + 1] + Unlisted(list[i + 1..], r)
  {
    assert list[i..][1..] == list[i + 1..];
    assert list[..i + 1] == list[..i] + [list[i]];
  }

  // ---------------------------------------------------------------- the state machine

  /** A raise under way: one at a time, because it holds the lock of the receiver lists. */
  datatype Raising = Raising(event: EventId, todo: seq<Receiver>)

  /**
   * `running` are the tasks in the hands of workers, `waiting` the events whose blocking raise has not
   * returned. `purged` is history: the tasks that were dropped. `fault` is set when a deleted event is used
   * or a count of zero is decremented.
   */
  datatype State = State(
    events: map<EventId, EventValue>,
    receivers: map<Name, seq<Receiver>>,
    raising: Option<Raising>,
    queues: Queues,
    running: seq<Task>,
    waiting: set<EventId>,
    purged: seq<Task>,
    fault: bool)

  const INITIAL := State(map[], map[], None, NO_TASKS, [], {}, [], false)

  datatype Step =
    | Register(name: Name, receiver: Receiver)
    | Unlist(name: Name, receiver: Receiver)
    | Purge(receiver: Receiver)
    | BeginRaise(event: EventId, name: Name, prio: int, blocking: bool)
    | PushNext
    | EndRaise
    | Take
    | Finish(at: nat)
    | Wake(event: EventId)

  predicate Enabled(s: State, step: Step) {
    match step
    case Register(_, _) => s.raising.None?
    case Unlist(_, _) => s.raising.None?
    case Purge(_) => true
    case BeginRaise(id, name, _, _) => s.raising.None? && id !in s.events && name in s.receivers
    case PushNext => s.raising.Some? && s.raising.value.todo != []
    case EndRaise => s.raising.Some? && s.raising.value.todo == []
    case Take => s.queues != NO_TASKS
    case Finish(at) => at < |s.running|
    case Wake(id) => id in s.waiting && id in s.events && s.events[id].processed
  }

  predicate Alive(s: State, id: EventId) {
    id in s.events && s.events[id].deletions == 0
  }

  function RemoveAt(tasks: seq<Task>, at: nat): seq<Task>
    requires at < |tasks|
  {
    tasks[..at] + tasks[at + 1..]
  }

  function Apply(s: State, step: Step): State
    requires Enabled(s, step)
  {
    match step
    case Register(name, r) => s.(receivers := s.receivers[name := ListOf(s.receivers, name) + [r]])
    case Unlist(name, r) => s.(receivers := s.receivers[name := Unlisted(ListOf(s.receivers, name), r)])
    case Purge(r) =>
      s.(queues := s.queues.(normal := NotOf(s.queues.normal, r)), purged := s.purged + Of(s.queues.normal, r))
    case BeginRaise(id, name, prio, blocking) =>
      s.(events := s.events[id := Fresh(prio, blocking, |s.receivers[name]|)],
         raising := Some(Raising(id, s.receivers[name])))
    case PushNext =>
      var id, todo := s.raising.value.event, s.raising.value.todo;
      if !Alive(s, id) then s.(fault := true)
      else s.(queues := PushTask(s.queues, s.events[id].prio, Task(todo[0], id)), raising := Some(Raising(id, todo[1..])))
    case EndRaise =>
      var id := s.raising.value.event;
      s.(raising := None, waiting := if id in s.events && !s.events[id].autoDelete then s.waiting + {id} else s.waiting)
    case Take =>
      s.(queues := Popped(s.queues), running := s.running + [NextTask(s.queues)])
    case Finish(at) =>
      var id := s.running[at].event;
      if !Alive(s, id) || s.events[id].count == 0 then s.(fault := true)
      else s.(running := RemoveAt(s.running, at), events := s.events[id := Decrement(s.events[id])])
    case Wake(id) =>
      if !Alive(s, id) then s.(fault := true)
      else s.(waiting := s.waiting - {id}, events := s.events[id := s.events[id].(deletions := 1)])
  }

  ghost predicate Next(s: State, s': State) {
    exists step :: Enabled(s, step) && s' == Apply(s, step)
  }

  ghost predicate IsRun(run: seq<State>) {
    run != [] && run[0] == INITIAL && forall i :: 0 <= i < |run| - 1 ==> Next(run[i], run[i + 1])
  }

  // ---------------------------------------------------------------- counting references

  /** The number of tasks that refer to an event. */
  function Refs(tasks: seq<Task>, id: EventId): nat {
    if tasks == [] then 0 else (if tasks[0].event == id then 1 else 0) + Refs(tasks[1..], id)
  }

  function QueuedRefs(q: Queues, id: EventId): nat {
    Refs(q.prio, id) + Refs(q.normal, id) + Refs(q.low, id)
  }

  function ToPush(raising: Option<Raising>, id: EventId): nat {
    if raising.Some? && raising.value.event == id then |raising.value.todo| else 0
  }

  /** The tasks of an event that are still to be pushed, queued or running. */
  function Live(s: State, id: EventId): nat {
    ToPush(s.raising, id) + QueuedRefs(s.queues, id) + Refs(s.running, id)
  }

  lemma {:induction false} RefsConcat(a: seq<Task>, b: seq<Task>, id: EventId)
    ensures Refs(a + b, id) == Refs(a, id) + Refs(b, id)
  {
    if a == [] {
      assert a + b == b;
    } else {
      RefsConcat(a[1..], b, id);
      assert (a + b)[1..] == a[1..] + b;
    }
  }

  lemma RefsRemoved(tasks: seq<Task>, at: nat, id: EventId)
    requires at < |tasks|
    ensures Refs(tasks, id) == Refs(RemoveAt(tasks, at), id) + if tasks[at].event == id then 1 else 0
  {
    RefsConcat(tasks[..at], tasks[at..], id);
    assert tasks == tasks[..at] + tasks[at..];
    RefsConcat(tasks[..at], tasks[at + 1..], id);
  }

  lemma {:induction false} RefsSplit(tasks: seq<Task>, r: Receiver, id: EventId)
    ensures Refs(tasks, id) == Refs(NotOf(tasks, r), id) + Refs(Of(tasks, r), id)
  {
    if tasks != [] {
      RefsSplit(tasks[1..], r, id);
      var here := [tasks[0]];
      RefsConcat(here, NotOf(tasks[1..], r), id);
      RefsConcat(here, Of(tasks[1..], r), id);
      assert [] + NotOf(tasks[1..], r) == NotOf(tasks[1..], r);
      assert [] + Of(tasks[1..], r) == Of(tasks[1..], r);
    }
  }

  lemma RefsPushed(q: Queues, prio: int, t: Task, id: EventId)
    ensures QueuedRefs(PushTask(q, prio, t), id) == QueuedRefs(q, id) + if t.event == id then 1 else 0
  {
    RefsConcat(q.prio, [t], id);
    RefsConcat(q.normal, [t], id);
    RefsConcat(q.low, [t], id);
  }

  // ---------------------------------------------------------------- the invariant

  /** All that matters about one event. */
  ghost predicate EventInv(
    e: EventValue, live: nat, purged: nat, raising: bool, waiting: bool)
  {
    && e.count == live + purged <= e.receivers
    && (e.processed <==> e.count == 0 && e.receivers > 0)
    && e.deletions <= 1
    && (e.autoDelete ==> (e.deletions == 1 <==> e.processed) && !waiting)
    && (!e.autoDelete && e.deletions == 1 ==> e.processed && !raising && !waiting)
    && !(raising && waiting)
  }

  predicate IsRaising(s: State, id: EventId) {
    s.raising.Some? && s.raising.value.event == id
  }

  ghost predicate IdInv(s: State, id: EventId) {
    if id in s.events then
      EventInv(s.events[id], Live(s, id), Refs(s.purged, id), IsRaising(s, id), id in s.waiting)
    else
      Live(s, id) == 0 && Refs(s.purged, id) == 0 && !IsRaising(s, id) && id !in s.waiting
  }

  ghost predicate Inv(s: State) {
    !s.fault && forall id :: IdInv(s, id)
  }

  lemma PurgeKeeps(s: State, r: Receiver, id: EventId)
    requires IdInv(s, id)
    ensures IdInv(Apply(s, Purge(r)), id)
    ensures Live(Apply(s, Purge(r)), id) == Live(s, id) - Refs(Of(s.queues.normal, r), id)
  {
    RefsSplit(s.queues.normal, r, id);
    RefsConcat(s.purged, Of(s.queues.normal, r), id);
  }

  lemma PushKeeps(s: State, id: EventId)
    requires Inv(s) && Enabled(s, PushNext)
    ensures Alive(s, s.raising.value.event) && IdInv(Apply(s, PushNext), id)
  {
    var own, todo := s.raising.value.event, s.raising.value.todo;
    assert IdInv(s, own) && IdInv(s, id);
    RefsPushed(s.queues, s.events[own].prio, Task(todo[0], own), id);
  }

  lemma TakeKeeps(s: State, id: EventId)
    requires IdInv(s, id) && Enabled(s, Take)
    ensures IdInv(Apply(s, Take), id) && Live(Apply(s, Take), id) == Live(s, id)
  {
    RefsConcat(s.running, [NextTask(s.queues)], id);
  }

  lemma FinishedIsAlive(s: State, at: nat)
    requires Inv(s) && at < |s.running|
    ensures Alive(s, s.running[at].event) && s.events[s.running[at].event].count > 0
  {
    var own := s.running[at].event;
    assert IdInv(s, own);
    RefsRemoved(s.running, at, own);
  }

  lemma FinishKeeps(s: State, at: nat, id: EventId)
    requires Inv(s) && at < |s.running|
    ensures IdInv(Apply(s, Finish(at)), id)
  {
    FinishedIsAlive(s, at);
    assert IdInv(s, id);
    RefsRemoved(s.running, at, id);
  }

  lemma WakeKeeps(s: State, woken: EventId, id: EventId)
    requires Inv(s) && Enabled(s, Wake(woken))
    ensures Alive(s, woken) && IdInv(Apply(s, Wake(woken)), id)
  {
    assert IdInv(s, woken) && IdInv(s, id);
  }

  lemma StepKeepsId(s: State, step: Step, id: EventId)
    requires Inv(s) && Enabled(s, step)
    ensures IdInv(Apply(s, step), id)
  {
    assert IdInv(s, id);
    match step
    case Purge(r) => PurgeKeeps(s, r, id);
    case PushNext => PushKeeps(s, id);
    case Take => TakeKeeps(s, id);
    case Finish(at) => FinishKeeps(s, at, id);
    case Wake(woken) => WakeKeeps(s, woken, id);
    case BeginRaise(own, _, _, _) =>
    case EndRaise =>
    case _ =>
  }

  lemma StepKeeps(s: State, step: Step)
    requires Inv(s) && Enabled(s, step)
    ensures Inv(Apply(s, step))
  {
    var s' := Apply(s, step);
    forall id
      ensures IdInv(s', id)
    {
      StepKeepsId(s, step, id);
    }
    if step.PushNext? { PushKeeps(s, 0); }
    if step.Finish? { FinishedIsAlive(s, step.at); }
    if step.Wake? { WakeKeeps(s, step.event, 0); }
  }

  lemma {:induction false} RunKeeps(run: seq<State>, i: nat)
    requires IsRun(run) && i < |run|
    ensures Inv(run[i])
  {
    if i > 0 {
      RunKeeps(run, i - 1);
      assert Next(run[i - 1], run[i]);
      var step :| Enabled(run[i - 1], step) && run[i] == Apply(run[i - 1], step);
      StepKeeps(run[i - 1], step);
    }
  }

  // ---------------------------------------------------------------- main results

  /**
   * In every interleaving of raises, worker steps and unregistrations: no deleted event is ever used, no count
   * falls below zero, and the count of an event covers its live tasks, exceeding them by those dropped.
   */
  lemma CountsCoverTasks(run: seq<State>, i: nat, id: EventId)
    requires IsRun(run) && i < |run|
    ensures !run[i].fault
    ensures id in run[i].events ==> run[i].events[id].count == Live(run[i], id) + Refs(run[i].purged, id)
    ensures id !in run[i].events ==> Live(run[i], id) == 0
  {
    RunKeeps(run, i);
    assert IdInv(run[i], id);
  }

  /** The event a step works with. */
  function UsedBy(s: State, step: Step): Option<EventId>
    requires Enabled(s, step)
  {
    match step
    case PushNext => Some(s.raising.value.event)
    case Finish(at) => Some(s.running[at].event)
    case Wake(id) => Some(id)
    case _ => None
  }

  /** A fault is exactly the use of an event that does not exist any more, or the end of a task not counted. */
  lemma FaultIff(s: State, step: Step)
    requires Enabled(s, step)
    ensures var used := UsedBy(s, step);
            Apply(s, step).fault <==> s.fault || (used.Some? && (!Alive(s, used.value)
                                                                 || (step.Finish? && s.events[used.value].count == 0)))
  {}

  /** Whatever step can come next in a run, the event it works with exists and was not deleted. */
  lemma UsesAreAlive(run: seq<State>, i: nat, step: Step)
    requires IsRun(run) && i < |run| && Enabled(run[i], step) && UsedBy(run[i], step).Some?
    ensures var id, events := UsedBy(run[i], step).value, run[i].events;
            id in events && events[id].deletions == 0 && (step.Finish? ==> events[id].count > 0)
  {
    var s := run[i];
    RunKeeps(run, i);
    match step
    case PushNext => PushKeeps(s, 0);
    case Finish(at) => FinishedIsAlive(s, at);
    case Wake(id) => WakeKeeps(s, id, 0);
  }

  /** An event is deleted at most once, and never while a task refers to it or its raise waits for it. */
  lemma DeletedOnceAndUnused(run: seq<State>, i: nat, id: EventId)
    requires IsRun(run) && i < |run| && id in run[i].events
    ensures run[i].events[id].deletions <= 1
    ensures run[i].events[id].deletions == 1 ==> Live(run[i], id) == 0 && id !in run[i].waiting
  {
    RunKeeps(run, i);
    assert IdInv(run[i], id);
  }

  /**
   * An auto-delete event that was raised for someone is deleted exactly when none of its tasks is left and
   * none was dropped by an unregistration; dropping one keeps it in memory for ever.
   */
  lemma DeletedIffAllFinished(run: seq<State>, i: nat, id: EventId)
    requires IsRun(run) && i < |run| && id in run[i].events
    requires run[i].events[id].autoDelete && run[i].events[id].receivers > 0
    ensures run[i].events[id].deletions == 1 <==> Live(run[i], id) == 0 && Refs(run[i].purged, id) == 0
  {
    RunKeeps(run, i);
    assert IdInv(run[i], id);
  }

  /** A blocking raise can return exactly when all tasks of its event have finished and none was dropped. */
  lemma BlockingRaiseReturnsIff(run: seq<State>, i: nat, id: EventId)
    requires IsRun(run) && i < |run| && id in run[i].waiting
    ensures id in run[i].events
    ensures Enabled(run[i], Wake(id))
            <==> run[i].events[id].receivers > 0 && Live(run[i], id) == 0 && Refs(run[i].purged, id) == 0
  {
    RunKeeps(run, i);
    assert IdInv(run[i], id);
  }

  ghost predicate QuietNext(s: State, s': State) {
    exists step :: Enabled(s, step) && !step.Purge? && s' == Apply(s, step)
  }

  ghost predicate IsQuietRun(run: seq<State>) {
    run != [] && run[0] == INITIAL && forall i :: 0 <= i < |run| - 1 ==> QuietNext(run[i], run[i + 1])
  }

  lemma {:induction false} QuietRunKeeps(run: seq<State>, i: nat)
    requires IsQuietRun(run) && i < |run|
    ensures Inv(run[i]) && run[i].purged == []
  {
    if i > 0 {
      QuietRunKeeps(run, i - 1);
      assert QuietNext(run[i - 1], run[i]);
      var step :| Enabled(run[i - 1], step) && !step.Purge? && run[i] == Apply(run[i - 1], step);
      StepKeeps(run[i - 1], step);
    }
  }

  /** With no unregistration, an auto-delete event with receivers is deleted exactly when its last task ends. */
  lemma DeletedWithLastTask(run: seq<State>, i: nat, id: EventId)
    requires IsQuietRun(run) && i < |run| && id in run[i].events
    requires run[i].events[id].autoDelete && run[i].events[id].receivers > 0
    ensures run[i].events[id].deletions == (if Live(run[i], id) == 0 then 1 else 0)
  {
    QuietRunKeeps(run, i);
    assert IdInv(run[i], id);
  }
}
