/**
 * Runs of the event switch told from outside: in which order tasks are served, and to whom an event is
 * delivered. All that is known about the past is read off the steps.
 */
module EventOrder {
  import opened ByteStrings
  import opened EventSwitch

  /** A run with its steps, from the start. */
  ghost predicate Follows(run: seq<State>, steps: seq<Step>) {
    && |run| == |steps| + 1 && run[0] == INITIAL
    && forall i :: 0 <= i < |steps| ==> Enabled(run[i], steps[i]) && run[i + 1] == Apply(run[i], steps[i])
  }

  lemma FollowsIsRun(run: seq<State>, steps: seq<Step>)
    requires Follows(run, steps)
    ensures IsRun(run)
  {
    forall i | 0 <= i < |run| - 1
      ensures Next(run[i], run[i + 1])
    {
      assert Enabled(run[i], steps[i]);
    }
  }

  // ---------------------------------------------------------------- one line for all

  /** A task that waits, with the priority its event was raised with. */
  datatype Waiting = Waiting(task: Task, prio: int)

  function Sign(n: int): int {
    if n > 0 then 1 else if n < 0 then -1 else 0
  }

  /** The place of the first in line among those of the greatest sign. */
  function Best(line: seq<Waiting>): (b: nat)
    requires line != []
    ensures b < |line|
    ensures forall j :: 0 <= j < |line| ==> Sign(line[j].prio) <= Sign(line[b].prio)
    ensures forall j :: 0 <= j < b ==> Sign(line[j].prio) < Sign(line[b].prio)
  {
    var k := |line| - 1;
    if k == 0 then 0
    else
      var b := Best(line[..k]);
      assert forall j :: 0 <= j < k ==> line[j] == line[..k][j];
      if Sign(line[k].prio) > Sign(line[b].prio) then k else b
  }

  function Left(line: seq<Waiting>, r: Receiver): seq<Waiting> {
    if line == [] then []
    else
      var k := |line| - 1;
      Left(line[..k], r) + if line[k].task.receiver == r && line[k].prio == 0 then [] else [line[k]]
  }

  /** The priority an event was raised with. */
  function PrioOf(steps: seq<Step>, event: EventId, i: nat): int
    requires i <= |steps|
  {
    if i == 0 then 0
    else if steps[i - 1].BeginRaise? && steps[i - 1].event == event then steps[i - 1].prio
    else PrioOf(steps, event, i - 1)
  }

  /**
   * Everybody who waits, in the order of arrival. A worker takes the first of the greatest sign; an
   * unregistration takes the receiver's tasks of priority 0 out.
   */
  ghost function LineAt(run: seq<State>, steps: seq<Step>, i: nat): seq<Waiting>
    requires i <= |steps| <= |run|
  {
    if i == 0 then []
    else
      var line, s := LineAt(run, steps, i - 1), run[i - 1];
      match steps[i - 1]
      case PushNext =>
        if s.raising.Some? && s.raising.value.todo != [] then
          var event := s.raising.value.event;
          line + [Waiting(Task(s.raising.value.todo[0], event), PrioOf(steps, event, i - 1))]
        else line
      case Take => if line == [] then [] else line[..Best(line)] + line[Best(line) + 1..]
      case Purge(r) => Left(line, r)
      case _ => line
  }

  // ---------------------------------------------------------------- the three queues are this line

  /** A task in line, if its priority has this sign. */
  function InLane(w: Waiting, sign: int): seq<Task> {
    if Sign(w.prio) == sign then [w.task] else []
  }

  /** The tasks in line whose priority has this sign. */
  function Lane(line: seq<Waiting>, sign: int): seq<Task> {
    if line == [] then [] else var k := |line| - 1; Lane(line[..k], sign) + InLane(line[k], sign)
  }

  function Lanes(line: seq<Waiting>): Queues {
    Queues(Lane(line, 1), Lane(line, 0), Lane(line, -1))
  }

  lemma {:induction false} LaneConcat(a: seq<Waiting>, b: seq<Waiting>, sign: int)
    ensures Lane(a + b, sign) == Lane(a, sign) + Lane(b, sign)
    decreases |b|
  {
    var ab := a + b;
    if b == [] {
      assert ab == a;
    } else {
      var k := |b| - 1;
      LaneConcat(a, b[..k], sign);
      assert ab == (a + b[..k]) + [b[k]];
      assert ab[..|ab| - 1] == a + b[..k];
      Associate(Lane(a, sign), Lane(b[..k], sign), InLane(b[k], sign));
    }
  }

  lemma {:induction false} EmptyLane(line: seq<Waiting>, sign: int)
    requires forall j :: 0 <= j < |line| ==> Sign(line[j].prio) != sign
    ensures Lane(line, sign) == []
  {
    if line != [] { EmptyLane(line[..|line| - 1], sign); }
  }

  /** How the place of the best divides each lane. */
  lemma LaneAround(line: seq<Waiting>, b: nat, sign: int)
    requires b < |line|
    ensures Lane(line, sign) == (Lane(line[..b], sign) + InLane(line[b], sign)) + Lane(line[b + 1..], sign)
    ensures Lane(line[..b] + line[b + 1..], sign) == Lane(line[..b], sign) + Lane(line[b + 1..], sign)
  {
    var upTo := line[..b] + [line[b]];
    assert line == upTo + line[b + 1..];
    assert upTo[..b] == line[..b];
    LaneConcat(upTo, line[b + 1..], sign);
    LaneConcat(line[..b], line[b + 1..], sign);
  }

  lemma EmptyFront(line: seq<Waiting>, b: nat, sign: int)
    requires b < |line| && forall j :: 0 <= j < b ==> Sign(line[j].prio) != sign
    ensures Lane(line[..b], sign) == []
  {
    forall j | 0 <= j < b
      ensures Sign(line[..b][j].prio) != sign
    {
      assert line[..b][j] == line[j];
    }
    EmptyLane(line[..b], sign);
  }

  lemma NothingInFront<T>(s: seq<T>)
    ensures [] + s == s
  {}

  lemma FirstInLane(line: seq<Waiting>, b: nat, sign: int)
    requires b < |line| && Sign(line[b].prio) == sign && forall j :: 0 <= j < b ==> Sign(line[j].prio) != sign
    ensures Lane(line, sign) == [line[b].task] + Lane(line[..b] + line[b + 1..], sign)
  {
    LaneAround(line, b, sign);
    EmptyFront(line, b, sign);
    NothingInFront([line[b].task]);
    NothingInFront(Lane(line[b + 1..], sign));
  }

  lemma OwnLane(line: seq<Waiting>)
    requires line != []
    ensures var b := Best(line); var sign := Sign(line[b].prio);
            Lane(line, sign) == [line[b].task] + Lane(line[..b] + line[b + 1..], sign)
  {
    FirstInLane(line, Best(line), Sign(line[Best(line)].prio));
  }

  lemma OtherLane(line: seq<Waiting>, sign: int)
    requires line != [] && sign != Sign(line[Best(line)].prio)
    ensures Lane(line[..Best(line)] + line[Best(line) + 1..], sign) == Lane(line, sign)
    ensures sign > Sign(line[Best(line)].prio) ==> Lane(line, sign) == []
  {
    var b := Best(line);
    LaneAround(line, b, sign);
    assert Lane(line[..b], sign) + [] == Lane(line[..b], sign);
    if sign > Sign(line[Best(line)].prio) { EmptyLane(line, sign); }
  }

  lemma NobodyWaits(line: seq<Waiting>)
    ensures Lanes(line) == NO_TASKS <==> line == []
  {
    if line != [] { OwnLane(line); }
  }

  /** Taking from the highest non-empty queue is taking the best of the line. */
  lemma TakesBest(line: seq<Waiting>)
    requires line != []
    ensures Lanes(line) != NO_TASKS && NextTask(Lanes(line)) == line[Best(line)].task
    ensures Popped(Lanes(line)) == Lanes(line[..Best(line)] + line[Best(line) + 1..])
  {
    var sign := Sign(line[Best(line)].prio);
    OwnLane(line);
    if sign != 1 { OtherLane(line, 1); }
    if sign != 0 { OtherLane(line, 0); }
    if sign != -1 { OtherLane(line, -1); }
  }

  lemma PushesLast(line: seq<Waiting>, prio: int, t: Task)
    ensures PushTask(Lanes(line), prio, t) == Lanes(line + [Waiting(t, prio)])
  {
    var longer := line + [Waiting(t, prio)];
    assert longer[..|line|] == line;
  }

  lemma {:induction false} NotOfConcat(a: seq<Task>, b: seq<Task>, r: Receiver)
    ensures NotOf(a + b, r) == NotOf(a, r) + NotOf(b, r)
  {
    if a == [] {
      assert a + b == b;
    } else {
      var ab := a + b;
      assert ab[0] == a[0] && ab[1..] == a[1..] + b;
      NotOfConcat(a[1..], b, r);
      Associate(if a[0].receiver == r then [] else [a[0]], NotOf(a[1..], r), NotOf(b, r));
    }
  }

  lemma LaneWithout(tasks: seq<Task>, t: Task, r: Receiver)
    ensures NotOf(tasks + [t], r) == NotOf(tasks, r) + if t.receiver == r then [] else [t]
  {
    NotOfConcat(tasks, [t], r);
    assert [t][1..] == [];
  }

  lemma NothingMore<T>(s: seq<T>)
    ensures s + [] == s
  {}

  lemma LaneBehind(line: seq<Waiting>, w: Waiting, sign: int)
    ensures Lane(line + [w], sign) == Lane(line, sign) + InLane(w, sign)
    ensures Sign(w.prio) != sign ==> Lane(line + [w], sign) == Lane(line, sign)
  {
    assert (line + [w])[..|line|] == line;
    NothingMore(Lane(line, sign));
  }

  lemma {:induction false} LeftInLane(line: seq<Waiting>, r: Receiver, sign: int)
    ensures Lane(Left(line, r), sign) == if sign == 0 then NotOf(Lane(line, 0), r) else Lane(line, sign)
  {
    if line != [] {
      var k := |line| - 1;
      var w, rest := line[k], Left(line[..k], r);
      LeftInLane(line[..k], r, sign);
      assert line == line[..k] + [w];
      LaneBehind(line[..k], w, sign);
      LaneBehind(rest, w, sign);
      LaneWithout(Lane(line[..k], 0), w.task, r);
      NothingMore(rest);
      NothingMore(NotOf(Lane(line[..k], 0), r));
    }
  }

  lemma PurgesLane(line: seq<Waiting>, r: Receiver)
    ensures Lanes(Left(line, r)) == Lanes(line).(normal := NotOf(Lanes(line).normal, r))
  {
    LeftInLane(line, r, 1);
    LeftInLane(line, r, 0);
    LeftInLane(line, r, -1);
  }

  // ---------------------------------------------------------------- over runs

  /** Events keep the priority they were raised with. */
  lemma {:induction false} PrioKept(run: seq<State>, steps: seq<Step>, event: EventId, i: nat)
    requires Follows(run, steps) && i <= |steps| && event in run[i].events
    ensures run[i].events[event].prio == PrioOf(steps, event, i)
  {
    if i > 0 {
      var step := steps[i - 1];
      assert Enabled(run[i - 1], step) && run[i] == Apply(run[i - 1], step);
      if event in run[i - 1].events { PrioKept(run, steps, event, i - 1); }
    }
  }

  lemma OtherQueues(s: State, step: Step)
    requires Enabled(s, step) && !step.PushNext? && !step.Take? && !step.Purge?
    ensures Apply(s, step).queues == s.queues
  {}

  lemma {:induction false} QueuesAreLine(run: seq<State>, steps: seq<Step>, i: nat)
    requires Follows(run, steps) && i <= |steps|
    ensures run[i].queues == Lanes(LineAt(run, steps, i))
  {
    if i > 0 {
      QueuesAreLine(run, steps, i - 1);
      var line, s, step := LineAt(run, steps, i - 1), run[i - 1], steps[i - 1];
      assert Enabled(s, step) && run[i] == Apply(s, step);
      match step
      case PushNext =>
        var event := s.raising.value.event;
        FollowsIsRun(run, steps);
        RunKeeps(run, i - 1);
        PushKeeps(s, event);
        PrioKept(run, steps, event, i - 1);
        PushesLast(line, s.events[event].prio, Task(s.raising.value.todo[0], event));
      case Take =>
        NobodyWaits(line);
        TakesBest(line);
      case Purge(r) => PurgesLane(line, r);
      case _ => OtherQueues(s, step);
    }
  }

  /**
   * In every run a worker takes the task that is first in line among those of the greatest sign: nobody who
   * waits has a priority of a greater sign, and those who came before it have one of a smaller.
   */
  lemma ServedByPriority(run: seq<State>, steps: seq<Step>, i: nat) returns (b: nat)
    requires Follows(run, steps) && i < |steps| && steps[i].Take?
    ensures var line := LineAt(run, steps, i);
            && b < |line| && run[i + 1].running == run[i].running + [line[b].task]
            && (forall j :: 0 <= j < |line| ==> Sign(line[j].prio) <= Sign(line[b].prio))
            && (forall j :: 0 <= j < b ==> Sign(line[j].prio) < Sign(line[b].prio))
            && LineAt(run, steps, i + 1) == line[..b] + line[b + 1..]
  {
    var line := LineAt(run, steps, i);
    QueuesAreLine(run, steps, i);
    assert Enabled(run[i], steps[i]) && run[i + 1] == Apply(run[i], steps[i]);
    NobodyWaits(line);
    TakesBest(line);
    b := Best(line);
  }

  lemma {:induction false} LeftAreFromLine(line: seq<Waiting>, r: Receiver)
    ensures forall w :: w in Left(line, r) ==> w in line
  {
    if line != [] { LeftAreFromLine(line[..|line| - 1], r); }
  }

  lemma {:induction false} LaneIsFromLine(line: seq<Waiting>, sign: int, t: Task) returns (w: Waiting)
    requires t in Lane(line, sign)
    ensures w in line && w.task == t
  {
    var k := |line| - 1;
    if t in Lane(line[..k], sign) {
      w := LaneIsFromLine(line[..k], sign, t);
    } else {
      w := line[k];
    }
  }

  /** Everybody in line belongs to an event of that priority. */
  ghost predicate LineKnown(events: map<EventId, EventValue>, line: seq<Waiting>) {
    forall w :: w in line ==> w.task.event in events && events[w.task.event].prio == w.prio
  }

  lemma EventsStay(s: State, step: Step, event: EventId)
    requires Enabled(s, step) && event in s.events
    ensures event in Apply(s, step).events && Apply(s, step).events[event].prio == s.events[event].prio
  {}

  lemma EventsKeepLine(s: State, step: Step, line: seq<Waiting>)
    requires Enabled(s, step) && LineKnown(s.events, line)
    ensures LineKnown(Apply(s, step).events, line)
  {
    forall w | w in line
      ensures w.task.event in Apply(s, step).events && Apply(s, step).events[w.task.event].prio == w.prio
    {
      EventsStay(s, step, w.task.event);
    }
  }

  lemma {:induction false} LineIsKnown(run: seq<State>, steps: seq<Step>, i: nat)
    requires Follows(run, steps) && i <= |steps|
    ensures LineKnown(run[i].events, LineAt(run, steps, i))
  {
    if i > 0 {
      LineIsKnown(run, steps, i - 1);
      var line, s, step := LineAt(run, steps, i - 1), run[i - 1], steps[i - 1];
      assert Enabled(s, step) && run[i] == Apply(s, step);
      EventsKeepLine(s, step, line);
      if step.PushNext? {
        var event := s.raising.value.event;
        FollowsIsRun(run, steps);
        RunKeeps(run, i - 1);
        PushKeeps(s, event);
        PrioKept(run, steps, event, i - 1);
        EventsStay(s, step, event);
      } else if step.Purge? {
        LeftAreFromLine(line, step.receiver);
      }
    }
  }

  /** In every run no task that is left waiting is of an event with a priority of greater sign than the one taken. */
  lemma NoGreaterIsPassedOver(run: seq<State>, steps: seq<Step>, i: nat, u: Task)
    requires Follows(run, steps) && i < |steps| && steps[i].Take?
    requires u in run[i].queues.prio || u in run[i].queues.normal || u in run[i].queues.low
    ensures var t, events := NextTask(run[i].queues), run[i].events;
            && run[i + 1].running == run[i].running + [t] && t.event in events && u.event in events
            && Sign(events[u.event].prio) <= Sign(events[t.event].prio)
  {
    var line := LineAt(run, steps, i);
    assert Enabled(run[i], steps[i]);
    QueuesAreLine(run, steps, i);
    LineIsKnown(run, steps, i);
    var w := LaneIsFromLine(line, if u in Lane(line, 1) then 1 else if u in Lane(line, 0) then 0 else -1, u);
    var b := ServedByPriority(run, steps, i);
    assert run[i + 1].running[|run[i].running|] == line[b].task == NextTask(run[i].queues);
    assert line[b] in line;
  }

  // ---------------------------------------------------------------- who is told

  function One(b: bool): nat {
    if b then 1 else 0
  }

  /** How often a receiver is listed under a name: once more with each registration, once less with the opposite. */
  function Listings(steps: seq<Step>, name: Name, r: Receiver, i: nat): nat
    requires i <= |steps|
  {
    if i == 0 then 0
    else
      var before := Listings(steps, name, r, i - 1);
      if steps[i - 1] == Register(name, r) then before + 1
      else if steps[i - 1] == Unlist(name, r) && before > 0 then before - 1
      else before
  }

  ghost predicate ListsRight(s: State, step: Step, name: Name, r: Receiver)
    requires Enabled(s, step)
  {
    var before := multiset(ListOf(s.receivers, name))[r];
    multiset(ListOf(Apply(s, step).receivers, name))[r]
    == if step == Register(name, r) then before + 1
       else if step == Unlist(name, r) && before > 0 then before - 1
       else before
  }

  lemma RegisterLists(s: State, step: Step, name: Name, r: Receiver)
    requires Enabled(s, step) && step.Register?
    ensures ListsRight(s, step, name, r)
  {}

  lemma UnlistLists(s: State, step: Step, name: Name, r: Receiver)
    requires Enabled(s, step) && step.Unlist?
    ensures ListsRight(s, step, name, r)
  {
    UnlistedIsOneLess(ListOf(s.receivers, step.name), step.receiver);
  }

  lemma StepLists(s: State, step: Step, name: Name, r: Receiver)
    requires Enabled(s, step)
    ensures ListsRight(s, step, name, r)
  {
    if step.Register? {
      RegisterLists(s, step, name, r);
    } else if step.Unlist? {
      UnlistLists(s, step, name, r);
    } else {
      assert Apply(s, step).receivers == s.receivers;
    }
  }

  lemma {:induction false} ListedAsRegistered(run: seq<State>, steps: seq<Step>, name: Name, r: Receiver, i: nat)
    requires Follows(run, steps) && i <= |steps|
    ensures multiset(ListOf(run[i].receivers, name))[r] == Listings(steps, name, r, i)
  {
    if i > 0 {
      ListedAsRegistered(run, steps, name, r, i - 1);
      assert Enabled(run[i - 1], steps[i - 1]) && run[i] == Apply(run[i - 1], steps[i - 1]);
      StepLists(run[i - 1], steps[i - 1], name, r);
    }
  }

  /** How often a task was asked for: once per listing of its receiver when its event was raised. */
  function Asked(steps: seq<Step>, t: Task, i: nat): nat
    requires i <= |steps|
  {
    if i == 0 then 0
    else
      var step := steps[i - 1];
      Asked(steps, t, i - 1)
      + if step.BeginRaise? && step.event == t.event then Listings(steps, step.name, t.receiver, i - 1) else 0
  }

  /** How often it was carried out. */
  ghost function Done(run: seq<State>, steps: seq<Step>, t: Task, i: nat): nat
    requires i <= |steps| <= |run|
  {
    if i == 0 then 0
    else Done(run, steps, t, i - 1) + CarriesOut(run[i - 1], steps[i - 1], t)
  }

  /** How often it was dropped: with all of its kind in the normal queue, when its receiver was unregistered. */
  ghost function Dropped(run: seq<State>, steps: seq<Step>, t: Task, i: nat): nat
    requires i <= |steps| <= |run|
  {
    if i == 0 then 0
    else Dropped(run, steps, t, i - 1) + Drops(run[i - 1], steps[i - 1], t)
  }

  /** How often it is still to be pushed, queued or running. */
  function Open(s: State, t: Task): nat {
    (if s.raising.Some? && s.raising.value.event == t.event then multiset(s.raising.value.todo)[t.receiver] else 0)
    + InQueues(s.queues, t) + multiset(s.running)[t]
  }

  function InQueues(q: Queues, t: Task): nat {
    multiset(q.prio)[t] + multiset(q.normal)[t] + multiset(q.low)[t]
  }

  lemma PushedOne(q: Queues, prio: int, pushed: Task, t: Task)
    ensures InQueues(PushTask(q, prio, pushed), t) == InQueues(q, t) + One(pushed == t)
  {
    assert multiset(q.prio + [pushed]) == multiset(q.prio) + multiset{pushed};
    assert multiset(q.normal + [pushed]) == multiset(q.normal) + multiset{pushed};
    assert multiset(q.low + [pushed]) == multiset(q.low) + multiset{pushed};
  }

  lemma PushMoves(s: State, t: Task)
    requires Enabled(s, PushNext) && Alive(s, s.raising.value.event)
    ensures Open(Apply(s, PushNext), t) == Open(s, t)
  {
    var event, todo := s.raising.value.event, s.raising.value.todo;
    assert todo == [todo[0]] + todo[1..];
    assert multiset(todo) == multiset{todo[0]} + multiset(todo[1..]);
    PushedOne(s.queues, s.events[event].prio, Task(todo[0], event), t);
  }

  lemma PoppedOne(q: Queues, t: Task)
    requires q != NO_TASKS
    ensures InQueues(q, t) == InQueues(Popped(q), t) + One(NextTask(q) == t)
  {
    if q.prio != [] {
      assert q.prio == [q.prio[0]] + q.prio[1..];
    } else if q.normal != [] {
      assert q.normal == [q.normal[0]] + q.normal[1..];
    } else {
      assert q.low == [q.low[0]] + q.low[1..];
    }
  }

  lemma TakeMoves(s: State, t: Task)
    requires Enabled(s, Take)
    ensures Open(Apply(s, Take), t) == Open(s, t)
  {
    PoppedOne(s.queues, t);
    assert multiset(s.running + [NextTask(s.queues)]) == multiset(s.running) + multiset{NextTask(s.queues)};
  }

  lemma FinishCloses(s: State, at: nat, t: Task)
    requires Enabled(s, Finish(at)) && Inv(s)
    ensures Open(Apply(s, Finish(at)), t) + One(s.running[at] == t) == Open(s, t)
  {
    FinishedIsAlive(s, at);
    assert s.running == s.running[..at] + [s.running[at]] + s.running[at + 1..];
  }

  lemma PurgeCloses(s: State, r: Receiver, t: Task)
    ensures Open(Apply(s, Purge(r)), t) + (if r == t.receiver then multiset(s.queues.normal)[t] else 0) == Open(s, t)
  {
    PurgeSplits(s.queues.normal, r);
  }

  lemma RaiseOpens(s: State, step: Step, t: Task)
    requires Enabled(s, step) && step.BeginRaise?
    ensures Open(Apply(s, step), t)
            == Open(s, t) + if step.event == t.event then multiset(ListOf(s.receivers, step.name))[t.receiver] else 0
  {}

  lemma QuietOpen(s: State, step: Step, t: Task)
    requires Enabled(s, step) && (step.Register? || step.Unlist? || step.EndRaise? || step.Wake?)
    ensures Open(Apply(s, step), t) == Open(s, t)
  {}

  /** How often a step asks for a task, carries it out and drops it. */
  function AsksFor(s: State, step: Step, t: Task): nat {
    if step.BeginRaise? && step.event == t.event then multiset(ListOf(s.receivers, step.name))[t.receiver] else 0
  }

  function CarriesOut(s: State, step: Step, t: Task): nat {
    One(step.Finish? && step.at < |s.running| && s.running[step.at] == t)
  }

  function Drops(s: State, step: Step, t: Task): nat {
    if step == Purge(t.receiver) then multiset(s.queues.normal)[t] else 0
  }

  lemma StepTasks(s: State, step: Step, t: Task)
    requires Enabled(s, step) && Inv(s)
    ensures Open(Apply(s, step), t) + CarriesOut(s, step, t) + Drops(s, step, t) == Open(s, t) + AsksFor(s, step, t)
  {
    match step
    case PushNext =>
      PushKeeps(s, s.raising.value.event);
      PushMoves(s, t);
    case Take => TakeMoves(s, t);
    case Finish(at) => FinishCloses(s, at, t);
    case Purge(r) => PurgeCloses(s, r, t);
    case BeginRaise(_, _, _, _) => RaiseOpens(s, step, t);
    case _ => QuietOpen(s, step, t);
  }

  /**
   * In every run: for each event and receiver, the tasks asked for by the raise are those carried out, those
   * dropped by an unregistration, and those still open. Nothing is lost and nobody is told twice.
   */
  lemma {:induction false} EveryTaskIsAccountedFor(run: seq<State>, steps: seq<Step>, t: Task, i: nat)
    requires Follows(run, steps) && i <= |steps|
    ensures Asked(steps, t, i) == Done(run, steps, t, i) + Dropped(run, steps, t, i) + Open(run[i], t)
  {
    if i > 0 {
      EveryTaskIsAccountedFor(run, steps, t, i - 1);
      var s, step := run[i - 1], steps[i - 1];
      assert Enabled(s, step) && run[i] == Apply(s, step);
      FollowsIsRun(run, steps);
      RunKeeps(run, i - 1);
      StepTasks(s, step, t);
      if step.BeginRaise? { ListedAsRegistered(run, steps, step.name, t.receiver, i - 1); }
    }
  }

  // ---------------------------------------------------------------- who waits for the end of an event

  /** The last raise that began. */
  function LastRaise(steps: seq<Step>, i: nat): Option<Step>
    requires i <= |steps|
  {
    if i == 0 then None else if steps[i - 1].BeginRaise? then Some(steps[i - 1]) else LastRaise(steps, i - 1)
  }

  /** A blocking raise of the event has queued its tasks and has not returned. */
  function Blocks(steps: seq<Step>, event: EventId, i: nat): bool
    requires i <= |steps|
  {
    i > 0 &&
    if steps[i - 1].EndRaise? then
      var last := LastRaise(steps, i - 1);
      (last.Some? && last.value.BeginRaise? && last.value.event == event && last.value.blocking) || Blocks(steps, event, i - 1)
    else steps[i - 1] != Wake(event) && Blocks(steps, event, i - 1)
  }

  /** The raise under way is the last that began, and its event is deleted automatically unless it blocks. */
  ghost predicate RaiseKnown(s: State, last: Option<Step>) {
    s.raising.Some? ==>
      && last.Some? && last.value.BeginRaise? && last.value.event == s.raising.value.event
      && last.value.event in s.events && s.events[last.value.event].autoDelete == !last.value.blocking
  }

  lemma RaiseStaysKnown(s: State, step: Step, last: Option<Step>)
    requires Enabled(s, step) && RaiseKnown(s, last)
    ensures RaiseKnown(Apply(s, step), if step.BeginRaise? then Some(step) else last)
  {}

  lemma {:induction false} RaiseIsKnown(run: seq<State>, steps: seq<Step>, i: nat)
    requires Follows(run, steps) && i <= |steps|
    ensures RaiseKnown(run[i], LastRaise(steps, i))
  {
    if i > 0 {
      RaiseIsKnown(run, steps, i - 1);
      assert Enabled(run[i - 1], steps[i - 1]) && run[i] == Apply(run[i - 1], steps[i - 1]);
      RaiseStaysKnown(run[i - 1], steps[i - 1], LastRaise(steps, i - 1));
    }
  }

  /** In every run exactly the blocking raises wait: from the last task they queue until they are woken. */
  lemma {:induction false} WaitsIffBlocking(run: seq<State>, steps: seq<Step>, event: EventId, i: nat)
    requires Follows(run, steps) && i <= |steps|
    ensures event in run[i].waiting <==> Blocks(steps, event, i)
  {
    if i > 0 {
      var s, step := run[i - 1], steps[i - 1];
      WaitsIffBlocking(run, steps, event, i - 1);
      RaiseIsKnown(run, steps, i - 1);
      FollowsIsRun(run, steps);
      RunKeeps(run, i - 1);
      assert Enabled(s, step) && run[i] == Apply(s, step);
      if step.Wake? { WakeKeeps(s, step.event, event); }
    }
  }

  function Woken(steps: seq<Step>, event: EventId, i: nat): bool
    requires i <= |steps|
  {
    i > 0 && (steps[i - 1] == Wake(event) || Woken(steps, event, i - 1))
  }

  /** How an event of a blocking raise stands. */
  ghost predicate DeletedRight(s: State, event: EventId, woken: bool) {
    if event in s.events then !s.events[event].autoDelete ==> s.events[event].deletions == One(woken) else !woken
  }

  lemma StepDeletesRight(s: State, step: Step, event: EventId, woken: bool)
    requires Enabled(s, step) && Inv(s) && DeletedRight(s, event, woken)
    ensures DeletedRight(Apply(s, step), event, woken || step == Wake(event))
  {
    assert IdInv(s, event);
    if step.Wake? { WakeKeeps(s, step.event, event); }
    if step.Finish? { FinishedIsAlive(s, step.at); }
  }

  lemma {:induction false} DeletionsOfRun(run: seq<State>, steps: seq<Step>, event: EventId, i: nat)
    requires Follows(run, steps) && i <= |steps|
    ensures DeletedRight(run[i], event, Woken(steps, event, i))
  {
    if i > 0 {
      DeletionsOfRun(run, steps, event, i - 1);
      FollowsIsRun(run, steps);
      RunKeeps(run, i - 1);
      assert Enabled(run[i - 1], steps[i - 1]) && run[i] == Apply(run[i - 1], steps[i - 1]);
      StepDeletesRight(run[i - 1], steps[i - 1], event, Woken(steps, event, i - 1));
    }
  }

  /** In every run an event that is not deleted automatically is deleted by the return of its raise, and only so. */
  lemma DeletedIffWoken(run: seq<State>, steps: seq<Step>, event: EventId, i: nat)
    requires Follows(run, steps) && i <= |steps| && event in run[i].events && !run[i].events[event].autoDelete
    ensures run[i].events[event].deletions == if Woken(steps, event, i) then 1 else 0
  {
    DeletionsOfRun(run, steps, event, i);
  }
}
