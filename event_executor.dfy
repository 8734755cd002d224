/** The event-driven executor (event_executor.py): a loop that pops events
    in time order, moves the simulation clock to each, asks every task's
    trigger whether it activates, runs the activated tasks and schedules
    the events they emit.  Activated tasks run one after another in
    declaration order; the thread pool of the source is not modelled. */
module EventExecutors {
  import opened Values
  import opened Triggers
  import opened Tasks
  import opened TaskGraphs
  import opened Components
  import opened Termination
  import opened ExecutionLogs
  import opened InputGenerators
  import opened Events
  import opened EventQueues
  import opened SimulationClock

  const NotAsynchronous := Error(ComponentError, "EventDrivenExecutor requires AsynchronousComponent")

  /** The ComponentError wrapping a failure to generate inputs (the source
      spells it "unputs"). */
  function GenerationError(message: string): Error
  {
    Error(ComponentError, "Error generating unputs: " + message)
  }

  /** The TaskError reporting the first failure among several activated
      tasks; unlike the one-task case it quotes the exception's own text. */
  function FanOutError(name: string, message: string): Error
  {
    Error(TaskError, "Error in task '" + name + "': " + message)
  }

  const GenerateInputName := "_generate_input"

  /** The event that wakes a periodic task. */
  function PeriodicEvent(task: string, time: real): Event
  {
    Event(time, "periodic_" + task, 0, map["task" := VStr(task)], None)
  }

  /** The internal event that asks for the next round of inputs. */
  function GenerateInputEvent(time: real, round: int): Event
  {
    Event(time, GenerateInputName, 0, map["round" := VInt(round)], None)
  }

  const StartEvent := Event(0.0, "start", 0, map[], None)

  /** `input_interval` is truthy. */
  predicate HasInterval(inputInterval: Option<real>)
  {
    inputInterval.Some? && inputInterval.value != 0.0
  }

  predicate IsPeriodic(task: Task)
  {
    task.trigger.Some? && task.trigger.value.Periodic?
  }

  /** The events `_schedule_periodic_tasks` pushes, in declaration order. */
  function PeriodicEvents(tasks: seq<Task>): seq<Event>
  {
    if tasks == [] then []
    else
      var last := tasks[|tasks| - 1];
      PeriodicEvents(tasks[..|tasks| - 1]) + if IsPeriodic(last) then [PeriodicEvent(last.name, 0.0)] else []
  }

  /** Each periodic task gets a `periodic_<name>` event at time 0, and every
      event scheduled at the start is one of those. */
  lemma {:induction false} PeriodicEventsMeaning(tasks: seq<Task>)
    ensures forall k :: 0 <= k < |tasks| && IsPeriodic(tasks[k]) ==> PeriodicEvent(tasks[k].name, 0.0) in PeriodicEvents(tasks)
    ensures forall e :: e in PeriodicEvents(tasks) ==>
      exists k :: 0 <= k < |tasks| && IsPeriodic(tasks[k]) && e == PeriodicEvent(tasks[k].name, 0.0)
  {
    if tasks != [] {
      var init := tasks[..|tasks| - 1];
      PeriodicEventsMeaning(init);
      forall e | e in PeriodicEvents(init)
        ensures exists k :: 0 <= k < |tasks| && IsPeriodic(tasks[k]) && e == PeriodicEvent(tasks[k].name, 0.0)
      {
        var k :| 0 <= k < |init| && IsPeriodic(init[k]) && e == PeriodicEvent(init[k].name, 0.0);
        assert tasks[k] == init[k];
      }
      forall k | 0 <= k < |tasks| - 1 && IsPeriodic(tasks[k])
        ensures PeriodicEvent(tasks[k].name, 0.0) in PeriodicEvents(tasks)
      {
        assert init[k] == tasks[k];
      }
    }
  }

  /** Every event scheduled at the start is at time 0. */
  lemma {:induction false} PeriodicEventsAtZero(tasks: seq<Task>)
    ensures forall k :: 0 <= k < |PeriodicEvents(tasks)| ==> PeriodicEvents(tasks)[k].time == 0.0
  {
    if tasks != [] {
      PeriodicEventsAtZero(tasks[..|tasks| - 1]);
    }
  }

  /** The records an emitter holds after a body's `emit_event` calls. */
  function Records(emits: seq<EmitCall>): seq<PendingEvent>
  {
    seq(|emits|, k requires 0 <= k < |emits| => PendingEvent(emits[k].name, WrapData(emits[k].data), emits[k].delay, emits[k].priority))
  }

  /** `_schedule_pending_events`: each record becomes an event `delay` after
      the current time, tagged with the task that emitted it. */
  function Scheduled(pending: seq<PendingEvent>, source: string, now: real): seq<Event>
  {
    seq(|pending|, k requires 0 <= k < |pending| =>
      Event(now + pending[k].delay, pending[k].name, pending[k].priority, pending[k].data, Some(source)))
  }

  /** The events scheduled for several tasks' records, task by task. */
  function AllScheduled(groups: seq<(string, seq<PendingEvent>)>, now: real): seq<Event>
  {
    if groups == [] then []
    else
      var last := groups[|groups| - 1];
      AllScheduled(groups[..|groups| - 1], now) + Scheduled(last.1, last.0, now)
  }

  predicate DelaysNonNegative(pending: seq<PendingEvent>)
  {
    forall k :: 0 <= k < |pending| ==> pending[k].delay >= 0.0
  }

  predicate GroupsNonNegative(groups: seq<(string, seq<PendingEvent>)>)
  {
    forall k :: 0 <= k < |groups| ==> DelaysNonNegative(groups[k].1)
  }

  predicate AllNotBefore(events: seq<Event>, t: real)
  {
    forall k :: 0 <= k < |events| ==> t <= events[k].time
  }

  /** With non-negative delays nothing is scheduled before the current time. */
  lemma {:induction false} AllScheduledNotBefore(groups: seq<(string, seq<PendingEvent>)>, now: real)
    requires GroupsNonNegative(groups)
    ensures AllNotBefore(AllScheduled(groups, now), now)
  {
    if groups != [] {
      var init := groups[..|groups| - 1];
      assert GroupsNonNegative(init) by {
        forall k | 0 <= k < |init| ensures DelaysNonNegative(init[k].1) {
          assert init[k] == groups[k];
        }
      }
      AllScheduledNotBefore(init, now);
      var last := groups[|groups| - 1];
      assert DelaysNonNegative(last.1);
      var a: seq<Event> := AllScheduled(init, now);
      var b: seq<Event> := Scheduled(last.1, last.0, now);
      var ab: seq<Event> := a + b;
      forall k | 0 <= k < |ab| ensures now <= ab[k].time {
        if k >= |a| { assert ab[k] == b[k - |a|]; }
      }
    }
  }

  /** Pushing events none of which is before `t` keeps every entry at or
      after `t`. */
  lemma PushedNotBefore(s: seq<Entry>, events: seq<Event>, c: nat, t: real)
    requires NotBefore(s, t) && AllNotBefore(events, t)
    ensures NotBefore(s + Pushed(events, c), t)
  {
    var r := s + Pushed(events, c);
    forall k | 0 <= k < |r| ensures t <= r[k].time {
      if k >= |s| { assert r[k] == Pushed(events, c)[k - |s|]; }
    }
  }

  /** Scheduling records with non-negative delays keeps every entry at or
      after the current time. */
  lemma ScheduledNotBefore(s: seq<Entry>, groups: seq<(string, seq<PendingEvent>)>, c: nat, now: real)
    requires NotBefore(s, now) && GroupsNonNegative(groups)
    ensures NotBefore(s + Pushed(AllScheduled(groups, now), c), now)
  {
    AllScheduledNotBefore(groups, now);
    PushedNotBefore(s, AllScheduled(groups, now), c, now);
  }

  /** What serially running the activated tasks has produced so far: the
      merged outputs and state, the first failure (task name and exception
      text), and the records of each task that emitted any. */
  datatype Fan = Fan(outputs: Dict, state: Dict, failure: Option<(string, string)>, pending: seq<(string, seq<PendingEvent>)>)

  /** The namespace of `_execute_task`: copies of the three dicts, the clock
      and the triggering event's data. */
  function TaskNamespace(inputs: Dict, outputs: Dict, state: Dict, now: real, eventData: Dict): Namespace
  {
    Namespace(inputs, outputs, state, Some(EventExtras(now, eventData)))
  }

  /** One task run: a body that raised changes nothing and loses its
      emissions; one that completed merges its state and outputs into the
      component's (changes to its copy of the inputs are dropped). */
  function FanStep(f: Fan, task: Task, inputs: Dict, now: real, eventData: Dict, exec: Exec): Fan
  {
    var out := exec(task.code, TaskNamespace(inputs, f.outputs, f.state, now, eventData));
    if out.raised.Some? then
      f.(failure := if f.failure.None? then Some((task.name, out.raised.value)) else f.failure)
    else
      var records := Records(out.emits);
      Fan(f.outputs + out.outputs, f.state + out.state, f.failure,
          if records == [] then f.pending else f.pending + [(task.name, records)])
  }

  function FanOut(tasks: seq<Task>, f: Fan, inputs: Dict, now: real, eventData: Dict, exec: Exec): Fan
    decreases |tasks|
  {
    if tasks == [] then f else FanOut(tasks[1..], FanStep(f, tasks[0], inputs, now, eventData, exec), inputs, now, eventData, exec)
  }

  /** Every `emit_event` delay a body can produce is non-negative. */
  ghost predicate ExecDelaysNonNegative(exec: Exec)
  {
    forall code, ns, k :: 0 <= k < |exec(code, ns).emits| ==> exec(code, ns).emits[k].delay >= 0.0
  }

  /** Failures are reported for the first task that raised, the records kept
      are never empty, and under non-negative delays their delays are
      non-negative. */
  lemma {:induction false} FanOutFacts(tasks: seq<Task>, f: Fan, inputs: Dict, now: real, eventData: Dict, exec: Exec)
    requires forall k :: 0 <= k < |f.pending| ==> f.pending[k].1 != []
    ensures var g := FanOut(tasks, f, inputs, now, eventData, exec);
      (f.failure.Some? ==> g.failure == f.failure) &&
      (forall k :: 0 <= k < |g.pending| ==> g.pending[k].1 != []) &&
      (ExecDelaysNonNegative(exec) && GroupsNonNegative(f.pending) ==> GroupsNonNegative(g.pending)) &&
      |f.pending| <= |g.pending| && g.pending[..|f.pending|] == f.pending
    decreases |tasks|
  {
    if tasks != [] {
      var f' := FanStep(f, tasks[0], inputs, now, eventData, exec);
      var out := exec(tasks[0].code, TaskNamespace(inputs, f.outputs, f.state, now, eventData));
      assert ExecDelaysNonNegative(exec) ==> DelaysNonNegative(Records(out.emits));
      assert f'.pending[..|f.pending|] == f.pending;
      FanOutFacts(tasks[1..], f', inputs, now, eventData, exec);
    }
  }

  /** Whether the optional `condition` lets an activated task run: a falsy or
      missing condition always does; otherwise it must evaluate to true,
      and an evaluation that raises (as does one of a non-string) counts
      as false. */
  predicate Admits(condition: Option<Value>, state: Dict, now: real, eval: Evaluator)
  {
    condition.None? || !Truthy(condition.value) ||
    (condition.value.VStr? && eval(condition.value.s, state, Some(now)) == Ok(true))
  }

  /** The tasks that run for an event, in declaration order: those whose
      trigger fired and whose condition admits them. */
  function Selected(tasks: seq<Task>, fired: seq<bool>, state: Dict, now: real, eval: Evaluator): seq<Task>
    requires |fired| == |tasks|
  {
    if tasks == [] then []
    else
      var n := |tasks| - 1;
      Selected(tasks[..n], fired[..n], state, now, eval) +
        if fired[n] && Admits(tasks[n].condition, state, now, eval) then [tasks[n]] else []
  }

  /** A task runs only if its trigger fired and its condition admits it, and
      the selection keeps declaration order. */
  lemma {:induction false} SelectedMeaning(tasks: seq<Task>, fired: seq<bool>, state: Dict, now: real, eval: Evaluator)
    requires |fired| == |tasks|
    ensures var s := Selected(tasks, fired, state, now, eval);
      |s| <= |tasks| &&
      (forall t :: t in s ==> exists k :: 0 <= k < |tasks| && tasks[k] == t && fired[k] && Admits(t.condition, state, now, eval)) &&
      (forall k :: 0 <= k < |tasks| && fired[k] && Admits(tasks[k].condition, state, now, eval) ==> tasks[k] in s)
  {
    if tasks != [] {
      var n := |tasks| - 1;
      SelectedMeaning(tasks[..n], fired[..n], state, now, eval);
      var s := Selected(tasks, fired, state, now, eval);
      var init := Selected(tasks[..n], fired[..n], state, now, eval);
      forall t | t in s
        ensures exists k :: 0 <= k < |tasks| && tasks[k] == t && fired[k] && Admits(t.condition, state, now, eval)
      {
        if t in init {
          var k :| 0 <= k < n && tasks[..n][k] == t && fired[..n][k] && Admits(t.condition, state, now, eval);
          assert tasks[k] == t && fired[k];
        }
      }
      forall k | 0 <= k < |tasks| && fired[k] && Admits(tasks[k].condition, state, now, eval)
        ensures tasks[k] in s
      {
        if k < n {
          assert tasks[..n][k] == tasks[k] && fired[..n][k];
        }
      }
    }
  }

  /** The `periodic_<name>` events pushed for the periodic tasks that fired:
      each at the trigger's last execution, now, plus its interval. */
  function Reschedules(tasks: seq<Task>, fired: seq<bool>, now: real): seq<Event>
    requires |fired| == |tasks|
  {
    if tasks == [] then []
    else
      var n := |tasks| - 1;
      Reschedules(tasks[..n], fired[..n], now) +
        Rescheduled(tasks[n], fired[n], now)
  }

  predicate IntervalsNonNegative(tasks: seq<Task>)
  {
    forall k :: 0 <= k < |tasks| && IsPeriodic(tasks[k]) ==> tasks[k].trigger.value.periodic.interval >= 0.0
  }

  /** With non-negative intervals no periodic event is pushed into the past. */
  lemma {:induction false} ReschedulesNotBefore(tasks: seq<Task>, fired: seq<bool>, now: real)
    requires |fired| == |tasks| && IntervalsNonNegative(tasks)
    ensures AllNotBefore(Reschedules(tasks, fired, now), now)
  {
    if tasks != [] {
      var n := |tasks| - 1;
      assert IntervalsNonNegative(tasks[..n]) by {
        forall k | 0 <= k < n && IsPeriodic(tasks[..n][k]) ensures tasks[..n][k].trigger.value.periodic.interval >= 0.0 {
          assert tasks[..n][k] == tasks[k];
        }
      }
      ReschedulesNotBefore(tasks[..n], fired[..n], now);
    }
  }

  /** The state of each task's trigger (a placeholder for a task without
      one). */
  ghost function StatesOf(tasks: seq<Task>): (r: seq<TriggerState>)
    reads TriggerObjects(tasks)
    ensures |r| == |tasks|
    ensures forall k :: 0 <= k < |tasks| && tasks[k].trigger.Some? ==> r[k] == tasks[k].trigger.value.State()
  {
    seq(|tasks|, k requires 0 <= k < |tasks| reads TriggerObjects(tasks) =>
      if tasks[k].trigger.Some? then tasks[k].trigger.value.State() else ImmediateState(false))
  }

  /** The triggers' states are kept while their objects are. */
  twostate lemma StatesKept(tasks: seq<Task>)
    requires unchanged(TriggerObjects(tasks))
    ensures StatesOf(tasks) == old(StatesOf(tasks))
  {
  }

  /** Trigger objects are neither dicts, nor the clock, nor the queue. */
  lemma OnlyTriggers(tasks: seq<Task>, state: DictRef, outputs: DictRef, clock: SimulationTime, queue: EventQueue)
    ensures state !in TriggerObjects(tasks) && outputs !in TriggerObjects(tasks)
    ensures clock !in TriggerObjects(tasks) && queue !in TriggerObjects(tasks)
  {
  }

  /** Nor is the log. */
  lemma LogApart(tasks: seq<Task>, log: ExecutionLog)
    ensures log !in TriggerObjects(tasks)
  {
  }

  /** The first i tasks' triggers have been consulted, in order, on `obs`:
      `fired` says which fired, and from their states in `before` they have
      moved on to those in `current`; the other triggers are as they were. */
  predicate Consulted(tasks: seq<Task>, before: seq<TriggerState>, current: seq<TriggerState>, i: nat, fired: seq<bool>, obs: Observation, eval: Evaluator)
  {
    |before| == |tasks| && |current| == |tasks| && i <= |tasks| && |fired| == i &&
    (forall k :: 0 <= k < i ==> fired[k] == (tasks[k].trigger.Some? && Activate(before[k], obs, eval).0)) &&
    (forall k :: 0 <= k < i && tasks[k].trigger.Some? ==> current[k] == Activate(before[k], obs, eval).1) &&
    (forall k :: i <= k < |tasks| && tasks[k].trigger.Some? ==> current[k] == before[k])
  }

  lemma ConsultedNext(tasks: seq<Task>, before: seq<TriggerState>, current: seq<TriggerState>, current': seq<TriggerState>,
                      i: nat, fired: seq<bool>, fire: bool, obs: Observation, eval: Evaluator)
    requires Consulted(tasks, before, current, i, fired, obs, eval) && i < |tasks| && |current'| == |tasks|
    requires fire == (tasks[i].trigger.Some? && Activate(before[i], obs, eval).0)
    requires tasks[i].trigger.Some? ==> current'[i] == Activate(before[i], obs, eval).1
    requires forall k :: 0 <= k < |tasks| && k != i && tasks[k].trigger.Some? ==> current'[k] == current[k]
    ensures Consulted(tasks, before, current', i + 1, fired + [fire], obs, eval)
  {
  }

  /** What the first i iterations of `_get_activated_tasks` have gathered:
      the tasks to run and the entries of the periodic reschedules. */
  predicate Gathered(tasks: seq<Task>, i: nat, fired: seq<bool>, activated: seq<Task>, added: seq<Entry>, c0: nat, obs: Observation, eval: Evaluator)
  {
    i <= |tasks| && |fired| == i &&
    activated == Selected(tasks[..i], fired, obs.state, obs.now, eval) &&
    added == Pushed(Reschedules(tasks[..i], fired, obs.now), c0)
  }

  /** The reschedule of one task whose trigger was consulted. */
  function Rescheduled(task: Task, fire: bool, now: real): seq<Event>
  {
    if fire && IsPeriodic(task) then [PeriodicEvent(task.name, now + task.trigger.value.periodic.interval)] else []
  }

  lemma GatheredNext(tasks: seq<Task>, i: nat, fired: seq<bool>, fire: bool, activated: seq<Task>, added: seq<Entry>, c0: nat, obs: Observation, eval: Evaluator)
    requires i < |tasks| && Gathered(tasks, i, fired, activated, added, c0, obs, eval)
    ensures Gathered(tasks, i + 1, fired + [fire],
      if fire && Admits(tasks[i].condition, obs.state, obs.now, eval) then activated + [tasks[i]] else activated,
      added + Pushed(Rescheduled(tasks[i], fire, obs.now), c0 + |added|), c0, obs, eval)
  {
    assert tasks[..i + 1][..i] == tasks[..i] && (fired + [fire])[..i] == fired;
    PushedAppend(Reschedules(tasks[..i], fired, obs.now), Rescheduled(tasks[i], fire, obs.now), c0);
  }

  /** What `_execute_task` reports: the emitted records, or the text of the
      exception the body raised. */
  datatype TaskRun = Done(pending: seq<PendingEvent>) | Failed(message: string)

  /** How a run ended: the termination condition held, the queue ran out,
      an exception escaped (with the step that raised it), or the fuel
      bound on the number of iterations was reached. */
  datatype Stage = TerminationCheck | ClockAdvance | InputGeneration | TaskExecution
  datatype Ending = Terminated | Drained | Raised(error: Error, stage: Stage) | FuelOut

  /** `task_order` of a log record: the activated names, or None. */
  function TaskOrder(activated: seq<Task>): Option<seq<string>>
  {
    if activated == [] then None else Some(Names(activated))
  }

  /** The inputs a record shows: the event's name and time, overridden by
      any inputs of the same name. */
  function RecordInputs(event: Event, inputs: Dict): Dict
  {
    map["event" := VStr(event.name), "time" := VReal(event.time)] + inputs
  }

  /** What handling one event can change, apart from the triggers' states
      (`StatesOf`): the component's dicts, the queue, the log, the initial
      inputs and the input round. */
  datatype Snapshot = Snapshot(state: Dict, outputs: Dict, entries: seq<Entry>, counter: nat, rounds: seq<RoundRecord>,
                               inputs: Dict, inputRound: int)

  /** The error `_execute_tasks_parallel` raises for a failure: a lone
      task's own TaskError, or the first failure among several. */
  function TaskFailure(activated: seq<Task>, failure: (string, string)): Error
  {
    if |activated| == 1 then ExecutionError(failure.0, failure.1) else FanOutError(failure.0, failure.1)
  }

  /** The records a run appends: numbered in increasing order above the
      event count it started from and at most the current count, at most
      one per processed event, never with an empty task order. */
  ghost predicate Grown(before: seq<RoundRecord>, after: seq<RoundRecord>, count0: int, count: int)
  {
    |before| <= |after| && after[..|before|] == before && |after| - |before| <= count - count0 &&
    forall k :: |before| <= k < |after| ==>
      count0 < after[k].roundNumber <= count && after[k].taskOrder != Some([]) &&
      "event" in after[k].inputs && "time" in after[k].inputs &&
      (k > |before| ==> after[k - 1].roundNumber < after[k].roundNumber)
  }

  lemma GrownTrans(a: seq<RoundRecord>, b: seq<RoundRecord>, c: seq<RoundRecord>, n0: int, n1: int, n2: int)
    requires Grown(a, b, n0, n1) && Grown(b, c, n1, n2) && n0 <= n1
    ensures Grown(a, c, n0, n2)
  {
    assert c[..|b|][..|a|] == c[..|a|];
    forall k | |a| <= k < |c|
      ensures n0 < c[k].roundNumber <= n2
      ensures k > |a| ==> c[k - 1].roundNumber < c[k].roundNumber
    {
      if k < |b| {
        assert c[k] == b[k];
        if k > |a| { assert c[k - 1] == b[k - 1]; }
      } else if k == |b| && k > |a| {
        assert c[k - 1] == b[k - 1];
      }
    }
  }

  /** The ways `run`'s loop head ends an iteration before any event is
      handled, from the answer `check` of the termination condition, the
      queue `entries`, the clock `time0` and the event count `count0`: a
      raising check is raised, a true one terminates and an empty queue
      drains, all with nothing changed; an earliest event lying before the
      clock is popped and its move raises the clock's ValueError, with
      nothing else changed. */
  ghost predicate Halted(check: Result<bool>, entries: seq<Entry>, time0: real, count0: int, show: Show,
                         before: Snapshot, after: Snapshot, time: real, count: int,
                         triggers: seq<TriggerState>, triggers': seq<TriggerState>, stop: Option<Ending>)
  {
    (check.Err? ==> stop == Some(Raised(check.error, TerminationCheck))) &&
    (check == Ok(true) ==> stop == Some(Terminated)) &&
    (check == Ok(false) && entries == [] ==> stop == Some(Drained)) &&
    (check != Ok(false) || entries == [] ==>
      after == before && time == time0 && count == count0 && triggers' == triggers) &&
    (check == Ok(false) && entries != [] && entries[MinIndex(entries)].event.time < time0 ==>
      var k := MinIndex(entries);
      stop == Some(Raised(BackwardsError(entries[k].event.time, time0, show), ClockAdvance)) &&
      after == before.(entries := Remove(entries, k)) && count == count0 && triggers' == triggers)
  }

  /** An event that is taken leaves `Halted` nothing to say. */
  lemma HaltedTaken(check: Result<bool>, entries: seq<Entry>, time0: real, count0: int, show: Show,
                    before: Snapshot, after: Snapshot, time: real, count: int,
                    triggers: seq<TriggerState>, triggers': seq<TriggerState>, stop: Option<Ending>)
    requires check == Ok(false) && entries != [] && time0 <= entries[MinIndex(entries)].event.time
    ensures Halted(check, entries, time0, count0, show, before, after, time, count, triggers, triggers', stop)
  {
  }

  /** One round recorded, numbered by the event count. */
  lemma GrownOne(before: seq<RoundRecord>, event: Event, inputs: Dict, outputs: Dict, state: Dict,
                 activated: seq<Task>, count0: int, count: int)
    requires count0 < count
    ensures Grown(before, before + [RoundRecord(count, RecordInputs(event, inputs), outputs, state, TaskOrder(activated))], count0, count)
  {
    var after := before + [RoundRecord(count, RecordInputs(event, inputs), outputs, state, TaskOrder(activated))];
    assert after[..|before|] == before;
  }

  class EventDrivenExecutor {
    const component: Component
    const generator: Option<InputSource>
    const termination: Condition
    const inputEventName: string
    const inputInterval: Option<real>
    const queue: EventQueue
    const clock: SimulationTime
    const log: ExecutionLog
    var initialInputs: Dict
    var eventCount: int
    var inputRound: int

    /** What construction establishes and every method keeps. */
    ghost predicate Valid()
      reads queue, clock
    {
      component.Valid() && component.kind == Asynchronous && SeparateTriggers(component.tasks) &&
      queue.Valid() && clock.Valid()
    }

    /** No queued event is earlier than the clock. */
    ghost predicate Ahead()
      reads queue, clock
    {
      NotBefore(queue.entries, clock.currentTime)
    }

    /** The conditions under which the clock is never asked to go back: no
        negative delay, input interval or periodic interval. */
    ghost predicate Forward(exec: Exec)
    {
      ExecDelaysNonNegative(exec) && IntervalsNonNegative(component.tasks) &&
      (inputInterval.Some? ==> inputInterval.value >= 0.0)
    }

    function GeneratorFootprint(): set<object>
    {
      if generator.Some? then SourceFootprint(generator.value) else {}
    }

    constructor (component: Component, generator: Option<InputSource>, termination: Condition,
                 inputEventName: string, inputInterval: Option<real>, initialInputs: Dict)
      requires component.Valid() && component.kind == Asynchronous && SeparateTriggers(component.tasks)
      ensures this.component == component && this.generator == generator && this.termination == termination
      ensures this.inputEventName == inputEventName && this.inputInterval == inputInterval
      ensures this.initialInputs == initialInputs && eventCount == 0 && inputRound == 0
      ensures fresh(queue) && fresh(clock) && fresh(log)
      ensures queue.entries == [] && clock.currentTime == 0.0 && log.rounds == []
      ensures Valid() && Ahead()
    {
      this.component := component;
      this.generator := generator;
      this.termination := termination;
      this.inputEventName := inputEventName;
      this.inputInterval := inputInterval;
      this.initialInputs := initialInputs;
      queue := new EventQueue();
      clock := new SimulationTime(0.0);
      log := new ExecutionLog();
      eventCount := 0;
      inputRound := 0;
    }

    /** `_should_terminate`: the condition sees the event count as the round
        number and is told the clock, the count and whether the queue is
        empty. */
    function ShouldStop(eval: Evaluator): Result<bool>
      reads this`eventCount, queue, clock, component.state
    {
      ShouldTerminate(termination, eventCount, component.state.data,
                      Extras(Some(clock.currentTime), Some(eventCount), Some(queue.IsEmpty())), eval)
    }

    /** The executor's changeable parts, as a value. */
    ghost function Snap(): Snapshot
      reads this`initialInputs, this`inputRound, component.state, component.currentOutputs, queue, log
    {
      Snapshot(component.state.data, component.currentOutputs.data, queue.entries, queue.counter, log.rounds,
               initialInputs, inputRound)
    }

    /** What the generator hands back for the next input round. */
    function NextInputs(rng: Rng, show: Show): Result<Dict>
      reads this`inputRound, GeneratorFootprint()
    {
      if generator.Some? then Expected(generator.value, component.inputs, inputRound + 1, rng, show) else Ok(map[])
    }

    /** A task event at time `now`, counted as event `count`, takes the
        executor from `before` to `after`: every trigger is consulted on the
        event and the state found (`fired`), moving on as `Activate` says;
        the fired tasks the condition admits are `activated`, in
        declaration order; the periodic ones that fired are rescheduled;
        then the activated tasks run (`Ran`). */
    ghost predicate TaskEvent(event: Event, now: real, count: int, exec: Exec, eval: Evaluator,
                              before: Snapshot, after: Snapshot, triggers: seq<TriggerState>, triggers': seq<TriggerState>,
                              fired: seq<bool>, activated: seq<Task>, stop: Option<Ending>)
    {
      var tasks := component.tasks;
      Consulted(tasks, triggers, triggers', |tasks|, fired, Observation(event.name, before.state, now), eval) &&
      activated == Selected(tasks, fired, before.state, now, eval) &&
      after.inputs == before.inputs && after.inputRound == before.inputRound &&
      Ran(event, now, count, exec, activated, Reschedules(tasks, fired, now), before, after, stop)
    }

    /** The activated tasks fan out over the dicts of `before`; without a
        failure their records are scheduled after the reschedules and the
        round is recorded, with one only the reschedules stay queued, the
        failure is raised and nothing is recorded. */
    ghost predicate Ran(event: Event, now: real, count: int, exec: Exec, activated: seq<Task>, resched: seq<Event>,
                        before: Snapshot, after: Snapshot, stop: Option<Ending>)
    {
      var fan := FanOut(activated, Fan(before.outputs, before.state, None, []), before.inputs, now, event.data, exec);
      var pushed := resched + (if fan.failure.None? then AllScheduled(fan.pending, now) else []);
      after.state == fan.state && after.outputs == fan.outputs &&
      after.entries == before.entries + Pushed(pushed, before.counter) && after.counter == before.counter + |pushed| &&
      (fan.failure.None? ==>
        stop.None? &&
        after.rounds == before.rounds + [RoundRecord(count, RecordInputs(event, before.inputs), after.outputs, after.state, TaskOrder(activated))]) &&
      (fan.failure.Some? ==>
        stop == Some(Raised(TaskFailure(activated, fan.failure.value), TaskExecution)) && after.rounds == before.rounds)
    }

    /** What `_execute_tasks_parallel` does, from `before` to `after`, when
        it returns `r`: the fan-out's dicts, and its events queued unless a
        task raised. */
    ghost predicate Executed(event: Event, now: real, exec: Exec, activated: seq<Task>,
                             before: Snapshot, after: Snapshot, r: Outcome)
    {
      var fan := FanOut(activated, Fan(before.outputs, before.state, None, []), before.inputs, now, event.data, exec);
      var pushed := AllScheduled(fan.pending, now);
      after.outputs == fan.outputs && after.state == fan.state && after.rounds == before.rounds &&
      (fan.failure.None? ==>
        r == Pass && after.entries == before.entries + Pushed(pushed, before.counter) && after.counter == before.counter + |pushed|) &&
      (fan.failure.Some? ==>
        after.entries == before.entries && after.counter == before.counter && r == Fail(TaskFailure(activated, fan.failure.value)))
    }

    /** `Ran` from what the fan-out left (`mid`) and what was recorded. */
    lemma RanIntro(event: Event, now: real, count: int, exec: Exec, activated: seq<Task>,
                   before: Snapshot, mid: Snapshot, after: Snapshot, stop: Option<Ending>, r: Outcome)
      requires Executed(event, now, exec, activated, before, mid, r)
      requires after.state == mid.state && after.outputs == mid.outputs && after.entries == mid.entries && after.counter == mid.counter
      requires r.Fail? ==> stop == Some(Raised(r.error, TaskExecution)) && after.rounds == mid.rounds
      requires r.Pass? ==>
        stop.None? &&
        after.rounds == mid.rounds + [RoundRecord(count, RecordInputs(event, before.inputs), after.outputs, after.state, TaskOrder(activated))]
      ensures Ran(event, now, count, exec, activated, [], before, after, stop)
    {
      var fan := FanOut(activated, Fan(before.outputs, before.state, None, []), before.inputs, now, event.data, exec);
      var pushed := AllScheduled(fan.pending, now);
      assert [] + pushed == pushed;
    }

    /** A generation event at time `now`, with `generated` what the
        generator hands back, takes the executor from `before` to `after`:
        the dicts and the log stay as they are; with no
        generator nothing happens; otherwise the input round goes up, and a
        failure raises while a success merges the inputs and announces
        them. */
    ghost predicate GenerationEvent(generated: Result<Dict>, now: real, before: Snapshot, after: Snapshot, stop: Option<Ending>)
    {
      after.state == before.state && after.outputs == before.outputs && after.rounds == before.rounds &&
      if generator.None? then
        stop.None? && after.inputs == before.inputs && after.inputRound == before.inputRound &&
        after.entries == before.entries && after.counter == before.counter
      else
        after.inputRound == before.inputRound + 1 &&
        (generated.Err? ==>
          stop == Some(Raised(GenerationError(generated.error.message), InputGeneration)) && after.inputs == before.inputs &&
          after.entries == before.entries && after.counter == before.counter) &&
        (generated.Ok? ==>
          var pushed := Announcements(generated.value, now, after.inputRound);
          stop.None? && after.inputs == before.inputs + generated.value &&
          after.entries == before.entries + Pushed(pushed, before.counter) && after.counter == before.counter + |pushed|)
    }

    /** The event `event`, taken at time `now` as event `count`, takes the
        executor from `before` to `after`: a generation event as
        `GenerationEvent` says, consulting no trigger, with `generated` what
        the generator hands back; any other event as `TaskEvent` says. */
    ghost predicate Handled(event: Event, now: real, count: int, exec: Exec, eval: Evaluator, generated: Result<Dict>,
                            before: Snapshot, after: Snapshot, triggers: seq<TriggerState>, triggers': seq<TriggerState>,
                            fired: seq<bool>, activated: seq<Task>, stop: Option<Ending>)
    {
      (event.name == GenerateInputName ==>
        activated == [] && GenerationEvent(generated, now, before, after, stop) && triggers' == triggers) &&
      (event.name != GenerateInputName ==>
        TaskEvent(event, now, count, exec, eval, before, after, triggers, triggers', fired, activated, stop))
    }

    /** `_schedule_periodic_tasks` */
    method SchedulePeriodicTasks()
      modifies queue
      ensures queue.entries == old(queue.entries) + Pushed(PeriodicEvents(component.tasks), old(queue.counter))
      ensures queue.counter == old(queue.counter) + |PeriodicEvents(component.tasks)|
      ensures old(queue.Valid()) ==> queue.Valid()
    {
      var tasks := component.tasks;
      ghost var c0 := queue.counter;
      for i := 0 to |tasks|
        invariant queue.entries == old(queue.entries) + Pushed(PeriodicEvents(tasks[..i]), c0)
        invariant queue.counter == c0 + |PeriodicEvents(tasks[..i])|
        invariant old(queue.Valid()) ==> queue.Valid()
      {
        assert tasks[..i + 1][..i] == tasks[..i];
        ghost var before := PeriodicEvents(tasks[..i]);
        if IsPeriodic(tasks[i]) {
          var event := PeriodicEvent(tasks[i].name, 0.0);
          queue.Push(event);
          PushedAppend(before, [event], c0);
        } else {
          assert before + [] == before;
        }
      }
      assert tasks[..|tasks|] == tasks;
    }

    /** `_schedule_input_generation` */
    method ScheduleInputGeneration()
      modifies queue
      ensures generator.Some? && HasInterval(inputInterval) ==>
        queue.entries == old(queue.entries) + [Entry(0.0, 0, old(queue.counter), GenerateInputEvent(0.0, 1))] &&
        queue.counter == old(queue.counter) + 1
      ensures !(generator.Some? && HasInterval(inputInterval)) ==> queue.entries == old(queue.entries) && queue.counter == old(queue.counter)
      ensures old(queue.Valid()) ==> queue.Valid()
    {
      if generator.Some? && HasInterval(inputInterval) {
        queue.Push(GenerateInputEvent(0.0, 1));
      }
    }

    /** The events announcing a new round of inputs: the input event now,
        then, when an interval is set, the next generation that much later. */
    function Announcements(inputs: Dict, now: real, round: int): (r: seq<Event>)
      ensures (inputInterval.Some? ==> inputInterval.value >= 0.0) ==> AllNotBefore(r, now)
    {
      [Event(now, inputEventName, 0, inputs, None)] +
        if HasInterval(inputInterval) then [GenerateInputEvent(now + inputInterval.value, round + 1)] else []
    }

    /** The pushes at the end of `_generate_and_emit_input`. */
    method Announce(inputs: Dict)
      modifies queue
      ensures queue.entries == old(queue.entries) + Pushed(Announcements(inputs, clock.currentTime, inputRound), old(queue.counter))
      ensures queue.counter == old(queue.counter) + |Announcements(inputs, clock.currentTime, inputRound)|
      ensures old(queue.Valid()) ==> queue.Valid()
      ensures (inputInterval.Some? ==> inputInterval.value >= 0.0) && old(Ahead()) ==> Ahead()
    {
      var now := clock.currentTime;
      ghost var c0 := queue.counter;
      var announced := Event(now, inputEventName, 0, inputs, None);
      queue.Push(announced);
      if HasInterval(inputInterval) {
        var next := GenerateInputEvent(now + inputInterval.value, inputRound + 1);
        queue.Push(next);
        assert Pushed([announced] + [next], c0) == [Entry(now, 0, c0, announced), Entry(next.time, 0, c0 + 1, next)];
      } else {
        assert Pushed([announced] + [], c0) == [Entry(now, 0, c0, announced)];
      }
    }

    /** `_generate_and_emit_input`: the next round of inputs is merged into
        the initial inputs and announced, the next generation asking for the
        round after; a generator failure is wrapped in a
        ComponentError and announces nothing. */
    method GenerateAndEmitInput(rng: Rng, show: Show) returns (r: Outcome)
      modifies this, queue, GeneratorFootprint()
      ensures eventCount == old(eventCount)
      ensures generator.None? ==>
        r == Pass && inputRound == old(inputRound) && initialInputs == old(initialInputs) &&
        queue.entries == old(queue.entries) && queue.counter == old(queue.counter)
      ensures generator.Some? ==>
        var g := old(Expected(generator.value, component.inputs, inputRound + 1, rng, show));
        inputRound == old(inputRound) + 1 &&
        (g.Err? ==>
          r == Fail(GenerationError(g.error.message)) && initialInputs == old(initialInputs) &&
          queue.entries == old(queue.entries) && queue.counter == old(queue.counter)) &&
        (g.Ok? ==>
          r == Pass && initialInputs == old(initialInputs) + g.value &&
          var pushed := Announcements(g.value, clock.currentTime, inputRound);
          queue.entries == old(queue.entries) + Pushed(pushed, old(queue.counter)) &&
          queue.counter == old(queue.counter) + |pushed|)
      ensures old(queue.Valid()) ==> queue.Valid()
      ensures (inputInterval.Some? ==> inputInterval.value >= 0.0) && old(Ahead()) ==> Ahead()
    {
      if generator.None? {
        return Pass;
      }
      inputRound := inputRound + 1;
      var g := Generate(generator.value, component.inputs, inputRound, rng, show);
      if g.Err? {
        return Fail(GenerationError(g.error.message));
      }
      initialInputs := initialInputs + g.value;
      Announce(g.value);
      r := Pass;
    }

    /** `_schedule_pending_events` */
    method SchedulePendingEvents(pending: seq<PendingEvent>, sourceTask: string)
      modifies queue
      ensures queue.entries == old(queue.entries) + Pushed(Scheduled(pending, sourceTask, clock.currentTime), old(queue.counter))
      ensures queue.counter == old(queue.counter) + |pending|
      ensures old(queue.Valid()) ==> queue.Valid()
    {
      var now := clock.currentTime;
      ghost var c0 := queue.counter;
      ghost var all := Scheduled(pending, sourceTask, now);
      for i := 0 to |pending|
        invariant queue.entries == old(queue.entries) + Pushed(all[..i], c0)
        invariant queue.counter == c0 + i
        invariant old(queue.Valid()) ==> queue.Valid()
      {
        var p := pending[i];
        var event := Event(now + p.delay, p.name, p.priority, p.data, Some(sourceTask));
        queue.Push(event);
        assert all[..i + 1] == all[..i] + [event];
        PushedAppend(all[..i], [event], c0);
      }
      assert all[..|pending|] == all;
    }

    /** The scheduling loop at the end of `_execute_tasks_parallel`, task
        by task. */
    method ScheduleAll(groups: seq<(string, seq<PendingEvent>)>)
      modifies queue
      ensures queue.entries == old(queue.entries) + Pushed(AllScheduled(groups, clock.currentTime), old(queue.counter))
      ensures queue.counter == old(queue.counter) + |AllScheduled(groups, clock.currentTime)|
      ensures old(queue.Valid()) ==> queue.Valid()
    {
      ghost var c0 := queue.counter;
      for i := 0 to |groups|
        invariant queue.entries == old(queue.entries) + Pushed(AllScheduled(groups[..i], clock.currentTime), c0)
        invariant queue.counter == c0 + |AllScheduled(groups[..i], clock.currentTime)|
        invariant old(queue.Valid()) ==> queue.Valid()
      {
        ghost var before := AllScheduled(groups[..i], clock.currentTime);
        assert groups[..i + 1][..i] == groups[..i];
        SchedulePendingEvents(groups[i].1, groups[i].0);
        PushedAppend(before, Scheduled(groups[i].1, groups[i].0, clock.currentTime), c0);
      }
      assert groups[..|groups|] == groups;
    }

    /** `_execute_task`: the body runs on copies of the initial inputs, the
        outputs and the state, with an emitter of its own.  On success its
        state and outputs are merged into the component's and the emitter's
        records returned; on an exception nothing is merged. */
    method ExecuteTask(task: Task, event: Event, exec: Exec) returns (r: TaskRun)
      requires component.state != component.currentOutputs
      modifies component.state, component.currentOutputs
      ensures
        var out := exec(task.code, TaskNamespace(initialInputs, old(component.currentOutputs.data), old(component.state.data), clock.currentTime, event.data));
        (out.raised.Some? ==>
          r == Failed(out.raised.value) &&
          component.state.data == old(component.state.data) && component.currentOutputs.data == old(component.currentOutputs.data)) &&
        (out.raised.None? ==>
          r == Done(Records(out.emits)) &&
          component.state.data == old(component.state.data) + out.state &&
          component.currentOutputs.data == old(component.currentOutputs.data) + out.outputs)
    {
      var emitter := new EventEmitter();
      var out := exec(task.code, TaskNamespace(initialInputs, component.currentOutputs.data, component.state.data, clock.currentTime, event.data));
      for i := 0 to |out.emits|
        invariant emitter.pendingEvents == Records(out.emits[..i])
        invariant unchanged(component.state, component.currentOutputs)
      {
        var call := out.emits[i];
        emitter.Emit(call.name, call.data, call.delay, call.priority);
        assert Records(out.emits[..i + 1]) == Records(out.emits[..i]) + [PendingEvent(call.name, WrapData(call.data), call.delay, call.priority)];
      }
      assert out.emits[..|out.emits|] == out.emits;
      if out.raised.Some? {
        return Failed(out.raised.value);
      }
      component.state.data := component.state.data + out.state;
      component.currentOutputs.data := component.currentOutputs.data + out.outputs;
      var pending := emitter.GetPendingEvents();
      return Done(pending);
    }

    /** The one-task path of `_execute_tasks_parallel`: an exception escapes
        as the TaskError of `_execute_task`; otherwise the task's records,
        if any, are scheduled. */
    method ExecuteOne(task: Task, event: Event, exec: Exec) returns (r: Outcome)
      requires component.state != component.currentOutputs
      modifies component.state, component.currentOutputs, queue
      ensures
        var f := FanStep(Fan(old(component.currentOutputs.data), old(component.state.data), None, []), task, initialInputs, clock.currentTime, event.data, exec);
        var pushed := AllScheduled(f.pending, clock.currentTime);
        component.currentOutputs.data == f.outputs && component.state.data == f.state &&
        (f.failure.None? ==>
          r == Pass && queue.entries == old(queue.entries) + Pushed(pushed, old(queue.counter)) &&
          queue.counter == old(queue.counter) + |pushed|) &&
        (f.failure.Some? ==>
          queue.entries == old(queue.entries) && queue.counter == old(queue.counter) &&
          r == Fail(ExecutionError(f.failure.value.0, f.failure.value.1)))
      ensures old(queue.Valid()) ==> queue.Valid()
    {
      var now := clock.currentTime;
      var run := ExecuteTask(task, event, exec);
      match run
      case Failed(message) =>
        return Fail(ExecutionError(task.name, message));
      case Done(pending) =>
        if pending != [] {
          SchedulePendingEvents(pending, task.name);
          assert [(task.name, pending)][..0] == [];
          assert AllScheduled([(task.name, pending)], now) == [] + Scheduled(pending, task.name, now);
        } else {
          assert AllScheduled([], now) == [];
        }
        return Pass;
    }

    /** The fan-out of `_execute_tasks_parallel` run serially: every task
        runs, each seeing what the earlier ones merged. */
    method RunSerially(tasks: seq<Task>, event: Event, exec: Exec) returns (failure: Option<(string, string)>, groups: seq<(string, seq<PendingEvent>)>)
      requires component.state != component.currentOutputs
      modifies component.state, component.currentOutputs
      ensures Fan(component.currentOutputs.data, component.state.data, failure, groups) ==
        FanOut(tasks, Fan(old(component.currentOutputs.data), old(component.state.data), None, []), initialInputs, clock.currentTime, event.data, exec)
    {
      ghost var goal := FanOut(tasks, Fan(component.currentOutputs.data, component.state.data, None, []), initialInputs, clock.currentTime, event.data, exec);
      failure := None;
      groups := [];
      for i := 0 to |tasks|
        invariant FanOut(tasks[i..], Fan(component.currentOutputs.data, component.state.data, failure, groups), initialInputs, clock.currentTime, event.data, exec) == goal
      {
        assert tasks[i..][1..] == tasks[i + 1..];
        var run := ExecuteTask(tasks[i], event, exec);
        match run
        case Failed(message) =>
          if failure.None? {
            failure := Some((tasks[i].name, message));
          }
        case Done(pending) =>
          if pending != [] {
            groups := groups + [(tasks[i].name, pending)];
          }
      }
    }

    /** `_execute_tasks_parallel`, with the tasks run one after another in
        the order given.  With several tasks every one runs even after one
        failed and the successful ones merge their state and outputs; then
        the first failure is reported and none of the emitted events is
        scheduled, or, without a failure, each task's records are scheduled
        in turn. */
    method ExecuteTasks(tasks: seq<Task>, event: Event, exec: Exec) returns (r: Outcome)
      requires component.state != component.currentOutputs
      modifies component.state, component.currentOutputs, queue
      ensures Executed(event, clock.currentTime, exec, tasks, old(Snap()), Snap(), r)
      ensures old(queue.Valid()) ==> queue.Valid()
      ensures ExecDelaysNonNegative(exec) && old(Ahead()) ==> Ahead()
    {
      var now := clock.currentTime;
      ghost var f0 := Fan(component.currentOutputs.data, component.state.data, None, []);
      ghost var goal := FanOut(tasks, f0, initialInputs, now, event.data, exec);
      ghost var entries0, c0 := queue.entries, queue.counter;
      FanOutFacts(tasks, f0, initialInputs, now, event.data, exec);
      if tasks == [] {
        assert AllScheduled([], now) == [];
        r := Pass;
      } else if |tasks| == 1 {
        assert tasks[1..] == [];
        r := ExecuteOne(tasks[0], event, exec);
      } else {
        var failure, groups := RunSerially(tasks, event, exec);
        if failure.Some? {
          return Fail(FanOutError(failure.value.0, failure.value.1));
        }
        ScheduleAll(groups);
        r := Pass;
      }
      if goal.failure.None? && ExecDelaysNonNegative(exec) && NotBefore(entries0, now) {
        ScheduledNotBefore(entries0, goal.pending, c0, now);
      }
    }

    /** One iteration of `_get_activated_tasks`: whether the task's trigger
        fired, and whether the task then runs. */
    method Consult(task: Task, obs: Observation, eval: Evaluator) returns (fire: bool, run: bool)
      modifies queue, if task.trigger.Some? then {task.trigger.value.Object()} else {}
      ensures fire == (task.trigger.Some? && Activate(old(task.trigger.value.State()), obs, eval).0)
      ensures task.trigger.Some? ==> task.trigger.value.State() == Activate(old(task.trigger.value.State()), obs, eval).1
      ensures run == (fire && Admits(task.condition, obs.state, obs.now, eval))
      ensures queue.entries == old(queue.entries) + Pushed(Rescheduled(task, fire, obs.now), old(queue.counter))
      ensures queue.counter == old(queue.counter) + |Rescheduled(task, fire, obs.now)|
      ensures old(queue.Valid()) ==> queue.Valid()
    {
      fire := false;
      if task.trigger.Some? {
        fire := task.trigger.value.ShouldActivate(obs, eval);
        if task.trigger.value.Periodic? && fire {
          var next := task.trigger.value.periodic.GetNextTime(obs.now);
          var e := PeriodicEvent(task.name, next.t);
          queue.Push(e);
          assert Pushed([e], old(queue.counter)) == [Entry(e.time, e.priority, old(queue.counter), e)];
        }
      }
      run := fire;
      if run && task.condition.Some? && Truthy(task.condition.value) {
        run := task.condition.value.VStr? && eval(task.condition.value.s, obs.state, Some(obs.now)) == Ok(true);
      }
    }

    /** One iteration of `_get_activated_tasks`'s loop, with what it keeps:
        the next trigger consulted, the task added to the activated ones if
        it runs, and its reschedule, if any, pushed. */
    method ConsultNext(ghost before: seq<TriggerState>, i: nat, ghost fired: seq<bool>, activated: seq<Task>,
                       ghost entries0: seq<Entry>, ghost added: seq<Entry>, ghost c0: nat, obs: Observation, eval: Evaluator)
      returns (fire: bool, activated': seq<Task>, ghost added': seq<Entry>)
      requires SeparateTriggers(component.tasks)
      requires Consulted(component.tasks, before, StatesOf(component.tasks), i, fired, obs, eval) && i < |component.tasks|
      requires Gathered(component.tasks, i, fired, activated, added, c0, obs, eval)
      requires queue.entries == entries0 + added && queue.counter == c0 + |added|
      modifies queue, TriggerObjects(component.tasks)
      ensures Consulted(component.tasks, before, StatesOf(component.tasks), i + 1, fired + [fire], obs, eval)
      ensures Gathered(component.tasks, i + 1, fired + [fire], activated', added', c0, obs, eval)
      ensures queue.entries == entries0 + added' && queue.counter == c0 + |added'|
      ensures old(queue.Valid()) ==> queue.Valid()
    {
      var tasks := component.tasks;
      ghost var current := StatesOf(tasks);
      var run;
      fire, run := Consult(tasks[i], obs, eval);
      forall k | 0 <= k < |tasks| && k != i && tasks[k].trigger.Some?
        ensures tasks[k].trigger.value.State() == old(tasks[k].trigger.value.State())
      {
        if tasks[i].trigger.Some? {
          assert tasks[k].trigger.value.Object() != tasks[i].trigger.value.Object();
        }
      }
      ConsultedNext(tasks, before, current, StatesOf(tasks), i, fired, fire, obs, eval);
      activated' := if run then activated + [tasks[i]] else activated;
      added' := added + Pushed(Rescheduled(tasks[i], fire, obs.now), c0 + |added|);
      GatheredNext(tasks, i, fired, fire, activated, added, c0, obs, eval);
    }

    /** `_get_activated_tasks`: the trigger of every task that has one is
        consulted, whatever the event (a periodic trigger too, not only on
        its own `periodic_<name>` event); a periodic trigger that fires
        reschedules its task an interval later; the tasks whose trigger
        fired and whose condition admits them come back in declaration
        order. */
    method GetActivatedTasks(event: Event, eval: Evaluator) returns (activated: seq<Task>, ghost fired: seq<bool>)
      requires SeparateTriggers(component.tasks)
      modifies queue, TriggerObjects(component.tasks)
      ensures
        var tasks := component.tasks;
        var obs := Observation(event.name, component.state.data, clock.currentTime);
        |fired| == |tasks| &&
        (forall k :: 0 <= k < |tasks| ==>
          fired[k] == (tasks[k].trigger.Some? && Activate(old(tasks[k].trigger.value.State()), obs, eval).0)) &&
        (forall k :: 0 <= k < |tasks| && tasks[k].trigger.Some? ==>
          tasks[k].trigger.value.State() == Activate(old(tasks[k].trigger.value.State()), obs, eval).1) &&
        activated == Selected(tasks, fired, component.state.data, clock.currentTime, eval) &&
        queue.entries == old(queue.entries) + Pushed(Reschedules(tasks, fired, clock.currentTime), old(queue.counter)) &&
        queue.counter == old(queue.counter) + |Reschedules(tasks, fired, clock.currentTime)|
      ensures Consulted(component.tasks, old(StatesOf(component.tasks)), StatesOf(component.tasks), |component.tasks|, fired,
                        Observation(event.name, component.state.data, clock.currentTime), eval)
      ensures old(queue.Valid()) ==> queue.Valid()
    {
      var tasks := component.tasks;
      var obs := Observation(event.name, component.state.data, clock.currentTime);
      ghost var c0 := queue.counter;
      ghost var entries0 := queue.entries;
      ghost var before := StatesOf(tasks);
      ghost var added: seq<Entry> := [];
      OnlyTriggers(tasks, component.state, component.currentOutputs, clock, queue);
      activated := [];
      fired := [];
      assert Pushed([], c0) == [];
      for i := 0 to |tasks|
        invariant Consulted(tasks, before, StatesOf(tasks), i, fired, obs, eval)
        invariant Gathered(tasks, i, fired, activated, added, c0, obs, eval)
        invariant queue.entries == entries0 + added && queue.counter == c0 + |added|
        invariant old(queue.Valid()) ==> queue.Valid()
      {
        var fire;
        fire, activated, added := ConsultNext(before, i, fired, activated, entries0, added, c0, obs, eval);
        fired := fired + [fire];
      }
      assert tasks[..|tasks|] == tasks;
    }
  
    /** The head of `run`'s loop: the termination condition is asked first;
        then the earliest event is popped (an empty queue ends the run), the
        clock is moved to it (a move back raises) and the event counted. */
    method Next(eval: Evaluator, show: Show) returns (stop: Option<Ending>, event: Event)
      requires Valid()
      modifies this`eventCount, queue, clock
      ensures Valid()
      ensures queue.counter == old(queue.counter) && old(clock.currentTime) <= clock.currentTime
      ensures old(ShouldStop(eval)).Ok? && old(ShouldStop(eval)).value ==> stop == Some(Terminated)
      ensures old(ShouldStop(eval)).Err? ==> stop == Some(Raised(old(ShouldStop(eval)).error, TerminationCheck))
      ensures old(ShouldStop(eval)) != Ok(false) ==> unchanged(queue, clock) && eventCount == old(eventCount)
      ensures old(ShouldStop(eval)) == Ok(false) && old(queue.entries) == [] ==>
        stop == Some(Drained) && queue.entries == [] && clock.currentTime == old(clock.currentTime) && eventCount == old(eventCount)
      ensures old(ShouldStop(eval)) == Ok(false) && old(queue.entries) != [] ==>
        var k := MinIndex(old(queue.entries));
        event == old(queue.entries)[k].event && queue.entries == Remove(old(queue.entries), k) &&
        (event.time < old(clock.currentTime) ==>
          stop == Some(Raised(BackwardsError(event.time, old(clock.currentTime), show), ClockAdvance)) && eventCount == old(eventCount)) &&
        (old(clock.currentTime) <= event.time ==>
          stop.None? && clock.currentTime == event.time && eventCount == old(eventCount) + 1)
      ensures stop != Some(FuelOut)
      ensures old(Ahead()) ==> Ahead() && !(stop.Some? && stop.value.Raised? && stop.value.stage == ClockAdvance)
    {
      event := StartEvent;
      var t := ShouldStop(eval);
      if t.Err? {
        return Some(Raised(t.error, TerminationCheck)), event;
      } else if t.value {
        return Some(Terminated), event;
      }
      ghost var s := queue.entries;
      var popped := queue.Pop();
      if popped.None? {
        return Some(Drained), event;
      }
      event := popped.value;
      if NotBefore(s, clock.currentTime) {
        PopEarliest(s, clock.currentTime);
      }
      var moved := clock.AdvanceTo(event.time, show);
      if moved.Fail? {
        return Some(Raised(moved.error, ClockAdvance)), event;
      }
      eventCount := eventCount + 1;
      stop := None;
    }

    /** A task event: the tasks it activates run, then the round is
        recorded, numbered by the event count, with the event's name and time
        in front of the current inputs and, as task order, the activated
        names or None when nothing was activated. */
    method RunActivated(event: Event, exec: Exec, eval: Evaluator)
      returns (stop: Option<Ending>, activated: seq<Task>, ghost fired: seq<bool>)
      requires Valid()
      modifies queue, log, component.state, component.currentOutputs, TriggerObjects(component.tasks)
      ensures Valid()
      ensures stop.None? || (stop.value.Raised? && stop.value.stage == TaskExecution)
      ensures stop.Some? ==> log.rounds == old(log.rounds)
      ensures stop.None? ==>
        log.rounds == old(log.rounds) + [RoundRecord(eventCount, RecordInputs(event, initialInputs),
                                                     component.currentOutputs.data, component.state.data, TaskOrder(activated))]
      ensures TaskEvent(event, clock.currentTime, eventCount, exec, eval, old(Snap()), Snap(),
                        old(StatesOf(component.tasks)), StatesOf(component.tasks), fired, activated, stop)
      ensures Forward(exec) && old(Ahead()) ==> Ahead()
    {
      ghost var before := Snap();
      var tasks := component.tasks;
      var now := clock.currentTime;
      OnlyTriggers(tasks, component.state, component.currentOutputs, clock, queue);
      LogApart(tasks, log);
      Apart();
      ghost var triggers := StatesOf(tasks);
      activated, fired := GetActivatedTasks(event, eval);
      ghost var mid := Snap();
      ghost var triggers' := StatesOf(tasks);
      ghost var resched := Reschedules(tasks, fired, now);
      assert Consulted(tasks, triggers, triggers', |tasks|, fired, Observation(event.name, before.state, now), eval);
      assert activated == Selected(tasks, fired, before.state, now, eval);
      assert mid.state == before.state && mid.outputs == before.outputs && mid.inputs == before.inputs && mid.rounds == before.rounds;
      assert mid.entries == before.entries + Pushed(resched, before.counter) && mid.counter == before.counter + |resched|;
      if Forward(exec) && old(Ahead()) {
        ReschedulesNotBefore(tasks, fired, now);
        PushedNotBefore(before.entries, resched, before.counter, now);
      }
      stop := RunAndRecord(activated, event, exec);
      ghost var after := Snap();
      assert unchanged(this);
      assert after.inputs == before.inputs && after.inputRound == before.inputRound;
      assert StatesOf(tasks) == triggers';
      RanShift(event, now, eventCount, exec, activated, resched, before, mid, after, stop);
      TaskEventIntro(event, now, eventCount, exec, eval, before, after, triggers, triggers', fired, activated, stop);
    }

    /** Nothing `Snap` shows but the queue's entries has changed. */
    twostate lemma SnapKept()
      requires unchanged(this`initialInputs, this`inputRound, component.state, component.currentOutputs, log)
      requires queue.counter == old(queue.counter)
      ensures Snap() == old(Snap()).(entries := queue.entries)
    {
    }

    /** The executor itself is no trigger. */
    lemma Apart()
      ensures this !in TriggerObjects(component.tasks)
    {
    }

    lemma TaskEventIntro(event: Event, now: real, count: int, exec: Exec, eval: Evaluator,
                         before: Snapshot, after: Snapshot, triggers: seq<TriggerState>, triggers': seq<TriggerState>,
                         fired: seq<bool>, activated: seq<Task>, stop: Option<Ending>)
      requires Consulted(component.tasks, triggers, triggers', |component.tasks|, fired, Observation(event.name, before.state, now), eval)
      requires activated == Selected(component.tasks, fired, before.state, now, eval)
      requires after.inputs == before.inputs && after.inputRound == before.inputRound
      requires Ran(event, now, count, exec, activated, Reschedules(component.tasks, fired, now), before, after, stop)
      ensures TaskEvent(event, now, count, exec, eval, before, after, triggers, triggers', fired, activated, stop)
    {
    }

    /** The second half of a task event: `_execute_tasks_parallel`, then
        `add_round` unless it raised.  The triggers are not touched. */
    method RunAndRecord(activated: seq<Task>, event: Event, exec: Exec) returns (stop: Option<Ending>)
      requires Valid()
      modifies queue, log, component.state, component.currentOutputs
      ensures Valid()
      ensures StatesOf(component.tasks) == old(StatesOf(component.tasks))
      ensures Ran(event, clock.currentTime, eventCount, exec, activated, [], old(Snap()), Snap(), stop)
      ensures ExecDelaysNonNegative(exec) && old(Ahead()) ==> Ahead()
    {
      ghost var before := Snap();
      OnlyTriggers(component.tasks, component.state, component.currentOutputs, clock, queue);
      LogApart(component.tasks, log);
      var r := ExecuteTasks(activated, event, exec);
      ghost var mid := Snap();
      if r.Fail? {
        stop := Some(Raised(r.error, TaskExecution));
      } else {
        log.AddRound(eventCount, RecordInputs(event, initialInputs), component.currentOutputs.data, component.state.data, TaskOrder(activated));
        stop := None;
      }
      StatesKept(component.tasks);
      RanIntro(event, clock.currentTime, eventCount, exec, activated, before, mid, Snap(), stop, r);
    }

    /** `Ran` from a state whose queue the reschedules have already
        grown is `Ran` with those reschedules from the state before them. */
    lemma RanShift(event: Event, now: real, count: int, exec: Exec, activated: seq<Task>, resched: seq<Event>,
                   before: Snapshot, mid: Snapshot, after: Snapshot, stop: Option<Ending>)
      requires mid.state == before.state && mid.outputs == before.outputs && mid.inputs == before.inputs && mid.rounds == before.rounds
      requires mid.entries == before.entries + Pushed(resched, before.counter) && mid.counter == before.counter + |resched|
      requires Ran(event, now, count, exec, activated, [], mid, after, stop)
      ensures Ran(event, now, count, exec, activated, resched, before, after, stop)
    {
      var fan := FanOut(activated, Fan(before.outputs, before.state, None, []), before.inputs, now, event.data, exec);
      assert fan == FanOut(activated, Fan(mid.outputs, mid.state, None, []), mid.inputs, now, event.data, exec);
      var scheduled := if fan.failure.None? then AllScheduled(fan.pending, now) else [];
      assert [] + scheduled == scheduled;
      PushedTwice(before.entries, resched, scheduled, before.counter);
    }

    /** The body of `run`'s loop once an event is taken: a generation event
        only generates inputs and records nothing; any other event runs its
        tasks and records a round. */
    method Handle(event: Event, exec: Exec, eval: Evaluator, rng: Rng, show: Show,
                  ghost before: Snapshot, ghost triggers: seq<TriggerState>, ghost generated: Result<Dict>, ghost count0: int)
      returns (stop: Option<Ending>, activated: seq<Task>, ghost fired: seq<bool>)
      requires Valid()
      requires before == Snap() && triggers == StatesOf(component.tasks) && generated == NextInputs(rng, show)
      requires count0 < eventCount
      modifies this, queue, log, component.state, component.currentOutputs, TriggerObjects(component.tasks), GeneratorFootprint()
      ensures Valid()
      ensures eventCount == old(eventCount) && clock.currentTime == old(clock.currentTime)
      ensures stop.None? || (stop.value.Raised? && (stop.value.stage == InputGeneration || stop.value.stage == TaskExecution))
      ensures Grown(old(log.rounds), log.rounds, count0, eventCount)
      ensures event.name == GenerateInputName ==> log.rounds == old(log.rounds)
      ensures event.name != GenerateInputName && stop.Some? ==> log.rounds == old(log.rounds)
      ensures event.name != GenerateInputName && stop.None? ==>
        log.rounds == old(log.rounds) + [RoundRecord(eventCount, RecordInputs(event, initialInputs),
                                                     component.currentOutputs.data, component.state.data, TaskOrder(activated))]
      ensures Handled(event, clock.currentTime, eventCount, exec, eval, generated, before, Snap(),
                      triggers, StatesOf(component.tasks), fired, activated, stop)
      ensures Forward(exec) && old(Ahead()) ==> Ahead()
    {
      activated := [];
      fired := [];
      if event.name == GenerateInputName {
        stop := GenerationStep(rng, show);
        return;
      }
      OnlyTriggers(component.tasks, component.state, component.currentOutputs, clock, queue);
      Apart();
      stop, activated, fired := RunActivated(event, exec, eval);
      if stop.None? {
        GrownOne(before.rounds, event, initialInputs, component.currentOutputs.data, component.state.data, activated, count0, eventCount);
      }
    }

    /** `run`'s handling of a `_generate_input` event: `_generate_input`,
        whose failure ends the run; nothing is recorded and no trigger is
        consulted. */
    method GenerationStep(rng: Rng, show: Show) returns (stop: Option<Ending>)
      requires Valid()
      modifies this, queue, GeneratorFootprint()
      ensures Valid()
      ensures eventCount == old(eventCount)
      ensures stop.None? || (stop.value.Raised? && stop.value.stage == InputGeneration)
      ensures GenerationEvent(old(NextInputs(rng, show)), clock.currentTime, old(Snap()), Snap(), stop)
      ensures StatesOf(component.tasks) == old(StatesOf(component.tasks))
      ensures (inputInterval.Some? ==> inputInterval.value >= 0.0) && old(Ahead()) ==> Ahead()
    {
      OnlyTriggers(component.tasks, component.state, component.currentOutputs, clock, queue);
      Apart();
      var r := GenerateAndEmitInput(rng, show);
      StatesKept(component.tasks);
      if r.Fail? {
        return Some(Raised(r.error, InputGeneration));
      }
      return None;
    }

    /** `Next`, seen from the whole executor: when it ends the iteration it
        does so as `Halted` says; when it takes an event, the queue has
        lost that event and nothing else but the clock and the count moved. */
    method Head(eval: Evaluator, show: Show) returns (stop: Option<Ending>, event: Event)
      requires Valid()
      modifies this`eventCount, queue, clock
      ensures Valid()
      ensures queue.counter == old(queue.counter) && old(clock.currentTime) <= clock.currentTime
      ensures Halted(old(ShouldStop(eval)), old(queue.entries), old(clock.currentTime), old(eventCount), show,
                     old(Snap()), Snap(), clock.currentTime, eventCount, old(StatesOf(component.tasks)), StatesOf(component.tasks), stop)
      ensures old(ShouldStop(eval)) == Ok(false) && old(queue.entries) != [] ==>
        event == old(queue.entries)[MinIndex(old(queue.entries))].event && (old(clock.currentTime) <= event.time ==> stop.None?)
      ensures stop.None? ==>
        old(ShouldStop(eval)) == Ok(false) && old(queue.entries) != [] &&
        var k := MinIndex(old(queue.entries));
        event == old(queue.entries)[k].event && old(clock.currentTime) <= event.time &&
        clock.currentTime == event.time && eventCount == old(eventCount) + 1 &&
        Snap() == old(Snap()).(entries := Remove(old(queue.entries), k)) &&
        StatesOf(component.tasks) == old(StatesOf(component.tasks))
      ensures stop.Some? ==> eventCount == old(eventCount) && log.rounds == old(log.rounds)
      ensures old(ShouldStop(eval)) == Ok(true) <==> stop == Some(Terminated)
      ensures stop == Some(Terminated) ==> ShouldStop(eval) == Ok(true)
      ensures stop.Some? && stop.value.Raised? && stop.value.stage == TerminationCheck ==> ShouldStop(eval) == Err(stop.value.error)
      ensures stop == Some(Drained) ==> queue.entries == []
      ensures stop.None? || stop.value.Terminated? || stop.value.Drained? ||
              (stop.value.Raised? && (stop.value.stage == TerminationCheck || stop.value.stage == ClockAdvance))
      ensures old(Ahead()) ==> Ahead() && !(stop.Some? && stop.value.Raised? && stop.value.stage == ClockAdvance)
    {
      OnlyTriggers(component.tasks, component.state, component.currentOutputs, clock, queue);
      Apart();
      stop, event := Next(eval, show);
      StatesKept(component.tasks);
      SnapKept();
    }

    /** One iteration of `run`'s loop: `Next`, then, when it took an event
        that was not earlier than the clock, that event handled as `Handle`
        says, from the state `Next` left (the queue without the event). */
    method Step(exec: Exec, eval: Evaluator, rng: Rng, show: Show)
      returns (stop: Option<Ending>, event: Event, activated: seq<Task>, ghost fired: seq<bool>)
      requires Valid()
      modifies this, queue, clock, log, component.state, component.currentOutputs, TriggerObjects(component.tasks), GeneratorFootprint()
      ensures Valid()
      ensures Grown(old(log.rounds), log.rounds, old(eventCount), eventCount)
      ensures old(eventCount) <= eventCount && (stop.None? ==> eventCount == old(eventCount) + 1)
      ensures old(clock.currentTime) <= clock.currentTime
      ensures old(ShouldStop(eval)) == Ok(true) <==> stop == Some(Terminated)
      ensures stop == Some(Terminated) ==> ShouldStop(eval) == Ok(true)
      ensures stop.Some? && stop.value.Raised? && stop.value.stage == TerminationCheck ==> ShouldStop(eval) == Err(stop.value.error)
      ensures stop == Some(Drained) ==> queue.entries == []
      ensures stop != Some(FuelOut)
      ensures Halted(old(ShouldStop(eval)), old(queue.entries), old(clock.currentTime), old(eventCount), show,
                     old(Snap()), Snap(), clock.currentTime, eventCount, old(StatesOf(component.tasks)), StatesOf(component.tasks), stop)
      ensures old(ShouldStop(eval)) == Ok(false) && old(queue.entries) != [] ==>
        var k := MinIndex(old(queue.entries));
        event == old(queue.entries)[k].event &&
        (old(clock.currentTime) <= event.time ==>
          var taken := old(Snap()).(entries := Remove(old(queue.entries), k));
          clock.currentTime == event.time && eventCount == old(eventCount) + 1 &&
          Handled(event, event.time, eventCount, exec, eval, old(NextInputs(rng, show)), taken, Snap(),
                  old(StatesOf(component.tasks)), StatesOf(component.tasks), fired, activated, stop))
      ensures Forward(exec) && old(Ahead()) ==> Ahead() && !(stop.Some? && stop.value.Raised? && stop.value.stage == ClockAdvance)
    {
      activated, fired := [], [];
      OnlyTriggers(component.tasks, component.state, component.currentOutputs, clock, queue);
      Apart();
      ghost var before := Snap();
      ghost var inputs := NextInputs(rng, show);
      ghost var triggers := StatesOf(component.tasks);
      ghost var check, entries, time0 := ShouldStop(eval), queue.entries, clock.currentTime;
      stop, event := Head(eval, show);
      if stop.Some? {
        return;
      }
      assert NextInputs(rng, show) == inputs;
      ghost var taken := before.(entries := Remove(entries, MinIndex(entries)));
      stop, activated, fired := Handle(event, exec, eval, rng, show, taken, triggers, inputs, old(eventCount));
      HaltedTaken(check, entries, time0, old(eventCount), show, before, Snap(), clock.currentTime, eventCount, triggers, StatesOf(component.tasks), stop);
    }

    /** The events `run` queues before its loop: a periodic event at time 0
        for every periodic task, then the first generation when a generator
        and an interval are set, then `start` when nothing at all is queued. */
    function Opening(queued: seq<Entry>): (r: seq<Event>)
      ensures AllNotBefore(r, 0.0)
      ensures queued == [] ==> r != []
    {
      PeriodicEventsAtZero(component.tasks);
      var first := StartupEvents();
      first + (if queued == [] && first == [] then [StartEvent] else [])
    }

    /** The periodic events, then the first generation when there is one. */
    function StartupEvents(): seq<Event>
    {
      PeriodicEvents(component.tasks) +
        (if generator.Some? && HasInterval(inputInterval) then [GenerateInputEvent(0.0, 1)] else [])
    }

    /** The first two schedulings at the start of `run`. */
    method ScheduleStartup()
      requires Valid()
      modifies queue
      ensures Valid()
      ensures queue.entries == old(queue.entries) + Pushed(StartupEvents(), old(queue.counter))
      ensures queue.counter == old(queue.counter) + |StartupEvents()|
    {
      ghost var entries0, c0 := queue.entries, queue.counter;
      ghost var periodic := PeriodicEvents(component.tasks);
      SchedulePeriodicTasks();
      ghost var generation: seq<Event> := if generator.Some? && HasInterval(inputInterval) then [GenerateInputEvent(0.0, 1)] else [];
      ScheduleInputGeneration();
      assert queue.entries == entries0 + Pushed(periodic, c0) + Pushed(generation, c0 + |periodic|);
      PushedAppend(periodic, generation, c0);
      assert |Pushed(periodic + generation, c0)| == |periodic + generation|;
    }

    /** The scheduling at the start of `run`. */
    method Open()
      requires Valid()
      modifies queue
      ensures Valid()
      ensures queue.entries == old(queue.entries) + Pushed(Opening(old(queue.entries)), old(queue.counter))
      ensures queue.counter == old(queue.counter) + |Opening(old(queue.entries))|
      ensures clock.currentTime <= 0.0 && old(Ahead()) ==> Ahead()
    {
      ghost var entries0, c0 := queue.entries, queue.counter;
      ScheduleStartup();
      ghost var first := StartupEvents();
      if queue.IsEmpty() {
        queue.Push(StartEvent);
        assert Pushed([StartEvent], c0 + |first|) == [Entry(0.0, 0, c0 + |first|, StartEvent)];
        PushedAppend(first, [StartEvent], c0);
      } else {
        assert first + [] == first;
      }
      if clock.currentTime <= 0.0 && NotBefore(entries0, clock.currentTime) {
        PushedNotBefore(entries0, Opening(entries0), c0, clock.currentTime);
      }
    }

    /** `run`, for at most `fuel` iterations of its loop, ending as the loop
        ends: the condition holds, the queue ran dry, something raised (with
        the stage it raised in), or the fuel ran out.  Every round recorded
        is numbered by an event count above the one the run started from,
        in increasing order; the clock never goes back, and it is never asked
        to when no delay or interval is negative. */
    method Run(fuel: nat, exec: Exec, eval: Evaluator, rng: Rng, show: Show) returns (r: Ending)
      requires Valid()
      modifies this, queue, clock, log, component.state, component.currentOutputs, TriggerObjects(component.tasks), GeneratorFootprint()
      ensures Valid()
      ensures Grown(old(log.rounds), log.rounds, old(eventCount), eventCount)
      ensures old(clock.currentTime) <= clock.currentTime
      ensures r == Terminated ==> ShouldStop(eval) == Ok(true)
      ensures r.Raised? && r.stage == TerminationCheck ==> ShouldStop(eval) == Err(r.error)
      ensures r == Drained ==> queue.entries == []
      ensures r == FuelOut ==> eventCount == old(eventCount) + fuel
      ensures Forward(exec) && old(clock.currentTime) <= 0.0 && old(Ahead()) ==> !(r.Raised? && r.stage == ClockAdvance)
    {
      Open();
      var i := 0;
      while i < fuel
        invariant Valid() && i <= fuel
        invariant eventCount == old(eventCount) + i
        invariant Grown(old(log.rounds), log.rounds, old(eventCount), eventCount)
        invariant old(clock.currentTime) <= clock.currentTime
        invariant Forward(exec) && old(clock.currentTime) <= 0.0 && old(Ahead()) ==> Ahead()
      {
        ghost var rounds, count := log.rounds, eventCount;
        var stop, event, activated, fired := Step(exec, eval, rng, show);
        GrownTrans(old(log.rounds), rounds, log.rounds, old(eventCount), count, eventCount);
        if stop.Some? {
          return stop.value;
        }
        i := i + 1;
      }
      r := FuelOut;
    }
}

  /** `EventDrivenExecutor.__init__`: anything but an asynchronous component
      is refused with a ComponentError; no termination condition means
      "stop when the queue is empty", and no initial inputs means none. */
  method NewEventDrivenExecutor(component: Component, generator: Option<InputSource>, termination: Option<Condition>,
                                inputEventName: string, inputInterval: Option<real>, initialInputs: Option<Dict>)
    returns (r: Result<EventDrivenExecutor>)
    requires component.Valid() && SeparateTriggers(component.tasks)
    ensures r.Err? <==> component.kind != Asynchronous
    ensures r.Err? ==> r.error == NotAsynchronous
    ensures r.Ok? ==>
      var x := r.value;
      fresh(x) && fresh(x.queue) && fresh(x.clock) && fresh(x.log) &&
      x.component == component && x.generator == generator &&
      x.termination == (if termination.Some? then termination.value else EmptyQueue) &&
      x.inputEventName == inputEventName && x.inputInterval == inputInterval &&
      x.initialInputs == (if initialInputs.Some? then initialInputs.value else map[]) &&
      x.eventCount == 0 && x.inputRound == 0 &&
      x.queue.entries == [] && x.clock.currentTime == 0.0 && x.log.rounds == [] &&
      x.Valid() && x.Ahead()
  {
    if component.kind != Asynchronous {
      return Err(NotAsynchronous);
    }
    var x := new EventDrivenExecutor(component, generator, if termination.Some? then termination.value else EmptyQueue,
                                     inputEventName, inputInterval, if initialInputs.Some? then initialInputs.value else map[]);
    r := Ok(x);
  }
}
