# Modeling Tool core, in Dafny

A model of the execution engine of the Modeling Tool (`src/modeling_tool`).
The tool runs *components* described in a YAML file. A component has
state, declared inputs and outputs, and tasks whose bodies are Python code.
It is run in one of two ways:

- a **synchronous** component runs every task once per round, in
  dependency order;
- an **asynchronous** component's tasks are activated by triggers while
  an event-driven executor processes a time-ordered event queue.

One Dafny module per source file:

| module (file) | models |
|---|---|
| `Values` (values.dfy) | the loaded YAML/JSON value, Python errors as (kind, message), `Option`/`Result`, and Python's `strip`, `lower`, `split` and `int()` on text |
| `SimulationClock` (simulation_time.py) | the monotone simulation clock, as a class |
| `Events` (event.py) | event records, their ordering on (time, priority), and the emitter buffer, as a class |
| `EventQueues` (event_queue.py) | the priority queue keyed by (time, priority, push counter), as a class over the sequence of held entries |
| `Triggers` (trigger.py) | the four trigger classes and their state machines |
| `Termination` (termination.py) | the six termination conditions, as a datatype with a `ShouldTerminate` function |
| `Tasks` (task.py) | `DictWrapper` and `TaskContext` over shared dictionary objects, and tasks with `Execute` |
| `TaskGraphs`, `DependencyGraphs`, `CycleDetection`, `ExecutionOrder` (component.py) | the dependency graph of a component's tasks, the depth-first cycle check, and Kahn's ordering |
| `TaskRuns`, `Components` (component.py) | component construction and validation, and the synchronous and asynchronous rounds |
| `ExecutionLogs` (execution_log.py) | round records and the append-only log |
| `InputGenerators` (input_generator.py) | the fixed and the random input generators |
| `Executors` (executor.py) | the round-based executor |
| `EventExecutors` (event_executor.py) | the event-driven executor |
| `Parser` (parser.py) | `ComponentParser.parse_dict` over an already-loaded value |
| `Cli` (cli.py) | the two option-string parsers and the choice of termination condition |

Things the source does through the Python runtime are parameters of the
model:

- `exec`, `eval` and `compile` of task bodies, trigger conditions and
  termination conditions are functions that may fail;
- Python's `float()` on text is a partial function;
- the random number generator is a sequence of draws;
- the text Python prints for a value inside an error message is a
  function.

Each operation is proved against a specification function or against the
state it leaves. The main results are:

- a component is accepted exactly when every dependency names a task and
  the dependency graph has no cycle (self-loops included);
- the depth-first search reports a cycle exactly when there is one;
- Kahn's ordering succeeds exactly when the task names are distinct and
  the graph has no cycle; for an accepted component with distinct names
  it is the source's first-in-first-out order, a permutation of the
  tasks in which every task comes after its dependencies (an accepted
  component may repeat a name, and its ordering then always fails: see
  "## Findings");
- the queue pops the entry with the least (time, priority, counter), so
  equal keys leave in push order;
- each trigger's activation rule is stated as a function of the events
  and times it has seen;
- with non-negative delays and input interval, no queued event lies
  before the clock, so the clock never goes back;
- the log grows by at most one record per round or per processed event:
  none for a failing round or event and none for an input-generation
  event;
- the parsers report the errors Python reports, except where "## Left
  out" says otherwise.

Several error paths of the source name something that does not exist.
The model returns the exception Python raises there, not the one the
author meant:

- a misspelt `ValdiationError` or `ComponentParse` gives a NameError;
- the `{trigger-type}` in a message gives a NameError for `trigger`;
- `ConditionTrigger(condition=...)` gives a TypeError, because the
  parameter is called `condition_code`;
- `MaxEventCondition` in `main` gives a NameError;
- the asynchronous component's `execute_round` uses `CompnonentError` and
  `ordered_task`, so it always raises NameError.

The round executor calls that asynchronous round for an asynchronous
component. Those calls therefore fail in the model just as they do in the
source.

## Model

| member | source | states |
|---|---|---|
| SimulationClock.SimulationTime.constructor | src/modeling_tool/simulation_time.py:4-6 | the current and start times are both the initial time, so the elapsed time is zero |
| SimulationClock.SimulationTime.AdvanceTo | src/modeling_tool/simulation_time.py:8-11 | raises the "Cannot move time backwards" ValueError exactly when the new time lies before the current one, and then leaves the clock alone; otherwise the clock reads the new time; the clock never goes back and the start time never moves |
| SimulationClock.SimulationTime.AdvanceBy | src/modeling_tool/simulation_time.py:13-16 | raises the negative-time ValueError exactly when the delta is negative, changing nothing; otherwise adds the delta; the clock never goes back |
| SimulationClock.SimulationTime.Elapsed | src/modeling_tool/simulation_time.py:18-19 | start time plus elapsed time is the current time; the elapsed time is non-negative exactly when the clock has not been set before its start |
| SimulationClock.SimulationTime.Reset | src/modeling_tool/simulation_time.py:21-23 | as written: the current time becomes the argument and the start time is unchanged (the subtraction on line 23 is discarded) |
| SimulationClock.SimulationTime.ResetCorrected | src/modeling_tool/simulation_time.py:21-23 | as intended: both times become the argument, so the elapsed time is zero again |
| SimulationClock.ResetCounterexample | src/modeling_tool/simulation_time.py:21-23 | a clock started at 3.0 and reset to 0.0 reports -3.0 elapsed as written, 0.0 as intended |
| Events.NewEvent | src/modeling_tool/event.py:6-12 | the event record with the dataclass defaults: priority 0, empty data and no source task |
| Events.BeforeTrichotomy | src/modeling_tool/event.py:6-12 | the dataclass ordering on (time, priority) is a strict total order up to ties: exactly one of before, after or same key holds |
| Events.BeforeTransitive | src/modeling_tool/event.py:6-12 | the event ordering is transitive |
| Events.OrderIgnoresPayload | src/modeling_tool/event.py:6-12 | name, data and source task take no part in comparisons (`compare=False`) |
| Events.WrapData | src/modeling_tool/event.py:21-22 | the event data has a "value" key exactly when the emitted data is not None |
| Events.WrapRoundTrip | src/modeling_tool/event.py:21-22 | reading "value" back out of the wrapped data gives the emitted data, None included |
| Events.EventEmitter.constructor | src/modeling_tool/event.py:17-19 | a new emitter has no pending events |
| Events.EventEmitter.Emit | src/modeling_tool/event.py:21-23 | appends one pending event with the given name, the wrapped data, delay and priority, and nothing else changes |
| Events.EventEmitter.GetPendingEvents | src/modeling_tool/event.py:25-28 | returns the pending events in emission order and leaves the emitter empty |
| Events.EmitThenDrain | src/modeling_tool/event.py:21-28 | after a series of emits one drain returns one record per call, in call order, and a second drain returns nothing |
| EventQueues.MinIndex | src/modeling_tool/event_queue.py:17-22 | picks an entry of the heap with no smaller (time, priority, counter) key: the entry `heappop` removes |
| EventQueues.Remove | src/modeling_tool/event_queue.py:17-22 | removes exactly that one entry: the rest is the same multiset, one shorter |
| EventQueues.MinStrict | src/modeling_tool/event_queue.py:13-15 | with distinct push counters the popped entry is strictly before every other entry |
| EventQueues.TiesInPushOrder | src/modeling_tool/event_queue.py:13-15 | of two events with the same time and priority, the one pushed later is not popped first |
| EventQueues.PushedAppend | src/modeling_tool/event_queue.py:13-15 | pushing two batches numbers the second batch after the first |
| EventQueues.PopEarliest | src/modeling_tool/event_queue.py:17-22 | if no entry lies before time t, the popped event is not before t and no remaining entry lies before it |
| EventQueues.EventQueue.constructor | src/modeling_tool/event_queue.py:9-11 | an empty heap with counter zero |
| EventQueues.EventQueue.Push | src/modeling_tool/event_queue.py:13-15 | adds one entry keyed (time, priority, counter) holding the event, and bumps the counter; the counters stay distinct and below the counter |
| EventQueues.EventQueue.Pop | src/modeling_tool/event_queue.py:17-22 | None on an empty heap, with nothing changed; otherwise returns the least entry's event and removes exactly that entry |
| EventQueues.EventQueue.Peek | src/modeling_tool/event_queue.py:24-28 | None exactly when the heap is empty; otherwise the event of an entry that no other entry precedes in (time, priority, counter) order |
| EventQueues.EventQueue.IsEmpty | src/modeling_tool/event_queue.py:30-31 | true exactly when the size (`len`, and the method named `self`) is zero |
| EventQueues.EventQueue.Size | src/modeling_tool/event_queue.py:40-41 | `__len__`: the number of entries held |
| EventQueues.EventQueue.Clear | src/modeling_tool/event_queue.py:36-38 | empties the heap and resets the counter |
| EventQueues.PushOrderKept | src/modeling_tool/event_queue.py:13-28 | two events with equal keys come back out in push order, peek agrees with pop, and the heap ends empty |
| EventQueues.SizeChanges | src/modeling_tool/event_queue.py:13-22 | a push adds one to the size and a pop takes it back |
| Triggers.Activate | src/modeling_tool/trigger.py:17-61 | one `should_activate` call keeps the trigger's kind and configuration: a periodic trigger keeps its interval, an event trigger is untouched, a condition trigger keeps its code |
| Triggers.NextTimeAfterFiring | src/modeling_tool/trigger.py:17-24 | after a periodic trigger fires at time t, `get_next_time` is t plus the interval |
| Triggers.Run | src/modeling_tool/trigger.py:12-61 | asking a trigger about n observations in turn gives n answers |
| Triggers.RunPrefix | src/modeling_tool/trigger.py:12-61 | a trigger's first k answers do not depend on later observations |
| Triggers.RunAt | src/modeling_tool/trigger.py:12-61 | the k-th answer is one `should_activate` step from the state the first k observations left |
| Triggers.ImmediateSilentAfterRun | src/modeling_tool/trigger.py:57-61 | an immediate trigger that has run answers false forever and stays run |
| Triggers.ImmediateFiresOnce | src/modeling_tool/trigger.py:52-61 | a fresh immediate trigger fires on the first observation, whatever its event, and never again |
| Triggers.EventFiresOnName | src/modeling_tool/trigger.py:26-32 | an event trigger never changes and fires exactly on the observations whose event name equals its configured name |
| Triggers.LastTrueBefore | src/modeling_tool/trigger.py:17-21 | finds the last firing before a position, or reports that there was none |
| Triggers.PeriodicRunState | src/modeling_tool/trigger.py:12-21 | after a run, `last_execution` is the time of the last firing, or -inf when it never fired |
| Triggers.PeriodicFiresWhenDue | src/modeling_tool/trigger.py:12-21 | a fresh periodic trigger fires exactly when it never fired before or at least the interval has passed since its last firing; so the first call always fires |
| Triggers.Evaluations | src/modeling_tool/trigger.py:41-44 | the outcome of evaluating the condition against each observation's state and time |
| Triggers.ConditionRunState | src/modeling_tool/trigger.py:34-50 | after a run, `was_true` is the value of the last evaluation that did not raise, or false |
| Triggers.ConditionFiresOnRisingEdge | src/modeling_tool/trigger.py:34-50 | a fresh condition trigger fires exactly when the condition evaluates to true and the last evaluation that did not raise was false: a rising edge, with raising evaluations skipped |
| Triggers.PeriodicTrigger.constructor | src/modeling_tool/trigger.py:13-15 | keeps the interval; `last_execution` starts at -inf |
| Triggers.PeriodicTrigger.ShouldActivate | src/modeling_tool/trigger.py:17-21 | the answer and the new `last_execution` are one periodic step |
| Triggers.PeriodicTrigger.GetNextTime | src/modeling_tool/trigger.py:23-24 | `last_execution` plus the interval, whatever the argument |
| Triggers.EventTrigger.constructor | src/modeling_tool/trigger.py:28-29 | keeps the configured event name |
| Triggers.EventTrigger.ShouldActivate | src/modeling_tool/trigger.py:31-32 | fires exactly when the event's name equals the configured name, whatever the state and time |
| Triggers.ConditionTrigger.constructor | src/modeling_tool/trigger.py:36-39 | keeps the condition code; `was_true` starts false |
| Triggers.ConditionTrigger.ShouldActivate | src/modeling_tool/trigger.py:41-50 | the answer and the new `was_true` are one condition step on the evaluation's outcome |
| Triggers.NewConditionTrigger | src/modeling_tool/trigger.py:36-39 | fails with the SyntaxError exactly when the condition does not compile; otherwise a fresh trigger with `was_true` false |
| Triggers.ImmediateTrigger.constructor | src/modeling_tool/trigger.py:54-55 | `has_run` starts false |
| Triggers.ImmediateTrigger.ShouldActivate | src/modeling_tool/trigger.py:57-61 | the answer and the new `has_run` are one immediate step |
| Triggers.TriggerRef.ShouldActivate | src/modeling_tool/trigger.py:6-10 | dispatching on the trigger's class takes exactly one `Activate` step on its state |
| Termination.ShouldTerminate | src/modeling_tool/termination.py:17-73 | each condition's `should_terminate`: the round bound, the state condition (false at round 0, an evaluation error raised as the RuntimeError), `any` over the children, the time and event limits and the empty queue, given the clock, count and queue the caller passes |
| Termination.NewMaxRounds | src/modeling_tool/termination.py:12-15 | succeeds exactly for a positive bound, else the "max_rounds must be positive" ValueError |
| Termination.NewStateCondition | src/modeling_tool/termination.py:21-23 | fails with the SyntaxError exactly when the condition code does not compile |
| Termination.NewComposite | src/modeling_tool/termination.py:37-40 | succeeds exactly for a non-empty list, else the "Must provide at least one condition" ValueError; the composite is well formed exactly when its children are |
| Termination.NewMaxTime | src/modeling_tool/termination.py:47-50 | succeeds exactly for a positive limit, else the "max_time must be positive" ValueError |
| Termination.NewMaxEvents | src/modeling_tool/termination.py:60-63 | succeeds exactly for a positive limit, else the "max_events must be positive" ValueError |
| Termination.AnyFromMeaning | src/modeling_tool/termination.py:42-44 | `any` over the children from a position on is False when all of them answer False, and otherwise the answer (True or the raised error) of the first child that does not answer False |
| Termination.CompositeFirstDecisive | src/modeling_tool/termination.py:42-44 | a composite answers as its first child that does not say False, and False when all say False: evaluation is short-circuit and an error of a child propagates |
| Termination.CompositeAny | src/modeling_tool/termination.py:42-44 | when no child raises, a composite terminates exactly when some child does |
| Termination.StateConditionWaits | src/modeling_tool/termination.py:25-27 | a state condition never stops the run at round zero, whatever the state |
| Termination.CountingSucceeds | src/modeling_tool/termination.py:11-66 | round, time and event-count conditions, and composites of them, never raise |
| Termination.CountingStaysDone | src/modeling_tool/termination.py:11-66 | once such a condition says stop it keeps saying so as the round number, the clock (`current_time`, default 0.0) and the event count (`event_count`, default 0) grow, whatever the state |
| Tasks.DictWrapper.constructor | src/modeling_tool/task.py:13-14 | the wrapper wraps the given dict object itself, with no private attributes |
| Tasks.DictWrapper.GetAttr | src/modeling_tool/task.py:16-22 | an ordinary name is found exactly when it is a key of the wrapped dict, and then gives that entry, otherwise the "'DictWrapper' object has no attribute" AttributeError; underscore names read the wrapper's own attributes; `_data` always succeeds |
| Tasks.DictWrapper.SetAttr | src/modeling_tool/task.py:24-28 | an ordinary name is written into the wrapped dict object itself, so the caller's dict sees it; underscore names set the wrapper's own attributes and leave the dict alone; rebinding `_data` rewires the wrapper; a later read of the name gives the written value |
| Tasks.TaskContext.constructor | src/modeling_tool/task.py:39-50 | holds the three given dict objects by reference |
| Tasks.Task.Execute | src/modeling_tool/task.py:80-109 | the context's dicts end as the body left them, changes made before an exception included; it fails exactly when the body raised, with the "Error executing task" TaskError naming the task and quoting the exception |
| Tasks.NewTask | src/modeling_tool/task.py:61-78 | fails exactly when the code does not compile, with the "Syntax error in task" TaskError; otherwise keeps name and code, and a missing dependency list becomes the empty list |
| DependencyGraphs.RankedAcyclic | src/modeling_tool/component.py:42-67 | a graph whose nodes can be listed with every dependency before its dependents has no cycle |
| DependencyGraphs.CycleOutsideRanked | src/modeling_tool/component.py:42-67 | no node of a dependency cycle can occur in such a listing |
| DependencyGraphs.StuckSetHasCycle | src/modeling_tool/component.py:42-67 | a non-empty set of nodes in which every node depends on another node of the set contains a cycle |
| DependencyGraphs.Pigeonhole | src/modeling_tool/component.py:42-67 | a walk longer than the set of nodes it stays inside repeats a node |
| DependencyGraphs.RankedSnoc | src/modeling_tool/component.py:83-90 | a node whose dependencies are all listed may be appended to a dependencies-first listing |
| TaskGraphs.Names | src/modeling_tool/component.py:30 | the task names, one per task and in declaration order |
| TaskGraphs.NameSetNames | src/modeling_tool/component.py:30 | `{task.name for task in tasks}` holds exactly the names of the task list |
| TaskGraphs.KeyOrder | src/modeling_tool/component.py:70-80 | the keys of a dict built from the tasks in insertion order: each name once; all the names exactly when they are distinct, and fewer keys than tasks otherwise |
| TaskGraphs.DepGraph | src/modeling_tool/component.py:43 | the graph is keyed by exactly the task names |
| TaskGraphs.DepGraphEntry | src/modeling_tool/component.py:43 | each name's entry is the dependency list of the last task with that name |
| TaskGraphs.DepGraphUnique | src/modeling_tool/component.py:43 | with distinct names each task's entry is its own dependency list |
| TaskGraphs.TaskMap | src/modeling_tool/component.py:70 | `{task.name: task}` is keyed by exactly the task names and each entry carries its key as name |
| TaskGraphs.TaskMapEntry | src/modeling_tool/component.py:70 | each name's entry is the last task with that name |
| TaskGraphs.TaskMapUnique | src/modeling_tool/component.py:70 | with distinct names each task is its own name's entry |
| TaskGraphs.TaskMapDeps | src/modeling_tool/component.py:43-70 | the task a name maps to has that name's dependency-graph entry as its dependency list |
| TaskGraphs.ArcAt | src/modeling_tool/component.py:74-77 | the count loop meets dependency j of task i right after the dependencies of the tasks before i |
| TaskGraphs.ArcSource | src/modeling_tool/component.py:74-77 | every arc the count loop meets comes from a dependency some task declares |
| TaskGraphs.ArcOfDependency | src/modeling_tool/component.py:74-77 | every declared dependency gives an arc |
| TaskGraphs.PendingStep | src/modeling_tool/component.py:87-90 | finishing a name lowers each count by the number of times the name's dependents list holds it |
| TaskGraphs.IndependentIffNoArcs | src/modeling_tool/component.py:71-80 | before the loop a name has count zero exactly when no task of that name declares a dependency |
| TaskGraphs.IndependentNames | src/modeling_tool/component.py:80 | picks exactly the names, in list order, whose tasks declare no dependency, without repeats |
| CycleDetection.SearchPush | src/modeling_tool/component.py:48-50 | entering an unvisited node keeps the search invariant |
| CycleDetection.SearchPop | src/modeling_tool/component.py:59-60 | leaving a node all of whose dependencies are finished keeps the search invariant and lists the node as finished |
| CycleDetection.SearchComplete | src/modeling_tool/component.py:62-67 | a search that visited every key and ended with an empty stack shows the graph has no cycle |
| CycleDetection.CycleThroughStack | src/modeling_tool/component.py:56-57 | an edge from the top of the search stack to a node on the stack closes a cycle |
| CycleDetection.CycleDetector.constructor | src/modeling_tool/component.py:43-46 | nothing visited, empty stack, and the universe of every node the search can reach |
| CycleDetection.CycleDetector.Dfs | src/modeling_tool/component.py:48-60 | true only when the graph has a cycle; false leaves the stack and `rec_stack` as they were, with the node and everything searched before it visited |
| CycleDetection.CycleDetector.VisitSuccessors | src/modeling_tool/component.py:52-57 | true only when the graph has a cycle; false means every dependency of the node is visited and off the stack |
| CycleDetection.CycleDetector.Leave | src/modeling_tool/component.py:59-60 | takes the node off `rec_stack` and the search stack, keeping the invariant |
| CycleDetection.CycleDetector.Visit | src/modeling_tool/component.py:53-57 | one turn of the neighbour loop: true only when the graph has a cycle; false means the neighbour is visited and off the stack |
| CycleDetection.HasCircularDependencies | src/modeling_tool/component.py:42-67 | true exactly when the dependency graph of the tasks has a cycle |
| ExecutionOrder.AdjacencyMeaning | src/modeling_tool/component.py:72-76 | after k arcs, `adjacency` is keyed by the task names and lists exactly those arcs' dependents |
| ExecutionOrder.InDegreeMeaning | src/modeling_tool/component.py:71-77 | after k arcs, `in_degree` is keyed by the task names and counts the arcs met into each name |
| ExecutionOrder.CountDependencies | src/modeling_tool/component.py:75-77 | one task's turn of the count loop either raises the KeyError of its first unknown dependency or adds the arcs of its dependencies |
| ExecutionOrder.BuildArcCounts | src/modeling_tool/component.py:70-77 | raises the KeyError for the first unknown dependency in declaration order; otherwise builds both dicts in full |
| ExecutionOrder.ZeroDegree | src/modeling_tool/component.py:80 | keeps exactly the keys whose count is zero, in key order and without repeats |
| ExecutionOrder.ZeroDegreeIndependent | src/modeling_tool/component.py:71-80 | over the counts the loop leaves, the zero-count names are exactly the tasks that declare no dependency |
| ExecutionOrder.KahnStuck | src/modeling_tool/component.py:83-92 | with distinct names, the names never taken each wait on another name never taken |
| ExecutionOrder.KahnTookAll | src/modeling_tool/component.py:92-93 | taking as many names as there are tasks means the names are distinct and there is no cycle |
| ExecutionOrder.KahnTakesAll | src/modeling_tool/component.py:83-92 | with distinct names and no cycle the loop takes every task |
| ExecutionOrder.KahnComplete | src/modeling_tool/component.py:83-93 | once the queue is empty, every task was taken exactly when the names are distinct and there is no cycle |
| ExecutionOrder.KahnOrdered | src/modeling_tool/component.py:83-90 | the tasks appended list every dependency before its dependents |
| ExecutionOrder.KahnPermutation | src/modeling_tool/component.py:83-93 | when every task was taken the ordered list is a permutation of the tasks |
| ExecutionOrder.Release | src/modeling_tool/component.py:87-90 | the inner loop as a function: the queue keeps its old contents in front, every key keeps its count entry, and what is appended are dependents whose count reached zero, in adjacency order |
| ExecutionOrder.Turn | src/modeling_tool/component.py:84-90 | one turn of `while queue` as a function: the head is taken and its task appended, its dependents released, and the dicts and queue stay consistent |
| ExecutionOrder.KahnRun | src/modeling_tool/component.py:83-90 | the loop as a function: turns until the queue is empty or the turns allowed are used up |
| ExecutionOrder.KahnOrder | src/modeling_tool/component.py:69-90 | the order `get_task_execution_order` builds: the loop from the zero-count names in key order and the dicts the count loop leaves, one turn per task |
| ExecutionOrder.ReleaseDependents | src/modeling_tool/component.py:87-90 | lowers the count of each dependent of the taken name in adjacency order and appends to the end of the queue exactly those reaching zero, in that order (`Release`); counts and queue stay consistent |
| ExecutionOrder.KahnStep | src/modeling_tool/component.py:84-90 | one turn is `Turn`: the head of the queue is taken, its task appended, and its dependents released to the end of the queue; the loop invariant holds with one more name taken |
| ExecutionOrder.KahnLoop | src/modeling_tool/component.py:83-90 | the loop runs until the queue is empty and ends where `KahnRun`, first in first out, ends after one turn per task |
| ExecutionOrder.Kahn | src/modeling_tool/component.py:79-95 | the result is `KahnOrder`, the FIFO order, when it holds every task, else "Failed to order tasks"; that happens exactly when the names are distinct and there is no cycle; the result is a permutation of the tasks, every dependency first, starting with the tasks that declare none |
| ExecutionOrder.GetTaskExecutionOrder | src/modeling_tool/component.py:69-95 | an unknown dependency raises the KeyError of the first one; otherwise as Kahn: the FIFO order `KahnOrder` or "Failed to order tasks" |
| ExecutionOrder.FifoExample | src/modeling_tool/component.py:79-90 | for x, then y and z both depending on x, the order is exactly x, y, z: dependents are queued in declaration order and taken first in, first out |
| TaskRuns.RunTasks | src/modeling_tool/component.py:133-135 | the task loop as a function: each task's body runs on the dicts the previous one left, and the first raise stops the loop with its TaskError |
| TaskRuns.RunTasksDicts | src/modeling_tool/component.py:133-135 | a run leaves the dicts as the tasks it started left them |
| TaskRuns.RunTasksStops | src/modeling_tool/component.py:133-135 | tasks run in order and the run stops right after the first task that raises, with that task's TaskError; without a raise every task runs once |
| Components.ValidateTasks | src/modeling_tool/component.py:29-40 | passes exactly when every dependency names a task and there is no cycle; reports the first unknown dependency in declaration order, then a cycle |
| Components.CheckInputs | src/modeling_tool/component.py:121-125 | passes exactly when every declared input is given, else reports the first missing one |
| Components.RunInOrder | src/modeling_tool/component.py:134-135 | runs the tasks in order on the shared dicts, in place, and stops at the first failure, as the task-run function says |
| Components.Component.constructor | src/modeling_tool/component.py:11-27 | a fresh copy of the state and one output dict with every declared output set to None |
| Components.Component.ExecuteRound | src/modeling_tool/component.py:120-138 | a missing input fails before anything changes; duplicate names fail the ordering; otherwise the tasks run once each in the order `KahnOrder` computes (a permutation, every dependency first) on the given inputs and the component's outputs and state, and the round returns the outputs or the first task's TaskError |
| Components.Component.AsyncExecuteRound | src/modeling_tool/component.py:155-166 | as written every round raises: a NameError for the misspelt exception class when an input is missing, the ordering error if the ordering fails, and otherwise a NameError for the misspelt `ordered_task` |
| Components.NewComponent | src/modeling_tool/component.py:11-40 | succeeds exactly when the tasks pass validation, raising its errors otherwise; the new component copies the state and sets every output to None |
| Components.DuplicateNamesAccepted | src/modeling_tool/component.py:29-40 | as written: two tasks both named "a" are accepted by the constructor, and ordering them fails with "Failed to order tasks" |
| Components.NewComponentDistinct | src/modeling_tool/component.py:29-40 | as intended: repeated names are rejected too, so a component is built exactly when its names are distinct, its dependencies known and acyclic, and then its FIFO order holds every task, dependencies first |
| ExecutionLogs.StrList | src/modeling_tool/executor.py:36 | the recorded task order as a list of strings, one per name and in order |
| ExecutionLogs.ToDict | src/modeling_tool/execution_log.py:15-19 | the dict always has the round, inputs, outputs and state keys, has `task_order` exactly when the order was recorded, and has no other key |
| ExecutionLogs.StrItems | src/modeling_tool/execution_log.py:15-19 | reading a list of strings back gives names whose string list is that list |
| ExecutionLogs.StrItemsOfStrList | src/modeling_tool/execution_log.py:15-19 | a list of names written as strings reads back as the same names |
| ExecutionLogs.ToDictRoundTrip | src/modeling_tool/execution_log.py:15-19 | `to_dict` loses nothing: the record reads back from the dict |
| ExecutionLogs.FirstRound | src/modeling_tool/execution_log.py:32-36 | None exactly when no record has that round number; otherwise the earliest record with that number |
| ExecutionLogs.NumberedLookup | src/modeling_tool/execution_log.py:32-36 | in a log numbered 1, 2, ... in order, as the round executor writes it, round n is the n-th record |
| ExecutionLogs.ExecutionLog.constructor | src/modeling_tool/execution_log.py:25-26 | a new log has no rounds |
| ExecutionLogs.ExecutionLog.AddRound | src/modeling_tool/execution_log.py:28-30 | appends exactly one record with the given fields and keeps the earlier ones; the length grows by one |
| ExecutionLogs.ExecutionLog.GetRound | src/modeling_tool/execution_log.py:32-36 | the linear search returns the first record with the round number, or None |
| ExecutionLogs.ExecutionLog.Length | src/modeling_tool/execution_log.py:66-67 | `__len__`: the number of records |
| InputGenerators.FixedGenerate | src/modeling_tool/input_generator.py:144-154 | a round past the end raises "No input defined for round"; rounds 1 to n get element round-1; a round of 0 or below indexes from the end as Python lists do, or raises IndexError |
| InputGenerators.FixedCoversRounds | src/modeling_tool/input_generator.py:151-154 | a round from 1 on succeeds exactly when it is at most the length of the sequence |
| InputGenerators.DrawDefaults | src/modeling_tool/input_generator.py:106-127 | the type defaults to int, drawn from 0 to 100 unless bounds are given; a str spec without choices picks from a, b, c; a spec fails exactly when its type is not one of int, float, bool and str, with "Unknown input type" |
| InputGenerators.GenerateKeys | src/modeling_tool/input_generator.py:100-129 | a successful generation has exactly the requested names as keys and makes one draw per name |
| InputGenerators.GenerateErrors | src/modeling_tool/input_generator.py:102-127 | a name without a specification, or with an unknown type, makes generation fail; when no draw raises, the error is the one for the first such name, and generation succeeds when there is none |
| InputGenerators.RandomInputGenerator.constructor | src/modeling_tool/input_generator.py:77-91 | keeps the specifications; a freshly seeded generator has made no draws |
| InputGenerators.RandomInputGenerator.Generate | src/modeling_tool/input_generator.py:93-129 | the loop's result and the generator's draw count are those of the generation function |
| InputGenerators.Generate | src/modeling_tool/input_generator.py:14-31 | dispatches to the fixed or the random generator: the result is the one expected for the generator's state, and only a random generator's draw count moves |
| Executors.MaxRoundsCount | src/modeling_tool/executor.py:30-31 | a max-rounds condition that was false at every check before and true now lets exactly n rounds run (none for n not positive) |
| Executors.MaxRoundsBound | src/modeling_tool/executor.py:30-31 | rounds only start while a max-rounds condition is false, so at most n start |
| Executors.NumberedChecked | src/modeling_tool/executor.py:30 | a log numbered so far and checks that were all false describe a run that may be stopped here |
| Executors.NumberedNext | src/modeling_tool/executor.py:31-42 | appending the next record keeps the log numbered 1, 2, ... with each record holding the state the next check sees |
| Executors.Executor.constructor | src/modeling_tool/executor.py:11-24 | keeps component, generator, condition and tracking flag; a fresh empty log at round 0 |
| Executors.Executor.RunRound | src/modeling_tool/executor.py:38-42 | runs the component's round by kind, in the order `KahnOrder` computes; an exception becomes the "Error in round" ComponentError and nothing is logged; otherwise exactly one record is appended holding the inputs as the tasks left them, the outputs, the state and the tracked order |
| Executors.Executor.Round | src/modeling_tool/executor.py:31-42 | the round number goes up first; a generator failure or a failed tracked ordering is raised as it is; otherwise as RunRound, for the inputs the generator owes this round, and the logged task order is the order the tasks ran in |
| Executors.Executor.Advance | src/modeling_tool/executor.py:31-42 | one round: nothing logged on failure, one record numbered with the round on success |
| Executors.Executor.Step | src/modeling_tool/executor.py:30-42 | one pass of the loop: the check with the current round and live state; a raise or a true check stops the run, otherwise a round follows |
| Executors.Executor.Run | src/modeling_tool/executor.py:26-44 | starts over at round 0 with a fresh log; every check but the last was false and each one saw the state the round before left; records are numbered 1, 2, ...; a true check ends it, a raise in the check or the round is propagated; under a max-rounds condition exactly that many rounds are logged |
| Executors.Executor.Reset | src/modeling_tool/executor.py:45-47 | back to round 0 with a fresh empty log |
| EventExecutors.PeriodicEventsMeaning | src/modeling_tool/event_executor.py:84-92 | each task with a periodic trigger gets a `periodic_<name>` event, and every event pushed there is one of those |
| EventExecutors.PeriodicEventsAtZero | src/modeling_tool/event_executor.py:84-92 | every periodic event scheduled at the start is at time 0 |
| EventExecutors.AllScheduledNotBefore | src/modeling_tool/event_executor.py:221-234 | with non-negative delays no emitted event is scheduled before the current time |
| EventExecutors.PushedNotBefore | src/modeling_tool/event_executor.py:221-234 | pushing events none of which is before t keeps the whole queue at or after t |
| EventExecutors.ScheduledNotBefore | src/modeling_tool/event_executor.py:221-234 | scheduling records with non-negative delays keeps every queued event at or after the current time |
| EventExecutors.FanOutFacts | src/modeling_tool/event_executor.py:196-219 | running several tasks keeps the first failure once one has occurred, keeps only non-empty emission lists (`if pending_events`) in task order, and keeps delays non-negative when every body's are |
| EventExecutors.SelectedMeaning | src/modeling_tool/event_executor.py:147-180 | a task runs exactly when its trigger fired and its condition admits it (a missing or falsy condition always does; a raising one counts as false), and the activated tasks keep declaration order |
| EventExecutors.ReschedulesNotBefore | src/modeling_tool/event_executor.py:158-165 | with non-negative intervals no periodic reschedule lands in the past |
| EventExecutors.StatesOf | src/modeling_tool/event_executor.py:148-156 | one trigger state per task, the state of the task's own trigger |
| EventExecutors.OnlyTriggers | src/modeling_tool/event_executor.py:148-156 | consulting triggers cannot touch the state, the outputs, the clock or the queue |
| EventExecutors.LogApart | src/modeling_tool/event_executor.py:148-156 | nor the log |
| EventExecutors.ConsultedNext | src/modeling_tool/event_executor.py:148-156 | consulting the next trigger extends what has been consulted, leaving the other triggers alone |
| EventExecutors.GatheredNext | src/modeling_tool/event_executor.py:148-178 | one more iteration adds the task when it runs and pushes its periodic reschedule when it fired |
| EventExecutors.GrownTrans | src/modeling_tool/event_executor.py:256-262 | the growth of the log over two stretches of a run is growth over the whole run |
| EventExecutors.EventDrivenExecutor.constructor | src/modeling_tool/event_executor.py:33-45 | keeps the configuration; empty queue, clock at 0, empty log, event count and input round 0 |
| EventExecutors.EventDrivenExecutor.ShouldStop | src/modeling_tool/event_executor.py:49-58 | `_should_terminate`: the condition asked with the event count as round number, the live state, the clock, the event count and whether the queue is empty |
| EventExecutors.EventDrivenExecutor.SchedulePeriodicTasks | src/modeling_tool/event_executor.py:84-92 | pushes the periodic events of the tasks, in declaration order, and nothing else |
| EventExecutors.EventDrivenExecutor.ScheduleInputGeneration | src/modeling_tool/event_executor.py:60-63 | pushes one `_generate_input` event for round 1 at time 0 exactly when a generator and a truthy interval are set, otherwise nothing |
| EventExecutors.EventDrivenExecutor.Announcements | src/modeling_tool/event_executor.py:73-78 | with a non-negative interval neither the input event nor the next generation lies before the current time |
| EventExecutors.EventDrivenExecutor.Announce | src/modeling_tool/event_executor.py:73-78 | pushes the input event now and, with an interval, the next generation that much later, keeping the queue ahead of the clock |
| EventExecutors.EventDrivenExecutor.GenerateAndEmitInput | src/modeling_tool/event_executor.py:65-80 | without a generator nothing happens; otherwise the input round goes up, and either the generator's error comes back as the "Error generating unputs" ComponentError with nothing merged or queued, or the new inputs are merged into the initial inputs and announced |
| EventExecutors.EventDrivenExecutor.SchedulePendingEvents | src/modeling_tool/event_executor.py:221-234 | pushes one event per record, `delay` after the current time, with its name, data and priority, tagged with the task |
| EventExecutors.EventDrivenExecutor.ScheduleAll | src/modeling_tool/event_executor.py:218-219 | schedules each task's records in turn |
| EventExecutors.EventDrivenExecutor.ExecuteTask | src/modeling_tool/event_executor.py:94-141 | the body runs on copies of the inputs, outputs and state, with the clock and the event's data; on an exception nothing is merged and its text is returned; otherwise state and outputs are merged into the component's and the emitted records returned |
| EventExecutors.EventDrivenExecutor.ExecuteOne | src/modeling_tool/event_executor.py:190-194 | with one task an exception escapes as the "Error executing task" TaskError with nothing scheduled; otherwise its records, if any, are scheduled |
| EventExecutors.EventDrivenExecutor.RunSerially | src/modeling_tool/event_executor.py:196-212 | runs every activated task, each seeing what the earlier ones merged, gathering the first failure and the emissions |
| EventExecutors.EventDrivenExecutor.ExecuteTasks | src/modeling_tool/event_executor.py:182-219 | no task does nothing; one task as ExecuteOne; several tasks all run and merge, then the first failure is raised as the "Error in task" TaskError with nothing scheduled, or every task's records are scheduled; the queue never falls behind the clock under non-negative delays |
| EventExecutors.EventDrivenExecutor.Consult | src/modeling_tool/event_executor.py:148-178 | one task: its trigger fires as one `Activate` step, a fired periodic trigger reschedules the task an interval later, and the task runs exactly when the trigger fired and the condition admits it |
| EventExecutors.EventDrivenExecutor.ConsultNext | src/modeling_tool/event_executor.py:148-178 | one loop iteration keeps what the loop has consulted and gathered |
| EventExecutors.EventDrivenExecutor.GetActivatedTasks | src/modeling_tool/event_executor.py:143-180 | every trigger is consulted once, whatever the event; each moves by one step; fired periodic tasks are rescheduled in declaration order; the result is the admitted fired tasks in declaration order |
| EventExecutors.EventDrivenExecutor.Next | src/modeling_tool/event_executor.py:242-247 | the condition is asked first: true terminates, an error is raised, in both cases with nothing changed; an empty queue ends the run; otherwise the earliest event is popped, the clock moves to it (a move back raises the clock's ValueError) and the event is counted |
| EventExecutors.EventDrivenExecutor.RunActivated | src/modeling_tool/event_executor.py:253-262 | the triggers are consulted and advance, the activated tasks are those whose trigger fired, and they fan out over the dicts; reschedules and, without a failure, the tasks' events are pushed; a failure is raised and records nothing; otherwise one record numbered by the event count, with the event's name and time under the inputs, the outputs and state, and the activated names or None |
| EventExecutors.EventDrivenExecutor.RunAndRecord | src/modeling_tool/event_executor.py:254-262 | the activated tasks fan out over the dicts; their events are queued and the round recorded, or, on a failure, nothing is queued or recorded and the failure is raised |
| EventExecutors.EventDrivenExecutor.GenerationStep | src/modeling_tool/event_executor.py:249-251 | a `_generate_input` event: without a generator nothing changes; otherwise the input round goes up and the new inputs are merged in and announced, or the generator's failure is raised; no task runs, no trigger is consulted, state, outputs and log stay as they were |
| EventExecutors.EventDrivenExecutor.Handle | src/modeling_tool/event_executor.py:249-262 | a `_generate_input` event activates nothing and has the generation's effect (inputs, announcements, or the raised failure) with state, outputs, log and triggers unchanged; any other event consults the triggers, runs the activated tasks and records a round, as RunActivated |
| EventExecutors.EventDrivenExecutor.Head | src/modeling_tool/event_executor.py:242-247 | the loop head over the whole executor: the ways it ends an iteration (raise at the check, termination, drained queue, the clock's ValueError) with nothing else changed, or the earliest event taken with only the queue, the clock and the count moved |
| EventExecutors.EventDrivenExecutor.Step | src/modeling_tool/event_executor.py:242-262 | one iteration: a raising condition is raised at the check, a true one terminates, and an empty queue drains, each with nothing changed; an earliest event before the clock is popped and the clock's ValueError raised, with the count unchanged; otherwise the event is taken, the clock moves to it, the event is counted and handled as Handle states, from the state with that event removed from the queue; records grow by at most one, numbered above the old count; the clock never goes back |
| EventExecutors.EventDrivenExecutor.Opening | src/modeling_tool/event_executor.py:237-240 | the events queued at the start are at time 0 or later, and are never none when the queue was empty |
| EventExecutors.EventDrivenExecutor.ScheduleStartup | src/modeling_tool/event_executor.py:237-238 | pushes the periodic events, then the first generation |
| EventExecutors.EventDrivenExecutor.Open | src/modeling_tool/event_executor.py:237-240 | pushes the start-up events, then `start` when the queue is still empty |
| EventExecutors.EventDrivenExecutor.Run | src/modeling_tool/event_executor.py:236-263 | ends as the loop ends (condition held, queue empty, an exception with the stage that raised it, or the fuel bound); records are numbered by increasing event counts, at most one per event; the clock never goes back, and with no negative delay or interval it is never asked to |
| EventExecutors.NewEventDrivenExecutor | src/modeling_tool/event_executor.py:20-47 | refuses exactly a component that is not asynchronous, with the ComponentError; the termination condition defaults to the empty-queue one and the initial inputs to none |
| Parser.FirstMissing | src/modeling_tool/parser.py:41-43 | finds the first required field the dict lacks, or reports that none is missing |
| Parser.ValidateStructure | src/modeling_tool/parser.py:38-51 | passes exactly for a dict with a `component` dict holding all six component fields; every failure is a ValidationError, and a missing component field is named in the message |
| Parser.StrippedName | src/modeling_tool/parser.py:77-79 | accepts exactly a string that is not blank and gives it stripped: non-empty, no whitespace at either end |
| Parser.ExtractName | src/modeling_tool/parser.py:74-79 | a missing name is a KeyError; otherwise the stripped name or the "non0empty string" ValidationError |
| Parser.ExtractType | src/modeling_tool/parser.py:82-92 | succeeds exactly for a string that, lower-cased and stripped, is "synchronous" or "asynchronous", and returns it so; a non-string is the "must be a string" ValidationError; any other string raises the NameError of the undefined `ComponentParse` in the message |
| Parser.TypeIgnoresCase | src/modeling_tool/parser.py:88 | the component type is read without regard to letter case |
| Parser.TypeIgnoresPadding | src/modeling_tool/parser.py:88 | whitespace around the component type is ignored |
| Parser.ExtractState | src/modeling_tool/parser.py:95-100 | succeeds exactly when the state is a dict, and returns that dict |
| Parser.SingleKey | src/modeling_tool/parser.py:113-115 | a one-entry dict has exactly one key |
| Parser.OnlyKey | src/modeling_tool/parser.py:115 | `list(item.keys())[0]` of a one-entry dict is its only key |
| Parser.NameList | src/modeling_tool/parser.py:108-120 | succeeds exactly when every item has a name, giving the names in item order, and otherwise fails as the first item without one |
| Parser.ExtractNames | src/modeling_tool/parser.py:103-140 | a missing field is a KeyError, a non-list the "must be a list" ValidationError, and a list is read item by item |
| Parser.IntervalOf | src/modeling_tool/parser.py:197 | a periodic interval is accepted exactly when it is a number (a bool counting as one) |
| Parser.TriggerOf | src/modeling_tool/parser.py:184-213 | a periodic trigger needs an interval and keeps the one read from it, an event trigger an event name that it keeps, `immediate` needs nothing; a condition trigger always fails (the keyword it passes is not a parameter), and an unknown type raises the NameError of `trigger` in the message |
| Parser.FirstNonString | src/modeling_tool/parser.py:178-180 | finds the first dependency that is not a string, or reports that all are |
| Parser.Strings | src/modeling_tool/parser.py:174-182 | the dependency strings, one per item and in order |
| Parser.TaskSpecOf | src/modeling_tool/parser.py:154-219 | an accepted item is a dict with name and code; its name, stripped, was not seen before; its code is a string that compiles; its dependencies are the list given, or none; it has a trigger exactly when the item does; its condition is the item's, or None; a repeated name is the "Duplicate task name" ValidationError |
| Parser.TaskSpecs | src/modeling_tool/parser.py:154-220 | a successful read gives one description per item, each read with the names of the items before it |
| Parser.TaskSpecsFailurePersists | src/modeling_tool/parser.py:154-220 | once a prefix of the items fails, the whole list fails with that error |
| Parser.TaskSpecNamesDistinct | src/modeling_tool/parser.py:166-168 | the task names of a component file are distinct |
| Parser.ExtractTaskSpecs | src/modeling_tool/parser.py:143-150 | an empty task list is the "at least one task" ValidationError; a success reads a non-empty list |
| Parser.NewTrigger | src/modeling_tool/parser.py:194-210 | a fresh trigger object of the described class, in its initial state |
| Parser.NewTaskFrom | src/modeling_tool/parser.py:182-219 | the task the description gives, with a trigger object of its own |
| Parser.TaskSpecsSnoc | src/modeling_tool/parser.py:154-219 | reading one more item extends the descriptions read so far |
| Parser.SpecNamesSnoc | src/modeling_tool/parser.py:168 | one more task adds its name to the names seen |
| Parser.BuiltSnoc | src/modeling_tool/parser.py:182-219 | one more task built from its description, with a trigger object of its own, keeps the triggers separate |
| Parser.ReadSoFarSnoc | src/modeling_tool/parser.py:154-219 | one more item read and built keeps the loop invariant |
| Parser.ReadNext | src/modeling_tool/parser.py:154-219 | one loop iteration either fails as the whole task list fails or keeps the loop invariant for one more item |
| Parser.ExtractTasks | src/modeling_tool/parser.py:143-220 | fails exactly as the task descriptions fail, with the same error; otherwise one task per description in its initial state, no two tasks sharing a trigger object |
| Parser.ParseSpec | src/modeling_tool/parser.py:54-65 | the structure is checked first and its error reported; a success read the name, the type (giving the kind), the state, the inputs, the outputs and the task descriptions from the component section |
| Parser.ParsedName | src/modeling_tool/parser.py:74-79 | a parsed component's name is the document's name stripped, neither empty nor padded |
| Parser.ParsedKind | src/modeling_tool/parser.py:67-70 | a parsed component is synchronous exactly when its type reads "synchronous", and asynchronous exactly when it reads "asynchronous" |
| Parser.ParsedTasks | src/modeling_tool/parser.py:148-168 | a parsed component has at least one task and no two tasks share a name |
| Parser.Construct | src/modeling_tool/parser.py:65-70 | builds one task per description, each with a trigger object of its own; the component is built exactly when every dependency names a task and the dependency graph has no cycle, and then holds the name, kind, state, inputs, outputs and tasks read; otherwise the error names the first unknown dependency, or the circular dependency |
| Parser.ParseDict | src/modeling_tool/parser.py:54-70 | the first reading error is returned as it is; a document that reads is built as Construct states: the component exists exactly when its dependencies are known and acyclic, with the fields the document gives |
| Cli.CollectMeaning | src/modeling_tool/cli.py:18-39 | reading a comma-separated option string fails exactly when some item does not read, with the first such item's error; otherwise the keys are the keys the items name, each holding what the last item naming it read |
| Cli.CollectItems | src/modeling_tool/cli.py:44-64 | the loop that fills the dictionary item by item computes exactly the collected dictionary |
| Cli.CollectFailurePersists | src/modeling_tool/cli.py:19-22 | an item that fails ends the whole parse with its error |
| Cli.IntField | src/modeling_tool/cli.py:31-32 | an integer bound reads exactly when `int()` takes the text, as that integer |
| Cli.FloatField | src/modeling_tool/cli.py:34-35 | a float bound reads exactly when `float()` takes the text, as that number |
| Cli.RandomItem | src/modeling_tool/cli.py:20-22 | an item with fewer than two `:`-separated parts is the "Invalid input spec" ValueError; every failure is a ValueError |
| Cli.RandomItemMeaning | src/modeling_tool/cli.py:20-37 | an item's name is its first part and its type the second; `min` and `max` are present exactly for an `int` or `float` item with at least four parts, read as integers or floats by type; it fails exactly when it has fewer than two parts or a bound it reads does not parse |
| Cli.ParseRandomInputs | src/modeling_tool/cli.py:13-39 | the specifications are the item-by-item collection of the items between commas |
| Cli.IntText | src/modeling_tool/cli.py:19-20 | an integer's decimal text holds no separator (`:`, `,` or `=`) and no surrounding whitespace |
| Cli.SplitJoin | src/modeling_tool/cli.py:19-20 | splitting pieces joined with a separator they do not contain gives the pieces back |
| Cli.IntRangeRoundTrip | src/modeling_tool/cli.py:15-32 | `name:int:low:high` reads back as an `int` specification with those bounds |
| Cli.Classify | src/modeling_tool/cli.py:53-62 | a value is an integer if `int()` takes it, else a float if `float()` takes it, else a boolean if it spells true or false in any letter case, else the text itself |
| Cli.ClassifyBool | src/modeling_tool/cli.py:59-60 | a value reads as a boolean exactly when it is neither integer nor float and spells true or false, and it is true exactly when it spells true |
| Cli.InitialPair | src/modeling_tool/cli.py:46-62 | a pair fails exactly when it has no `=`, with the "Invalid initial input format" ValueError; otherwise it splits at the first `=`, key and value stripped |
| Cli.ParseInitialInputs | src/modeling_tool/cli.py:41-64 | the initial inputs are the item-by-item collection of the pairs between commas |
| Cli.InitialIntPair | src/modeling_tool/cli.py:49-54 | `key=n` reads as the integer n under the stripped key |
| Cli.InitialIntRoundTrip | src/modeling_tool/cli.py:41-64 | an option string `key=n` gives back the dictionary holding just n under the stripped key |
| Cli.ChooseTermination | src/modeling_tool/cli.py:149-177 | appending the requested conditions in the source's order, adding the default when there are none, and returning one alone or several as a composite gives exactly the chosen condition |
| Cli.DefaultTermination | src/modeling_tool/cli.py:161-169 | with no termination option, an asynchronous component stops on an empty queue and a synchronous one after ten rounds |
| Cli.AsyncRoundsFail | src/modeling_tool/cli.py:152-153 | `--rounds` for an asynchronous component always fails with the NameError of the undefined `MaxEventCondition` |
| Cli.SyncIgnoresClockOptions | src/modeling_tool/cli.py:163-172 | a synchronous component's condition does not depend on `--max-time` or `--max-events` |
| Cli.ChosenWellFormed | src/modeling_tool/cli.py:149-177 | any condition that is chosen satisfies its constructors' checks, every composite being non-empty |
| Cli.ChosenFailure | src/modeling_tool/cli.py:149-177 | choosing fails exactly for `--rounds` on an asynchronous component, a negative time or event limit (asynchronous), a negative round count (synchronous), or a condition that does not compile |
| Cli.LoneConditionUnwrapped | src/modeling_tool/cli.py:174-177 | a composite of one condition answers as that condition does, so returning a lone condition unwrapped changes nothing |

## Left out

- The thread pool of the event-driven executor (event_executor.py:182-219) and its locks. Activated tasks run one after another in declaration order. This is the pool's behaviour when tasks complete in that order. No claim is made about other interleavings.
- The copy-and-merge of state under the lock (event_executor.py:104-132) is modelled as a sequential merge. Mutation of an event's data by a task is not modelled: tasks receive the data as a value.
- `get_statistics` of the event-driven executor: it only reports counters.
- YAML loading and `parse_file` (parser.py:18-35): file I/O. The model starts from the loaded value, and dictionary keys are strings.
- `to_json` and `to_csv` of the execution log: file I/O. The `__repr__` methods are out as well; they only format text.
- `InteractiveInputGenerator`: console prompts.
- InputGenerators.FixedGenerate: the fixed generator hands back a value. In the source it returns the list's own dict, and `Executor.run` passes that object to the round, which wraps it by reference in the task context (input_generator.py:154, executor.py:32-39, component.py:127-131). A task writing to its inputs therefore changes the generator's stored dict, and a later run with the same generator sees the change; the model gives each round a fresh dict object and does not capture this aliasing.
- EventExecutors.EventDrivenExecutor.ExecuteTask, Executors.Executor.RunRound, EventExecutors.EventDrivenExecutor.RunActivated: values in the model are immutable, so a task body's in-place change to a nested list or dict is not captured. Every `.copy()` in the source is shallow: the logged inputs, outputs and state (executor.py:42, event_executor.py:256-262) and a task's working copies (event_executor.py:106-108) share their nested containers with the live dicts, and `DictWrapper.__getattr__` hands out the nested object itself (task.py:16-22). In the source, therefore, a body such as `state.items.append(x)` also changes every earlier log record that holds the same list, and a task that changes a nested container and then raises leaves that change in `component.state` and visible to later tasks of the same fan-out. The model's records hold each round's value, and `ExecuteTask` keeps state and outputs unchanged on a raise.
- Executors.Executor.RunRound: see the line on `ExecuteTask` above; its records are value snapshots, not shallow copies.
- EventExecutors.EventDrivenExecutor.RunActivated: see the line on `ExecuteTask` above; its records are value snapshots, not shallow copies.
- argparse, printing and exiting in `main`. The choice of termination condition is modelled. In `main`, `sys.exit(1)` is outside the `if not args.random_inputs` test (cli.py:139-141), so `--input-mode random` always exits with status 1, and `SystemExit` is not caught by `except Exception` (cli.py:257); `Cli.ParseRandomInputs` therefore models `parse_random_inputs` as a function and cannot be reached from the command line as written.
- The debug `print` in `MaxTimeCondition`.
- Python's `float()` is a parameter, so infinities and NaN are not values of the model; times are `real`, without rounding.
- Lower-casing covers ASCII letters only; stripping uses Python's whitespace set.
- Error messages of `int()` and `float()` quote the text with plain quotes rather than Python's `repr`. TypeError texts follow Python 3.10 and later.
- Parser.IntervalOf: a non-numeric periodic interval is rejected when the file is parsed. The source accepts such a file. It raises its TypeError only if the trigger is consulted, and a synchronous component never consults its triggers, so there the source accepts the file entirely.
- Parser.ParseDict: after construction only the heap-free shape of each task is stated (`Matches`); the initial trigger states are stated by `Parser.ExtractTasks`.
- Parser.Construct: the same gap as `Parser.ParseDict`: only `Matches` is stated about the tasks built, not the initial states of their trigger objects.
- Values.ParseInt: only ASCII digits are digits. Python's `int()` and `float()` also accept other Unicode decimal digits (`int("١٢")` is 12), so `Cli.Classify` and `Cli.IntField` (cli.py:31, 54) read such text differently.
- CycleDetection.CycleDetector.Dfs: the search has no depth limit. The source's recursive `dfs` (component.py:48-60) raises RecursionError on a dependency chain deeper than Python's recursion limit (about 1000 by default); the model accepts such a component.
- EventExecutors.EventDrivenExecutor.Run: what each processed event does is stated per iteration by `Step`; the contract of `Run` states only how the loop ends, the numbering of the records and the clock, not the whole trace of events.
- EventExecutors.EventDrivenExecutor.Run: the main loop takes a fuel bound on the number of processed events, and running out of fuel ends the run. The source loops until its termination condition holds or the queue is empty.
- Executors.Executor.Run: the round loop takes the same kind of fuel bound; the source loops until its condition holds.
- `Component.reset` does nothing in the source and has no model.

## Findings

| source | as written | input that shows it | evidently intended | confidence | as-written member | corrected member |
|---|---|---|---|---|---|---|
| src/modeling_tool/simulation_time.py:21-23 | `reset` computes `self.start_time - time` and discards it, so the start time keeps its old value | a clock started at 3.0 and reset to 0.0 reports -3.0 as its elapsed time | the start time becomes the argument, so the elapsed time is 0 after a reset | not executed | SimulationClock.SimulationTime.Reset | SimulationClock.SimulationTime.ResetCorrected |
| src/modeling_tool/component.py:29-40 | `_validate_tasks` checks names through a set and never rejects a repeated task name, while `get_task_execution_order` (component.py:92-93) then always raises "Failed to order tasks" | two tasks both named "a", without dependencies | a validated component can always be ordered, so repeated names are rejected at construction | not executed | Components.DuplicateNamesAccepted | Components.NewComponentDistinct |
