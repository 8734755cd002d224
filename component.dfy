/** The task loop of a synchronous round, as a function of the dicts it
    starts from: which tasks run, what they leave behind, and how a raise
    stops it. */
module TaskRuns {
  import opened Values
  import opened Tasks

  /** The contents of a round's three dicts. */
  datatype RoundState = RoundState(inputs: Dict, outputs: Dict, state: Dict)

  /** Where a run of tasks stopped: the dicts as the last task left them,
      the error that stopped it (if any), and how many tasks were started. */
  datatype RunResult = RunResult(dicts: RoundState, failure: Option<Error>, ran: nat)

  /** Running tasks one after another against shared dicts, stopping at the
      first task that raises (Task.execute turns its exception into a
      TaskError naming the task). */
  function RunTasks(order: seq<Task>, exec: Exec, s: RoundState): RunResult
    decreases |order|
  {
    if order == [] then RunResult(s, None, 0)
    else
      var out := exec(order[0].code, Namespace(s.inputs, s.outputs, s.state, None));
      var s' := RoundState(out.inputs, out.outputs, out.state);
      if out.raised.Some? then RunResult(s', Some(ExecutionError(order[0].name, out.raised.value)), 1)
      else
        var rest := RunTasks(order[1..], exec, s');
        RunResult(rest.dicts, rest.failure, rest.ran + 1)
  }

  /** The dicts after the first k tasks ran, whatever they raised. */
  function After(order: seq<Task>, exec: Exec, s: RoundState, k: nat): RoundState
    requires k <= |order|
    decreases k
  {
    if k == 0 then s
    else
      var p := After(order, exec, s, k - 1);
      var out := exec(order[k - 1].code, Namespace(p.inputs, p.outputs, p.state, None));
      RoundState(out.inputs, out.outputs, out.state)
  }

  /** What task k raises when it runs after those before it. */
  function Raised(order: seq<Task>, exec: Exec, s: RoundState, k: nat): Option<string>
    requires k < |order|
  {
    var p := After(order, exec, s, k);
    exec(order[k].code, Namespace(p.inputs, p.outputs, p.state, None)).raised
  }

  /** A run leaves the dicts as the tasks it started left them. */
  lemma {:induction false} RunTasksDicts(order: seq<Task>, exec: Exec, s: RoundState)
    ensures
      var r := RunTasks(order, exec, s);
      r.ran <= |order| && r.dicts == After(order, exec, s, r.ran)
    decreases |order|
  {
    if order != [] {
      var out := exec(order[0].code, Namespace(s.inputs, s.outputs, s.state, None));
      var s' := RoundState(out.inputs, out.outputs, out.state);
      assert After(order, exec, s, 1) == s';
      if out.raised.None? {
        RunTasksDicts(order[1..], exec, s');
        var rest := RunTasks(order[1..], exec, s');
        assert RunTasks(order, exec, s) == RunResult(rest.dicts, rest.failure, rest.ran + 1);
        AfterShift(order, exec, s, rest.ran + 1);
      }
    }
  }

  /** A run starts the tasks in order and stops right after the first one
      that raises: the tasks before it raised nothing and the error is that
      task's TaskError.  With no task raising, every task runs exactly once. */
  lemma {:induction false} RunTasksStops(order: seq<Task>, exec: Exec, s: RoundState)
    ensures
      var r := RunTasks(order, exec, s);
      r.ran <= |order| &&
      (forall k :: 0 <= k < r.ran - 1 ==> Raised(order, exec, s, k).None?) &&
      (r.failure.None? ==> r.ran == |order| && (r.ran > 0 ==> Raised(order, exec, s, r.ran - 1).None?)) &&
      (r.failure.Some? ==>
        0 < r.ran && Raised(order, exec, s, r.ran - 1).Some? &&
        r.failure.value == ExecutionError(order[r.ran - 1].name, Raised(order, exec, s, r.ran - 1).value))
    decreases |order|
  {
    RunTasksDicts(order, exec, s);
    if order != [] {
      var out := exec(order[0].code, Namespace(s.inputs, s.outputs, s.state, None));
      var s' := RoundState(out.inputs, out.outputs, out.state);
      assert Raised(order, exec, s, 0) == out.raised;
      if out.raised.Some? {
        assert RunTasks(order, exec, s) == RunResult(s', Some(ExecutionError(order[0].name, out.raised.value)), 1);
      } else {
        RunTasksStops(order[1..], exec, s');
        var rest := RunTasks(order[1..], exec, s');
        assert RunTasks(order, exec, s) == RunResult(rest.dicts, rest.failure, rest.ran + 1);
        forall k | 0 <= k < rest.ran
          ensures Raised(order, exec, s, k).None?
        {
          if k > 0 {
            RaisedShift(order, exec, s, k);
          }
        }
        if rest.ran > 0 {
          RaisedShift(order, exec, s, rest.ran);
          assert order[1..][rest.ran - 1] == order[rest.ran];
        }
      }
    }
  }

  lemma {:induction false} AfterShift(order: seq<Task>, exec: Exec, s: RoundState, k: nat)
    requires 0 < k <= |order|
    ensures
      var out := exec(order[0].code, Namespace(s.inputs, s.outputs, s.state, None));
      After(order, exec, s, k) == After(order[1..], exec, RoundState(out.inputs, out.outputs, out.state), k - 1)
    decreases k
  {
    if k > 1 {
      AfterShift(order, exec, s, k - 1);
      assert order[1..][k - 2] == order[k - 1];
    }
  }

  lemma RaisedShift(order: seq<Task>, exec: Exec, s: RoundState, k: nat)
    requires 0 < k < |order|
    ensures
      var out := exec(order[0].code, Namespace(s.inputs, s.outputs, s.state, None));
      Raised(order, exec, s, k) == Raised(order[1..], exec, RoundState(out.inputs, out.outputs, out.state), k - 1)
  {
    AfterShift(order, exec, s, k);
    assert order[1..][k - 1] == order[k];
  }
}

/** Components (component.py): construction and validation of the task
    set, and the synchronous round. */
module Components {
  import opened Values
  import opened Tasks
  import opened DependencyGraphs
  import opened TaskGraphs
  import opened CycleDetection
  import opened ExecutionOrder
  import opened TaskRuns

  function UnknownDependency(task: string, dependency: string): Error
  {
    Error(ComponentError, "Task '" + task + "' depends on unknown task '" + dependency + "'")
  }

  function CircularDependencies(component: string): Error
  {
    Error(ComponentError, "Circular task dependencies detected in component '" + component + "'")
  }

  function MissingInput(input: string, component: string): Error
  {
    Error(ComponentError, "Missing required input '" + input + "' for component '" + component + "'")
  }

  /** `_validate_tasks`: every dependency must name a task of the component
      (the first offender in declaration order is reported), and then the
      dependency graph must be free of cycles. */
  method ValidateTasks(component: string, tasks: seq<Task>) returns (r: Outcome)
    ensures r.Pass? <==> DepsKnown(tasks) && !HasCycle(DepGraph(tasks))
    ensures !DepsKnown(tasks) ==>
      exists i: nat, j: nat :: FirstUnknownAt(tasks, i, j) && r == Fail(UnknownDependency(tasks[i].name, tasks[i].dependsOn[j]))
    ensures DepsKnown(tasks) && HasCycle(DepGraph(tasks)) ==> r == Fail(CircularDependencies(component))
  {
    var taskNames := NameSet(tasks);
    for i := 0 to |tasks|
      invariant forall i', j' :: 0 <= i' < i && 0 <= j' < |tasks[i'].dependsOn| ==> tasks[i'].dependsOn[j'] in taskNames
    {
      var deps := tasks[i].dependsOn;
      for j := 0 to |deps|
        invariant forall j' :: 0 <= j' < j ==> deps[j'] in taskNames
      {
        if deps[j] !in taskNames {
          assert FirstUnknownAt(tasks, i, j);
          return Fail(UnknownDependency(tasks[i].name, deps[j]));
        }
      }
    }
    var cyclic := HasCircularDependencies(tasks);
    if cyclic {
      return Fail(CircularDependencies(component));
    }
    return Pass;
  }

  /** The NameError raised on reading an undefined name. */
  function UndefinedName(name: string): Error
  {
    Error(NameError, "name '" + name + "' is not defined")
  }

  /** Every declared input is present in the given values. */
  predicate AllGiven(inputs: seq<string>, given: Dict)
  {
    forall k :: 0 <= k < |inputs| ==> inputs[k] in given
  }

  /** Input k is the first declared input missing from the given values. */
  predicate FirstMissingAt(inputs: seq<string>, given: Dict, k: nat)
  {
    k < |inputs| && inputs[k] !in given && forall k' :: 0 <= k' < k ==> inputs[k'] in given
  }

  /** The input check opening `execute_round`: the first declared input
      missing from the given values is reported. */
  method CheckInputs(component: string, inputs: seq<string>, given: Dict) returns (r: Outcome)
    ensures r.Pass? <==> AllGiven(inputs, given)
    ensures r.Fail? ==> exists k: nat :: FirstMissingAt(inputs, given, k) && r.error == MissingInput(inputs[k], component)
  {
    for i := 0 to |inputs|
      invariant forall k :: 0 <= k < i ==> inputs[k] in given
    {
      if inputs[i] !in given {
        assert FirstMissingAt(inputs, given, i);
        return Fail(MissingInput(inputs[i], component));
      }
    }
    return Pass;
  }

  /** The contents of a context's three dicts. */
  function Contents(context: TaskContext): RoundState
    reads context.inputs, context.outputs, context.state
  {
    RoundState(context.inputs.data, context.outputs.data, context.state.data)
  }

  /** `for task in ordered_tasks: task.execute(context)` */
  method RunInOrder(run: seq<Task>, context: TaskContext, exec: Exec) returns (r: Outcome)
    requires context.Distinct()
    modifies context.inputs, context.outputs, context.state
    ensures
      var full := RunTasks(run, exec, old(Contents(context)));
      Contents(context) == full.dicts && (r.Pass? <==> full.failure.None?) && (r.Fail? ==> r.error == full.failure.value)
  {
    ghost var full := RunTasks(run, exec, Contents(context));
    for i := 0 to |run|
      invariant
        var rest := RunTasks(run[i..], exec, Contents(context));
        full.dicts == rest.dicts && full.failure == rest.failure
    {
      var outcome := run[i].Execute(context, exec);
      assert run[i..][0] == run[i] && run[i..][1..] == run[i + 1..];
      if outcome.Fail? {
        return outcome;
      }
    }
    return Pass;
  }

  datatype Kind = Synchronous | Asynchronous

  /** `{output: None for output in outputs}` */
  function NoneOutputs(outputs: seq<string>): Dict
  {
    map o | o in outputs :: VNone
  }

  /** A component: its declared interface and tasks, and the two dicts that
      rounds update in place. */
  class Component {
    const name: string
    const kind: Kind
    const inputs: seq<string>
    const outputs: seq<string>
    const tasks: seq<Task>
    const state: DictRef
    const currentOutputs: DictRef

    /** What construction establishes: the task set passed validation and
        the two dicts are separate objects. */
    ghost predicate Valid()
    {
      state != currentOutputs && DepsKnown(tasks) && !HasCycle(DepGraph(tasks))
    }

    constructor (name: string, kind: Kind, state: Dict, inputs: seq<string>, outputs: seq<string>, tasks: seq<Task>)
      ensures this.name == name && this.kind == kind && this.inputs == inputs && this.outputs == outputs && this.tasks == tasks
      ensures fresh(this.state) && fresh(this.currentOutputs) && this.state != this.currentOutputs
      ensures this.state.data == state && this.currentOutputs.data == NoneOutputs(outputs)
    {
      this.name := name;
      this.kind := kind;
      this.inputs := inputs;
      this.outputs := outputs;
      this.tasks := tasks;
      this.state := new DictRef(state);
      this.currentOutputs := new DictRef(NoneOutputs(outputs));
    }

    /** The dicts of a round that runs against `given` as inputs. */
    function Dicts(given: DictRef): RoundState
      reads given, state, currentOutputs
    {
      RoundState(given.data, currentOutputs.data, state.data)
    }

    /** `SynchronousComponent.execute_round`: checks the inputs, orders the
        tasks, runs each of them once in that order against the given
        inputs, the component's outputs and its state, and returns a copy
        of the outputs.  A missing input is reported before anything runs;
        for a validated component the ordering fails only when two tasks
        share a name; a task that raises stops the round, keeping the
        changes made so far. */
    method ExecuteRound(given: DictRef, exec: Exec) returns (r: Result<Dict>, ghost order: seq<Task>)
      requires Valid()
      requires given != state && given != currentOutputs
      modifies given, state, currentOutputs
      ensures !AllGiven(inputs, old(given.data)) ==>
        r.Err? && (exists k: nat :: FirstMissingAt(inputs, old(given.data), k) && r.error == MissingInput(inputs[k], name)) &&
        Dicts(given) == old(Dicts(given))
      ensures AllGiven(inputs, old(given.data)) && !UniqueNames(tasks) ==>
        r == Err(FailedToOrder(name)) && Dicts(given) == old(Dicts(given))
      ensures AllGiven(inputs, old(given.data)) && UniqueNames(tasks) ==>
        order == KahnOrder(tasks) && multiset(order) == multiset(tasks) && DependenciesFirst(order) &&
        var run := RunTasks(order, exec, old(Dicts(given)));
        Dicts(given) == run.dicts &&
        (r.Ok? <==> run.failure.None?) &&
        (r.Ok? ==> r.value == run.dicts.outputs) &&
        (r.Err? ==> r.error == run.failure.value)
    {
      order := [];
      var checked := CheckInputs(name, inputs, given.data);
      if checked.Fail? {
        return Err(checked.error), order;
      }
      var context := new TaskContext(given, currentOutputs, state);
      var ordered := GetTaskExecutionOrder(name, tasks);
      if ordered.Err? {
        return Err(ordered.error), order;
      }
      var run := ordered.value;
      order := run;
      var outcome := RunInOrder(run, context, exec);
      if outcome.Fail? {
        return Err(outcome.error), order;
      }
      return Ok(currentOutputs.data), order;
    }

    /** `AsynchronousComponent.execute_round` as written: the missing-input
        branch names an undefined exception class and the task loop an
        undefined variable, so every call raises NameError, apart from an
        ordering failure, which comes first.  Nothing is changed. */
    method AsyncExecuteRound(given: DictRef) returns (r: Result<Dict>)
      requires Valid()
      ensures r.Err?
      ensures !AllGiven(inputs, given.data) ==> r.error == UndefinedName("CompnonentError")
      ensures AllGiven(inputs, given.data) && !UniqueNames(tasks) ==> r.error == FailedToOrder(name)
      ensures AllGiven(inputs, given.data) && UniqueNames(tasks) ==> r.error == UndefinedName("ordered_task")
    {
      var checked := CheckInputs(name, inputs, given.data);
      if checked.Fail? {
        return Err(UndefinedName("CompnonentError"));
      }
      var ordered := GetTaskExecutionOrder(name, tasks);
      if ordered.Err? {
        return Err(ordered.error);
      }
      return Err(UndefinedName("ordered_task"));
    }
  }

  /** `SynchronousComponent(...)` / `AsynchronousComponent(...)`: copies the
      initial state, validates the tasks (raising the validation error) and
      sets every declared output to None. */
  method NewComponent(name: string, kind: Kind, state: Dict, inputs: seq<string>, outputs: seq<string>, tasks: seq<Task>)
    returns (r: Result<Component>)
    ensures r.Ok? <==> DepsKnown(tasks) && !HasCycle(DepGraph(tasks))
    ensures !DepsKnown(tasks) ==>
      exists i: nat, j: nat :: FirstUnknownAt(tasks, i, j) && r == Err(UnknownDependency(tasks[i].name, tasks[i].dependsOn[j]))
    ensures DepsKnown(tasks) && HasCycle(DepGraph(tasks)) ==> r == Err(CircularDependencies(name))
    ensures r.Ok? ==>
      var c := r.value;
      fresh(c) && fresh(c.state) && fresh(c.currentOutputs) && c.Valid() &&
      c.name == name && c.kind == kind && c.inputs == inputs && c.outputs == outputs && c.tasks == tasks &&
      c.state.data == state && c.currentOutputs.data == NoneOutputs(outputs)
  {
    var valid := ValidateTasks(name, tasks);
    if valid.Fail? {
      return Err(valid.error);
    }
    var c := new Component(name, kind, state, inputs, outputs, tasks);
    return Ok(c);
  }

  /** Tasks that declare no dependency know all their dependencies and
      form no cycle, whatever their names. */
  lemma NoDependencies(tasks: seq<Task>)
    requires forall i :: 0 <= i < |tasks| ==> tasks[i].dependsOn == []
    ensures DepsKnown(tasks) && !HasCycle(DepGraph(tasks))
  {
    var g := DepGraph(tasks);
    forall w | IsCycle(g, w)
      ensures false
    {
      assert Edge(g, w[0], w[1]);
      var i := DepGraphEntry(tasks, w[0]);
    }
  }

  /** Two tasks both named "a", neither with a dependency: the constructor
      accepts them, because its name check builds a set, and ordering them
      always fails, because Kahn's dicts hold a single entry for the two. */
  method DuplicateNamesAccepted() returns (made: Result<Component>, ordered: Result<seq<Task>>)
    ensures made.Ok? && ordered == Err(FailedToOrder("c"))
  {
    var a := Task("a", "", [], None, None);
    var tasks := [a, a];
    NoDependencies(tasks);
    assert Names(tasks)[0] == Names(tasks)[1];
    made := NewComponent("c", Synchronous, map[], [], [], tasks);
    ordered := GetTaskExecutionOrder("c", tasks);
  }

  function DuplicateTaskNames(component: string): Error
  {
    Error(ComponentError, "Duplicate task names in component '" + component + "'")
  }

  /** The construction the ordering relies on: `_validate_tasks` rejecting
      repeated task names before it checks the dependencies.  Every
      component it accepts can be ordered, so a round never meets
      "Failed to order tasks". */
  method NewComponentDistinct(name: string, kind: Kind, state: Dict, inputs: seq<string>, outputs: seq<string>, tasks: seq<Task>)
    returns (r: Result<Component>)
    ensures r.Ok? <==> UniqueNames(tasks) && DepsKnown(tasks) && !HasCycle(DepGraph(tasks))
    ensures !UniqueNames(tasks) ==> r == Err(DuplicateTaskNames(name))
    ensures r.Ok? ==>
      r.value.Valid() && r.value.name == name && r.value.kind == kind && r.value.tasks == tasks &&
      |KahnOrder(tasks)| == |tasks| && multiset(KahnOrder(tasks)) == multiset(tasks) && DependenciesFirst(KahnOrder(tasks))
  {
    if !UniqueNames(tasks) {
      return Err(DuplicateTaskNames(name));
    }
    r := NewComponent(name, kind, state, inputs, outputs, tasks);
    if r.Ok? {
      // the order every later round asks for
      var ordered := GetTaskExecutionOrder(name, tasks);
    }
  }
}
