/** Tasks and the objects their code runs against (task.py): the wrapper
    giving attribute access to a dict, the context holding a task's three
    dicts, and the task itself.  Task bodies are Python code; what running
    one does is the uninterpreted `Exec` parameter. */
module Tasks {
  import opened Values
  import opened Triggers

  /** A Python dict object: the reference is its identity, `data` its
      current contents. */
  class DictRef {
    var data: Dict

    constructor (data: Dict)
      ensures this.data == data
    {
      this.data := data;
    }
  }

  /** Names starting with an underscore address the wrapper itself. */
  predicate IsPrivate(name: string)
  {
    |name| > 0 && name[0] == '_'
  }

  function NoAttribute(name: string): Error
  {
    Error(AttributeError, "'DictWrapper' object has no attribute '" + name + "'")
  }

  /** What the wrapper's `_data` attribute holds: normally the wrapped dict;
      after code rebinds `_data` to something that is not a dict, that
      value (every later dict access then fails). */
  datatype Slot = Wrapped(dict: DictRef) | Rebound(value: Value)

  /** DictWrapper: reads and writes of ordinary names go to the wrapped
      dict; underscore names are the wrapper's own attributes. */
  class DictWrapper {
    var slot: Slot
    /** Underscore attributes other than `_data`. */
    var attrs: Dict

    constructor (data: DictRef)
      ensures slot == Wrapped(data) && attrs == map[]
    {
      slot := Wrapped(data);
      attrs := map[];
    }

    function Footprint(): set<object>
      reads this
    {
      if slot.Wrapped? then {this, slot.dict} else {this}
    }

    /** `getattr(wrapper, name)`. */
    function GetAttr(name: string): (r: Result<Value>)
      reads Footprint()
      ensures !IsPrivate(name) && slot.Wrapped? ==>
        (r.Ok? <==> name in slot.dict.data) &&
        (r.Ok? ==> r.value == slot.dict.data[name]) &&
        (r.Err? ==> r.error == NoAttribute(name))
      ensures !IsPrivate(name) && slot.Rebound? ==> r.Err? && r.error.kind == TypeError
      ensures IsPrivate(name) && name != "_data" ==>
        (r.Ok? <==> name in attrs) && (r.Ok? ==> r.value == attrs[name]) &&
        (r.Err? ==> r.error == NoAttribute(name))
      ensures name == "_data" ==> r.Ok?
    {
      if IsPrivate(name) then
        if name == "_data" then
          match slot
          case Wrapped(d) => Ok(VDict(d.data))
          case Rebound(v) => Ok(v)
        else if name in attrs then Ok(attrs[name])
        else Err(NoAttribute(name))
      else
        match slot
        case Wrapped(d) =>
          if name in d.data then Ok(d.data[name]) else Err(NoAttribute(name))
        case Rebound(_) => Err(Error(TypeError, "object is not subscriptable"))
    }

    /** `setattr(wrapper, name, value)`.  A write to an ordinary name lands
        in the wrapped dict itself, so whoever holds that dict sees it.
        Rebinding `_data` to a dict value makes the wrapper wrap a new dict
        object with those contents. */
    method SetAttr(name: string, value: Value) returns (r: Outcome)
      modifies Footprint()
      ensures !IsPrivate(name) && old(slot).Wrapped? ==>
        r == Pass && slot == old(slot) && attrs == old(attrs) &&
        slot.dict.data == old(slot.dict.data)[name := value]
      ensures !IsPrivate(name) && old(slot).Rebound? ==>
        r.Fail? && r.error.kind == TypeError && slot == old(slot) && attrs == old(attrs)
      ensures IsPrivate(name) && name != "_data" ==>
        r == Pass && slot == old(slot) && attrs == old(attrs)[name := value] &&
        (old(slot).Wrapped? ==> slot.dict.data == old(slot.dict.data))
      ensures name == "_data" ==>
        r == Pass && attrs == old(attrs) &&
        (old(slot).Wrapped? ==> old(slot).dict.data == old(slot.dict.data)) &&
        (value.VDict? ==> slot.Wrapped? && fresh(slot.dict) && slot.dict.data == value.entries) &&
        (!value.VDict? ==> slot == Rebound(value))
      ensures name != "_data" ==> GetAttr(name) == if r.Pass? then Ok(value) else old(GetAttr(name))
    {
      if IsPrivate(name) {
        if name == "_data" {
          if value.VDict? {
            var d := new DictRef(value.entries);
            slot := Wrapped(d);
          } else {
            slot := Rebound(value);
          }
        } else {
          attrs := attrs[name := value];
        }
        return Pass;
      }
      match slot
      case Wrapped(d) =>
        d.data := d.data[name := value];
        return Pass;
      case Rebound(_) =>
        return Fail(Error(TypeError, "object does not support item assignment"));
    }
  }

  /** TaskContext: the three dicts a synchronous task works on, held by
      reference. */
  class TaskContext {
    const inputs: DictRef
    const outputs: DictRef
    const state: DictRef

    constructor (inputs: DictRef, outputs: DictRef, state: DictRef)
      ensures this.inputs == inputs && this.outputs == outputs && this.state == state
    {
      this.inputs := inputs;
      this.outputs := outputs;
      this.state := state;
    }

    /** The callers in the source always pass three different dicts. */
    predicate Distinct()
    {
      inputs != outputs && inputs != state && outputs != state
    }
  }

  /** What the event-driven executor adds to a task's namespace besides the
      three dicts: the clock and the triggering event's data (`emit_event`
      is modelled by the emissions a run reports). */
  datatype EventExtras = EventExtras(currentTime: real, eventData: Dict)

  /** The namespace a task body runs in. */
  datatype Namespace = Namespace(inputs: Dict, outputs: Dict, state: Dict, extras: Option<EventExtras>)

  /** One call `emit_event(name, data, delay, priority)`; `data` is `VNone`
      when omitted. */
  datatype EmitCall = EmitCall(name: string, data: Value, delay: real, priority: int)

  /** What running a body leaves behind: the contents of the three dicts
      when it stopped, the `emit_event` calls it made, and the text of the
      exception it raised, if any (changes made before the exception stay). */
  datatype ExecOutcome = ExecOutcome(inputs: Dict, outputs: Dict, state: Dict, emits: seq<EmitCall>, raised: Option<string>)

  /** Python's `exec` of a task's code in a namespace. */
  type Exec = (string, Namespace) -> ExecOutcome

  /** The `TaskError` raised when a task body fails. */
  function ExecutionError(name: string, message: string): Error
  {
    Error(TaskError, "Error executing task '" + name + "': " + message)
  }

  /** A task; `trigger` and `condition` are the attributes the parser may
      attach (`None` when absent). */
  datatype Task = Task(name: string, code: string, dependsOn: seq<string>, trigger: Option<TriggerRef>, condition: Option<Value>)
  {
    /** Task.execute: runs the body against the context's dicts, in place,
        and turns any exception into a TaskError naming the task. */
    method Execute(context: TaskContext, exec: Exec) returns (r: Outcome)
      requires context.Distinct()
      modifies context.inputs, context.outputs, context.state
      ensures
        var out := exec(code, Namespace(old(context.inputs.data), old(context.outputs.data), old(context.state.data), None));
        context.inputs.data == out.inputs && context.outputs.data == out.outputs && context.state.data == out.state &&
        (r.Pass? <==> out.raised.None?) &&
        (r.Fail? ==> r.error == ExecutionError(name, out.raised.value))
    {
      var out := exec(code, Namespace(context.inputs.data, context.outputs.data, context.state.data, None));
      context.inputs.data := out.inputs;
      context.outputs.data := out.outputs;
      context.state.data := out.state;
      if out.raised.Some? {
        return Fail(ExecutionError(name, out.raised.value));
      }
      return Pass;
    }
  }

  /** `Task(name, code, depends_on)`: `depends_on` of None (or any empty
      list) becomes `[]`, and code that does not compile is rejected with a
      TaskError quoting the syntax error. */
  function NewTask(name: string, code: string, dependsOn: Option<seq<string>>, compile: Compiler): (r: Result<Task>)
    ensures r.Err? <==> compile(code).Some?
    ensures r.Err? ==> r.error == Error(TaskError, "Syntax error in task '" + name + "': " + compile(code).value)
    ensures r.Ok? ==>
      r.value.name == name && r.value.code == code && r.value.trigger.None? && r.value.condition.None?
    ensures r.Ok? ==> r.value.dependsOn == if dependsOn.Some? then dependsOn.value else []
  {
    match compile(code)
    case Some(message) => Err(Error(TaskError, "Syntax error in task '" + name + "': " + message))
    case None => Ok(Task(name, code, if dependsOn.Some? then dependsOn.value else [], None, None))
  }

  /** No two tasks share a trigger object: the parser builds one per task. */
  predicate SeparateTriggers(tasks: seq<Task>)
  {
    forall i, j :: 0 <= i < j < |tasks| && tasks[i].trigger.Some? && tasks[j].trigger.Some? ==>
      tasks[i].trigger.value.Object() != tasks[j].trigger.value.Object()
  }

  /** The objects of the tasks' triggers. */
  function TriggerObjects(tasks: seq<Task>): set<object>
  {
    set k | 0 <= k < |tasks| && tasks[k].trigger.Some? :: tasks[k].trigger.value.Object()
  }
}
