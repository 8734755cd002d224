/** The component-file parser (parser.py), on the document the YAML loader
    produced.  The checks run in the source's order and fail with its
    messages, spelling included.  Where the source names a class or a
    variable that does not exist, Python raises the NameError for that name
    before the intended exception can be built, and that NameError is what
    the model returns. */
module Parser {
  import opened Values
  import opened Triggers
  import opened Tasks
  import opened DependencyGraphs
  import opened TaskGraphs
  import opened Components

  const RequiredComponentFields: seq<string> := ["name", "type", "state", "inputs", "outputs", "tasks"]
  const ValidComponentTypes: seq<string> := ["synchronous", "asynchronous"]

  function Invalid(message: string): Error
  {
    Error(ValidationError, message)
  }

  /** `raise ValdiationError(...)`: the misspelt class name is looked up first. */
  const Misspelt := UndefinedName("ValdiationError")

  /** `d[key]` for a key the dict lacks. */
  function MissingKey(key: string): Error
  {
    Error(KeyError, "'" + key + "'")
  }

  /** `type(v).__name__` */
  function TypeName(v: Value): string
  {
    match v
    case VNone => "NoneType"
    case VBool(_) => "bool"
    case VInt(_) => "int"
    case VReal(_) => "float"
    case VStr(_) => "str"
    case VList(_) => "list"
    case VDict(_) => "dict"
  }

  /** Position of the first of `fields` that `d` lacks. */
  function FirstMissing(fields: seq<string>, d: Dict): (r: Option<nat>)
    ensures r.None? <==> forall k :: 0 <= k < |fields| ==> fields[k] in d
    ensures r.Some? ==> r.value < |fields| && fields[r.value] !in d && forall k :: 0 <= k < r.value ==> fields[k] in d
  {
    if fields == [] then None
    else if fields[0] !in d then Some(0)
    else
      match FirstMissing(fields[1..], d)
      case None => None
      case Some(k) => Some(k + 1)
  }

  /** The component section of a document, once its structure is checked. */
  predicate WellFormed(data: Value)
  {
    data.VDict? && "component" in data.entries && data.entries["component"].VDict? &&
    forall k :: 0 <= k < |RequiredComponentFields| ==> RequiredComponentFields[k] in data.entries["component"].entries
  }

  /** `_validate_structure`: a dict with a `component` dict holding all six
      required fields, or the ValidationError naming what is wrong. */
  function ValidateStructure(data: Value): (r: Outcome)
    ensures r.Pass? <==> WellFormed(data)
    ensures r.Fail? ==> r.error.kind == ValidationError
    ensures data.VDict? && "component" in data.entries && data.entries["component"].VDict? && r.Fail? ==>
      exists k :: 0 <= k < |RequiredComponentFields| && RequiredComponentFields[k] !in data.entries["component"].entries &&
        r.error == Invalid("Missing required component field: " + RequiredComponentFields[k] + "'")
  {
    if !data.VDict? then Fail(Invalid("component file must contain a dictionary"))
    else if "component" !in data.entries then Fail(Invalid("Missing required top-level field: 'component'"))
    else if !data.entries["component"].VDict? then Fail(Invalid("'component' must be a dictionary"))
    else
      match FirstMissing(RequiredComponentFields, data.entries["component"].entries)
      case Some(k) => Fail(Invalid("Missing required component field: " + RequiredComponentFields[k] + "'"))
      case None => Pass
  }

  /** A name as both the component and its tasks take it: a string that is
      not blank, with its surrounding whitespace removed. */
  function StrippedName(v: Value, message: string): (r: Result<string>)
    ensures r.Ok? <==> v.VStr? && !AllSpace(v.s)
    ensures r.Ok? ==> r.value == Strip(v.s) && r.value != [] && !IsSpace(r.value[0]) && !IsSpace(r.value[|r.value| - 1])
    ensures r.Err? ==> r.error == Invalid(message)
  {
    if !v.VStr? then Err(Invalid(message))
    else
      StripEmptyIffBlank(v.s);
      StripEnds(v.s);
      if Strip(v.s) == [] then Err(Invalid(message)) else Ok(Strip(v.s))
  }

  /** `_extract_name` */
  function ExtractName(c: Dict): (r: Result<string>)
    ensures "name" !in c ==> r == Err(MissingKey("name"))
    ensures "name" in c ==> r == StrippedName(c["name"], "Component 'name' must be a non0empty string")
  {
    if "name" !in c then Err(MissingKey("name"))
    else StrippedName(c["name"], "Component 'name' must be a non0empty string")
  }

  /** `_extract_type`: a string that, lower-cased and stripped, is one of the
      two kinds; any other string fails on the undefined `ComponentParse`
      that the error message refers to. */
  function ExtractType(c: Dict): (r: Result<string>)
    ensures r.Ok? <==> "type" in c && c["type"].VStr? && Strip(Lower(c["type"].s)) in ValidComponentTypes
    ensures r.Ok? ==> r.value in ValidComponentTypes && r.value == Strip(Lower(c["type"].s))
    ensures "type" in c && !c["type"].VStr? ==> r == Err(Invalid("Component 'type' must be a string"))
    ensures "type" in c && c["type"].VStr? && r.Err? ==> r.error == UndefinedName("ComponentParse")
  {
    if "type" !in c then Err(MissingKey("type"))
    else if !c["type"].VStr? then Err(Invalid("Component 'type' must be a string"))
    else
      var t := Strip(Lower(c["type"].s));
      if t in ValidComponentTypes then Ok(t) else Err(UndefinedName("ComponentParse"))
  }

  /** The component type is read without regard to ASCII letter case. */
  lemma TypeIgnoresCase(s: string)
    ensures ExtractType(map["type" := VStr(Lower(s))]) == ExtractType(map["type" := VStr(s)])
  {
    assert Lower(Lower(s)) == Lower(s);
  }

  /** Whitespace around the component type is ignored. */
  lemma TypeIgnoresPadding(s: string)
    ensures ExtractType(map["type" := VStr(" " + s + " ")]) == ExtractType(map["type" := VStr(s)])
  {
    assert Lower(" " + s + " ") == " " + Lower(s) + " ";
    StripPadded(Lower(s));
  }

  /** `_extract_state` */
  function ExtractState(c: Dict): (r: Result<Dict>)
    ensures r.Ok? <==> "state" in c && c["state"].VDict?
    ensures r.Ok? ==> r.value == c["state"].entries
    ensures "state" in c && r.Err? ==> r.error == Invalid("component 'state' must be a dictionary")
  {
    if "state" !in c then Err(MissingKey("state"))
    else if !c["state"].VDict? then Err(Invalid("component 'state' must be a dictionary"))
    else Ok(c["state"].entries)
  }

  /** A map with a single key has exactly that key. */
  lemma SingleKey(m: map<string, Value>)
    requires |m| == 1
    ensures exists k :: k in m
    ensures forall a, b :: a in m && b in m ==> a == b
  {
    assert |m.Keys| == 1;
    forall a, b | a in m && b in m
      ensures a == b
    {
      if a != b {
        SubsetCard({a, b}, m.Keys);
        assert false;
      }
    }
  }

  /** `list(m.keys())[0]` for a map with one key. */
  function OnlyKey(m: map<string, Value>): (k: string)
    requires |m| == 1
    ensures k in m && m.Keys == {k}
  {
    SingleKey(m);
    var k :| k in m;
    k
  }

  /** One item of `inputs` or `outputs`: a string, or a dict with a single
      key, gives that text stripped. */
  function ItemName(item: Value, what: string, show: Show): (r: Result<string>)
  {
    if item.VStr? then Ok(Strip(item.s))
    else if item.VDict? then
      if |item.entries| != 1 then Err(Misspelt) else Ok(Strip(OnlyKey(item.entries)))
    else Err(Invalid("Invalid " + what + " format: " + show(item)))
  }

  /** The loop of `_extract_inputs` / `_extract_outputs`: one name per item,
      in order, or the failure of the first item that has none. */
  function NameList(items: seq<Value>, what: string, show: Show): (r: Result<seq<string>>)
    ensures r.Ok? <==> forall k :: 0 <= k < |items| ==> ItemName(items[k], what, show).Ok?
    ensures r.Ok? ==> |r.value| == |items| && forall k :: 0 <= k < |items| ==> r.value[k] == ItemName(items[k], what, show).value
    ensures r.Err? ==>
      exists k :: 0 <= k < |items| && ItemName(items[k], what, show) == Err(r.error) &&
        forall j :: 0 <= j < k ==> ItemName(items[j], what, show).Ok?
  {
    if items == [] then Ok([])
    else
      var n := |items| - 1;
      var front := items[..n];
      assert forall k :: 0 <= k < n ==> front[k] == items[k];
      match NameList(front, what, show)
      case Err(e) => Err(e)
      case Ok(names) =>
        match ItemName(items[n], what, show)
        case Err(e) => Err(e)
        case Ok(x) =>
          var r := names + [x];
          assert forall k :: 0 <= k < n ==> r[k] == names[k] == ItemName(front[k], what, show).value;
          Ok(r)
  }

  /** `_extract_inputs` (`field` "inputs", `what` "input") and
      `_extract_outputs` ("outputs", "output"). */
  function ExtractNames(c: Dict, field: string, what: string, show: Show): (r: Result<seq<string>>)
    ensures field !in c ==> r == Err(MissingKey(field))
    ensures field in c && !c[field].VList? ==> r == Err(Invalid("Component '" + field + "' must be a list"))
    ensures field in c && c[field].VList? ==> r == NameList(c[field].items, what, show)
  {
    if field !in c then Err(MissingKey(field))
    else if !c[field].VList? then Err(Invalid("Component '" + field + "' must be a list"))
    else NameList(c[field].items, what, show)
  }

  /** A trigger as the component file describes it. */
  datatype TriggerSpec = PeriodicSpec(interval: real) | EventSpec(eventName: Value) | ImmediateSpec

  /** A task as the component file describes it. */
  datatype TaskSpec = TaskSpec(name: string, code: string, dependsOn: seq<string>, trigger: Option<TriggerSpec>, condition: Option<Value>)

  /** A periodic interval: a Python number (a bool counts as 0 or 1).  Any
      other value fails with the TypeError its first comparison raises. */
  function IntervalOf(v: Value): (r: Result<real>)
    ensures r.Err? <==> !(v.VInt? || v.VReal? || v.VBool?)
  {
    match v
    case VInt(i) => Ok(i as real)
    case VReal(x) => Ok(x)
    case VBool(b) => Ok(if b then 1.0 else 0.0)
    case _ => Err(Error(TypeError, "'>=' not supported between instances of 'float' and '" + TypeName(v) + "'"))
  }

  const ConditionKeyword := Error(TypeError, "ConditionTrigger.__init__() got an unexpected keyword argument 'condition'")

  /** Lines 185-213 of `_extract_tasks`: the trigger section of task `name`. */
  function TriggerOf(name: string, t: Value): (r: Result<TriggerSpec>)
    ensures r.Ok? ==> t.VDict? && "type" in t.entries
    ensures r.Ok? && r.value.PeriodicSpec? ==>
      t.entries["type"] == VStr("periodic") && "interval" in t.entries && IntervalOf(t.entries["interval"]) == Ok(r.value.interval)
    ensures r.Ok? && r.value.EventSpec? ==> t.entries["type"] == VStr("event") && "event" in t.entries && r.value.eventName == t.entries["event"]
    ensures r.Ok? && r.value.ImmediateSpec? ==> t.entries["type"] == VStr("immediate")
    ensures t.VDict? && "type" in t.entries && t.entries["type"] == VStr("condition") ==> r.Err?
    ensures t.VDict? && "type" in t.entries && t.entries["type"] !in {VStr("periodic"), VStr("event"), VStr("condition"), VStr("immediate")} ==>
      r == Err(UndefinedName("trigger"))
  {
    if !t.VDict? then Err(Invalid("Task '" + name + "' 'trigger' must be a dictionary"))
    else
      var d := t.entries;
      if "type" !in d then Err(Invalid("Task '" + name + "' trigger missing 'type' "))
      else if d["type"] == VStr("periodic") then
        if "interval" !in d then Err(Invalid("Task '" + name + "' periodic trigger missing 'interval' "))
        else
          match IntervalOf(d["interval"])
          case Err(e) => Err(e)
          case Ok(iv) => Ok(PeriodicSpec(iv))
      else if d["type"] == VStr("event") then
        if "event" !in d then Err(Invalid("Task '" + name + "' event trigger missing 'event' "))
        else Ok(EventSpec(d["event"]))
      else if d["type"] == VStr("condition") then
        if "condition" !in d then Err(Invalid("Task '" + name + "' condition trigger missing 'condition'"))
        else Err(ConditionKeyword)
      else if d["type"] == VStr("immediate") then Ok(ImmediateSpec)
      else Err(UndefinedName("trigger"))
  }

  /** Position of the first value that is not a string. */
  function FirstNonString(items: seq<Value>): (r: Option<nat>)
    ensures r.None? <==> forall k :: 0 <= k < |items| ==> items[k].VStr?
    ensures r.Some? ==> r.value < |items| && !items[r.value].VStr? && forall k :: 0 <= k < r.value ==> items[k].VStr?
  {
    if items == [] then None
    else if !items[0].VStr? then Some(0)
    else
      match FirstNonString(items[1..])
      case None => None
      case Some(k) => Some(k + 1)
  }

  function Strings(items: seq<Value>): (r: seq<string>)
    requires forall k :: 0 <= k < |items| ==> items[k].VStr?
    ensures |r| == |items| && forall k :: 0 <= k < |items| ==> VStr(r[k]) == items[k]
  {
    seq(|items|, k requires 0 <= k < |items| => items[k].s)
  }

  /** The names of the tasks read so far (`task_names`). */
  function SpecNames(specs: seq<TaskSpec>): set<string>
  {
    set k | 0 <= k < |specs| :: specs[k].name
  }

  lemma ReadSoFarSnoc(items: seq<Value>, i: nat, compile: Compiler, seen: set<string>,
                      tasks: seq<Task>, specs: seq<TaskSpec>, made: set<object>, t: Task, s: TaskSpec)
    requires i < |items| && ReadSoFar(items, i, compile, seen, tasks, specs, made)
    requires TaskSpecOf(i, items[i], seen, compile) == Ok(s) && Realizes(t, s)
    requires t.trigger.Some? ==> t.trigger.value.Object() !in made
    ensures ReadSoFar(items, i + 1, compile, seen + {s.name}, tasks + [t], specs + [s],
                      made + if t.trigger.Some? then {t.trigger.value.Object()} else {})
  {
    TaskSpecsSnoc(items, i, compile, specs, s);
    SpecNamesSnoc(specs, s);
    BuiltSnoc(tasks, specs, t, s);
    var r := tasks + [t];
    assert forall k :: 0 <= k < |tasks| ==> r[k] == tasks[k];
  }

  /** One iteration of `_extract_tasks`'s loop: item `i`, with the names of
      the earlier tasks in `seen`. */
  function TaskSpecOf(i: nat, item: Value, seen: set<string>, compile: Compiler): (r: Result<TaskSpec>)
    ensures r.Ok? ==> item.VDict? && "name" in item.entries && "code" in item.entries
    ensures r.Ok? ==> r.value.name !in seen && StrippedName(item.entries["name"], "").Ok? && r.value.name == StrippedName(item.entries["name"], "").value
    ensures r.Ok? ==> item.entries["code"] == VStr(r.value.code) && compile(r.value.code).None?
    ensures r.Ok? ==> ("depends_on" !in item.entries ==> r.value.dependsOn == []) &&
                      ("depends_on" in item.entries ==> item.entries["depends_on"] == VList(seq(|r.value.dependsOn|, k requires 0 <= k < |r.value.dependsOn| => VStr(r.value.dependsOn[k]))))
    ensures r.Ok? ==> (r.value.trigger.None? <==> "trigger" !in item.entries)
    ensures r.Ok? && r.value.trigger.Some? ==> TriggerOf(r.value.name, item.entries["trigger"]) == Ok(r.value.trigger.value)
    ensures r.Ok? ==> r.value.condition == if "condition" in item.entries then Some(item.entries["condition"]) else None
    ensures item.VDict? && "name" in item.entries && "code" in item.entries && StrippedName(item.entries["name"], "").Ok? &&
            StrippedName(item.entries["name"], "").value in seen ==>
      r == Err(Invalid("Duplicate task name: '" + StrippedName(item.entries["name"], "").value + "'"))
  {
    if !item.VDict? then Err(Invalid("Task " + IntToString(i) + " must be a dictionary"))
    else
      var d := item.entries;
      if "name" !in d || "code" !in d then Err(Misspelt)
      else
        match StrippedName(d["name"], "Task " + IntToString(i) + " 'name' must be a non-empty string")
        case Err(e) => Err(e)
        case Ok(name) =>
          if name in seen then Err(Invalid("Duplicate task name: '" + name + "'"))
          else if !d["code"].VStr? then Err(Invalid("Task '" + name + "' 'code' must be a string"))
          else
            var deps := if "depends_on" in d then d["depends_on"] else VList([]);
            if !deps.VList? then Err(Invalid("Tasl '" + name + "' 'depends_on' must be a lsit"))
            else
              match FirstNonString(deps.items)
              case Some(k) =>
                Err(Invalid("Task '" + name + " dependency must be a string, got <class '" + TypeName(deps.items[k]) + "'>"))
              case None =>
                var dependsOn := Strings(deps.items);
                assert deps.items == seq(|dependsOn|, k requires 0 <= k < |dependsOn| => VStr(dependsOn[k]));
                match NewTask(name, d["code"].s, Some(dependsOn), compile)
                case Err(e) => Err(e)
                case Ok(_) =>
                  var condition := if "condition" in d then Some(d["condition"]) else None;
                  if "trigger" !in d then Ok(TaskSpec(name, d["code"].s, dependsOn, None, condition))
                  else
                    match TriggerOf(name, d["trigger"])
                    case Err(e) => Err(e)
                    case Ok(t) => Ok(TaskSpec(name, d["code"].s, dependsOn, Some(t), condition))
  }

  /** `_extract_tasks`'s loop over the items: every item read in turn with
      the names before it, up to the first that fails. */
  function TaskSpecs(items: seq<Value>, compile: Compiler): (r: Result<seq<TaskSpec>>)
    ensures r.Ok? ==> |r.value| == |items|
    ensures r.Ok? ==> forall k :: 0 <= k < |items| ==> TaskSpecOf(k, items[k], SpecNames(r.value[..k]), compile) == Ok(r.value[k])
  {
    if items == [] then Ok([])
    else
      var n := |items| - 1;
      match TaskSpecs(items[..n], compile)
      case Err(e) => Err(e)
      case Ok(prev) =>
        match TaskSpecOf(n, items[n], SpecNames(prev), compile)
        case Err(e) => Err(e)
        case Ok(s) =>
          var r := prev + [s];
          assert r[..n] == prev;
          assert forall k :: 0 <= k < n ==> r[..k] == prev[..k];
          Ok(r)
  }

  /** Once a prefix of the items fails, the whole list fails the same way. */
  lemma {:induction false} TaskSpecsFailurePersists(items: seq<Value>, i: nat, compile: Compiler)
    requires i <= |items| && TaskSpecs(items[..i], compile).Err?
    ensures TaskSpecs(items, compile) == TaskSpecs(items[..i], compile)
    decreases |items| - i
  {
    if i < |items| {
      assert items[..i + 1][..i] == items[..i];
      TaskSpecsFailurePersists(items, i + 1, compile);
    } else {
      assert items[..i] == items;
    }
  }

  /** Task names read from a component file are distinct. */
  lemma TaskSpecNamesDistinct(items: seq<Value>, compile: Compiler)
    requires TaskSpecs(items, compile).Ok?
    ensures forall j, k :: 0 <= j < k < |items| ==> TaskSpecs(items, compile).value[j].name != TaskSpecs(items, compile).value[k].name
  {
    var specs := TaskSpecs(items, compile).value;
    forall j, k | 0 <= j < k < |items|
      ensures specs[j].name != specs[k].name
    {
      assert TaskSpecOf(k, items[k], SpecNames(specs[..k]), compile) == Ok(specs[k]);
      assert specs[..k][j] == specs[j];
      assert specs[j].name in SpecNames(specs[..k]);
    }
  }

  /** `_extract_tasks` without the object construction: a non-empty list of
      task descriptions, read in order. */
  function ExtractTaskSpecs(c: Dict, compile: Compiler): (r: Result<seq<TaskSpec>>)
    ensures "tasks" in c && c["tasks"].VList? && c["tasks"].items == [] ==> r == Err(Invalid("Component must have at least one task"))
    ensures r.Ok? ==> "tasks" in c && c["tasks"].VList? && r == TaskSpecs(c["tasks"].items, compile) && r.value != []
  {
    if "tasks" !in c then Err(MissingKey("tasks"))
    else if !c["tasks"].VList? then Err(Invalid("Component 'tasks' must be a list"))
    else if c["tasks"].items == [] then Err(Invalid("Component must have at least one task"))
    else TaskSpecs(c["tasks"].items, compile)
  }

  /** A fresh trigger object in the state the description gives it. */
  ghost predicate Fits(t: TriggerRef, s: TriggerSpec)
    reads t.Object()
  {
    match s
    case PeriodicSpec(iv) => t.Periodic? && t.State() == PeriodicState(iv, NegInfinity)
    case EventSpec(n) => t.OnEvent? && t.State() == EventState(n)
    case ImmediateSpec => t.Immediate? && t.State() == ImmediateState(false)
  }

  /** A trigger object of the class and with the fixed parameter the
      description gives. */
  predicate Kinded(t: TriggerRef, s: TriggerSpec)
  {
    match s
    case PeriodicSpec(iv) => t.Periodic? && t.periodic.interval == iv
    case EventSpec(n) => t.OnEvent? && t.onEvent.eventName == n
    case ImmediateSpec => t.Immediate?
  }

  /** Task `t` has the name, code, dependencies, condition and kind of
      trigger description `s` gives. */
  predicate Matches(t: Task, s: TaskSpec)
  {
    t.name == s.name && t.code == s.code && t.dependsOn == s.dependsOn && t.condition == s.condition &&
    (t.trigger.None? <==> s.trigger.None?) &&
    (t.trigger.Some? && s.trigger.Some? ==> Kinded(t.trigger.value, s.trigger.value))
  }

  /** Task `t` is the one description `s` describes, its trigger in its
      initial state. */
  ghost predicate Realizes(t: Task, s: TaskSpec)
    reads if t.trigger.Some? then {t.trigger.value.Object()} else {}
  {
    Matches(t, s) && (t.trigger.Some? && s.trigger.Some? ==> Fits(t.trigger.value, s.trigger.value))
  }

  ghost predicate Built(tasks: seq<Task>, specs: seq<TaskSpec>)
    reads TriggerObjects(tasks)
  {
    |tasks| == |specs| && forall k :: 0 <= k < |tasks| ==> Realizes(tasks[k], specs[k])
  }

  /** The trigger object a description asks for. */
  method NewTrigger(s: TriggerSpec) returns (t: TriggerRef)
    ensures fresh(t.Object()) && Kinded(t, s) && Fits(t, s)
  {
    match s
    case PeriodicSpec(iv) =>
      var p := new PeriodicTrigger(iv);
      t := Periodic(p);
    case EventSpec(n) =>
      var e := new EventTrigger(n);
      t := OnEvent(e);
    case ImmediateSpec =>
      var i := new ImmediateTrigger();
      t := Immediate(i);
  }

  /** The task a description asks for, with a trigger of its own. */
  method NewTaskFrom(s: TaskSpec, ghost made: set<object>) returns (t: Task)
    ensures Realizes(t, s)
    ensures t.trigger.Some? ==> fresh(t.trigger.value.Object()) && t.trigger.value.Object() !in made
  {
    if s.trigger.None? {
      t := Task(s.name, s.code, s.dependsOn, None, s.condition);
    } else {
      var trigger := NewTrigger(s.trigger.value);
      t := Task(s.name, s.code, s.dependsOn, Some(trigger), s.condition);
    }
  }

  /** The objects were all allocated after `before`, each new one later. */
  ghost predicate NewAfter(tasks: seq<Task>, before: set<object>)
    reads TriggerObjects(tasks)
  {
    forall k :: 0 <= k < |tasks| && tasks[k].trigger.Some? ==> tasks[k].trigger.value.Object() !in before
  }

  /** One more item read. */
  lemma TaskSpecsSnoc(items: seq<Value>, i: nat, compile: Compiler, specs: seq<TaskSpec>, s: TaskSpec)
    requires i < |items| && TaskSpecs(items[..i], compile) == Ok(specs)
    requires TaskSpecOf(i, items[i], SpecNames(specs), compile) == Ok(s)
    ensures TaskSpecs(items[..i + 1], compile) == Ok(specs + [s])
  {
    assert items[..i + 1][..i] == items[..i];
  }

  lemma SpecNamesSnoc(specs: seq<TaskSpec>, s: TaskSpec)
    ensures SpecNames(specs + [s]) == SpecNames(specs) + {s.name}
  {
    var r := specs + [s];
    assert forall k :: 0 <= k < |specs| ==> r[k] == specs[k];
    assert r[|specs|] == s;
  }

  /** One more task built, with a trigger object of its own. */
  lemma BuiltSnoc(tasks: seq<Task>, specs: seq<TaskSpec>, t: Task, s: TaskSpec)
    requires |tasks| == |specs| && (forall k :: 0 <= k < |tasks| ==> Realizes(tasks[k], specs[k]))
    requires SeparateTriggers(tasks) && Realizes(t, s)
    requires forall k :: 0 <= k < |tasks| && tasks[k].trigger.Some? && t.trigger.Some? ==>
      tasks[k].trigger.value.Object() != t.trigger.value.Object()
    ensures |tasks + [t]| == |specs + [s]| && forall k :: 0 <= k < |tasks + [t]| ==> Realizes((tasks + [t])[k], (specs + [s])[k])
    ensures SeparateTriggers(tasks + [t])
  {
    var r := tasks + [t];
    assert forall k :: 0 <= k < |tasks| ==> r[k] == tasks[k];
  }

  /** What `_extract_tasks`'s loop keeps after i items: their descriptions,
      their names, and one task built from each, each with a trigger object
      of its own taken from `made`. */
  ghost predicate ReadSoFar(items: seq<Value>, i: nat, compile: Compiler, seen: set<string>,
                            tasks: seq<Task>, specs: seq<TaskSpec>, made: set<object>)
    reads TriggerObjects(tasks)
  {
    i <= |items| && TaskSpecs(items[..i], compile) == Ok(specs) && seen == SpecNames(specs) &&
    |tasks| == |specs| && (forall k :: 0 <= k < |tasks| ==> Realizes(tasks[k], specs[k])) && SeparateTriggers(tasks) &&
    forall k :: 0 <= k < |tasks| && tasks[k].trigger.Some? ==> tasks[k].trigger.value.Object() in made
  }

  /** One iteration of `_extract_tasks`'s loop: item i is read and its task
      built, or the failure is the one the whole list fails with. */
  method ReadNext(items: seq<Value>, i: nat, compile: Compiler, seen: set<string>, tasks: seq<Task>,
                  ghost specs: seq<TaskSpec>, ghost made: set<object>)
    returns (failure: Option<Error>, seen': set<string>, tasks': seq<Task>, ghost specs': seq<TaskSpec>, ghost made': set<object>)
    requires i < |items| && ReadSoFar(items, i, compile, seen, tasks, specs, made)
    ensures failure.Some? ==> TaskSpecs(items, compile) == Err(failure.value)
    ensures failure.None? ==> ReadSoFar(items, i + 1, compile, seen', tasks', specs', made')
  {
    seen', tasks', specs', made' := seen, tasks, specs, made;
    var s := TaskSpecOf(i, items[i], seen, compile);
    if s.Err? {
      assert items[..i + 1][..i] == items[..i];
      TaskSpecsFailurePersists(items, i + 1, compile);
      return Some(s.error), seen', tasks', specs', made';
    }
    var t := NewTaskFrom(s.value, made);
    assert ReadSoFar(items, i, compile, seen, tasks, specs, made);
    ReadSoFarSnoc(items, i, compile, seen, tasks, specs, made, t, s.value);
    tasks' := tasks + [t];
    specs' := specs + [s.value];
    seen' := seen + {s.value.name};
    made' := made + if t.trigger.Some? then {t.trigger.value.Object()} else {};
    failure := None;
  }

  /** `_extract_tasks`: the loop reads each item and builds its task, with a
      new trigger object per task, so no two tasks share one. */
  method ExtractTasks(c: Dict, compile: Compiler) returns (r: Result<seq<Task>>)
    ensures r.Err? <==> ExtractTaskSpecs(c, compile).Err?
    ensures r.Err? ==> r.error == ExtractTaskSpecs(c, compile).error
    ensures r.Ok? ==> Built(r.value, ExtractTaskSpecs(c, compile).value) && SeparateTriggers(r.value)
  {
    if "tasks" !in c {
      return Err(MissingKey("tasks"));
    } else if !c["tasks"].VList? {
      return Err(Invalid("Component 'tasks' must be a list"));
    } else if c["tasks"].items == [] {
      return Err(Invalid("Component must have at least one task"));
    }
    var items := c["tasks"].items;
    var tasks: seq<Task> := [];
    var seen: set<string> := {};
    ghost var specs: seq<TaskSpec> := [];
    ghost var made: set<object> := {};
    for i := 0 to |items|
      invariant ReadSoFar(items, i, compile, seen, tasks, specs, made)
    {
      var failure;
      failure, seen, tasks, specs, made := ReadNext(items, i, compile, seen, tasks, specs, made);
      if failure.Some? {
        return Err(failure.value);
      }
    }
    assert items[..|items|] == items;
    r := Ok(tasks);
  }

  /** What `parse_dict` reads from a document before building the component. */
  datatype Blueprint = Blueprint(name: string, kind: Kind, state: Dict, inputs: seq<string>, outputs: seq<string>, tasks: seq<TaskSpec>)

  /** `parse_dict` up to the construction of the component: the structure
      check, then name, type, state, inputs, outputs and tasks in that order,
      the first failure ending it. */
  function ParseSpec(data: Value, compile: Compiler, show: Show): (r: Result<Blueprint>)
    ensures r.Ok? ==>
      WellFormed(data) &&
      var c := data.entries["component"].entries;
      ExtractName(c) == Ok(r.value.name) && ExtractType(c).Ok? &&
      (r.value.kind == if ExtractType(c).value == "synchronous" then Synchronous else Asynchronous) &&
      ExtractState(c) == Ok(r.value.state) &&
      ExtractNames(c, "inputs", "input", show) == Ok(r.value.inputs) &&
      ExtractNames(c, "outputs", "output", show) == Ok(r.value.outputs) &&
      ExtractTaskSpecs(c, compile) == Ok(r.value.tasks)
    ensures r.Err? && !WellFormed(data) ==> r.error == ValidateStructure(data).error
  {
    if ValidateStructure(data).Fail? then Err(ValidateStructure(data).error)
    else
      var c := data.entries["component"].entries;
      var name :- ExtractName(c);
      var kind :- ExtractType(c);
      var state :- ExtractState(c);
      var inputs :- ExtractNames(c, "inputs", "input", show);
      var outputs :- ExtractNames(c, "outputs", "output", show);
      var tasks :- ExtractTaskSpecs(c, compile);
      Ok(Blueprint(name, if kind == "synchronous" then Synchronous else Asynchronous, state, inputs, outputs, tasks))
  }

  /** A parsed component's name is the document's name stripped, and it is
      neither empty nor padded. */
  lemma ParsedName(data: Value, compile: Compiler, show: Show)
    requires ParseSpec(data, compile, show).Ok?
    ensures var bp := ParseSpec(data, compile, show).value;
      var c := data.entries["component"].entries;
      bp.name != [] && bp.name == Strip(c["name"].s) &&
      !IsSpace(bp.name[0]) && !IsSpace(bp.name[|bp.name| - 1])
  {
  }

  /** A parsed component is synchronous exactly when its type, lower-cased
      and stripped, reads "synchronous", and asynchronous exactly when it
      reads "asynchronous". */
  lemma ParsedKind(data: Value, compile: Compiler, show: Show)
    requires ParseSpec(data, compile, show).Ok?
    ensures var bp := ParseSpec(data, compile, show).value;
      var c := data.entries["component"].entries;
      (bp.kind == Synchronous <==> Strip(Lower(c["type"].s)) == "synchronous") &&
      (bp.kind == Asynchronous <==> Strip(Lower(c["type"].s)) == "asynchronous")
  {
    var bp := ParseSpec(data, compile, show).value;
    var c := data.entries["component"].entries;
    var t := ExtractType(c);
    assert t.value == "synchronous" || t.value == "asynchronous";
    assert "synchronous"[0] != "asynchronous"[0];
  }

  /** A parsed component has at least one task, and no two of its tasks share
      a name. */
  lemma ParsedTasks(data: Value, compile: Compiler, show: Show)
    requires ParseSpec(data, compile, show).Ok?
    ensures var bp := ParseSpec(data, compile, show).value;
      bp.tasks != [] &&
      forall j, k :: 0 <= j < k < |bp.tasks| ==> bp.tasks[j].name != bp.tasks[k].name
  {
    var c := data.entries["component"].entries;
    TaskSpecNamesDistinct(c["tasks"].items, compile);
  }

  /** The last two steps of `parse_dict`: the tasks are built from the
      document's task list, then the component from them and the fields
      read before. */
  method Construct(bp: Blueprint, c: Dict, compile: Compiler) returns (r: Result<Component>, ghost tasks: seq<Task>)
    requires ExtractTaskSpecs(c, compile) == Ok(bp.tasks)
    ensures |tasks| == |bp.tasks| && (forall k :: 0 <= k < |tasks| ==> Matches(tasks[k], bp.tasks[k])) && SeparateTriggers(tasks)
    ensures r.Ok? <==> DepsKnown(tasks) && !HasCycle(DepGraph(tasks))
    ensures !DepsKnown(tasks) ==>
      exists i: nat, j: nat :: FirstUnknownAt(tasks, i, j) && r == Err(UnknownDependency(tasks[i].name, tasks[i].dependsOn[j]))
    ensures DepsKnown(tasks) && HasCycle(DepGraph(tasks)) ==> r == Err(CircularDependencies(bp.name))
    ensures r.Ok? ==>
      fresh(r.value) && r.value.Valid() && r.value.name == bp.name && r.value.kind == bp.kind &&
      r.value.state.data == bp.state && r.value.inputs == bp.inputs && r.value.outputs == bp.outputs &&
      r.value.tasks == tasks
  {
    var built := ExtractTasks(c, compile);
    tasks := built.value;
    assert forall k :: 0 <= k < |tasks| ==> Realizes(tasks[k], bp.tasks[k]);
    r := NewComponent(bp.name, bp.kind, bp.state, bp.inputs, bp.outputs, built.value);
  }

  /** `parse_dict`: the component the document describes, built as the
      source builds it, so construction may still reject an unknown
      dependency or a cycle.  `tasks` are the tasks handed to it. */
  method ParseDict(data: Value, compile: Compiler, show: Show) returns (r: Result<Component>, ghost tasks: seq<Task>)
    ensures ParseSpec(data, compile, show).Err? ==> r == Err(ParseSpec(data, compile, show).error)
    ensures ParseSpec(data, compile, show).Ok? ==>
      var bp := ParseSpec(data, compile, show).value;
      |tasks| == |bp.tasks| && (forall k :: 0 <= k < |tasks| ==> Matches(tasks[k], bp.tasks[k])) && SeparateTriggers(tasks) &&
      (r.Ok? <==> DepsKnown(tasks) && !HasCycle(DepGraph(tasks))) &&
      (!DepsKnown(tasks) ==>
        exists i: nat, j: nat :: FirstUnknownAt(tasks, i, j) && r == Err(UnknownDependency(tasks[i].name, tasks[i].dependsOn[j]))) &&
      (DepsKnown(tasks) && HasCycle(DepGraph(tasks)) ==> r == Err(CircularDependencies(bp.name))) &&
      (r.Ok? ==>
        fresh(r.value) && r.value.Valid() && r.value.name == bp.name && r.value.kind == bp.kind &&
        r.value.state.data == bp.state && r.value.inputs == bp.inputs && r.value.outputs == bp.outputs &&
        r.value.tasks == tasks)
  {
    var spec := ParseSpec(data, compile, show);
    if spec.Err? {
      return Err(spec.error), [];
    }
    var c := data.entries["component"].entries;
    r, tasks := Construct(spec.value, c, compile);
  }
}
