/** The four trigger kinds of an event-driven task (trigger.py).  Each trigger
    is an object whose `should_activate` may update its own fields; the
    value-level functions below say what one call does, and `Run` folds
    them over a sequence of processed events so that the behaviour of a
    trigger over a whole simulation can be stated and proved. */
module Triggers {
  import opened Values

  /** `PeriodicTrigger.last_execution`: Python's `-float('inf')` (never
      run) or the time of the last activation. */
  datatype Instant = NegInfinity | At(t: real)

  /** The fields of a trigger object, as a value. */
  datatype TriggerState =
    | PeriodicState(interval: real, lastExecution: Instant)
    | EventState(eventName: Value)
    | ConditionState(conditionCode: string, wasTrue: bool)
    | ImmediateState(hasRun: bool)

  /** What `should_activate` is given: the processed event's name, the live
      component state and the simulation clock. */
  datatype Observation = Observation(eventName: string, state: Dict, now: real)

  /** PeriodicTrigger.should_activate: fires when at least `interval` has
      passed since the last activation (always, if it never ran), and then
      records the current time. */
  function PeriodicStep(interval: real, last: Instant, now: real): (bool, Instant)
  {
    if last.NegInfinity? || now - last.t >= interval then (true, At(now)) else (false, last)
  }

  /** ConditionTrigger.should_activate given the outcome of evaluating the
      condition: a failed evaluation returns false and leaves `was_true`
      alone; otherwise it fires on a false-to-true edge and remembers the
      value. */
  function ConditionStep(wasTrue: bool, result: Result<bool>): (bool, bool)
  {
    match result
    case Err(_) => (false, wasTrue)
    case Ok(isTrue) => (isTrue && !wasTrue, isTrue)
  }

  /** ImmediateTrigger.should_activate: true on the first call only. */
  function ImmediateStep(hasRun: bool): (bool, bool)
  {
    if !hasRun then (true, true) else (false, hasRun)
  }

  /** One `should_activate` call on a trigger of any kind. */
  function Activate(ts: TriggerState, o: Observation, eval: Evaluator): (r: (bool, TriggerState))
    ensures r.1.PeriodicState? <==> ts.PeriodicState?
    ensures ts.PeriodicState? ==> r.1.interval == ts.interval
    ensures ts.EventState? ==> r.1 == ts
    ensures ts.ConditionState? ==> r.1.ConditionState? && r.1.conditionCode == ts.conditionCode
    ensures ts.ImmediateState? ==> r.1.ImmediateState?
  {
    match ts
    case PeriodicState(interval, last) =>
      var (fire, last') := PeriodicStep(interval, last, o.now);
      (fire, PeriodicState(interval, last'))
    case EventState(name) => (VStr(o.eventName) == name, ts)
    case ConditionState(code, wasTrue) =>
      var (fire, wasTrue') := ConditionStep(wasTrue, eval(code, o.state, Some(o.now)));
      (fire, ConditionState(code, wasTrue'))
    case ImmediateState(hasRun) =>
      var (fire, hasRun') := ImmediateStep(hasRun);
      (fire, ImmediateState(hasRun'))
  }

  /** PeriodicTrigger.get_next_time: `last_execution + interval`, whatever the
      argument (-inf stays -inf). */
  function NextTime(interval: real, last: Instant): Instant
  {
    match last
    case NegInfinity => NegInfinity
    case At(t) => At(t + interval)
  }

  /** After a periodic trigger fires at `now`, its next time is `now + interval`. */
  lemma NextTimeAfterFiring(interval: real, last: Instant, now: real)
    requires PeriodicStep(interval, last, now).0
    ensures NextTime(interval, PeriodicStep(interval, last, now).1) == At(now + interval)
  {
  }

  /** Asking a trigger about each observation in turn: which calls returned
      true, and the trigger's state at the end. */
  function Run(ts: TriggerState, obs: seq<Observation>, eval: Evaluator): (r: (seq<bool>, TriggerState))
    ensures |r.0| == |obs|
  {
    if obs == [] then ([], ts)
    else
      var (fired, mid) := Run(ts, obs[..|obs| - 1], eval);
      var (fire, final) := Activate(mid, obs[|obs| - 1], eval);
      (fired + [fire], final)
  }

  /** The first answers of a run are the answers of the shorter run. */
  lemma {:induction false} RunPrefix(ts: TriggerState, obs: seq<Observation>, eval: Evaluator, k: nat)
    requires k <= |obs|
    ensures Run(ts, obs, eval).0[..k] == Run(ts, obs[..k], eval).0
    decreases |obs|
  {
    if k < |obs| {
      assert obs[..|obs| - 1][..k] == obs[..k];
      RunPrefix(ts, obs[..|obs| - 1], eval, k);
    } else {
      assert obs[..k] == obs;
    }
  }

  /** The answer to observation k is the step taken from the state the
      first k observations left. */
  lemma RunAt(ts: TriggerState, obs: seq<Observation>, eval: Evaluator, k: nat)
    requires k < |obs|
    ensures Run(ts, obs, eval).0[k] == Activate(Run(ts, obs[..k], eval).1, obs[k], eval).0
  {
    RunPrefix(ts, obs, eval, k + 1);
    assert obs[..k + 1][..k] == obs[..k];
  }

  /** `n` answers of false. */
  function Falses(n: nat): (r: seq<bool>)
    ensures |r| == n && forall k :: 0 <= k < n ==> !r[k]
  {
    if n == 0 then [] else Falses(n - 1) + [false]
  }

  /** An ImmediateTrigger that has run answers false forever. */
  lemma {:induction false} ImmediateSilentAfterRun(obs: seq<Observation>, eval: Evaluator)
    ensures Run(ImmediateState(true), obs, eval) == (Falses(|obs|), ImmediateState(true))
  {
    if obs != [] {
      ImmediateSilentAfterRun(obs[..|obs| - 1], eval);
    }
  }

  /** A fresh ImmediateTrigger fires on the first event, whatever its name,
      and on no later one. */
  lemma {:induction false} ImmediateFiresOnce(obs: seq<Observation>, eval: Evaluator)
    requires |obs| >= 1
    ensures Run(ImmediateState(false), obs, eval) == ([true] + Falses(|obs| - 1), ImmediateState(true))
    decreases |obs|
  {
    if |obs| > 1 {
      ImmediateFiresOnce(obs[..|obs| - 1], eval);
      assert [true] + Falses(|obs| - 2) + [false] == [true] + Falses(|obs| - 1);
    } else {
      assert obs[..0] == [];
      assert Run(ImmediateState(false), obs[..0], eval) == ([], ImmediateState(false));
      assert [true] + Falses(0) == [] + [true];
    }
  }

  /** An EventTrigger is stateless and fires exactly on the events carrying
      its name. */
  lemma {:induction false} EventFiresOnName(name: Value, obs: seq<Observation>, eval: Evaluator)
    ensures Run(EventState(name), obs, eval).1 == EventState(name)
    ensures forall k :: 0 <= k < |obs| ==> (Run(EventState(name), obs, eval).0[k] <==> name == VStr(obs[k].eventName))
  {
    if obs != [] {
      EventFiresOnName(name, obs[..|obs| - 1], eval);
    }
  }

  /** Index of the last true entry before position k, if any. */
  function LastTrueBefore(flags: seq<bool>, k: nat): (r: Option<nat>)
    requires k <= |flags|
    ensures r.Some? ==> r.value < k && flags[r.value]
    ensures r.Some? ==> forall j :: r.value < j < k ==> !flags[j]
    ensures r.None? ==> forall j :: 0 <= j < k ==> !flags[j]
  {
    if k == 0 then None
    else if flags[k - 1] then Some(k - 1)
    else LastTrueBefore(flags, k - 1)
  }

  /** The state of a periodic trigger after a run remembers the time of the
      last firing, or -inf when it never fired. */
  lemma {:induction false} PeriodicRunState(interval: real, obs: seq<Observation>, eval: Evaluator)
    ensures
      var (fired, final) := Run(PeriodicState(interval, NegInfinity), obs, eval);
      final == PeriodicState(interval,
        match LastTrueBefore(fired, |obs|)
        case None => NegInfinity
        case Some(p) => At(obs[p].now))
  {
    if obs != [] {
      var init := obs[..|obs| - 1];
      PeriodicRunState(interval, init, eval);
      var fired := Run(PeriodicState(interval, NegInfinity), obs, eval).0;
      assert fired[..|init|] == Run(PeriodicState(interval, NegInfinity), init, eval).0;
      LastTrueBeforePrefix(fired, |init|);
    }
  }

  lemma LastTrueBeforePrefix(flags: seq<bool>, k: nat)
    requires k <= |flags|
    ensures LastTrueBefore(flags, k) == LastTrueBefore(flags[..k], k)
    decreases k
  {
    if k > 0 {
      assert flags[..k][..k - 1] == flags[..k - 1];
      LastTrueBeforePrefix(flags, k - 1);
      LastTrueBeforePrefix(flags[..k], k - 1);
    }
  }

  /** A fresh PeriodicTrigger fires on an event exactly when it has never
      fired before, or at least `interval` has passed since its last firing.
      In particular the first call always fires. */
  lemma PeriodicFiresWhenDue(interval: real, obs: seq<Observation>, eval: Evaluator, k: nat)
    requires k < |obs|
    ensures
      var fired := Run(PeriodicState(interval, NegInfinity), obs, eval).0;
      fired[k] <==>
        match LastTrueBefore(fired, k)
        case None => true
        case Some(p) => obs[k].now - obs[p].now >= interval
  {
    var fired := Run(PeriodicState(interval, NegInfinity), obs, eval).0;
    RunAt(PeriodicState(interval, NegInfinity), obs, eval, k);
    PeriodicRunState(interval, obs[..k], eval);
    RunPrefix(PeriodicState(interval, NegInfinity), obs, eval, k);
    LastTrueBeforePrefix(fired, k);
  }

  /** The outcomes of evaluating the condition on each observation. */
  function Evaluations(code: string, obs: seq<Observation>, eval: Evaluator): (r: seq<Result<bool>>)
    ensures |r| == |obs|
    ensures forall k :: 0 <= k < |obs| ==> r[k] == eval(code, obs[k].state, Some(obs[k].now))
  {
    seq(|obs|, k requires 0 <= k < |obs| => eval(code, obs[k].state, Some(obs[k].now)))
  }

  /** The value of the last evaluation before position k that did not raise,
      or false when there is none: what `was_true` holds at that point. */
  function LastValueBefore(results: seq<Result<bool>>, k: nat): bool
    requires k <= |results|
  {
    if k == 0 then false
    else if results[k - 1].Ok? then results[k - 1].value
    else LastValueBefore(results, k - 1)
  }

  lemma {:induction false} ConditionRunState(code: string, obs: seq<Observation>, eval: Evaluator)
    ensures Run(ConditionState(code, false), obs, eval).1 ==
      ConditionState(code, LastValueBefore(Evaluations(code, obs, eval), |obs|))
  {
    if obs != [] {
      var init := obs[..|obs| - 1];
      ConditionRunState(code, init, eval);
      var r := Evaluations(code, obs, eval);
      assert r[..|init|] == Evaluations(code, init, eval);
      LastValueBeforePrefix(r, |init|);
    }
  }

  lemma LastValueBeforePrefix(results: seq<Result<bool>>, k: nat)
    requires k <= |results|
    ensures LastValueBefore(results, k) == LastValueBefore(results[..k], k)
    decreases k
  {
    if k > 0 {
      assert results[..k][..k - 1] == results[..k - 1];
      LastValueBeforePrefix(results, k - 1);
      LastValueBeforePrefix(results[..k], k - 1);
    }
  }

  /** A fresh ConditionTrigger fires on an event exactly when the condition
      evaluates to true there and the last evaluation that did not raise
      was false (or there was none): edge detection, so it does not fire
      again while the condition stays true, and raising evaluations are
      skipped. */
  lemma ConditionFiresOnRisingEdge(code: string, obs: seq<Observation>, eval: Evaluator, k: nat)
    requires k < |obs|
    ensures
      var r := Evaluations(code, obs, eval);
      Run(ConditionState(code, false), obs, eval).0[k] <==>
        r[k] == Ok(true) && !LastValueBefore(r, k)
  {
    RunAt(ConditionState(code, false), obs, eval, k);
    ConditionRunState(code, obs[..k], eval);
    var r := Evaluations(code, obs, eval);
    assert r[..k] == Evaluations(code, obs[..k], eval);
    LastValueBeforePrefix(r, k);
  }

  class PeriodicTrigger {
    const interval: real
    var lastExecution: Instant

    constructor (interval: real)
      ensures this.interval == interval && lastExecution == NegInfinity
    {
      this.interval := interval;
      lastExecution := NegInfinity;
    }

    function State(): TriggerState
      reads this
    {
      PeriodicState(interval, lastExecution)
    }

    method ShouldActivate(eventName: string, state: Dict, currentTime: real) returns (fire: bool)
      modifies this
      ensures (fire, lastExecution) == PeriodicStep(interval, old(lastExecution), currentTime)
    {
      if lastExecution.NegInfinity? || currentTime - lastExecution.t >= interval {
        lastExecution := At(currentTime);
        return true;
      }
      return false;
    }

    function GetNextTime(currentTime: real): (r: Instant)
      reads this
      ensures r == NextTime(interval, lastExecution)
    {
      match lastExecution
      case NegInfinity => NegInfinity
      case At(t) => At(t + interval)
    }
  }

  /** The configured name is whatever the component file gave; a value that
      is not a string never equals an event name. */
  class EventTrigger {
    const eventName: Value

    constructor (eventName: Value)
      ensures this.eventName == eventName
    {
      this.eventName := eventName;
    }

    function State(): TriggerState
    {
      EventState(eventName)
    }

    predicate ShouldActivate(eventName: string, state: Dict, currentTime: real)
    {
      VStr(eventName) == this.eventName
    }
  }

  class ConditionTrigger {
    const conditionCode: string
    var wasTrue: bool

    /** The object after a successful `compile` of the condition. */
    constructor (conditionCode: string)
      ensures this.conditionCode == conditionCode && !wasTrue
    {
      this.conditionCode := conditionCode;
      wasTrue := false;
    }

    function State(): TriggerState
      reads this
    {
      ConditionState(conditionCode, wasTrue)
    }

    method ShouldActivate(eventName: string, state: Dict, currentTime: real, eval: Evaluator) returns (fire: bool)
      modifies this
      ensures (fire, wasTrue) == ConditionStep(old(wasTrue), eval(conditionCode, state, Some(currentTime)))
    {
      match eval(conditionCode, state, Some(currentTime))
      case Err(_) =>
        return false;
      case Ok(isTrue) =>
        var shouldTrigger := isTrue && !wasTrue;
        wasTrue := isTrue;
        return shouldTrigger;
    }
  }

  /** `ConditionTrigger(condition_code)`: compiling the condition may raise. */
  method NewConditionTrigger(conditionCode: string, compile: Compiler) returns (r: Result<ConditionTrigger>)
    ensures r.Err? <==> compile(conditionCode).Some?
    ensures r.Err? ==> r.error == Error(SyntaxError, compile(conditionCode).value)
    ensures r.Ok? ==> fresh(r.value) && r.value.State() == ConditionState(conditionCode, false)
  {
    if compile(conditionCode).Some? {
      return Err(Error(SyntaxError, compile(conditionCode).value));
    }
    var t := new ConditionTrigger(conditionCode);
    return Ok(t);
  }

  class ImmediateTrigger {
    var hasRun: bool

    constructor ()
      ensures !hasRun
    {
      hasRun := false;
    }

    function State(): TriggerState
      reads this
    {
      ImmediateState(hasRun)
    }

    method ShouldActivate(eventName: string, state: Dict, currentTime: real) returns (fire: bool)
      modifies this
      ensures (fire, hasRun) == ImmediateStep(old(hasRun))
    {
      if !hasRun {
        hasRun := true;
        return true;
      }
      return false;
    }
  }

  /** The trigger object a task carries (the source's `task.trigger`). */
  datatype TriggerRef =
    | Periodic(periodic: PeriodicTrigger)
    | OnEvent(onEvent: EventTrigger)
    | OnCondition(onCondition: ConditionTrigger)
    | Immediate(immediate: ImmediateTrigger)
  {
    function Object(): object
    {
      match this
      case Periodic(p) => p
      case OnEvent(e) => e
      case OnCondition(c) => c
      case Immediate(i) => i
    }

    function State(): TriggerState
      reads Object()
    {
      match this
      case Periodic(p) => p.State()
      case OnEvent(e) => e.State()
      case OnCondition(c) => c.State()
      case Immediate(i) => i.State()
    }

    /** `task.trigger.should_activate(event.name, state, current_time)`,
        dispatched on the trigger's class. */
    method ShouldActivate(o: Observation, eval: Evaluator) returns (fire: bool)
      modifies Object()
      ensures (fire, State()) == Activate(old(State()), o, eval)
    {
      match this
      case Periodic(p) => fire := p.ShouldActivate(o.eventName, o.state, o.now);
      case OnEvent(e) => fire := e.ShouldActivate(o.eventName, o.state, o.now);
      case OnCondition(c) => fire := c.ShouldActivate(o.eventName, o.state, o.now, eval);
      case Immediate(i) => fire := i.ShouldActivate(o.eventName, o.state, o.now);
    }
  }
}
