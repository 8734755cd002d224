/** Termination conditions (termination.py): when an executor stops.  Each
    condition is a value; `ShouldTerminate` is its `should_terminate`. */
module Termination {
  import opened Values

  datatype Condition =
    | MaxRounds(maxRounds: int)
    | StateCondition(conditionCode: string)
    | Composite(conditions: seq<Condition>)
    | MaxTime(maxTime: real)
    | MaxEvents(maxEvents: int)
    | EmptyQueue

  /** The keyword arguments the event-driven executor passes: the clock,
      the number of processed events, and whether its queue is empty
      (`None` for an argument that is not passed). */
  datatype Extras = Extras(currentTime: Option<real>, eventCount: Option<int>, queueEmpty: Option<bool>)

  /** The round executor passes no keyword arguments. */
  const NoExtras := Extras(None, None, None)

  function NotPositive(what: string): Error
  {
    Error(ValueError, what + " must be positive")
  }

  function EvaluationFailed(message: string): Error
  {
    Error(RuntimeError, "Error evaluating termination condition: " + message)
  }

  /** What the constructors guarantee of a condition object. */
  predicate WellFormed(c: Condition)
  {
    match c
    case MaxRounds(n) => n > 0
    case StateCondition(_) => true
    case Composite(cs) => cs != [] && forall k :: 0 <= k < |cs| ==> WellFormed(cs[k])
    case MaxTime(t) => t > 0.0
    case MaxEvents(n) => n > 0
    case EmptyQueue => true
  }

  function NewMaxRounds(maxRounds: int): (r: Result<Condition>)
    ensures r.Ok? <==> maxRounds > 0
    ensures r.Ok? ==> r.value == MaxRounds(maxRounds) && WellFormed(r.value)
    ensures r.Err? ==> r.error == NotPositive("max_rounds")
  {
    if maxRounds <= 0 then Err(NotPositive("max_rounds")) else Ok(MaxRounds(maxRounds))
  }

  /** Compiling the condition may raise a SyntaxError, which is not caught. */
  function NewStateCondition(conditionCode: string, compile: Compiler): (r: Result<Condition>)
    ensures r.Err? <==> compile(conditionCode).Some?
    ensures r.Ok? ==> r.value == StateCondition(conditionCode) && WellFormed(r.value)
    ensures r.Err? ==> r.error == Error(SyntaxError, compile(conditionCode).value)
  {
    match compile(conditionCode)
    case Some(message) => Err(Error(SyntaxError, message))
    case None => Ok(StateCondition(conditionCode))
  }

  function NewComposite(conditions: seq<Condition>): (r: Result<Condition>)
    ensures r.Ok? <==> conditions != []
    ensures r.Ok? ==> r.value == Composite(conditions)
    ensures r.Ok? ==> (WellFormed(r.value) <==> forall k :: 0 <= k < |conditions| ==> WellFormed(conditions[k]))
    ensures r.Err? ==> r.error == Error(ValueError, "Must provide at least one condition")
  {
    if conditions == [] then Err(Error(ValueError, "Must provide at least one condition")) else Ok(Composite(conditions))
  }

  function NewMaxTime(maxTime: real): (r: Result<Condition>)
    ensures r.Ok? <==> maxTime > 0.0
    ensures r.Ok? ==> r.value == MaxTime(maxTime) && WellFormed(r.value)
    ensures r.Err? ==> r.error == NotPositive("max_time")
  {
    if maxTime <= 0.0 then Err(NotPositive("max_time")) else Ok(MaxTime(maxTime))
  }

  function NewMaxEvents(maxEvents: int): (r: Result<Condition>)
    ensures r.Ok? <==> maxEvents > 0
    ensures r.Ok? ==> r.value == MaxEvents(maxEvents) && WellFormed(r.value)
    ensures r.Err? ==> r.error == NotPositive("max_events")
  {
    if maxEvents <= 0 then Err(NotPositive("max_events")) else Ok(MaxEvents(maxEvents))
  }

  /** `kwargs.get('current_time', 0.0)` */
  function TimeOf(x: Extras): real
  {
    if x.currentTime.Some? then x.currentTime.value else 0.0
  }

  /** `kwargs.get('event_count', 0)` */
  function CountOf(x: Extras): int
  {
    if x.eventCount.Some? then x.eventCount.value else 0
  }

  /** `should_terminate(round_number, state, log, **kwargs)`; the log is
      never consulted. */
  function ShouldTerminate(c: Condition, round: int, state: Dict, x: Extras, eval: Evaluator): Result<bool>
    decreases c, 1
  {
    match c
    case MaxRounds(n) => Ok(round >= n)
    case StateCondition(code) =>
      if round == 0 then Ok(false)
      else
        (match eval(code, state, None)
         case Ok(b) => Ok(b)
         case Err(e) => Err(EvaluationFailed(e.message)))
    case Composite(_) => AnyFrom(c, 0, round, state, x, eval)
    case MaxTime(t) => Ok(TimeOf(x) >= t)
    case MaxEvents(n) => Ok(CountOf(x) >= n)
    case EmptyQueue => Ok(x.queueEmpty.None? || x.queueEmpty.value)
  }

  /** `any(...)` over the children from position i on: stops at the first
      child that terminates or raises. */
  function AnyFrom(c: Condition, i: nat, round: int, state: Dict, x: Extras, eval: Evaluator): Result<bool>
    requires c.Composite? && i <= |c.conditions|
    decreases c, 0, |c.conditions| - i
  {
    if i == |c.conditions| then Ok(false)
    else
      match ShouldTerminate(c.conditions[i], round, state, x, eval)
      case Err(e) => Err(e)
      case Ok(b) => if b then Ok(true) else AnyFrom(c, i + 1, round, state, x, eval)
  }

  /** Child k is the first child, from position i on, that does not answer
      "keep going". */
  predicate FirstDecisive(cs: seq<Condition>, i: nat, k: nat, round: int, state: Dict, x: Extras, eval: Evaluator)
  {
    i <= k < |cs| && ShouldTerminate(cs[k], round, state, x, eval) != Ok(false) &&
    forall j :: i <= j < k ==> ShouldTerminate(cs[j], round, state, x, eval) == Ok(false)
  }

  lemma {:induction false} AnyFromMeaning(c: Condition, i: nat, round: int, state: Dict, x: Extras, eval: Evaluator)
    requires c.Composite? && i <= |c.conditions|
    ensures
      var r := AnyFrom(c, i, round, state, x, eval);
      (r == Ok(false) && forall j :: i <= j < |c.conditions| ==> ShouldTerminate(c.conditions[j], round, state, x, eval) == Ok(false)) ||
      (exists k: nat :: FirstDecisive(c.conditions, i, k, round, state, x, eval) && r == ShouldTerminate(c.conditions[k], round, state, x, eval))
    decreases |c.conditions| - i
  {
    var cs := c.conditions;
    if i < |cs| {
      if ShouldTerminate(cs[i], round, state, x, eval) == Ok(false) {
        AnyFromMeaning(c, i + 1, round, state, x, eval);
        if AnyFrom(c, i + 1, round, state, x, eval) != Ok(false) {
          var k: nat :| FirstDecisive(cs, i + 1, k, round, state, x, eval) && AnyFrom(c, i + 1, round, state, x, eval) == ShouldTerminate(cs[k], round, state, x, eval);
          assert FirstDecisive(cs, i, k, round, state, x, eval);
        }
      } else {
        assert FirstDecisive(cs, i, i, round, state, x, eval);
      }
    }
  }

  /** A composite gives the answer of its first child that does not answer
      "keep going" (that child's True, or its error), and False when every
      child answers False. */
  lemma CompositeFirstDecisive(cs: seq<Condition>, round: int, state: Dict, x: Extras, eval: Evaluator)
    ensures
      var r := ShouldTerminate(Composite(cs), round, state, x, eval);
      (r == Ok(false) && forall j :: 0 <= j < |cs| ==> ShouldTerminate(cs[j], round, state, x, eval) == Ok(false)) ||
      (exists k: nat :: FirstDecisive(cs, 0, k, round, state, x, eval) && r == ShouldTerminate(cs[k], round, state, x, eval))
  {
    AnyFromMeaning(Composite(cs), 0, round, state, x, eval);
  }

  /** When no child raises, a composite terminates exactly when some child
      does. */
  lemma CompositeAny(cs: seq<Condition>, round: int, state: Dict, x: Extras, eval: Evaluator)
    requires forall j :: 0 <= j < |cs| ==> ShouldTerminate(cs[j], round, state, x, eval).Ok?
    ensures ShouldTerminate(Composite(cs), round, state, x, eval) ==
      Ok(exists k :: 0 <= k < |cs| && ShouldTerminate(cs[k], round, state, x, eval) == Ok(true))
  {
    CompositeFirstDecisive(cs, round, state, x, eval);
    var r := ShouldTerminate(Composite(cs), round, state, x, eval);
    if r != Ok(false) {
      var k: nat :| FirstDecisive(cs, 0, k, round, state, x, eval) && r == ShouldTerminate(cs[k], round, state, x, eval);
      var rk := ShouldTerminate(cs[k], round, state, x, eval);
      assert rk.Ok? && rk != Ok(false);
      assert rk.value;
    }
  }

  /** StateCondition never stops an executor before its first round. */
  lemma StateConditionWaits(code: string, state: Dict, x: Extras, eval: Evaluator)
    ensures ShouldTerminate(StateCondition(code), 0, state, x, eval) == Ok(false)
  {
  }

  /** Conditions that depend only on the counters and the clock. */
  predicate Counting(c: Condition)
  {
    match c
    case MaxRounds(_) => true
    case MaxTime(_) => true
    case MaxEvents(_) => true
    case Composite(cs) => forall k :: 0 <= k < |cs| ==> Counting(cs[k])
    case _ => false
  }

  /** Round number, clock and event count have not gone down. */
  predicate NotEarlier(round: int, x: Extras, round': int, x': Extras)
  {
    round <= round' && TimeOf(x) <= TimeOf(x') && CountOf(x) <= CountOf(x')
  }

  /** A counting condition never raises. */
  lemma {:induction false} CountingSucceeds(c: Condition, round: int, state: Dict, x: Extras, eval: Evaluator)
    requires Counting(c)
    ensures ShouldTerminate(c, round, state, x, eval).Ok?
  {
    if c.Composite? {
      var cs := c.conditions;
      forall j | 0 <= j < |cs|
        ensures ShouldTerminate(cs[j], round, state, x, eval).Ok?
      {
        CountingSucceeds(cs[j], round, state, x, eval);
      }
      CompositeAny(cs, round, state, x, eval);
    }
  }

  /** Once a counting condition says stop, it keeps saying so as the
      counters and the clock advance, whatever the state. */
  lemma {:induction false} CountingStaysDone(c: Condition, round: int, state: Dict, x: Extras, round': int, state': Dict, x': Extras, eval: Evaluator)
    requires Counting(c) && NotEarlier(round, x, round', x')
    requires ShouldTerminate(c, round, state, x, eval) == Ok(true)
    ensures ShouldTerminate(c, round', state', x', eval) == Ok(true)
  {
    if c.Composite? {
      var cs := c.conditions;
      forall j | 0 <= j < |cs|
        ensures ShouldTerminate(cs[j], round, state, x, eval).Ok? && ShouldTerminate(cs[j], round', state', x', eval).Ok?
      {
        CountingSucceeds(cs[j], round, state, x, eval);
        CountingSucceeds(cs[j], round', state', x', eval);
      }
      CompositeAny(cs, round, state, x, eval);
      CompositeAny(cs, round', state', x', eval);
      var k :| 0 <= k < |cs| && ShouldTerminate(cs[k], round, state, x, eval) == Ok(true);
      CountingStaysDone(cs[k], round, state, x, round', state', x', eval);
    }
  }
}
