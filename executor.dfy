/** The round executor (executor.py): runs a component round after round,
    asking the input generator for each round's inputs, until the
    termination condition holds, and logs a copy of every completed round. */
module Executors {
  import opened Values
  import opened Tasks
  import opened TaskGraphs
  import opened ExecutionOrder
  import opened TaskRuns
  import opened Components
  import opened Termination
  import opened ExecutionLogs
  import opened InputGenerators

  /** The ComponentError a failed round is reported as. */
  function RoundError(round: int, message: string): Error
  {
    Error(ComponentError, "Error in round " + IntToString(round) + ": " + message)
  }

  /** How `run` ended: the termination condition held, something raised,
      or the model's bound on the number of rounds ran out. */
  datatype Stop = Finished | Raised(error: Error) | FuelOut

  /** The names the tracked order gives the log. */
  function Tracked(track: bool, order: seq<Task>): Option<seq<string>>
  {
    if track then Some(Names(order)) else None
  }

  /** A MaxRounds(n) condition that was false before rounds 0 .. count-1 and
      true before round `count` lets exactly n rounds run (none when n is
      not positive). */
  lemma MaxRoundsCount(n: int, count: nat, checked: seq<Dict>, eval: Evaluator)
    requires |checked| == count + 1
    requires forall k :: 0 <= k < count ==> ShouldTerminate(MaxRounds(n), k, checked[k], NoExtras, eval) == Ok(false)
    requires ShouldTerminate(MaxRounds(n), count, checked[count], NoExtras, eval) == Ok(true)
    ensures count == if n > 0 then n else 0
  {
    if count > 0 {
      assert ShouldTerminate(MaxRounds(n), count - 1, checked[count - 1], NoExtras, eval) == Ok(false);
    }
  }

  /** Rounds only start while MaxRounds(n) is false, so at most n start. */
  lemma MaxRoundsBound(n: int, count: nat, checked: seq<Dict>, eval: Evaluator)
    requires |checked| >= count
    requires forall k :: 0 <= k < count ==> ShouldTerminate(MaxRounds(n), k, checked[k], NoExtras, eval) == Ok(false)
    ensures count == 0 || count <= n
  {
    if count > 0 {
      assert ShouldTerminate(MaxRounds(n), count - 1, checked[count - 1], NoExtras, eval) == Ok(false);
    }
  }

  /** One record was added at the end, numbered `round` and holding `state`. */
  predicate Appended(before: seq<RoundRecord>, after: seq<RoundRecord>, round: int, state: Dict)
  {
    |after| == |before| + 1 && after[..|before|] == before &&
    after[|before|].roundNumber == round && after[|before|].state == state
  }

  /** The termination condition was false at every check in `checked`. */
  ghost predicate KeptGoing(c: Condition, checked: seq<Dict>, eval: Evaluator)
  {
    forall k :: 0 <= k < |checked| ==> ShouldTerminate(c, k, checked[k], NoExtras, eval) == Ok(false)
  }

  /** The log of a run so far: records numbered 1, 2, ..., each holding the
      state the next check saw; the last one holds `state`. */
  ghost predicate Numbered(rounds: seq<RoundRecord>, checked: seq<Dict>, state: Dict)
  {
    |rounds| == |checked| &&
    (forall k :: 0 <= k < |rounds| ==> rounds[k].roundNumber == k + 1) &&
    (forall k :: 0 <= k < |rounds| - 1 ==> rounds[k].state == checked[k + 1]) &&
    (|rounds| > 0 ==> rounds[|rounds| - 1].state == state)
  }

  /** What a run's log and checks look like when it stops, whatever
      stopped it: the records are numbered 1, 2, ... in order; the first
      check saw the initial state; every check but the last was false, so
      a round followed it; and each record holds the state the next check
      saw. */
  ghost predicate Checked(c: Condition, rounds: seq<RoundRecord>, checked: seq<Dict>, initial: Dict, eval: Evaluator)
  {
    |checked| >= 1 && checked[0] == initial &&
    KeptGoing(c, checked[..|checked| - 1], eval) &&
    (forall k :: 0 <= k < |rounds| ==> rounds[k].roundNumber == k + 1) &&
    (forall k :: 0 <= k < |rounds| && k + 1 < |checked| ==> rounds[k].state == checked[k + 1])
  }

  lemma NumberedChecked(c: Condition, rounds: seq<RoundRecord>, checked: seq<Dict>, state: Dict, initial: Dict, eval: Evaluator)
    requires Numbered(rounds, checked, state) && KeptGoing(c, checked, eval)
    requires |checked| == 0 ==> state == initial
    requires |checked| > 0 ==> checked[0] == initial
    ensures Checked(c, rounds, checked + [state], initial, eval)
  {
    assert (checked + [state])[..|checked|] == checked;
  }

  lemma NumberedNext(rounds: seq<RoundRecord>, rounds': seq<RoundRecord>, checked: seq<Dict>, state: Dict, state': Dict)
    requires Numbered(rounds, checked, state)
    requires Appended(rounds, rounds', |rounds| + 1, state')
    ensures Numbered(rounds', checked + [state], state')
  {
    var c := checked + [state];
    forall k | 0 <= k < |rounds'| - 1
      ensures rounds'[k].state == c[k + 1]
    {
      assert rounds'[k] == rounds[k];
    }
    forall k | 0 <= k < |rounds'|
      ensures rounds'[k].roundNumber == k + 1
    {
      if k < |rounds| {
        assert rounds'[k] == rounds[k];
      }
    }
  }

  class Executor {
    const component: Component
    const source: InputSource
    const termination: Condition
    const trackTaskOrder: bool
    var log: ExecutionLog
    var currentRound: int

    constructor (component: Component, source: InputSource, termination: Condition, trackTaskOrder: bool)
      ensures this.component == component && this.source == source
      ensures this.termination == termination && this.trackTaskOrder == trackTaskOrder
      ensures fresh(log) && log.rounds == [] && currentRound == 0
    {
      this.component := component;
      this.source := source;
      this.termination := termination;
      this.trackTaskOrder := trackTaskOrder;
      log := new ExecutionLog();
      currentRound := 0;
    }

    /** The round itself, once the inputs are known: the component's round
        (by its kind), then a record of it when it completed. */
    method RunRound(inputs: Dict, taskOrder: Option<seq<string>>, exec: Exec) returns (r: Outcome, ghost order: seq<Task>)
      requires component.Valid()
      modifies log, component.state, component.currentOutputs
      ensures r.Fail? ==> log.rounds == old(log.rounds)
      ensures r.Pass? ==> Appended(old(log.rounds), log.rounds, currentRound, component.state.data)
      ensures component.kind == Asynchronous ==>
        r.Fail? && r.error.kind == ComponentError &&
        component.state.data == old(component.state.data) && component.currentOutputs.data == old(component.currentOutputs.data)
      ensures component.kind == Synchronous && !AllGiven(component.inputs, inputs) ==>
        (exists k: nat :: FirstMissingAt(component.inputs, inputs, k) &&
          r == Fail(RoundError(currentRound, MissingInput(component.inputs[k], component.name).message))) &&
        component.state.data == old(component.state.data) && component.currentOutputs.data == old(component.currentOutputs.data)
      ensures component.kind == Synchronous && AllGiven(component.inputs, inputs) && !UniqueNames(component.tasks) ==>
        r == Fail(RoundError(currentRound, FailedToOrder(component.name).message)) &&
        component.state.data == old(component.state.data) && component.currentOutputs.data == old(component.currentOutputs.data)
      ensures component.kind == Synchronous && AllGiven(component.inputs, inputs) && UniqueNames(component.tasks) ==>
        order == KahnOrder(component.tasks) && multiset(order) == multiset(component.tasks) && DependenciesFirst(order) &&
        var run := RunTasks(order, exec, RoundState(inputs, old(component.currentOutputs.data), old(component.state.data)));
        component.state.data == run.dicts.state && component.currentOutputs.data == run.dicts.outputs &&
        (r.Pass? <==> run.failure.None?) &&
        (r.Fail? ==> r.error == RoundError(currentRound, run.failure.value.message)) &&
        (r.Pass? ==>
          log.rounds == old(log.rounds) + [RoundRecord(currentRound, run.dicts.inputs, run.dicts.outputs, run.dicts.state, taskOrder)])
    {
      order := [];
      var given := new DictRef(inputs);
      var outputs: Result<Dict>;
      if component.kind == Synchronous {
        outputs, order := component.ExecuteRound(given, exec);
      } else {
        outputs := component.AsyncExecuteRound(given);
      }
      if outputs.Err? {
        return Fail(RoundError(currentRound, outputs.error.message)), order;
      }
      log.AddRound(currentRound, given.data, outputs.value, component.state.data, taskOrder);
      return Pass, order;
    }

    /** The body of `run`'s loop: one round.  The round number goes up
        first; the generator's failure and a failure to compute the tracked
        order are raised as they are; a failure of the round itself is
        reported as a ComponentError naming the round, and only a completed
        round is logged, with the inputs as the tasks left them. */
    method Round(exec: Exec, rng: Rng, show: Show)
      returns (r: Outcome, ghost generated: Result<Dict>, ghost order: seq<Task>, ghost tracked: seq<Task>)
      requires component.Valid()
      modifies this, log, component.state, component.currentOutputs, SourceFootprint(source)
      ensures log == old(log) && currentRound == old(currentRound) + 1
      ensures generated == old(Expected(source, component.inputs, currentRound + 1, rng, show))
      ensures r.Fail? ==> log.rounds == old(log.rounds)
      ensures r.Pass? ==> Appended(old(log.rounds), log.rounds, currentRound, component.state.data)
      ensures generated.Err? ==>
        r == Fail(generated.error) &&
        component.state.data == old(component.state.data) && component.currentOutputs.data == old(component.currentOutputs.data)
      ensures generated.Ok? && trackTaskOrder && !UniqueNames(component.tasks) ==>
        r == Fail(FailedToOrder(component.name)) &&
        component.state.data == old(component.state.data) && component.currentOutputs.data == old(component.currentOutputs.data)
      ensures generated.Ok? && trackTaskOrder && UniqueNames(component.tasks) ==>
        tracked == KahnOrder(component.tasks) && multiset(tracked) == multiset(component.tasks) && DependenciesFirst(tracked)
      ensures generated.Ok? && (trackTaskOrder ==> UniqueNames(component.tasks)) && component.kind == Asynchronous ==>
        r.Fail? && r.error.kind == ComponentError &&
        component.state.data == old(component.state.data) && component.currentOutputs.data == old(component.currentOutputs.data)
      ensures generated.Ok? && (trackTaskOrder ==> UniqueNames(component.tasks)) && component.kind == Synchronous &&
              !AllGiven(component.inputs, generated.value)
        ==>
        (exists k: nat :: FirstMissingAt(component.inputs, generated.value, k) &&
          r == Fail(RoundError(currentRound, MissingInput(component.inputs[k], component.name).message))) &&
        component.state.data == old(component.state.data) && component.currentOutputs.data == old(component.currentOutputs.data)
      ensures generated.Ok? && component.kind == Synchronous && AllGiven(component.inputs, generated.value) && !UniqueNames(component.tasks) && !trackTaskOrder
        ==>
        r == Fail(RoundError(currentRound, FailedToOrder(component.name).message)) &&
        component.state.data == old(component.state.data) && component.currentOutputs.data == old(component.currentOutputs.data)
      ensures generated.Ok? && component.kind == Synchronous && AllGiven(component.inputs, generated.value) && UniqueNames(component.tasks)
        ==>
        order == KahnOrder(component.tasks) && multiset(order) == multiset(component.tasks) && DependenciesFirst(order) &&
        var run := RunTasks(order, exec, RoundState(generated.value, old(component.currentOutputs.data), old(component.state.data)));
        component.state.data == run.dicts.state && component.currentOutputs.data == run.dicts.outputs &&
        (r.Pass? <==> run.failure.None?) &&
        (r.Fail? ==> r.error == RoundError(currentRound, run.failure.value.message)) &&
        (r.Pass? ==>
          log.rounds == old(log.rounds) + [RoundRecord(currentRound, run.dicts.inputs, run.dicts.outputs, run.dicts.state, Tracked(trackTaskOrder, order))])
    {
      order := [];
      tracked := [];
      currentRound := currentRound + 1;
      var inputs := Generate(source, component.inputs, currentRound, rng, show);
      generated := inputs;
      if inputs.Err? {
        return Fail(inputs.error), generated, order, tracked;
      }
      var taskOrder: Option<seq<string>> := None;
      if trackTaskOrder {
        var ordered := GetTaskExecutionOrder(component.name, component.tasks);
        if ordered.Err? {
          return Fail(ordered.error), generated, order, tracked;
        }
        tracked := ordered.value;
        taskOrder := Some(Names(ordered.value));
      }
      r, order := RunRound(inputs.value, taskOrder, exec);
    }

    /** What `run` needs of a round. */
    method Advance(exec: Exec, rng: Rng, show: Show) returns (r: Outcome)
      requires component.Valid()
      modifies this, log, component.state, component.currentOutputs, SourceFootprint(source)
      ensures log == old(log) && currentRound == old(currentRound) + 1
      ensures r.Fail? ==> log.rounds == old(log.rounds)
      ensures r.Pass? ==> Appended(old(log.rounds), log.rounds, currentRound, component.state.data)
    {
      var outcome, _, _, _ := Round(exec, rng, show);
      r := outcome;
    }

    /** The loop of `run` so far: as many records and checks as finished
        rounds, every check false, the records numbered and holding the
        state the next check saw. */
    ghost predicate Looping(checked: seq<Dict>, initial: Dict, eval: Evaluator)
      reads this, log, component.state
    {
      |log.rounds| == currentRound && |checked| == currentRound &&
      (currentRound == 0 ==> component.state.data == initial) &&
      (currentRound > 0 ==> checked[0] == initial) &&
      KeptGoing(termination, checked, eval) &&
      Numbered(log.rounds, checked, component.state.data)
    }

    /** How `run` may stop, as its postcondition states it. */
    ghost predicate Stopped(r: Stop, checked: seq<Dict>, initial: Dict, eval: Evaluator)
      reads this, log, component.state
    {
      Checked(termination, log.rounds, checked, initial, eval) &&
      (r == Finished ==>
        |log.rounds| == currentRound && |checked| == currentRound + 1 &&
        checked[currentRound] == component.state.data &&
        ShouldTerminate(termination, currentRound, checked[currentRound], NoExtras, eval) == Ok(true)) &&
      (r.Raised? ==>
        (|log.rounds| == currentRound && |checked| == currentRound + 1 &&
         ShouldTerminate(termination, currentRound, checked[currentRound], NoExtras, eval) == Err(r.error)) ||
        (|log.rounds| == currentRound - 1 && |checked| == currentRound))
    }

    /** One pass of `run`'s loop: the check, then a round if it was false. */
    method Step(ghost checked: seq<Dict>, ghost initial: Dict, exec: Exec, eval: Evaluator, rng: Rng, show: Show)
      returns (stop: Option<Stop>, ghost checked': seq<Dict>)
      requires component.Valid() && Looping(checked, initial, eval)
      modifies this, log, component.state, component.currentOutputs, SourceFootprint(source)
      ensures log == old(log)
      ensures stop.None? ==> currentRound == old(currentRound) + 1 && Looping(checked', initial, eval)
      ensures stop.Some? ==> stop.value != FuelOut && Stopped(stop.value, checked', initial, eval)
    {
      var st := ShouldTerminate(termination, currentRound, component.state.data, NoExtras, eval);
      ghost var before := log.rounds;
      ghost var state := component.state.data;
      NumberedChecked(termination, log.rounds, checked, component.state.data, initial, eval);
      checked' := checked + [component.state.data];
      if st.Err? {
        return Some(Raised(st.error)), checked';
      }
      if st.value {
        return Some(Finished), checked';
      }
      var outcome := Advance(exec, rng, show);
      if outcome.Fail? {
        return Some(Raised(outcome.error)), checked';
      }
      NumberedNext(before, log.rounds, checked, state, component.state.data);
      stop := None;
    }

    /** `run`: starts again from round 0 with a fresh log, and checks the
        termination condition, with the number of completed rounds and the
        live state, before every round.  `checked` holds the state each
        check saw.  The loop of the source need not end; `fuel` bounds the
        number of rounds the model runs. */
    method Run(fuel: nat, exec: Exec, eval: Evaluator, rng: Rng, show: Show) returns (r: Stop, ghost checked: seq<Dict>)
      requires component.Valid()
      modifies this, component.state, component.currentOutputs, SourceFootprint(source)
      ensures fresh(log)
      ensures Stopped(r, checked, old(component.state.data), eval)
      ensures r == FuelOut ==> |log.rounds| == currentRound == fuel && |checked| == fuel + 1
      ensures termination.MaxRounds? && r == Finished ==>
        |log.rounds| == if termination.maxRounds > 0 then termination.maxRounds else 0
      ensures termination.MaxRounds? && 0 < termination.maxRounds < fuel ==> r != FuelOut
    {
      ghost var initial := component.state.data;
      currentRound := 0;
      log := new ExecutionLog();
      checked := [];
      while currentRound < fuel
        invariant 0 <= currentRound <= fuel && fresh(log)
        invariant Looping(checked, initial, eval)
      {
        var stop;
        stop, checked := Step(checked, initial, exec, eval, rng, show);
        if stop.Some? {
          if termination.MaxRounds? && stop.value == Finished {
            MaxRoundsCount(termination.maxRounds, currentRound as nat, checked, eval);
          }
          return stop.value, checked;
        }
      }
      if termination.MaxRounds? {
        MaxRoundsBound(termination.maxRounds, fuel, checked, eval);
      }
      NumberedChecked(termination, log.rounds, checked, component.state.data, initial, eval);
      checked := checked + [component.state.data];
      return FuelOut, checked;
    }

    /** `reset`: back to round 0 with a fresh, empty log. */
    method Reset()
      modifies this
      ensures currentRound == 0 && fresh(log) && log.rounds == []
    {
      currentRound := 0;
      log := new ExecutionLog();
    }
  }
}
