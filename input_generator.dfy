/** Input generators (input_generator.py): the fixed generator indexes a
    list of per-round dicts; the random generator draws one value per
    requested input from each input's specification.  The random number
    generator is the oracle `Rng`; the interactive generator, which only
    prompts on the terminal, is not part of this model. */
module InputGenerators {
  import opened Values

  /** The ValueError for a round past the end of the fixed sequence. */
  function NoInputFor(round: int): Error
  {
    Error(ValueError, "No input defined for round " + IntToString(round))
  }

  const IndexOutOfRange := Error(IndexError, "list index out of range")

  /** `FixedInputGenerator.generate`: element `round - 1` of the sequence,
      indexed as Python indexes a list, so that round 0 and below count
      from the end. */
  function FixedGenerate(inputSequence: seq<Dict>, round: int): (r: Result<Dict>)
    ensures round > |inputSequence| ==> r == Err(NoInputFor(round))
    ensures 1 <= round <= |inputSequence| ==> r == Ok(inputSequence[round - 1])
    ensures round <= 0 ==>
      (r.Ok? <==> |inputSequence| + round - 1 >= 0) &&
      (r.Ok? ==> r.value == inputSequence[|inputSequence| + round - 1]) &&
      (r.Err? ==> r.error == IndexOutOfRange)
  {
    if round > |inputSequence| then Err(NoInputFor(round))
    else
      var index := round - 1;
      if index >= 0 then Ok(inputSequence[index])
      else if index + |inputSequence| >= 0 then Ok(inputSequence[index + |inputSequence|])
      else Err(IndexOutOfRange)
  }

  /** Every round from 1 to the length of the sequence gets its own dict. */
  lemma FixedCoversRounds(inputSequence: seq<Dict>, n: int)
    requires 1 <= n
    ensures FixedGenerate(inputSequence, n).Ok? <==> n <= |inputSequence|
  {
  }

  /** One call into the random number generator: `randint(low, high)`,
      `uniform(low, high)` or `choice(options)`. */
  datatype Draw = RandInt(low: Value, high: Value) | Uniform(low: Value, high: Value) | Choice(options: Value)

  /** The seeded generator: the value of its n-th draw, or the exception
      the draw raises (a bound of the wrong type, an empty `choices`). */
  type Rng = (nat, Draw) -> Result<Value>

  /** `spec.get(key, default)` */
  function SpecGet(spec: Dict, key: string, default: Value): Value
  {
    if key in spec then spec[key] else default
  }

  function UnknownType(inputType: Value, show: Show): Error
  {
    Error(ValueError, "Unknown input type: " + show(inputType))
  }

  function NoSpec(name: string): Error
  {
    Error(ValueError, "No specification found for input '" + name + "'")
  }

  /** The draw a specification asks for: the type defaults to `int`, whose
      bounds default to 0 and 100; `float` bounds default to 0.0 and 1.0;
      `bool` chooses between True and False; `str` chooses from `choices`,
      by default `['a', 'b', 'c']`; any other type is rejected. */
  function DrawFor(spec: Dict, show: Show): Result<Draw>
  {
    var inputType := SpecGet(spec, "type", VStr("int"));
    if inputType == VStr("int") then Ok(RandInt(SpecGet(spec, "min", VInt(0)), SpecGet(spec, "max", VInt(100))))
    else if inputType == VStr("float") then Ok(Uniform(SpecGet(spec, "min", VReal(0.0)), SpecGet(spec, "max", VReal(1.0))))
    else if inputType == VStr("bool") then Ok(Choice(VList([VBool(true), VBool(false)])))
    else if inputType == VStr("str") then Ok(Choice(SpecGet(spec, "choices", VList([VStr("a"), VStr("b"), VStr("c")]))))
    else Err(UnknownType(inputType, show))
  }

  /** A specification naming no type draws an integer from 0 to 100 unless
      it gives bounds; a `str` one without choices picks from a, b, c; only
      the four known types are accepted. */
  lemma DrawDefaults(spec: Dict, show: Show)
    ensures "type" !in spec ==>
      DrawFor(spec, show) == Ok(RandInt(SpecGet(spec, "min", VInt(0)), SpecGet(spec, "max", VInt(100))))
    ensures "type" !in spec && "min" !in spec && "max" !in spec ==> DrawFor(spec, show) == Ok(RandInt(VInt(0), VInt(100)))
    ensures "type" in spec && spec["type"] == VStr("str") && "choices" !in spec ==>
      DrawFor(spec, show) == Ok(Choice(VList([VStr("a"), VStr("b"), VStr("c")])))
    ensures DrawFor(spec, show).Err? <==>
      "type" in spec && spec["type"] !in {VStr("int"), VStr("float"), VStr("bool"), VStr("str")}
    ensures DrawFor(spec, show).Err? ==> DrawFor(spec, show).error == UnknownType(spec["type"], show)
  {
  }

  /** What a call of `generate` leaves: its result and the number of draws
      the generator has then made. */
  datatype Generated = Generated(result: Result<Dict>, draws: nat)

  /** The generation loop from a given point: each name in turn gets the
      value of the next draw its specification asks for; the first name
      without a specification, of an unknown type, or whose draw raises,
      stops the loop with that error. */
  function GenerateFrom(specs: map<string, Dict>, names: seq<string>, acc: Dict, draws: nat, rng: Rng, show: Show): Generated
    decreases |names|
  {
    if names == [] then Generated(Ok(acc), draws)
    else
      var name := names[0];
      if name !in specs then Generated(Err(NoSpec(name)), draws)
      else
        match DrawFor(specs[name], show)
        case Err(e) => Generated(Err(e), draws)
        case Ok(d) =>
          match rng(draws, d)
          case Err(e) => Generated(Err(e), draws + 1)
          case Ok(v) => GenerateFrom(specs, names[1..], acc[name := v], draws + 1, rng, show)
  }

  /** The name has a specification of a known type. */
  predicate Acceptable(specs: map<string, Dict>, name: string, show: Show)
  {
    name in specs && DrawFor(specs[name], show).Ok?
  }

  /** k is the first position of a name that is not acceptable. */
  predicate FirstRejected(specs: map<string, Dict>, names: seq<string>, k: int, show: Show)
  {
    0 <= k < |names| && !Acceptable(specs, names[k], show) &&
    forall j :: 0 <= j < k ==> Acceptable(specs, names[j], show)
  }

  /** The error `generate` raises for a name that is not acceptable. */
  function Rejection(specs: map<string, Dict>, name: string, show: Show): Error
    requires !Acceptable(specs, name, show)
  {
    if name !in specs then NoSpec(name) else DrawFor(specs[name], show).error
  }

  /** No draw raises. */
  ghost predicate RngTotal(rng: Rng)
  {
    forall n, d :: rng(n, d).Ok?
  }

  /** A successful generation has exactly the requested names as keys
      (besides those it started with), one draw per name. */
  lemma {:induction false} GenerateKeys(specs: map<string, Dict>, names: seq<string>, acc: Dict, draws: nat, rng: Rng, show: Show)
    ensures var g := GenerateFrom(specs, names, acc, draws, rng, show);
      g.result.Ok? ==> g.result.value.Keys == acc.Keys + (set k | k in names) && g.draws == draws + |names|
    decreases |names|
  {
    if names != [] && names[0] in specs && DrawFor(specs[names[0]], show).Ok? {
      var d := DrawFor(specs[names[0]], show).value;
      if rng(draws, d).Ok? {
        GenerateKeys(specs, names[1..], acc[names[0] := rng(draws, d).value], draws + 1, rng, show);
        assert (set k | k in names) == {names[0]} + (set k | k in names[1..]);
      }
    }
  }

  /** A requested name without a specification, or with one of an unknown
      type, makes generation fail; when no draw raises, the error is the
      one for the first such name, and generation succeeds when there is
      none. */
  lemma {:induction false} GenerateErrors(specs: map<string, Dict>, names: seq<string>, acc: Dict, draws: nat, rng: Rng, show: Show)
    ensures var g := GenerateFrom(specs, names, acc, draws, rng, show);
      (exists k :: 0 <= k < |names| && !Acceptable(specs, names[k], show)) ==> g.result.Err?
    ensures var g := GenerateFrom(specs, names, acc, draws, rng, show);
      forall k :: FirstRejected(specs, names, k, show) && RngTotal(rng) ==> g.result == Err(Rejection(specs, names[k], show))
    ensures (forall k :: 0 <= k < |names| ==> Acceptable(specs, names[k], show)) && RngTotal(rng) ==>
      GenerateFrom(specs, names, acc, draws, rng, show).result.Ok?
    decreases |names|
  {
    if names != [] && Acceptable(specs, names[0], show) {
      var d := DrawFor(specs[names[0]], show).value;
      if rng(draws, d).Ok? {
        GenerateErrors(specs, names[1..], acc[names[0] := rng(draws, d).value], draws + 1, rng, show);
        assert forall k :: 1 <= k < |names| ==> names[k] == names[1..][k - 1];
        forall k | FirstRejected(specs, names, k, show)
          ensures FirstRejected(specs, names[1..], k - 1, show)
        {
        }
      }
    }
  }

  class RandomInputGenerator {
    const inputSpecs: map<string, Dict>
    /** How many draws the generator has made since it was seeded: with the
        seed (which selects the `Rng`), its whole state. */
    var draws: nat

    constructor (inputSpecs: map<string, Dict>)
      ensures this.inputSpecs == inputSpecs && draws == 0
    {
      this.inputSpecs := inputSpecs;
      draws := 0;
    }

    /** `RandomInputGenerator.generate` (round and state are unused). */
    method Generate(names: seq<string>, rng: Rng, show: Show) returns (r: Result<Dict>)
      modifies this
      ensures var g := GenerateFrom(inputSpecs, names, map[], old(draws), rng, show);
        r == g.result && draws == g.draws
    {
      ghost var goal := GenerateFrom(inputSpecs, names, map[], draws, rng, show);
      var inputs: Dict := map[];
      var i := 0;
      while i < |names|
        invariant 0 <= i <= |names|
        invariant GenerateFrom(inputSpecs, names[i..], inputs, draws, rng, show) == goal
      {
        var name := names[i];
        assert names[i..][1..] == names[i + 1..];
        if name !in inputSpecs {
          return Err(NoSpec(name));
        }
        var d := DrawFor(inputSpecs[name], show);
        if d.Err? {
          return Err(d.error);
        }
        var v := rng(draws, d.value);
        draws := draws + 1;
        if v.Err? {
          return Err(v.error);
        }
        inputs := inputs[name := v.value];
        i := i + 1;
      }
      return Ok(inputs);
    }
  }

  /** The generator an executor is given. */
  datatype InputSource = Fixed(inputSequence: seq<Dict>) | Random(generator: RandomInputGenerator)

  function SourceFootprint(source: InputSource): set<object>
  {
    if source.Random? then {source.generator} else {}
  }

  /** What `generate` returns for a round, given the generator's state. */
  function Expected(source: InputSource, names: seq<string>, round: int, rng: Rng, show: Show): Result<Dict>
    reads SourceFootprint(source)
  {
    match source
    case Fixed(inputSequence) => FixedGenerate(inputSequence, round)
    case Random(generator) => GenerateFrom(generator.inputSpecs, names, map[], generator.draws, rng, show).result
  }

  /** `input_generator.generate(input_names, round_number, current_state)`. */
  method Generate(source: InputSource, names: seq<string>, round: int, rng: Rng, show: Show) returns (r: Result<Dict>)
    modifies SourceFootprint(source)
    ensures r == old(Expected(source, names, round, rng, show))
    ensures source.Random? ==>
      source.generator.draws == GenerateFrom(source.generator.inputSpecs, names, map[], old(source.generator.draws), rng, show).draws
  {
    match source
    case Fixed(inputSequence) =>
      r := FixedGenerate(inputSequence, round);
    case Random(generator) =>
      r := generator.Generate(names, rng, show);
  }
}
