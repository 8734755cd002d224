/** The pieces of the command-line front end (cli.py) that compute
    something: the two option-string parsers and the choice of termination
    condition.  Argument parsing, printing and exiting are not modelled. */
module Cli {
  import opened Values
  import opened Termination
  import opened Components

  /** Python's `float(s)`: `None` where it raises ValueError. */
  type FloatParser = string -> Option<real>

  /** Both option strings are comma-separated lists of `key...` items that
      fill a dictionary in order, a later item replacing an earlier one with
      the same key; the first item that does not read stops the parse. */
  function Collect<T>(items: seq<string>, read: string -> Result<(string, T)>): Result<map<string, T>>
    decreases |items|
  {
    if items == [] then Ok(map[])
    else
      var earlier :- Collect(items[..|items| - 1], read);
      var entry :- read(items[|items| - 1]);
      Ok(earlier[entry.0 := entry.1])
  }

  /** The item at k is the last one to name `key`. */
  predicate LastFor<T>(items: seq<string>, read: string -> Result<(string, T)>, k: int, key: string)
  {
    0 <= k < |items| && read(items[k]).Ok? && read(items[k]).value.0 == key &&
    forall j :: k < j < |items| ==> read(items[j]).Ok? && read(items[j]).value.0 != key
  }

  /** What the loop builds: it fails exactly when some item does not read,
      with the error of the first such item; otherwise its keys are the keys
      the items name, and each key holds what the last item naming it read. */
  lemma {:induction false} CollectMeaning<T>(items: seq<string>, read: string -> Result<(string, T)>)
    ensures Collect(items, read).Ok? <==> forall k :: 0 <= k < |items| ==> read(items[k]).Ok?
    ensures Collect(items, read).Err? ==>
      exists k :: 0 <= k < |items| && read(items[k]).Err? && Collect(items, read).error == read(items[k]).error &&
        forall j :: 0 <= j < k ==> read(items[j]).Ok?
    ensures Collect(items, read).Ok? ==>
      forall key :: key in Collect(items, read).value <==>
        exists k :: 0 <= k < |items| && read(items[k]).value.0 == key
    ensures Collect(items, read).Ok? ==>
      forall k, key :: LastFor(items, read, k, key) ==> Collect(items, read).value[key] == read(items[k]).value.1
    decreases |items|
  {
    if items != [] {
      var n := |items| - 1;
      var init := items[..n];
      CollectMeaning(init, read);
      assert forall k :: 0 <= k < n ==> init[k] == items[k];
      if Collect(items, read).Ok? {
        var m := Collect(items, read).value;
        var entry := read(items[n]).value;
        forall key ensures key in m <==> exists k :: 0 <= k < |items| && read(items[k]).value.0 == key {
          if key in m && key != entry.0 {
            var k :| 0 <= k < |init| && read(init[k]).value.0 == key;
            assert read(items[k]).value.0 == key;
          }
          if key == entry.0 {
            assert read(items[n]).value.0 == key;
          }
        }
        forall k, key | LastFor(items, read, k, key) ensures m[key] == read(items[k]).value.1 {
          if k < n {
            assert LastFor(init, read, k, key);
          }
        }
      }
    }
  }

  /** The loop of `parse_random_inputs` and `parse_initial_inputs`: one
      dictionary update per item, in order. */
  method CollectItems<T>(items: seq<string>, read: string -> Result<(string, T)>) returns (r: Result<map<string, T>>)
    ensures r == Collect(items, read)
  {
    var d: map<string, T> := map[];
    for i := 0 to |items|
      invariant Collect(items[..i], read) == Ok(d)
    {
      assert items[..i + 1][..i] == items[..i];
      var entry := read(items[i]);
      if entry.Err? {
        CollectFailurePersists(items, i + 1, read);
        return Err(entry.error);
      }
      d := d[entry.value.0 := entry.value.1];
    }
    assert items[..|items|] == items;
    r := Ok(d);
  }

  /** A failure in a prefix is the failure of the whole list. */
  lemma {:induction false} CollectFailurePersists<T>(items: seq<string>, n: nat, read: string -> Result<(string, T)>)
    requires n <= |items| && Collect(items[..n], read).Err?
    ensures Collect(items, read) == Collect(items[..n], read)
    decreases |items| - n
  {
    if n < |items| {
      assert items[..n + 1][..n] == items[..n];
      CollectFailurePersists(items, n + 1, read);
    } else {
      assert items[..n] == items;
    }
  }

  // ---------------------------------------------------------------- random inputs

  /** `int(s)` as `parse_random_inputs` calls it: the ValueError it raises. */
  function IntField(s: string): (r: Result<Value>)
    ensures r.Ok? <==> ParseInt(s).Some?
    ensures r.Ok? ==> r.value == VInt(ParseInt(s).value)
  {
    match ParseInt(s)
    case Some(n) => Ok(VInt(n))
    case None => Err(Error(ValueError, "invalid literal for int() with base 10: '" + s + "'"))
  }

  /** `float(s)`, with the ValueError it raises. */
  function FloatField(s: string, floatOf: FloatParser): (r: Result<Value>)
    ensures r.Ok? <==> floatOf(s).Some?
    ensures r.Ok? ==> r.value == VReal(floatOf(s).value)
  {
    match floatOf(s)
    case Some(x) => Ok(VReal(x))
    case None => Err(Error(ValueError, "could not convert string to float: '" + s + "'"))
  }

  /** The message has no placeholder filled in: the source's string is not an
      f-string, so the braces appear literally. */
  const InvalidRandomSpec := Error(ValueError, "Invalid input spec: {item}")

  /** A bound of an `int` or `float` item, read by `int()` or `float()`. */
  function Bound(inputType: string, s: string, floatOf: FloatParser): Result<Value>
  {
    if inputType == "int" then IntField(s) else FloatField(s, floatOf)
  }

  /** One `name:type[:min:max]` item of `parse_random_inputs`.  Bounds are
      read only for `int` and `float` items with at least four parts; other
      parts are ignored. */
  function RandomItem(item: string, floatOf: FloatParser): (r: Result<(string, Dict)>)
    ensures |Split(item, ':')| < 2 ==> r == Err(InvalidRandomSpec)
    ensures r.Err? && |Split(item, ':')| >= 2 ==> r.error.kind == ValueError
  {
    var parts := Split(item, ':');
    if |parts| < 2 then Err(InvalidRandomSpec)
    else
      var inputType := parts[1];
      if (inputType == "int" || inputType == "float") && |parts| >= 4 then
        var low :- Bound(inputType, parts[2], floatOf);
        var high :- Bound(inputType, parts[3], floatOf);
        Ok((parts[0], map["type" := VStr(inputType), "min" := low, "max" := high]))
      else Ok((parts[0], map["type" := VStr(inputType)]))
  }

  /** What an item reads as: its name is its first part and its type the
      second; `min` and `max` are present exactly for an `int` or `float`
      item with at least four parts, integer-parsed for `int` and
      float-parsed for `float`; the item fails exactly when it has fewer
      than two parts or one of those bounds does not parse. */
  lemma RandomItemMeaning(item: string, floatOf: FloatParser)
    ensures var parts := Split(item, ':');
      var bounded := |parts| >= 4 && (parts[1] == "int" || parts[1] == "float");
      var r := RandomItem(item, floatOf);
      (r.Ok? <==> |parts| >= 2 && (bounded ==>
        (parts[1] == "int" ==> ParseInt(parts[2]).Some? && ParseInt(parts[3]).Some?) &&
        (parts[1] == "float" ==> floatOf(parts[2]).Some? && floatOf(parts[3]).Some?))) &&
      (r.Ok? ==>
        r.value.0 == parts[0] && "type" in r.value.1 && r.value.1["type"] == VStr(parts[1]) &&
        (r.value.1.Keys == if bounded then {"type", "min", "max"} else {"type"}) &&
        (bounded && parts[1] == "int" ==>
          ParseInt(parts[2]).Some? && ParseInt(parts[3]).Some? &&
          r.value.1["min"] == VInt(ParseInt(parts[2]).value) && r.value.1["max"] == VInt(ParseInt(parts[3]).value)) &&
        (bounded && parts[1] == "float" ==>
          floatOf(parts[2]).Some? && floatOf(parts[3]).Some? &&
          r.value.1["min"] == VReal(floatOf(parts[2]).value) && r.value.1["max"] == VReal(floatOf(parts[3]).value)))
  {
    var parts := Split(item, ':');
    if |parts| >= 2 {
      assert "type"[0] != "min"[0] && "type"[0] != "max"[0] && "min"[2] != "max"[2];
      assert "int"[0] != "float"[0];
    }
  }

  /** `parse_random_inputs`: the per-name specifications that the random
      input generator takes, read from `name:type[:min:max],...`. */
  method ParseRandomInputs(inputStr: string, floatOf: FloatParser) returns (r: Result<map<string, Dict>>)
    ensures r == Collect(Split(inputStr, ','), s => RandomItem(s, floatOf))
  {
    r := CollectItems(Split(inputStr, ','), s => RandomItem(s, floatOf));
  }

  /** Splitting at the first separator: the part before it, then the pieces
      of the rest. */
  lemma SplitFirst(a: string, b: string, sep: char)
    requires sep !in a
    ensures Split(a + [sep] + b, sep) == [a] + Split(b, sep)
  {
    var s := a + [sep] + b;
    assert s[|a|] == sep && s[..|a|] == a && s[|a| + 1..] == b;
    assert IndexOf(s, sep) == Some(|a|);
  }

  /** A piece that holds no separator splits into itself. */
  lemma SplitNone(a: string, sep: char)
    requires sep !in a
    ensures Split(a, sep) == [a]
  {
  }

  /** The text of an integer has no separator of either option string and
      no surrounding whitespace. */
  lemma IntText(n: int)
    ensures ':' !in IntToString(n) && ',' !in IntToString(n) && '=' !in IntToString(n)
    ensures Strip(IntToString(n)) == IntToString(n)
  {
    var s := IntToString(n);
    var d := NatToString(if n < 0 then -n else n);
    assert forall k :: 0 <= k < |d| ==> IsDigit(d[k]);
    if n < 0 {
      assert s == "-" + d;
      assert forall k :: 1 <= k < |s| ==> s[k] == d[k - 1];
      assert s[|s| - 1] == d[|d| - 1];
    }
    StripUnchanged(s);
  }

  /** Splitting undoes joining, for pieces that hold no separator. */
  lemma {:induction false} SplitJoin(pieces: seq<string>, sep: char)
    requires |pieces| >= 1 && forall k :: 0 <= k < |pieces| ==> sep !in pieces[k]
    ensures Split(Join(pieces, sep), sep) == pieces
  {
    if |pieces| > 1 {
      SplitJoin(pieces[1..], sep);
      SplitFirst(pieces[0], Join(pieces[1..], sep), sep);
    }
  }

  /** Writing an integer range the way the help text shows
      (`name:int:low:high`) and parsing it gives that range back. */
  lemma IntRangeRoundTrip(name: string, low: int, high: int, floatOf: FloatParser)
    requires ':' !in name
    ensures RandomItem(Join([name, "int", IntToString(low), IntToString(high)], ':'), floatOf) ==
      Ok((name, map["type" := VStr("int"), "min" := VInt(low), "max" := VInt(high)]))
  {
    var parts := [name, "int", IntToString(low), IntToString(high)];
    IntText(low);
    IntText(high);
    SplitJoin(parts, ':');
    IntRoundTrip(low);
    IntRoundTrip(high);
  }

  // ---------------------------------------------------------------- initial inputs

  /** How `parse_initial_inputs` reads a value: an integer if `int()` takes
      it, else a float if `float()` takes it, else `true`/`false` in any
      letter case as a boolean, else the text itself. */
  function Classify(value: string, floatOf: FloatParser): (r: Value)
    ensures ParseInt(value).Some? ==> r == VInt(ParseInt(value).value)
    ensures ParseInt(value).None? && floatOf(value).Some? ==> r == VReal(floatOf(value).value)
    ensures ParseInt(value).None? && floatOf(value).None? ==>
      r == if Lower(value) == "true" then VBool(true) else if Lower(value) == "false" then VBool(false) else VStr(value)
  {
    match ParseInt(value)
    case Some(n) => VInt(n)
    case None =>
      match floatOf(value)
      case Some(x) => VReal(x)
      case None =>
        var lowered := Lower(value);
        if lowered in ["true", "false"] then VBool(lowered == "true") else VStr(value)
  }

  /** One `key=value` pair: split at the first `=`, both sides stripped. */
  function InitialPair(pair: string, floatOf: FloatParser): (r: Result<(string, Value)>)
    ensures r.Err? <==> '=' !in pair
    ensures r.Err? ==> r.error == Error(ValueError, "Invalid initial input format: " + pair)
    ensures r.Ok? ==>
      exists k :: 0 <= k < |pair| && pair[k] == '=' && '=' !in pair[..k] &&
        r.value == (Strip(pair[..k]), Classify(Strip(pair[k + 1..]), floatOf))
  {
    match IndexOf(pair, '=')
    case None => Err(Error(ValueError, "Invalid initial input format: " + pair))
    case Some(k) =>
      assert 0 <= k < |pair| && pair[k] == '=' && '=' !in pair[..k];
      Ok((Strip(pair[..k]), Classify(Strip(pair[k + 1..]), floatOf)))
  }

  /** `parse_initial_inputs`: the dictionary read from `key=value,...`. */
  method ParseInitialInputs(inputStr: string, floatOf: FloatParser) returns (r: Result<Dict>)
    ensures r == Collect(Split(inputStr, ','), s => InitialPair(s, floatOf))
  {
    r := CollectItems(Split(inputStr, ','), s => InitialPair(s, floatOf));
  }

  /** `key=n` with an integer n reads as that integer under the stripped key. */
  lemma InitialIntPair(key: string, n: int, floatOf: FloatParser)
    requires '=' !in key
    ensures InitialPair(key + "=" + IntToString(n), floatOf) == Ok((Strip(key), VInt(n)))
  {
    var v := IntToString(n);
    IntText(n);
    IntRoundTrip(n);
    var pair := key + "=" + v;
    assert pair[|key|] == '=' && pair[..|key|] == key && pair[|key| + 1..] == v;
    assert IndexOf(pair, '=') == Some(|key|);
  }

  /** `key=n` on its own reads back as the one-entry dictionary it writes. */
  lemma InitialIntRoundTrip(key: string, n: int, floatOf: FloatParser)
    requires '=' !in key && ',' !in key
    ensures Collect(Split(key + "=" + IntToString(n), ','), s => InitialPair(s, floatOf)) == Ok(map[Strip(key) := VInt(n)])
  {
    var v := IntToString(n);
    IntText(n);
    var pair := key + "=" + v;
    assert ',' !in pair by {
      assert forall k :: 0 <= k < |pair| ==> pair[k] == (if k < |key| then key[k] else if k == |key| then '=' else v[k - |key| - 1]);
    }
    SplitNone(pair, ',');
    InitialIntPair(key, n, floatOf);
    var items := [pair];
    assert items[..0] == [];
  }

  /** A value reads as a boolean exactly when it is neither an integer nor a
      float and spells `true` or `false` in some letter case. */
  lemma ClassifyBool(value: string, floatOf: FloatParser)
    ensures Classify(value, floatOf).VBool? <==>
      ParseInt(value).None? && floatOf(value).None? && (Lower(value) == "true" || Lower(value) == "false")
    ensures Classify(value, floatOf).VBool? ==> (Classify(value, floatOf).b <==> Lower(value) == "true")
  {
  }

  // ---------------------------------------------------------------- termination

  /** The termination options as argparse leaves them (`None` when absent). */
  datatype Options = Options(rounds: Option<int>, maxTime: Option<real>, maxEvents: Option<int>, condition: Option<string>)

  /** Python truthiness of an option: present and not zero or empty. */
  predicate IntGiven(o: Option<int>) { o.Some? && o.value != 0 }
  predicate RealGiven(o: Option<real>) { o.Some? && o.value != 0.0 }
  predicate TextGiven(o: Option<string>) { o.Some? && o.value != "" }

  /** An asynchronous component asked to stop after some rounds: the source
      names `MaxEventCondition`, which does not exist. */
  const NoMaxEventCondition := UndefinedName("MaxEventCondition")

  /** A condition built only when its option is given. */
  function Wanted(given: bool, made: Result<Condition>): (r: Result<seq<Condition>>)
    ensures !given ==> r == Ok([])
    ensures given ==> (r.Ok? <==> made.Ok?)
  {
    if !given then Ok([])
    else
      var c :- made;
      Ok([c])
  }

  /** The conditions `main` appends, in order, before the default. */
  function Requested(o: Options, isAsync: bool, compile: Compiler): Result<seq<Condition>>
  {
    if isAsync then
      if IntGiven(o.rounds) then Err(NoMaxEventCondition)
      else
        var time :- Wanted(RealGiven(o.maxTime), if o.maxTime.Some? then NewMaxTime(o.maxTime.value) else Ok(EmptyQueue));
        var events :- Wanted(IntGiven(o.maxEvents), if o.maxEvents.Some? then NewMaxEvents(o.maxEvents.value) else Ok(EmptyQueue));
        var state :- Wanted(TextGiven(o.condition), if o.condition.Some? then NewStateCondition(o.condition.value, compile) else Ok(EmptyQueue));
        Ok(time + events + state)
    else
      var rounds :- Wanted(IntGiven(o.rounds), if o.rounds.Some? then NewMaxRounds(o.rounds.value) else Ok(EmptyQueue));
      var state :- Wanted(TextGiven(o.condition), if o.condition.Some? then NewStateCondition(o.condition.value, compile) else Ok(EmptyQueue));
      Ok(rounds + state)
  }

  /** The termination condition `main` hands to the executor: the requested
      conditions, or the default when none is, a single one on its own and
      several under a composite. */
  function Chosen(o: Options, isAsync: bool, compile: Compiler): Result<Condition>
  {
    var requested :- Requested(o, isAsync, compile);
    var conditions := if requested == [] then [if isAsync then EmptyQueue else MaxRounds(10)] else requested;
    if |conditions| == 1 then Ok(conditions[0]) else NewComposite(conditions)
  }

  /** `main`'s construction of the termination condition, appending to a
      list as the source does. */
  method ChooseTermination(o: Options, isAsync: bool, compile: Compiler) returns (r: Result<Condition>)
    ensures r == Chosen(o, isAsync, compile)
  {
    var conditions: seq<Condition> := [];
    if isAsync {
      if IntGiven(o.rounds) {
        return Err(NoMaxEventCondition);
      }
      if RealGiven(o.maxTime) {
        var c :- NewMaxTime(o.maxTime.value);
        conditions := conditions + [c];
      }
      if IntGiven(o.maxEvents) {
        var c :- NewMaxEvents(o.maxEvents.value);
        conditions := conditions + [c];
      }
      if TextGiven(o.condition) {
        var c :- NewStateCondition(o.condition.value, compile);
        conditions := conditions + [c];
      }
      assert Requested(o, isAsync, compile).Ok? && Requested(o, isAsync, compile).value == conditions;
      if conditions == [] {
        conditions := conditions + [EmptyQueue];
      }
    } else {
      if IntGiven(o.rounds) {
        var c :- NewMaxRounds(o.rounds.value);
        conditions := conditions + [c];
      }
      if TextGiven(o.condition) {
        var c :- NewStateCondition(o.condition.value, compile);
        conditions := conditions + [c];
      }
      assert Requested(o, isAsync, compile).Ok? && Requested(o, isAsync, compile).value == conditions;
      if conditions == [] {
        conditions := conditions + [MaxRounds(10)];
      }
    }
    if |conditions| == 1 {
      r := Ok(conditions[0]);
    } else {
      r := NewComposite(conditions);
    }
  }

  /** With no termination option given, an asynchronous component stops when
      its queue is empty and a synchronous one after ten rounds. */
  lemma DefaultTermination(o: Options, isAsync: bool, compile: Compiler)
    requires !IntGiven(o.rounds) && !TextGiven(o.condition)
    requires isAsync ==> !RealGiven(o.maxTime) && !IntGiven(o.maxEvents)
    ensures Chosen(o, isAsync, compile) == Ok(if isAsync then EmptyQueue else MaxRounds(10))
  {
  }

  /** `--rounds` always fails for an asynchronous component. */
  lemma AsyncRoundsFail(o: Options, compile: Compiler)
    requires IntGiven(o.rounds)
    ensures Chosen(o, true, compile) == Err(NoMaxEventCondition)
  {
  }

  /** A synchronous component ignores `--max-time` and `--max-events`. */
  lemma SyncIgnoresClockOptions(o: Options, compile: Compiler)
    ensures Chosen(o, false, compile) == Chosen(o.(maxTime := None, maxEvents := None), false, compile)
  {
  }

  /** Whatever is chosen is a condition its constructors accept, with every
      composite non-empty. */
  lemma ChosenWellFormed(o: Options, isAsync: bool, compile: Compiler)
    requires Chosen(o, isAsync, compile).Ok?
    ensures WellFormed(Chosen(o, isAsync, compile).value)
  {
    var requested := Requested(o, isAsync, compile).value;
    assert forall k :: 0 <= k < |requested| ==> WellFormed(requested[k]);
  }

  /** The choice fails only where a requested condition's constructor
      rejects its argument (or for `--rounds` on an asynchronous component). */
  lemma ChosenFailure(o: Options, isAsync: bool, compile: Compiler)
    ensures Chosen(o, isAsync, compile).Err? <==>
      (isAsync && IntGiven(o.rounds)) ||
      (isAsync && RealGiven(o.maxTime) && o.maxTime.value < 0.0) ||
      (isAsync && IntGiven(o.maxEvents) && o.maxEvents.value < 0) ||
      (!isAsync && IntGiven(o.rounds) && o.rounds.value < 0) ||
      (TextGiven(o.condition) && compile(o.condition.value).Some?)
  {
  }

  /** Returning a lone condition instead of wrapping it changes nothing: a
      composite of one condition answers as that condition does. */
  lemma LoneConditionUnwrapped(c: Condition, round: int, state: Dict, x: Extras, eval: Evaluator)
    ensures ShouldTerminate(Composite([c]), round, state, x, eval) == ShouldTerminate(c, round, state, x, eval)
  {
    var r := ShouldTerminate(c, round, state, x, eval);
    assert AnyFrom(Composite([c]), 1, round, state, x, eval) == Ok(false);
    assert r.Ok? && !r.value ==> AnyFrom(Composite([c]), 0, round, state, x, eval) == Ok(false);
  }
}
