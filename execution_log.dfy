/** The record of a run (execution_log.py): one `RoundRecord` per logged
    round, held in an append-only list with lookup by round number.  The
    JSON and CSV writers are not part of this model. */
module ExecutionLogs {
  import opened Values

  /** A logged round; `taskOrder` is None when it was not recorded. */
  datatype RoundRecord = RoundRecord(roundNumber: int, inputs: Dict, outputs: Dict, state: Dict, taskOrder: Option<seq<string>>)

  /** A list of names as a Python list of strings. */
  function StrList(names: seq<string>): (v: seq<Value>)
    ensures |v| == |names| && forall k :: 0 <= k < |names| ==> v[k] == VStr(names[k])
  {
    seq(|names|, k requires 0 <= k < |names| => VStr(names[k]))
  }

  /** `RoundRecord.to_dict`: the four fixed fields, and `task_order` only
      when it was recorded. */
  function ToDict(r: RoundRecord): (d: Dict)
    ensures "round" in d && "inputs" in d && "outputs" in d && "state" in d
    ensures "task_order" in d <==> r.taskOrder.Some?
    ensures d.Keys <= {"round", "inputs", "outputs", "state", "task_order"}
  {
    var record := map["round" := VInt(r.roundNumber), "inputs" := VDict(r.inputs), "outputs" := VDict(r.outputs), "state" := VDict(r.state)];
    if r.taskOrder.Some? then record["task_order" := VList(StrList(r.taskOrder.value))] else record
  }

  /** The names in a list of values that are all strings. */
  function StrItems(v: seq<Value>): (r: Option<seq<string>>)
    ensures r.Some? ==> StrList(r.value) == v
  {
    if v == [] then Some([])
    else if !v[0].VStr? then None
    else
      match StrItems(v[1..])
      case None => None
      case Some(rest) =>
        assert StrList([v[0].s] + rest) == [v[0]] + StrList(rest);
        assert v == [v[0]] + v[1..];
        Some([v[0].s] + rest)
  }

  /** Reads a record back from the dict `to_dict` writes. */
  function FromDict(d: Dict): Option<RoundRecord>
  {
    if "round" in d && d["round"].VInt? && "inputs" in d && d["inputs"].VDict? &&
       "outputs" in d && d["outputs"].VDict? && "state" in d && d["state"].VDict?
    then
      var order :=
        if "task_order" !in d then Some(None)
        else if !d["task_order"].VList? then None
        else match StrItems(d["task_order"].items)
             case None => None
             case Some(names) => Some(Some(names));
      if order.None? then None
      else Some(RoundRecord(d["round"].i, d["inputs"].entries, d["outputs"].entries, d["state"].entries, order.value))
    else None
  }

  lemma {:induction false} StrItemsOfStrList(names: seq<string>)
    ensures StrItems(StrList(names)) == Some(names)
  {
    if names != [] {
      StrItemsOfStrList(names[1..]);
      assert StrList(names)[1..] == StrList(names[1..]);
      assert [names[0]] + names[1..] == names;
    }
  }

  /** `to_dict` loses nothing: the record can be read back from it. */
  lemma ToDictRoundTrip(r: RoundRecord)
    ensures FromDict(ToDict(r)) == Some(r)
  {
    if r.taskOrder.Some? {
      StrItemsOfStrList(r.taskOrder.value);
    }
  }

  /** The first record with the given round number, if any. */
  function FirstRound(rounds: seq<RoundRecord>, roundNumber: int): (r: Option<RoundRecord>)
    ensures r.None? <==> forall k :: 0 <= k < |rounds| ==> rounds[k].roundNumber != roundNumber
    ensures r.Some? ==>
      exists k :: 0 <= k < |rounds| && rounds[k] == r.value && r.value.roundNumber == roundNumber &&
        forall j :: 0 <= j < k ==> rounds[j].roundNumber != roundNumber
  {
    if rounds == [] then None
    else if rounds[0].roundNumber == roundNumber then Some(rounds[0])
    else
      var r := FirstRound(rounds[1..], roundNumber);
      assert forall k :: 1 <= k < |rounds| ==> rounds[k] == rounds[1..][k - 1];
      r
  }

  /** In a log whose records are numbered 1, 2, ... in order, as the round
      executor writes it, round n is the n-th record. */
  lemma NumberedLookup(rounds: seq<RoundRecord>, n: int)
    requires forall k :: 0 <= k < |rounds| ==> rounds[k].roundNumber == k + 1
    requires 1 <= n <= |rounds|
    ensures FirstRound(rounds, n) == Some(rounds[n - 1])
  {
    var r := FirstRound(rounds, n);
    assert rounds[n - 1].roundNumber == n;
    var k :| 0 <= k < |rounds| && rounds[k] == r.value && r.value.roundNumber == n;
    assert k == n - 1;
  }

  class ExecutionLog {
    var rounds: seq<RoundRecord>

    /** A new log is empty. */
    constructor ()
      ensures rounds == [] && Length() == 0
    {
      rounds := [];
    }

    /** `len(log)` */
    function Length(): nat
      reads this
    {
      |rounds|
    }

    /** `add_round`: appends one record and keeps the earlier ones. */
    method AddRound(roundNumber: int, inputs: Dict, outputs: Dict, state: Dict, taskOrder: Option<seq<string>>)
      modifies this
      ensures rounds == old(rounds) + [RoundRecord(roundNumber, inputs, outputs, state, taskOrder)]
      ensures Length() == old(Length()) + 1
    {
      rounds := rounds + [RoundRecord(roundNumber, inputs, outputs, state, taskOrder)];
    }

    /** `get_round`: a linear search for the first record with that
        number. */
    method GetRound(roundNumber: int) returns (r: Option<RoundRecord>)
      ensures r == FirstRound(rounds, roundNumber)
    {
      var i := 0;
      while i < |rounds|
        invariant 0 <= i <= |rounds|
        invariant FirstRound(rounds, roundNumber) == FirstRound(rounds[i..], roundNumber)
      {
        if rounds[i].roundNumber == roundNumber {
          return Some(rounds[i]);
        }
        assert rounds[i..][1..] == rounds[i + 1..];
        i := i + 1;
      }
      return None;
    }
  }
}
