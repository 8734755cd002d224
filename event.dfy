/** Events and the emitter a task body posts them through (event.py). */
module Events {
  import opened Values

  /** An event.  Only `time` and `priority` take part in comparisons. */
  datatype Event = Event(time: real, name: string, priority: int, data: Dict, sourceTask: Option<string>)

  /** `Event(time, name, ...)` with the dataclass defaults. */
  function NewEvent(time: real, name: string, priority: int := 0, data: Dict := map[], sourceTask: Option<string> := None): Event
  {
    Event(time, name, priority, data, sourceTask)
  }

  /** `a < b`: the generated ordering compares `(time, priority)` tuples. */
  predicate Before(a: Event, b: Event)
  {
    a.time < b.time || (a.time == b.time && a.priority < b.priority)
  }

  /** `a == b` of the dataclass: equal time and priority. */
  predicate Same(a: Event, b: Event)
  {
    a.time == b.time && a.priority == b.priority
  }

  /** The ordering is a strict weak order: any two events are ordered one
      way, the other, or compare equal, and exactly one of these holds. */
  lemma BeforeTrichotomy(a: Event, b: Event)
    ensures Before(a, b) || Before(b, a) || Same(a, b)
    ensures !(Before(a, b) && Before(b, a)) && !(Before(a, b) && Same(a, b))
  {
  }

  lemma BeforeTransitive(a: Event, b: Event, c: Event)
    requires Before(a, b) && Before(b, c)
    ensures Before(a, c)
  {
  }

  /** Name, data and source task play no part in comparisons. */
  lemma OrderIgnoresPayload(a: Event, b: Event, name: string, data: Dict, source: Option<string>)
    ensures Before(a, b) <==> Before(a.(name := name, data := data, sourceTask := source), b)
    ensures Same(a, b) <==> Same(a.(name := name, data := data, sourceTask := source), b)
  {
  }

  /** One record of the emitter's buffer. */
  datatype PendingEvent = PendingEvent(name: string, data: Dict, delay: real, priority: int)

  /** The data of an emitted event: `{'value': data}`, or `{}` for None. */
  function WrapData(data: Value): (d: Dict)
    ensures data.VNone? <==> "value" !in d
  {
    if data.VNone? then map[] else map["value" := data]
  }

  /** What a receiver reads back as the emitted value. */
  function UnwrapData(d: Dict): Value
  {
    if "value" in d then d["value"] else VNone
  }

  lemma WrapRoundTrip(data: Value)
    ensures UnwrapData(WrapData(data)) == data
  {
  }

  class EventEmitter {
    var pendingEvents: seq<PendingEvent>

    constructor ()
      ensures pendingEvents == []
    {
      pendingEvents := [];
    }

    /** `emit(event_name, data=None, delay=0.0, priority=0)`: appends one
        record. */
    method Emit(eventName: string, data: Value := VNone, delay: real := 0.0, priority: int := 0)
      modifies this
      ensures pendingEvents == old(pendingEvents) + [PendingEvent(eventName, WrapData(data), delay, priority)]
    {
      pendingEvents := pendingEvents + [PendingEvent(eventName, WrapData(data), delay, priority)];
    }

    /** `get_pending_events`: hands over the records in emission order and
        empties the buffer. */
    method GetPendingEvents() returns (events: seq<PendingEvent>)
      modifies this
      ensures events == old(pendingEvents) && pendingEvents == []
    {
      events := pendingEvents;
      pendingEvents := [];
    }
  }

  /** Emitting a sequence of calls, then draining, hands back one record per
      call, in order; a second drain hands back nothing. */
  method EmitThenDrain(calls: seq<(string, Value, real, int)>) returns (first: seq<PendingEvent>, second: seq<PendingEvent>)
    ensures |first| == |calls|
    ensures forall k :: 0 <= k < |calls| ==>
      first[k] == PendingEvent(calls[k].0, WrapData(calls[k].1), calls[k].2, calls[k].3)
    ensures second == []
  {
    var emitter := new EventEmitter();
    for i := 0 to |calls|
      invariant |emitter.pendingEvents| == i
      invariant forall k :: 0 <= k < i ==>
        emitter.pendingEvents[k] == PendingEvent(calls[k].0, WrapData(calls[k].1), calls[k].2, calls[k].3)
    {
      emitter.Emit(calls[i].0, calls[i].1, calls[i].2, calls[i].3);
    }
    first := emitter.GetPendingEvents();
    second := emitter.GetPendingEvents();
  }
}
