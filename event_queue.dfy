/** The event queue (event_queue.py): a priority queue of events keyed by
    `(time, priority, counter)`, where the counter numbers the pushes so
    that events with equal time and priority come out in push order.  The
    binary heap is abstracted to the set of entries it holds, kept here in
    push order; `pop` takes the entry with the least key. */
module EventQueues {
  import opened Values
  import opened Events

  /** The tuple `(event.time, event.priority, counter, event)` the heap
      holds. */
  datatype Entry = Entry(time: real, priority: int, counter: nat, event: Event)

  /** Lexicographic comparison of the `(time, priority, counter)` keys. */
  predicate KeyLess(a: Entry, b: Entry)
  {
    a.time < b.time ||
    (a.time == b.time && (a.priority < b.priority || (a.priority == b.priority && a.counter < b.counter)))
  }

  /** Position of the entry with the least key (the first such in a tie,
      which distinct counters rule out). */
  function MinIndex(s: seq<Entry>): (k: nat)
    requires s != []
    ensures k < |s|
    ensures forall j :: 0 <= j < |s| ==> !KeyLess(s[j], s[k])
  {
    if |s| == 1 then 0
    else
      var k := MinIndex(s[..|s| - 1]);
      if KeyLess(s[|s| - 1], s[k]) then |s| - 1 else k
  }

  /** The entries without the one at position k. */
  function Remove(s: seq<Entry>, k: nat): (r: seq<Entry>)
    requires k < |s|
    ensures |r| == |s| - 1
    ensures multiset(r) + multiset{s[k]} == multiset(s)
  {
    assert s == s[..k] + [s[k]] + s[k + 1..];
    s[..k] + s[k + 1..]
  }

  /** No two entries carry the same counter. */
  predicate CountersDistinct(s: seq<Entry>)
  {
    forall i, j :: 0 <= i < j < |s| ==> s[i].counter != s[j].counter
  }

  /** With distinct counters the least key is strictly below every other
      key: the entry `pop` takes is determined. */
  lemma MinStrict(s: seq<Entry>, j: nat)
    requires s != [] && CountersDistinct(s) && j < |s| && j != MinIndex(s)
    ensures KeyLess(s[MinIndex(s)], s[j])
  {
  }

  /** Of two entries with equal time and priority, the one pushed later is
      never taken while the earlier one is held: FIFO among ties. */
  lemma TiesInPushOrder(s: seq<Entry>, i: nat, j: nat)
    requires i < |s| && j < |s|
    requires s[i].time == s[j].time && s[i].priority == s[j].priority && s[i].counter < s[j].counter
    ensures MinIndex(s) != j
  {
  }

  /** The entries that pushing `events` one after another adds, the first
      under counter value `c`. */
  function Pushed(events: seq<Event>, c: nat): seq<Entry>
  {
    seq(|events|, k requires 0 <= k < |events| => Entry(events[k].time, events[k].priority, c + k, events[k]))
  }

  /** A queue grown by two batches is the queue grown by both at once. */
  lemma PushedTwice(s: seq<Entry>, a: seq<Event>, b: seq<Event>, c: nat)
    ensures (s + Pushed(a, c)) + Pushed(b, c + |a|) == s + Pushed(a + b, c)
  {
    PushedAppend(a, b, c);
    var x, y := Pushed(a, c), Pushed(b, c + |a|);
    assert (s + x) + y == s + (x + y);
  }

  /** Pushing two batches is pushing their concatenation. */
  lemma PushedAppend(a: seq<Event>, b: seq<Event>, c: nat)
    ensures Pushed(a + b, c) == Pushed(a, c) + Pushed(b, c + |a|)
  {
    assert forall k :: 0 <= k < |a + b| ==> Pushed(a + b, c)[k] == (Pushed(a, c) + Pushed(b, c + |a|))[k];
  }

  /** No entry is earlier than `t`. */
  predicate NotBefore(s: seq<Entry>, t: real)
  {
    forall k :: 0 <= k < |s| ==> t <= s[k].time
  }

  /** The entry `pop` takes is no earlier than a bound every entry meets, and
      no entry left behind is earlier than it. */
  lemma PopEarliest(s: seq<Entry>, t: real)
    requires s != [] && NotBefore(s, t)
    ensures t <= s[MinIndex(s)].time
    ensures NotBefore(Remove(s, MinIndex(s)), s[MinIndex(s)].time)
  {
    var k := MinIndex(s);
    var r := Remove(s, k);
    forall m | 0 <= m < |r|
      ensures s[k].time <= r[m].time
    {
      if m < k { assert r[m] == s[m]; } else { assert r[m] == s[m + 1]; }
    }
  }

  class EventQueue {
    var entries: seq<Entry>
    var counter: nat

    /** Every entry is keyed by its own event's time and priority and
        carries a distinct counter below the next one to hand out. */
    ghost predicate Valid()
      reads this
    {
      CountersDistinct(entries) &&
      forall k :: 0 <= k < |entries| ==>
        entries[k].counter < counter && entries[k].time == entries[k].event.time && entries[k].priority == entries[k].event.priority
    }

    constructor ()
      ensures entries == [] && counter == 0 && Valid()
    {
      entries := [];
      counter := 0;
    }

    /** `push`: adds the event under the next counter value. */
    method Push(event: Event)
      modifies this
      ensures entries == old(entries) + [Entry(event.time, event.priority, old(counter), event)]
      ensures counter == old(counter) + 1
      ensures old(Valid()) ==> Valid()
    {
      entries := entries + [Entry(event.time, event.priority, counter, event)];
      counter := counter + 1;
    }

    /** `pop`: removes and returns the event with the least key; None, with
        nothing changed, when the queue is empty. */
    method Pop() returns (r: Option<Event>)
      modifies this
      ensures counter == old(counter)
      ensures old(entries) == [] ==> r.None? && entries == old(entries)
      ensures old(entries) != [] ==>
        var k := MinIndex(old(entries));
        r == Some(old(entries)[k].event) && entries == Remove(old(entries), k)
      ensures old(Valid()) ==> Valid()
    {
      if entries == [] {
        return None;
      }
      var k := MinIndex(entries);
      r := Some(entries[k].event);
      ghost var before := entries;
      entries := Remove(entries, k);
      assert forall m :: 0 <= m < |entries| ==> entries[m] == if m < k then before[m] else before[m + 1];
    }

    /** `peek`: the event `pop` would return, without removing it. */
    function Peek(): (r: Option<Event>)
      reads this
      ensures r.None? <==> entries == []
      ensures r.Some? ==>
        exists k :: 0 <= k < |entries| && entries[k].event == r.value &&
          forall j :: 0 <= j < |entries| ==> !KeyLess(entries[j], entries[k])
    {
      if entries == [] then None else Some(entries[MinIndex(entries)].event)
    }

    /** `len(queue)`, also what the method named `self` returns. */
    function Size(): nat
      reads this
    {
      |entries|
    }

    /** `is_empty` */
    function IsEmpty(): (b: bool)
      reads this
      ensures b <==> Size() == 0
    {
      |entries| == 0
    }

    /** `clear`: drops every entry and restarts the counter. */
    method Clear()
      modifies this
      ensures entries == [] && counter == 0 && Valid()
    {
      entries := [];
      counter := 0;
    }
  }

  /** Two events with equal time and priority, pushed one after the other
      onto an empty queue, come out in push order; `peek` agrees with each
      `pop`, and the queue ends empty. */
  method PushOrderKept(a: Event, b: Event) returns (peeked: Option<Event>, first: Option<Event>, second: Option<Event>, third: Option<Event>, size: nat)
    requires Same(a, b)
    ensures peeked == first == Some(a) && second == Some(b) && third.None? && size == 0
  {
    var q := new EventQueue();
    q.Push(a);
    q.Push(b);
    peeked := q.Peek();
    first := q.Pop();
    second := q.Pop();
    third := q.Pop();
    size := q.Size();
  }

  /** Pushing adds one entry and popping a non-empty queue removes one. */
  method SizeChanges(q: EventQueue, e: Event) returns (afterPush: nat, afterPop: nat, ghost before: nat)
    modifies q
    ensures afterPush == before + 1 && afterPop == before
  {
    before := q.Size();
    q.Push(e);
    afterPush := q.Size();
    var _ := q.Pop();
    afterPop := q.Size();
  }
}
