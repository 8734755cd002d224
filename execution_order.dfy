/** The order in which a round runs a component's tasks
    (`get_task_execution_order` of component.py): the dependency counts,
    then Kahn's algorithm over them. */
module ExecutionOrder {
  import opened Values
  import opened Tasks
  import opened DependencyGraphs
  import opened TaskGraphs

  function FailedToOrder(component: string): Error
  {
    Error(ComponentError, "Failed to order tasks for component '" + component + "'")
  }

  /** `adjacency` as the build loop leaves it after meeting the first k
      arcs in order: each met arc appends its task to its dependency's
      entry. */
  ghost function AdjacencyAfter(tasks: seq<Task>, k: nat): map<string, seq<string>>
    requires k <= |Arcs(tasks)|
  {
    if k == 0 then map n | n in NameSet(tasks) :: []
    else
      var p := AdjacencyAfter(tasks, k - 1);
      var e := Arcs(tasks)[k - 1];
      if e.0 in p then p[e.0 := p[e.0] + [e.1]] else p
  }

  /** `in_degree` after the first k arcs: each raises its task's count. */
  ghost function InDegreeAfter(tasks: seq<Task>, k: nat): map<string, int>
    requires k <= |Arcs(tasks)|
  {
    if k == 0 then map n | n in NameSet(tasks) :: 0
    else
      var p := InDegreeAfter(tasks, k - 1);
      var e := Arcs(tasks)[k - 1];
      if e.1 in p then p[e.1 := p[e.1] + 1] else p
  }

  /** What `adjacency` means once k arcs are met: keyed by the task names,
      the entry of d lists the dependents of d met so far, in order. */
  lemma {:induction false} AdjacencyMeaning(tasks: seq<Task>, k: nat)
    requires k <= |Arcs(tasks)|
    ensures AdjacencyAfter(tasks, k).Keys == NameSet(tasks)
    ensures forall x :: x in NameSet(tasks) ==> AdjacencyAfter(tasks, k)[x] == Dependents(Arcs(tasks), k, x)
  {
    if k > 0 {
      AdjacencyMeaning(tasks, k - 1);
      var E := Arcs(tasks);
      var p := AdjacencyAfter(tasks, k - 1);
      forall x | x in NameSet(tasks)
        ensures AdjacencyAfter(tasks, k)[x] == Dependents(E, k, x)
      {
        assert p[x] == Dependents(E, k - 1, x);
      }
    }
  }

  /** What `in_degree` means once k arcs are met: keyed by the task names,
      the entry of x counts the arcs into x met so far. */
  lemma {:induction false} InDegreeMeaning(tasks: seq<Task>, k: nat)
    requires k <= |Arcs(tasks)|
    ensures InDegreeAfter(tasks, k).Keys == NameSet(tasks)
    ensures forall x :: x in NameSet(tasks) ==> InDegreeAfter(tasks, k)[x] == Pending(Arcs(tasks), k, {}, x)
  {
    if k > 0 {
      InDegreeMeaning(tasks, k - 1);
      var E := Arcs(tasks);
      var i := ArcSource(tasks, E[k - 1]);
      NameSetOf(tasks, i);
      var p := InDegreeAfter(tasks, k - 1);
      forall x | x in NameSet(tasks)
        ensures InDegreeAfter(tasks, k)[x] == Pending(E, k, {}, x)
      {
        assert p[x] == Pending(E, k - 1, {}, x);
      }
    }
  }

  /** The two dicts as the whole build loop leaves them. */
  ghost predicate Built(tasks: seq<Task>, adjacency: map<string, seq<string>>, inDegree: map<string, int>)
  {
    adjacency == AdjacencyAfter(tasks, |Arcs(tasks)|) && inDegree == InDegreeAfter(tasks, |Arcs(tasks)|)
  }

  /** The KeyError of a dict lookup of a missing key. */
  function MissingKey(key: string): Error
  {
    Error(KeyError, "'" + key + "'")
  }

  /** The first unknown dependency of task i, if any. */
  predicate FirstUnknownOf(tasks: seq<Task>, i: nat, j: nat)
    requires i < |tasks|
  {
    j < |tasks[i].dependsOn| && tasks[i].dependsOn[j] !in NameSet(tasks) &&
    forall j' :: 0 <= j' < j ==> tasks[i].dependsOn[j'] in NameSet(tasks)
  }

  /** One turn of the build loop: the arcs from the dependencies of task i,
      in their order, or the KeyError of its first unknown dependency. */
  method CountDependencies(tasks: seq<Task>, i: nat, adjacency: map<string, seq<string>>, inDegree: map<string, int>)
    returns (r: Result<(map<string, seq<string>>, map<string, int>)>)
    requires i < |tasks|
    requires adjacency == AdjacencyAfter(tasks, ArcsBefore(tasks, i)) && inDegree == InDegreeAfter(tasks, ArcsBefore(tasks, i))
    ensures r.Ok? ==> forall j :: 0 <= j < |tasks[i].dependsOn| ==> tasks[i].dependsOn[j] in NameSet(tasks)
    ensures r.Err? ==> exists j: nat :: FirstUnknownOf(tasks, i, j) && r.error == MissingKey(tasks[i].dependsOn[j])
    ensures r.Ok? ==> r.value == (AdjacencyAfter(tasks, ArcsBefore(tasks, i + 1)), InDegreeAfter(tasks, ArcsBefore(tasks, i + 1)))
  {
    var task := tasks[i];
    var a, d := adjacency, inDegree;
    ghost var k := ArcsBefore(tasks, i);
    AdjacencyMeaning(tasks, k);
    InDegreeMeaning(tasks, k);
    NameSetOf(tasks, i);
    for j := 0 to |task.dependsOn|
      invariant k == ArcsBefore(tasks, i) + j
      invariant k <= |Arcs(tasks)| && a == AdjacencyAfter(tasks, k) && d == InDegreeAfter(tasks, k)
      invariant a.Keys == NameSet(tasks) && d.Keys == NameSet(tasks)
      invariant forall j' :: 0 <= j' < j ==> task.dependsOn[j'] in NameSet(tasks)
    {
      var dependency := task.dependsOn[j];
      if dependency !in a {
        assert FirstUnknownOf(tasks, i, j);
        return Err(MissingKey(dependency));
      }
      ghost var seen := a.Keys;
      ArcAt(tasks, i, j, k);
      a := a[dependency := a[dependency] + [task.name]];
      d := d[task.name := d[task.name] + 1];
      k := k + 1;
      forall j' | 0 <= j' < j + 1
        ensures task.dependsOn[j'] in NameSet(tasks)
      {
        if j' == j {
          assert dependency in seen;
        }
      }
    }
    ArcsBeforeStep(tasks, i);
    assert k == ArcsBefore(tasks, i + 1);
    return Ok((a, d));
  }

  /** The loop of component.py building `adjacency` and `in_degree`; a
      dependency that is not a task name fails the `adjacency[dependency]`
      lookup with a KeyError. */
  method BuildArcCounts(tasks: seq<Task>) returns (r: Result<(map<string, seq<string>>, map<string, int>)>)
    ensures r.Ok? ==> DepsKnown(tasks)
    ensures r.Err? ==>
      exists i: nat, j: nat :: FirstUnknownAt(tasks, i, j) && r.error == MissingKey(tasks[i].dependsOn[j])
    ensures r.Ok? ==> Built(tasks, r.value.0, r.value.1)
  {
    var names := NameSet(tasks);
    var adjacency: map<string, seq<string>> := map n | n in names :: [];
    var inDegree: map<string, int> := map n | n in names :: 0;
    ArcsBeforeBounds(tasks);
    for i := 0 to |tasks|
      invariant adjacency == AdjacencyAfter(tasks, ArcsBefore(tasks, i)) && inDegree == InDegreeAfter(tasks, ArcsBefore(tasks, i))
      invariant forall i', j' :: 0 <= i' < i && 0 <= j' < |tasks[i'].dependsOn| ==> tasks[i'].dependsOn[j'] in names
    {
      var step := CountDependencies(tasks, i, adjacency, inDegree);
      if step.Err? {
        ghost var j: nat :| FirstUnknownOf(tasks, i, j) && step.error == MissingKey(tasks[i].dependsOn[j]);
        assert FirstUnknownAt(tasks, i, j);
        return Err(step.error);
      }
      forall i', j' | 0 <= i' < i + 1 && 0 <= j' < |tasks[i'].dependsOn|
        ensures tasks[i'].dependsOn[j'] in names
      {
      }
      adjacency, inDegree := step.value.0, step.value.1;
    }
    return Ok((adjacency, inDegree));
  }

  // ---------------------------------------------------------------------
  // Kahn's algorithm

  /** `[name for name, degree in in_degree.items() if degree == 0]`, the
      keys taken in the given order. */
  function ZeroDegree(keys: seq<string>, inDegree: map<string, int>): (r: seq<string>)
    requires forall k :: 0 <= k < |keys| ==> keys[k] in inDegree
    ensures forall x :: x in r <==> x in keys && x in inDegree && inDegree[x] == 0
    ensures Distinct(keys) ==> Distinct(r)
  {
    if keys == [] then []
    else
      var init := keys[..|keys| - 1];
      var x := keys[|keys| - 1];
      assert keys == init + [x];
      ZeroDegree(init, inDegree) + (if inDegree[x] == 0 then [x] else [])
  }

  /** Over the counts the build loop leaves, the names counting zero are the
      independent ones. */
  lemma {:induction false} ZeroDegreeIndependent(tasks: seq<Task>, names: seq<string>)
    requires forall k :: 0 <= k < |names| ==> names[k] in NameSet(tasks)
    ensures InDegreeAfter(tasks, |Arcs(tasks)|).Keys == NameSet(tasks)
    ensures ZeroDegree(names, InDegreeAfter(tasks, |Arcs(tasks)|)) == IndependentNames(tasks, names)
  {
    InDegreeMeaning(tasks, |Arcs(tasks)|);
    if names != [] {
      var x := names[|names| - 1];
      ZeroDegreeIndependent(tasks, names[..|names| - 1]);
      IndependentIffNoArcs(tasks, x);
    }
  }

  /** A sequence of names, each once. */
  ghost predicate Queued(N: set<string>, s: seq<string>)
  {
    Distinct(s) && forall k :: 0 <= k < |s| ==> s[k] in N
  }

  /** Each name counts the arcs into it from names outside D. */
  ghost predicate Counts(E: seq<Arc>, N: set<string>, inDegree: map<string, int>, D: set<string>)
  {
    inDegree.Keys == N && forall x :: x in N ==> inDegree[x] == Pending(E, |E|, D, x)
  }

  /** The names counting zero are exactly those in s. */
  ghost predicate ZeroExactly(N: set<string>, inDegree: map<string, int>, s: seq<string>)
  {
    forall x :: x in N ==> (x in inDegree && inDegree[x] == 0 <==> x in s)
  }

  /** Inside the loop over the dependents of a taken name, after the first j
      of them: each count has lost the arcs met so far. */
  ghost predicate Releasing(E: seq<Arc>, N: set<string>, inDegree: map<string, int>, D: set<string>, neighbors: seq<string>, j: nat)
  {
    j <= |neighbors| && inDegree.Keys == N &&
    forall x :: x in N ==>
      inDegree[x] == Pending(E, |E|, D, x) + Occurrences(neighbors, x) - Occurrences(neighbors[..j], x) &&
      Occurrences(neighbors[..j], x) <= Occurrences(neighbors, x)
  }

  lemma ElemsSnoc(s: seq<string>, x: string)
    ensures Elems(s + [x]) == Elems(s) + {x}
  {
  }

  /** A sequence without repetitions inside N is no longer than N. */
  lemma DistinctWithin(s: seq<string>, N: set<string>)
    requires Queued(N, s)
    ensures |s| <= |N|
  {
    DistinctCard(s);
    SubsetCard((set x | x in s), N);
  }

  /** The head of the queue is not taken yet, and there is room for it. */
  lemma TakeHead(N: set<string>, done: seq<string>, queue: seq<string>)
    requires Queued(N, done + queue) && queue != []
    ensures queue[0] in N && queue[0] !in done && |done| < |N|
    ensures done + [queue[0]] + queue[1..] == done + queue
  {
    var s := done + queue;
    DistinctWithin(s, N);
    assert s[|done|] == queue[0];
    forall k | 0 <= k < |done|
      ensures done[k] != queue[0]
    {
      assert s[k] == done[k];
    }
  }

  /** Taking c: counting c as taken removes exactly its dependents' arcs. */
  lemma TakeCounts(E: seq<Arc>, N: set<string>, inDegree: map<string, int>, D: set<string>, c: string)
    requires Counts(E, N, inDegree, D) && c !in D
    ensures Releasing(E, N, inDegree, D + {c}, Dependents(E, |E|, c), 0)
  {
    var neighbors := Dependents(E, |E|, c);
    assert neighbors[..0] == [];
    forall x | x in N
      ensures inDegree[x] == Pending(E, |E|, D + {c}, x) + Occurrences(neighbors, x) - Occurrences(neighbors[..0], x)
    {
      PendingStep(E, |E|, D, c, x);
    }
  }

  /** A name counting zero has all its dependencies taken, so it may follow
      them. */
  lemma TakeRanked(tasks: seq<Task>, done: seq<string>, c: string)
    requires c in NameSet(tasks) && Pending(Arcs(tasks), |Arcs(tasks)|, Elems(done), c) == 0
    requires Ranked(DepGraph(tasks), done)
    ensures Ranked(DepGraph(tasks), done + [c])
  {
    var E := Arcs(tasks);
    var G := DepGraph(tasks);
    forall b | b in Succ(G, c)
      ensures b in done
    {
      var i := DepGraphEntry(tasks, c);
      ArcOfDependency(tasks, i, b);
      var m :| 0 <= m < |E| && E[m] == (b, c);
      PendingZero(E, |E|, Elems(done), c, m);
    }
    RankedSnoc(G, done, c);
  }

  /** Every dependent recorded is a task name. */
  lemma DependentsNamed(tasks: seq<Task>, c: string)
    ensures forall k :: 0 <= k < |Dependents(Arcs(tasks), |Arcs(tasks)|, c)| ==>
      Dependents(Arcs(tasks), |Arcs(tasks)|, c)[k] in NameSet(tasks)
  {
    var E := Arcs(tasks);
    var neighbors := Dependents(E, |E|, c);
    forall k | 0 <= k < |neighbors|
      ensures neighbors[k] in NameSet(tasks)
    {
      DependentArc(E, |E|, c, neighbors[k]);
      var m :| 0 <= m < |E| && E[m] == (c, neighbors[k]);
      var i := ArcSource(tasks, E[m]);
      NameSetOf(tasks, i);
    }
  }

  /** Releasing dependent j: its count is positive and drops by one. */
  lemma ReleaseStep(E: seq<Arc>, N: set<string>, inDegree: map<string, int>, D: set<string>, neighbors: seq<string>, j: nat)
    requires Releasing(E, N, inDegree, D, neighbors, j) && j < |neighbors| && neighbors[j] in N
    ensures inDegree[neighbors[j]] >= 1
    ensures Releasing(E, N, inDegree[neighbors[j] := inDegree[neighbors[j]] - 1], D, neighbors, j + 1)
  {
    var y := neighbors[j];
    var d := inDegree[y := inDegree[y] - 1];
    OccurrencesPrefix(neighbors, j, y);
    forall x | x in N
      ensures d[x] == Pending(E, |E|, D, x) + Occurrences(neighbors, x) - Occurrences(neighbors[..j + 1], x)
      ensures Occurrences(neighbors[..j + 1], x) <= Occurrences(neighbors, x)
    {
      OccurrencesPrefix(neighbors, j, x);
    }
  }

  /** A count reaching zero queues its name, once. */
  lemma ReleaseQueue(N: set<string>, inDegree: map<string, int>, s: seq<string>, y: string)
    requires ZeroExactly(N, inDegree, s) && Queued(N, s) && y in inDegree && inDegree[y] >= 1 && y in N
    ensures
      var d := inDegree[y := inDegree[y] - 1];
      var s' := if d[y] == 0 then s + [y] else s;
      ZeroExactly(N, d, s') && Queued(N, s')
  {
    var d := inDegree[y := inDegree[y] - 1];
    if d[y] == 0 {
      var s' := s + [y];
      assert y !in s;
      forall k, l | 0 <= k < l < |s'|
        ensures s'[k] != s'[l]
      {
        if l == |s| {
          assert s'[k] == s[k];
        }
      }
    }
  }

  /** After the last dependent, the counts are those of the new taken set. */
  lemma ReleaseDone(E: seq<Arc>, N: set<string>, inDegree: map<string, int>, D: set<string>, neighbors: seq<string>)
    requires Releasing(E, N, inDegree, D, neighbors, |neighbors|)
    ensures Counts(E, N, inDegree, D)
  {
    assert neighbors[..|neighbors|] == neighbors;
  }

  /** Kahn's loop starts from the build loop's counts, nothing taken and the
      seeds queued. */
  lemma KahnStart(tasks: seq<Task>)
    ensures
      var E := Arcs(tasks);
      var inDegree := InDegreeAfter(tasks, |E|);
      Counts(E, NameSet(tasks), inDegree, Elems([])) &&
      ZeroExactly(NameSet(tasks), inDegree, Seeds(tasks)) && Queued(NameSet(tasks), Seeds(tasks))
  {
    var E := Arcs(tasks);
    var inDegree := InDegreeAfter(tasks, |E|);
    InDegreeMeaning(tasks, |E|);
    assert Elems([]) == {};
    var S := Seeds(tasks);
    forall x | x in NameSet(tasks)
      ensures inDegree[x] == 0 <==> x in S
    {
      IndependentIffNoArcs(tasks, x);
    }
  }

  /** A subset as large as its superset is all of it. */
  lemma SubsetFull(A: set<string>, B: set<string>)
    requires A <= B && |A| == |B|
    ensures A == B
  {
    assert B == A + (B - A) && A * (B - A) == {};
    assert |B - A| == 0;
  }

  /** As many distinct names as the dict has keys. */
  lemma NameSetCard(tasks: seq<Task>)
    ensures |NameSet(tasks)| == |KeyOrder(tasks)|
  {
    var keys := KeyOrder(tasks);
    DistinctCard(keys);
    assert (set x | x in keys) == NameSet(tasks);
  }

  /** With distinct names and every dependency known, the names never taken
      each wait for another name never taken. */
  lemma KahnStuck(tasks: seq<Task>, inDegree: map<string, int>, done: seq<string>)
    requires Counts(Arcs(tasks), NameSet(tasks), inDegree, Elems(done))
    requires ZeroExactly(NameSet(tasks), inDegree, done)
    requires DepsKnown(tasks) && UniqueNames(tasks)
    ensures Stuck(DepGraph(tasks), NameSet(tasks) - Elems(done))
  {
    var E := Arcs(tasks);
    var N := NameSet(tasks);
    var S := N - Elems(done);
    var G := DepGraph(tasks);
    forall a {:trigger Member(S, a)} | Member(S, a)
      ensures exists b :: b in S && Edge(G, a, b)
    {
      assert a !in done;
      var m := PendingWitness(E, |E|, Elems(done), a);
      var d := E[m].0;
      var i := ArcSource(tasks, E[m]);
      var j :| 0 <= j < |tasks[i].dependsOn| && tasks[i].dependsOn[j] == d;
      DepGraphUnique(tasks, i);
      assert d in S && Edge(G, a, d);
    }
  }

  /** When Kahn's loop has taken as many names as there are tasks, the
      names were distinct, every name was taken, and so the graph has no
      cycle. */
  lemma KahnTookAll(tasks: seq<Task>, done: seq<string>)
    requires Queued(NameSet(tasks), done) && Ranked(DepGraph(tasks), done)
    requires |done| == |tasks|
    ensures UniqueNames(tasks) && !HasCycle(DepGraph(tasks))
    ensures forall x :: x in NameSet(tasks) ==> x in done
  {
    var N := NameSet(tasks);
    NameSetCard(tasks);
    DistinctCard(done);
    assert Elems(done) <= N;
    SubsetCard(Elems(done), N);
    SubsetFull(Elems(done), N);
    RankedAcyclic(DepGraph(tasks), done);
  }

  /** With distinct names and no cycle, Kahn's loop cannot run dry while a
      name is left. */
  lemma KahnNoneLeft(tasks: seq<Task>, inDegree: map<string, int>, done: seq<string>)
    requires Counts(Arcs(tasks), NameSet(tasks), inDegree, Elems(done))
    requires ZeroExactly(NameSet(tasks), inDegree, done)
    requires DepsKnown(tasks) && UniqueNames(tasks) && !HasCycle(DepGraph(tasks))
    ensures NameSet(tasks) - Elems(done) == {}
  {
    if NameSet(tasks) - Elems(done) != {} {
      KahnStuck(tasks, inDegree, done);
      StuckSetHasCycle(DepGraph(tasks), NameSet(tasks) - Elems(done));
    }
  }

  /** ... and so it takes every task. */
  lemma KahnTakesAll(tasks: seq<Task>, inDegree: map<string, int>, done: seq<string>)
    requires Counts(Arcs(tasks), NameSet(tasks), inDegree, Elems(done))
    requires ZeroExactly(NameSet(tasks), inDegree, done) && Queued(NameSet(tasks), done)
    requires DepsKnown(tasks) && UniqueNames(tasks) && !HasCycle(DepGraph(tasks))
    ensures |done| == |tasks|
  {
    KahnNoneLeft(tasks, inDegree, done);
    QueuedAll(tasks, done);
  }

  /** Distinct names, each listed once, all of them: as many as the tasks. */
  lemma QueuedAll(tasks: seq<Task>, done: seq<string>)
    requires Queued(NameSet(tasks), done) && UniqueNames(tasks)
    requires NameSet(tasks) - Elems(done) == {}
    ensures |done| == |tasks|
  {
    var A := Elems(done);
    var N := NameSet(tasks);
    assert A == N by {
      forall x | x in N
        ensures x in A
      {
        assert x !in N - A;
      }
    }
    DistinctCard(done);
    assert |A| == |done|;
    NameSetCard(tasks);
    assert KeyOrder(tasks) == Names(tasks);
  }

  /** Kahn's loop, once the queue runs dry, has taken every task exactly
      when the names are distinct and the dependency graph has no cycle. */
  lemma KahnComplete(tasks: seq<Task>, inDegree: map<string, int>, done: seq<string>)
    requires Counts(Arcs(tasks), NameSet(tasks), inDegree, Elems(done))
    requires ZeroExactly(NameSet(tasks), inDegree, done) && Queued(NameSet(tasks), done)
    requires Ranked(DepGraph(tasks), done) && DepsKnown(tasks)
    ensures |done| == |tasks| <==> UniqueNames(tasks) && !HasCycle(DepGraph(tasks))
    ensures |done| == |tasks| ==> forall x :: x in NameSet(tasks) ==> x in done
  {
    if |done| == |tasks| {
      KahnTookAll(tasks, done);
    }
    if UniqueNames(tasks) && !HasCycle(DepGraph(tasks)) {
      KahnTakesAll(tasks, inDegree, done);
    }
  }

  /** The tasks Kahn's loop appends, one per name taken, list every
      dependency before its dependents. */
  lemma KahnOrdered(tasks: seq<Task>, done: seq<string>, ordered: seq<Task>)
    requires Ranked(DepGraph(tasks), done) && Taken(TaskMap(tasks), done, ordered)
    ensures Names(ordered) == done && DependenciesFirst(ordered)
  {
    var G := DepGraph(tasks);
    assert Names(ordered) == done;
    forall i | 0 <= i < |ordered|
      ensures forall d :: d in ordered[i].dependsOn ==> d in Names(ordered)[..i]
    {
      TaskMapDeps(tasks, done[i]);
      assert ordered[i].dependsOn == Succ(G, done[i]);
    }
  }

  /** When the names are distinct and every one was taken, the tasks Kahn's
      loop appended are the component's tasks, reordered. */
  lemma KahnPermutation(tasks: seq<Task>, done: seq<string>, ordered: seq<Task>)
    requires Queued(NameSet(tasks), done) && Taken(TaskMap(tasks), done, ordered)
    requires UniqueNames(tasks) && forall x :: x in NameSet(tasks) ==> x in done
    ensures multiset(ordered) == multiset(tasks)
  {
    assert Distinct(ordered) by {
      forall k, l | 0 <= k < l < |ordered|
        ensures ordered[k] != ordered[l]
      {
        assert ordered[k].name == done[k] && ordered[l].name == done[l];
      }
    }
    assert Distinct(tasks) by {
      forall k, l | 0 <= k < l < |tasks|
        ensures tasks[k] != tasks[l]
      {
        assert Names(tasks)[k] == tasks[k].name && Names(tasks)[l] == tasks[l].name;
      }
    }
    forall t
      ensures t in ordered <==> t in tasks
    {
      if t in ordered {
        var k :| 0 <= k < |ordered| && ordered[k] == t;
        var i := TaskMapEntry(tasks, done[k]);
      }
      if t in tasks {
        var i :| 0 <= i < |tasks| && tasks[i] == t;
        NameSetOf(tasks, i);
        var k :| 0 <= k < |done| && done[k] == t.name;
        TaskMapUnique(tasks, i);
      }
    }
    DistinctSameElements(ordered, tasks);
  }


  /** Inside the loop over the dependents of a taken name, after the first
      j of them: the counts are on their way (`Releasing`), and the names
      taken or queued are still those counting zero, each once, after the
      seeds. */
  ghost predicate ReleaseState(E: seq<Arc>, N: set<string>, D: set<string>, done: seq<string>, seeds: seq<string>,
                               neighbors: seq<string>, j: nat, inDegree: map<string, int>, queue: seq<string>)
  {
    Releasing(E, N, inDegree, D, neighbors, j) &&
    (forall k :: 0 <= k < |neighbors| ==> neighbors[k] in N) &&
    ZeroExactly(N, inDegree, done + queue) && Queued(N, done + queue) &&
    |seeds| <= |done + queue| && (done + queue)[..|seeds|] == seeds
  }

  /** One turn of the inner loop keeps `ReleaseState`. */
  lemma ReleaseNext(E: seq<Arc>, N: set<string>, D: set<string>, done: seq<string>, seeds: seq<string>,
                    neighbors: seq<string>, j: nat, inDegree: map<string, int>, queue: seq<string>)
    requires ReleaseState(E, N, D, done, seeds, neighbors, j, inDegree, queue) && j < |neighbors|
    ensures neighbors[j] in inDegree
    ensures
      var y := neighbors[j];
      var d := inDegree[y := inDegree[y] - 1];
      ReleaseState(E, N, D, done, seeds, neighbors, j + 1, d, if d[y] == 0 then queue + [y] else queue)
  {
    var y := neighbors[j];
    ReleaseStep(E, N, inDegree, D, neighbors, j);
    ReleaseQueue(N, inDegree, done + queue, y);
    var s := done + queue;
    assert done + (queue + [y]) == s + [y];
    assert (s + [y])[..|seeds|] == s[..|seeds|];
  }

  /** The inner loop of Kahn's algorithm: each dependent of the name just
      taken loses one count, and is queued when its count reaches zero.
      `done` are the names taken so far, `seeds` the start of the queue. */
  method ReleaseDependents(ghost E: seq<Arc>, ghost N: set<string>, ghost D: set<string>,
                           ghost done: seq<string>, ghost seeds: seq<string>,
                           neighbors: seq<string>, inDegree: map<string, int>, queue: seq<string>)
    returns (inDegree': map<string, int>, queue': seq<string>)
    requires ReleaseState(E, N, D, done, seeds, neighbors, 0, inDegree, queue)
    ensures Counts(E, N, inDegree', D)
    ensures ZeroExactly(N, inDegree', done + queue') && Queued(N, done + queue')
    ensures |seeds| <= |done + queue'| && (done + queue')[..|seeds|] == seeds
    ensures ReleasedTo(neighbors, |neighbors|, inDegree, queue, inDegree', queue')
  {
    inDegree', queue' := inDegree, queue;
    ReleaseAtStart(E, N, D, done, seeds, neighbors, inDegree, queue);
    for j := 0 to |neighbors|
      invariant ReleaseAt(E, N, D, done, seeds, neighbors, j, inDegree, queue, inDegree', queue')
    {
      inDegree', queue' := ReleaseOne(E, N, D, done, seeds, neighbors, j, inDegree, queue, inDegree', queue');
    }
    ReleaseAtDone(E, N, D, done, seeds, neighbors, inDegree, queue, inDegree', queue');
  }

  /** One turn of the inner loop: dependent j loses one count and is
      queued when its count reaches zero. */
  method ReleaseOne(ghost E: seq<Arc>, ghost N: set<string>, ghost D: set<string>,
                    ghost done: seq<string>, ghost seeds: seq<string>,
                    neighbors: seq<string>, j: nat, ghost inDegree: map<string, int>, ghost queue: seq<string>,
                    d: map<string, int>, q: seq<string>)
    returns (d': map<string, int>, q': seq<string>)
    requires ReleaseAt(E, N, D, done, seeds, neighbors, j, inDegree, queue, d, q) && j < |neighbors|
    ensures ReleaseAt(E, N, D, done, seeds, neighbors, j + 1, inDegree, queue, d', q')
  {
    var neighbor := neighbors[j];
    assert neighbor in d;
    d' := d[neighbor := d[neighbor] - 1];
    q' := if d'[neighbor] == 0 then q + [neighbor] else q;
    ReleaseAtNext(E, N, D, done, seeds, neighbors, j, inDegree, queue, d, q, d', q');
  }

  lemma ReleaseAtDone(E: seq<Arc>, N: set<string>, D: set<string>, done: seq<string>, seeds: seq<string>,
                      neighbors: seq<string>, inDegree: map<string, int>, queue: seq<string>,
                      d: map<string, int>, q: seq<string>)
    requires ReleaseAt(E, N, D, done, seeds, neighbors, |neighbors|, inDegree, queue, d, q)
    ensures Counts(E, N, d, D)
    ensures ZeroExactly(N, d, done + q) && Queued(N, done + q)
    ensures |seeds| <= |done + q| && (done + q)[..|seeds|] == seeds
    ensures ReleasedTo(neighbors, |neighbors|, inDegree, queue, d, q)
  {
    ReleaseDone(E, N, d, D, neighbors);
  }

  /** The inner loop's invariant: the release is on its way, and its
      counts and queue are those of the fold `Release`. */
  ghost predicate ReleaseAt(E: seq<Arc>, N: set<string>, D: set<string>, done: seq<string>, seeds: seq<string>,
                            neighbors: seq<string>, j: nat, inDegree: map<string, int>, queue: seq<string>,
                            d: map<string, int>, q: seq<string>)
  {
    ReleaseState(E, N, D, done, seeds, neighbors, j, d, q) && ReleasedTo(neighbors, j, inDegree, queue, d, q)
  }

  lemma ReleaseAtStart(E: seq<Arc>, N: set<string>, D: set<string>, done: seq<string>, seeds: seq<string>,
                       neighbors: seq<string>, inDegree: map<string, int>, queue: seq<string>)
    requires ReleaseState(E, N, D, done, seeds, neighbors, 0, inDegree, queue)
    ensures ReleaseAt(E, N, D, done, seeds, neighbors, 0, inDegree, queue, inDegree, queue)
  {
  }

  lemma ReleaseAtNext(E: seq<Arc>, N: set<string>, D: set<string>, done: seq<string>, seeds: seq<string>,
                      neighbors: seq<string>, j: nat, inDegree: map<string, int>, queue: seq<string>,
                      d: map<string, int>, q: seq<string>, d': map<string, int>, q': seq<string>)
    requires ReleaseAt(E, N, D, done, seeds, neighbors, j, inDegree, queue, d, q) && j < |neighbors|
    requires neighbors[j] in d && d' == d[neighbors[j] := d[neighbors[j]] - 1]
    requires q' == if d'[neighbors[j]] == 0 then q + [neighbors[j]] else q
    ensures ReleaseAt(E, N, D, done, seeds, neighbors, j + 1, inDegree, queue, d', q')
  {
    ReleaseNext(E, N, D, done, seeds, neighbors, j, d, q);
    assert ReleaseState(E, N, D, done, seeds, neighbors, j + 1, d', q');
    ReleaseNextFn(neighbors, j, inDegree, queue, d, q, d', q');
  }

  /** The state of Kahn's loop after taking the names `done`, with `queue`
      waiting: the counts are the arcs from names not taken, exactly the
      names counting zero are taken or queued (each once), the names taken
      follow their dependencies, `ordered` holds `graph[name]` for each
      name taken, and the queue started with the seeds. */
  ghost predicate KahnState(tasks: seq<Task>, inDegree: map<string, int>, done: seq<string>, queue: seq<string>, ordered: seq<Task>)
  {
    KahnAt(NameSet(tasks), Arcs(tasks), DepGraph(tasks), TaskMap(tasks), Seeds(tasks), inDegree, done, queue, ordered)
  }

  /** `KahnState` over the dicts and sequences derived from the tasks. */
  ghost predicate KahnAt(N: set<string>, E: seq<Arc>, G: Graph, graph: map<string, Task>, S: seq<string>,
                         inDegree: map<string, int>, done: seq<string>, queue: seq<string>, ordered: seq<Task>)
  {
    Queued(N, done + queue) && Counts(E, N, inDegree, Elems(done)) &&
    ZeroExactly(N, inDegree, done + queue) && Ranked(G, done) &&
    Taken(graph, done, ordered) && |S| <= |done + queue| && (done + queue)[..|S|] == S
  }

  /** `ordered` holds `graph[name]` for each name taken. */
  ghost predicate Taken(graph: map<string, Task>, done: seq<string>, ordered: seq<Task>)
  {
    |ordered| == |done| && forall k :: 0 <= k < |done| ==> done[k] in graph && ordered[k] == graph[done[k]]
  }

  lemma TakenSnoc(graph: map<string, Task>, done: seq<string>, ordered: seq<Task>, c: string)
    requires Taken(graph, done, ordered) && c in graph
    ensures Taken(graph, done + [c], ordered + [graph[c]])
  {
    var d := done + [c];
    var o := ordered + [graph[c]];
    forall k | 0 <= k < |d|
      ensures d[k] in graph && o[k] == graph[d[k]]
    {
      if k < |done| {
        assert d[k] == done[k] && o[k] == ordered[k];
      }
    }
  }

  /** `adjacency` as the build loop leaves it: each name to its dependents. */
  ghost predicate AdjacencyOf(tasks: seq<Task>, adjacency: map<string, seq<string>>)
  {
    adjacency.Keys == NameSet(tasks) &&
    forall x :: x in NameSet(tasks) ==> adjacency[x] == Dependents(Arcs(tasks), |Arcs(tasks)|, x)
  }

  /** The values Kahn's loop works with, as derived from the tasks. */
  ghost predicate Derived(tasks: seq<Task>, N: set<string>, E: seq<Arc>, G: Graph, S: seq<string>,
                          graph: map<string, Task>, adjacency: map<string, seq<string>>)
  {
    N == NameSet(tasks) && E == Arcs(tasks) && G == DepGraph(tasks) && S == Seeds(tasks) &&
    graph == TaskMap(tasks) && AdjacencyOf(tasks, adjacency)
  }

  /** The loop starts with nothing taken and the seeds queued. */
  lemma KahnInit(tasks: seq<Task>)
    ensures KahnState(tasks, InDegreeAfter(tasks, |Arcs(tasks)|), [], Seeds(tasks), [])
  {
    KahnStart(tasks);
    assert [] + Seeds(tasks) == Seeds(tasks);
  }

  /** When the queue runs dry: every task was taken exactly when the names
      are distinct and the graph has no cycle, and then `ordered` is the
      tasks reordered dependencies-first, starting with the seeds. */
  lemma KahnFinish(tasks: seq<Task>, inDegree: map<string, int>, done: seq<string>, ordered: seq<Task>)
    requires KahnState(tasks, inDegree, done, [], ordered) && DepsKnown(tasks)
    ensures |ordered| == |tasks| <==> UniqueNames(tasks) && !HasCycle(DepGraph(tasks))
    ensures |ordered| == |tasks| ==> multiset(ordered) == multiset(tasks) && DependenciesFirst(ordered)
    ensures |Seeds(tasks)| <= |ordered| && Names(ordered)[..|Seeds(tasks)|] == Seeds(tasks)
  {
    assert done + [] == done;
    KahnComplete(tasks, inDegree, done);
    KahnOrdered(tasks, done, ordered);
    if |ordered| == |tasks| {
      KahnPermutation(tasks, done, ordered);
    }
  }

  /** What the build loop leaves is what Kahn's loop starts from. */
  lemma KahnReady(tasks: seq<Task>, adjacency: map<string, seq<string>>, inDegree: map<string, int>)
    requires Built(tasks, adjacency, inDegree)
    ensures forall k :: 0 <= k < |KeyOrder(tasks)| ==> KeyOrder(tasks)[k] in inDegree
    ensures ZeroDegree(KeyOrder(tasks), inDegree) == Seeds(tasks)
    ensures LoopReady(tasks, TaskMap(tasks), adjacency, inDegree, Seeds(tasks))
  {
    AdjacencyMeaning(tasks, |Arcs(tasks)|);
    KahnInit(tasks);
    ZeroDegreeIndependent(tasks, KeyOrder(tasks));
  }

  /** What Kahn's loop starts from. */
  ghost predicate LoopReady(tasks: seq<Task>, graph: map<string, Task>, adjacency: map<string, seq<string>>,
                            inDegree: map<string, int>, queue: seq<string>)
  {
    graph == TaskMap(tasks) && AdjacencyOf(tasks, adjacency) && KahnState(tasks, inDegree, [], queue, [])
  }

  // ---------------------------------------------------------------------
  // Kahn's loop as a function of its dicts and queue

  /** The dicts and the queue of Kahn's loop fit together: every dependent
      listed and every queued name has a count, and every name with a count
      has an entry in `graph` and in `adjacency`. */
  predicate Closed(graph: map<string, Task>, adjacency: map<string, seq<string>>, inDegree: map<string, int>, queue: seq<string>)
  {
    adjacency.Keys == inDegree.Keys && adjacency.Keys <= graph.Keys &&
    (forall x, k :: x in adjacency && 0 <= k < |adjacency[x]| ==> adjacency[x][k] in inDegree) &&
    (forall k :: 0 <= k < |queue| ==> queue[k] in inDegree)
  }

  /** The inner loop over the first j dependents of the name just taken:
      each loses one count and joins the end of the queue when its count
      reaches zero.  The queue keeps its old contents in front, and what is
      added comes from those dependents, in their order. */
  function Release(neighbors: seq<string>, j: nat, inDegree: map<string, int>, queue: seq<string>): (r: (map<string, int>, seq<string>))
    requires j <= |neighbors| && forall k :: 0 <= k < |neighbors| ==> neighbors[k] in inDegree
    ensures r.0.Keys == inDegree.Keys
    ensures |queue| <= |r.1| && r.1[..|queue|] == queue
  {
    if j == 0 then (inDegree, queue)
    else
      var p := Release(neighbors, j - 1, inDegree, queue);
      var y := neighbors[j - 1];
      var d := p.0[y := p.0[y] - 1];
      (d, if d[y] == 0 then p.1 + [y] else p.1)
  }

  /** What a release adds to the queue comes from the dependents released. */
  lemma {:induction false} ReleaseFrom(neighbors: seq<string>, j: nat, inDegree: map<string, int>, queue: seq<string>)
    requires j <= |neighbors| && forall k :: 0 <= k < |neighbors| ==> neighbors[k] in inDegree
    ensures forall k :: |queue| <= k < |Release(neighbors, j, inDegree, queue).1| ==>
      Release(neighbors, j, inDegree, queue).1[k] in neighbors[..j]
  {
    if j > 0 {
      ReleaseFrom(neighbors, j - 1, inDegree, queue);
      assert neighbors[..j] == neighbors[..j - 1] + [neighbors[j - 1]];
    }
  }

  /** One turn of `while queue`: the head is taken, its task appended, and
      its dependents released. */
  function Turn(graph: map<string, Task>, adjacency: map<string, seq<string>>, inDegree: map<string, int>,
                queue: seq<string>, ordered: seq<Task>): (r: (map<string, int>, seq<string>, seq<Task>))
    requires Closed(graph, adjacency, inDegree, queue) && queue != []
    ensures Closed(graph, adjacency, r.0, r.1)
    ensures r.2 == ordered + [graph[queue[0]]]
  {
    var current := queue[0];
    var neighbors := adjacency[current];
    var p := Release(neighbors, |neighbors|, inDegree, queue[1..]);
    ReleaseFrom(neighbors, |neighbors|, inDegree, queue[1..]);
    assert forall k :: 0 <= k < |p.1| ==> p.1[k] in inDegree by {
      forall k | 0 <= k < |p.1|
        ensures p.1[k] in inDegree
      {
        if k < |queue[1..]| {
          assert p.1[k] == p.1[..|queue[1..]|][k] == queue[k + 1];
        } else {
          assert p.1[k] in neighbors[..|neighbors|];
          assert neighbors[..|neighbors|] == neighbors;
          var i :| 0 <= i < |neighbors| && neighbors[i] == p.1[k];
          assert adjacency[current][i] in inDegree;
        }
      }
    }
    (p.0, p.1, ordered + [graph[current]])
  }

  /** Kahn's loop for at most `fuel` turns, stopping when the queue runs
      dry: the counts, the queue and the tasks appended it leaves. */
  function KahnRun(graph: map<string, Task>, adjacency: map<string, seq<string>>, inDegree: map<string, int>,
                   queue: seq<string>, ordered: seq<Task>, fuel: nat): (map<string, int>, seq<string>, seq<Task>)
    requires Closed(graph, adjacency, inDegree, queue)
    decreases fuel
  {
    if queue == [] || fuel == 0 then (inDegree, queue, ordered)
    else
      var t := Turn(graph, adjacency, inDegree, queue, ordered);
      KahnRun(graph, adjacency, t.0, t.1, t.2, fuel - 1)
  }

  /** The counts and queue after the first j dependents are released. */
  ghost predicate ReleasedTo(neighbors: seq<string>, j: nat, inDegree: map<string, int>, queue: seq<string>,
                             d: map<string, int>, q: seq<string>)
  {
    j <= |neighbors| && (forall k :: 0 <= k < |neighbors| ==> neighbors[k] in inDegree) &&
    (d, q) == Release(neighbors, j, inDegree, queue)
  }

  /** One more dependent released. */
  lemma ReleaseNextFn(neighbors: seq<string>, j: nat, inDegree: map<string, int>, queue: seq<string>,
                      d: map<string, int>, q: seq<string>, d': map<string, int>, q': seq<string>)
    requires j < |neighbors| && ReleasedTo(neighbors, j, inDegree, queue, d, q)
    requires neighbors[j] in d && d' == d[neighbors[j] := d[neighbors[j]] - 1]
    requires q' == if d'[neighbors[j]] == 0 then q + [neighbors[j]] else q
    ensures ReleasedTo(neighbors, j + 1, inDegree, queue, d', q')
  {
  }

  /** One more turn of the loop, when there is fuel and a name queued: the
      rest of the run from the new state ends where it did before. */
  lemma KahnRunTurn(graph: map<string, Task>, adjacency: map<string, seq<string>>,
                    inDegree: map<string, int>, queue: seq<string>, ordered: seq<Task>, fuel: nat,
                    inDegree': map<string, int>, queue': seq<string>, ordered': seq<Task>)
    requires Closed(graph, adjacency, inDegree, queue) && queue != [] && fuel > 0
    requires (inDegree', queue', ordered') == Turn(graph, adjacency, inDegree, queue, ordered)
    ensures Closed(graph, adjacency, inDegree', queue')
    ensures KahnRun(graph, adjacency, inDegree', queue', ordered', fuel - 1) == KahnRun(graph, adjacency, inDegree, queue, ordered, fuel)
  {
  }

  /** The dicts the build loop leaves and the seeds fit together. */
  lemma StartClosed(tasks: seq<Task>)
    ensures Closed(TaskMap(tasks), AdjacencyAfter(tasks, |Arcs(tasks)|), InDegreeAfter(tasks, |Arcs(tasks)|), Seeds(tasks))
  {
    AdjacencyMeaning(tasks, |Arcs(tasks)|);
    InDegreeMeaning(tasks, |Arcs(tasks)|);
    forall x | x in NameSet(tasks) {
      DependentsNamed(tasks, x);
    }
  }

  /** The order get_task_execution_order computes: Kahn's loop, FIFO, from
      the seeds and the dicts the build loop leaves.  Each turn takes a name
      not taken before, so |tasks| turns always leave the queue empty
      (`KahnLoop` states it). */
  ghost function KahnOrder(tasks: seq<Task>): seq<Task>
  {
    StartClosed(tasks);
    KahnRun(TaskMap(tasks), AdjacencyAfter(tasks, |Arcs(tasks)|), InDegreeAfter(tasks, |Arcs(tasks)|), Seeds(tasks), [], |tasks|).2
  }

  /** First in, first out: x, then y and z, which both wait on x, are
      taken in the order x released them. */
  lemma FifoExample()
    ensures
      var x := Task("x", "", [], None, None);
      var y := Task("y", "", ["x"], None, None);
      var z := Task("z", "", ["x"], None, None);
      KahnRun(map["x" := x, "y" := y, "z" := z], map["x" := ["y", "z"], "y" := [], "z" := []],
              map["x" := 0, "y" := 1, "z" := 1], ["x"], [], 3).2 == [x, y, z]
  {
    var x := Task("x", "", [], None, None);
    var y := Task("y", "", ["x"], None, None);
    var z := Task("z", "", ["x"], None, None);
    var graph := map["x" := x, "y" := y, "z" := z];
    var adjacency := map["x" := ["y", "z"], "y" := [], "z" := []];
    var d0, d1 := map["x" := 0, "y" := 1, "z" := 1], map["x" := 0, "y" := 0, "z" := 0];
    assert Release(["y", "z"], 1, d0, []) == (d0["y" := 0], ["y"]);
    assert d0["y" := 0]["z" := 0] == d1 && ["y"] + ["z"] == ["y", "z"];
    assert Release(["y", "z"], 2, d0, []) == (d1, ["y", "z"]);
    assert Release([], 0, d1, ["z"]) == (d1, ["z"]) && Release([], 0, d1, []) == (d1, []);
    assert ["x"][1..] == [] && ["y", "z"][1..] == ["z"] && ["z"][1..] == [];
    assert adjacency["x"] == ["y", "z"] && |adjacency["x"]| == 2 && graph["x"] == x;
    assert Release(adjacency["x"], |adjacency["x"]|, d0, ["x"][1..]) == (d1, ["y", "z"]);
    assert ["x"][0] == "x" && [] + [x] == [x];
    assert Turn(graph, adjacency, d0, ["x"], []) == (d1, ["y", "z"], [x]);
    assert ["y", "z"][0] == "y" && adjacency["y"] == [] && graph["y"] == y && [x] + [y] == [x, y];
    assert Turn(graph, adjacency, d1, ["y", "z"], [x]) == (d1, ["z"], [x, y]);
    assert ["z"][0] == "z" && adjacency["z"] == [] && graph["z"] == z && [x, y] + [z] == [x, y, z];
    assert Turn(graph, adjacency, d1, ["z"], [x, y]) == (d1, [], [x, y, z]);
    assert KahnRun(graph, adjacency, d1, ["z"], [x, y], 1) == (d1, [], [x, y, z]);
    assert KahnRun(graph, adjacency, d1, ["y", "z"], [x], 2) == (d1, [], [x, y, z]);
  }

  /** The loop's dicts, derived from the tasks, fit the queue it holds. */
  lemma AtClosed(tasks: seq<Task>, N: set<string>, E: seq<Arc>, G: Graph, S: seq<string>,
                 graph: map<string, Task>, adjacency: map<string, seq<string>>,
                 inDegree: map<string, int>, done: seq<string>, queue: seq<string>, ordered: seq<Task>)
    requires Derived(tasks, N, E, G, S, graph, adjacency) && KahnAt(N, E, G, graph, S, inDegree, done, queue, ordered)
    ensures Closed(graph, adjacency, inDegree, queue)
  {
    forall x | x in N {
      DependentsNamed(tasks, x);
    }
    forall k | 0 <= k < |queue|
      ensures queue[k] in inDegree
    {
      assert (done + queue)[|done| + k] == queue[k];
    }
  }

  /** There are no more distinct names than tasks. */
  lemma NamesAtMostTasks(tasks: seq<Task>)
    ensures |NameSet(tasks)| <= |tasks|
  {
    NameSetCard(tasks);
  }

  /** One turn of Kahn's loop: take the head of the queue, append its task,
      release its dependents. */
  method KahnStep(tasks: seq<Task>, ghost N: set<string>, ghost E: seq<Arc>, ghost G: Graph, ghost S: seq<string>,
                  graph: map<string, Task>, adjacency: map<string, seq<string>>,
                  inDegree: map<string, int>, queue: seq<string>, ordered: seq<Task>, ghost done: seq<string>)
    returns (inDegree': map<string, int>, queue': seq<string>, ordered': seq<Task>, ghost done': seq<string>)
    requires Derived(tasks, N, E, G, S, graph, adjacency)
    requires queue != [] && KahnAt(N, E, G, graph, S, inDegree, done, queue, ordered)
    requires Closed(graph, adjacency, inDegree, queue)
    ensures KahnAt(N, E, G, graph, S, inDegree', done', queue', ordered')
    ensures |done'| == |done| + 1 && |done'| <= |N|
    ensures (inDegree', queue', ordered') == Turn(graph, adjacency, inDegree, queue, ordered)
  {
    TakeHead(N, done, queue);
    var current := queue[0];
    var rest := queue[1..];
    ordered' := ordered + [graph[current]];
    TakenSnoc(graph, done, ordered, current);
    TakeRanked(tasks, done, current);
    TakeCounts(E, N, inDegree, Elems(done), current);
    ElemsSnoc(done, current);
    done' := done + [current];
    DependentsNamed(tasks, current);
    inDegree', queue' := ReleaseDependents(E, N, Elems(done'), done', S, adjacency[current], inDegree, rest);
  }

  /** The rest of the run, with `fuel` turns left, ends at `target`. */
  ghost predicate RunAt(graph: map<string, Task>, adjacency: map<string, seq<string>>,
                        target: (map<string, int>, seq<string>, seq<Task>), fuel: nat,
                        inDegree: map<string, int>, queue: seq<string>, ordered: seq<Task>)
  {
    Closed(graph, adjacency, inDegree, queue) && KahnRun(graph, adjacency, inDegree, queue, ordered, fuel) == target
  }

  /** `RunAt` survives one `Turn`. */
  lemma RunAtTurn(graph: map<string, Task>, adjacency: map<string, seq<string>>,
                  target: (map<string, int>, seq<string>, seq<Task>), fuel: nat, fuel': nat,
                  inDegree: map<string, int>, queue: seq<string>, ordered: seq<Task>,
                  inDegree': map<string, int>, queue': seq<string>, ordered': seq<Task>)
    requires RunAt(graph, adjacency, target, fuel, inDegree, queue, ordered) && queue != [] && fuel == fuel' + 1
    requires (inDegree', queue', ordered') == Turn(graph, adjacency, inDegree, queue, ordered)
    ensures RunAt(graph, adjacency, target, fuel', inDegree', queue', ordered')
  {
    KahnRunTurn(graph, adjacency, inDegree, queue, ordered, fuel, inDegree', queue', ordered');
  }

  /** The `while queue` loop of Kahn's algorithm, run until the queue is
      empty: it ends where `KahnRun` with one turn per task ends, with the
      queue empty. */
  method KahnLoop(tasks: seq<Task>, graph: map<string, Task>, adjacency: map<string, seq<string>>,
                  inDegree: map<string, int>, queue: seq<string>)
    returns (ordered: seq<Task>, inDegree': map<string, int>, ghost done: seq<string>)
    requires LoopReady(tasks, graph, adjacency, inDegree, queue) && Closed(graph, adjacency, inDegree, queue)
    ensures KahnState(tasks, inDegree', done, [], ordered)
    ensures KahnRun(graph, adjacency, inDegree, queue, [], |tasks|) == (inDegree', [], ordered)
  {
    ghost var N, E, G, S := NameSet(tasks), Arcs(tasks), DepGraph(tasks), Seeds(tasks);
    ghost var target := KahnRun(graph, adjacency, inDegree, queue, [], |tasks|);
    NamesAtMostTasks(tasks);
    ghost var fuel: nat := |tasks|;
    var queue := queue;
    inDegree' := inDegree;
    ordered := [];
    done := [];
    while queue != []
      invariant Derived(tasks, N, E, G, S, graph, adjacency) && KahnAt(N, E, G, graph, S, inDegree', done, queue, ordered)
      invariant |done| <= |N| <= |tasks| && fuel == |tasks| - |done|
      invariant RunAt(graph, adjacency, target, fuel, inDegree', queue, ordered)
      decreases fuel
    {
      ghost var (inDegree0, queue0, ordered0) := (inDegree', queue, ordered);
      inDegree', queue, ordered, done := KahnStep(tasks, N, E, G, S, graph, adjacency, inDegree', queue, ordered, done);
      ghost var fuel': nat := fuel - 1;
      RunAtTurn(graph, adjacency, target, fuel, fuel', inDegree0, queue0, ordered0, inDegree', queue, ordered);
      fuel := fuel';
    }
  }

  /** The topological sort of get_task_execution_order, from the dicts the
      build loop leaves. */
  method Kahn(component: string, tasks: seq<Task>, adjacency: map<string, seq<string>>, inDegree: map<string, int>)
    returns (r: Result<seq<Task>>)
    requires DepsKnown(tasks) && Built(tasks, adjacency, inDegree)
    ensures r.Ok? <==> UniqueNames(tasks) && !HasCycle(DepGraph(tasks))
    ensures r.Err? ==> r.error == FailedToOrder(component)
    ensures r.Ok? ==> multiset(r.value) == multiset(tasks) && DependenciesFirst(r.value)
    ensures r.Ok? ==> |Seeds(tasks)| <= |r.value| && Names(r.value)[..|Seeds(tasks)|] == Seeds(tasks)
    ensures r == if |KahnOrder(tasks)| == |tasks| then Ok(KahnOrder(tasks)) else Err(FailedToOrder(component))
  {
    var graph := TaskMap(tasks);
    KahnReady(tasks, adjacency, inDegree);
    StartClosed(tasks);
    var queue := ZeroDegree(KeyOrder(tasks), inDegree);
    assert LoopReady(tasks, graph, adjacency, inDegree, queue);
    var ordered, inDegree', done := KahnLoop(tasks, graph, adjacency, inDegree, queue);
    KahnFinish(tasks, inDegree', done, ordered);
    if |ordered| != |tasks| {
      return Err(FailedToOrder(component));
    }
    return Ok(ordered);
  }

  /** get_task_execution_order: the dependency counts, then Kahn's
      algorithm from the names counting zero in key order, appending
      `graph[current]` for each name taken.  A dependency that is not a task
      name is the KeyError of the count loop; otherwise the order succeeds
      exactly when the names are distinct and the dependencies have no
      cycle, lists every task once with its dependencies before it, and
      starts with the tasks that declare no dependency. */
  method GetTaskExecutionOrder(component: string, tasks: seq<Task>) returns (r: Result<seq<Task>>)
    ensures !DepsKnown(tasks) ==>
      r.Err? && exists i: nat, j: nat :: FirstUnknownAt(tasks, i, j) && r.error == MissingKey(tasks[i].dependsOn[j])
    ensures DepsKnown(tasks) ==> (r.Ok? <==> UniqueNames(tasks) && !HasCycle(DepGraph(tasks)))
    ensures DepsKnown(tasks) && r.Err? ==> r.error == FailedToOrder(component)
    ensures r.Ok? ==> multiset(r.value) == multiset(tasks) && DependenciesFirst(r.value)
    ensures r.Ok? ==> |Seeds(tasks)| <= |r.value| && Names(r.value)[..|Seeds(tasks)|] == Seeds(tasks)
    ensures DepsKnown(tasks) ==> r == if |KahnOrder(tasks)| == |tasks| then Ok(KahnOrder(tasks)) else Err(FailedToOrder(component))
  {
    var built := BuildArcCounts(tasks);
    if built.Err? {
      return Err(built.error);
    }
    r := Kahn(component, tasks, built.value.0, built.value.1);
  }
}
