/** The task list of a component seen as the dicts component.py builds
    from it: names, the dependency graph, the name-to-task map, and the
    dependency edges Kahn's algorithm counts. */
module TaskGraphs {
  import opened Values
  import opened Tasks
  import opened DependencyGraphs

  /** The task names in declaration order. */
  function Names(tasks: seq<Task>): (r: seq<string>)
    ensures |r| == |tasks| && forall i :: 0 <= i < |tasks| ==> r[i] == tasks[i].name
  {
    if tasks == [] then [] else Names(tasks[..|tasks| - 1]) + [tasks[|tasks| - 1].name]
  }

  /** `{task.name for task in tasks}` */
  function NameSet(tasks: seq<Task>): set<string>
  {
    if tasks == [] then {} else NameSet(tasks[..|tasks| - 1]) + {tasks[|tasks| - 1].name}
  }

  lemma {:induction false} NameSetOf(tasks: seq<Task>, i: nat)
    requires i < |tasks|
    ensures tasks[i].name in NameSet(tasks)
  {
    if i < |tasks| - 1 {
      NameSetOf(tasks[..|tasks| - 1], i);
    }
  }

  lemma {:induction false} NameSetWitness(tasks: seq<Task>, x: string) returns (i: nat)
    requires x in NameSet(tasks)
    ensures i < |tasks| && tasks[i].name == x
  {
    if tasks[|tasks| - 1].name == x {
      i := |tasks| - 1;
    } else {
      i := NameSetWitness(tasks[..|tasks| - 1], x);
    }
  }

  /** The name set holds exactly the names of the list. */
  lemma NameSetNames(tasks: seq<Task>)
    ensures forall x :: x in NameSet(tasks) <==> x in Names(tasks)
  {
    forall x
      ensures x in NameSet(tasks) <==> x in Names(tasks)
    {
      if x in NameSet(tasks) {
        var i := NameSetWitness(tasks, x);
        assert Names(tasks)[i] == x;
      }
      if x in Names(tasks) {
        var i :| 0 <= i < |tasks| && Names(tasks)[i] == x;
        NameSetOf(tasks, i);
      }
    }
  }

  predicate UniqueNames(tasks: seq<Task>)
  {
    Distinct(Names(tasks))
  }

  /** The keys of a dict built from the tasks, in Python's insertion order:
      each name at its first occurrence. */
  function KeyOrder(tasks: seq<Task>): (r: seq<string>)
    ensures Distinct(r)
    ensures forall n :: n in r <==> n in NameSet(tasks)
    ensures |r| <= |tasks|
    ensures UniqueNames(tasks) ==> r == Names(tasks)
    ensures !UniqueNames(tasks) ==> |r| < |tasks|
  {
    if tasks == [] then []
    else
      var init := tasks[..|tasks| - 1];
      var p := KeyOrder(init);
      var n := tasks[|tasks| - 1].name;
      assert Names(tasks) == Names(init) + [n];
      if n in p then
        assert !UniqueNames(tasks) by {
          var k := NameSetWitness(init, n);
          assert Names(tasks)[k] == Names(tasks)[|tasks| - 1];
        }
        p
      else
        assert UniqueNames(tasks) <==> UniqueNames(init) by {
          if UniqueNames(init) {
            NameSetNames(init);
          }
        }
        p + [n]
  }

  /** `{task.name: task.depends_on for task in tasks}`: a later task with the
      same name replaces an earlier one. */
  function DepGraph(tasks: seq<Task>): (g: Graph)
    ensures g.Keys == NameSet(tasks)
  {
    if tasks == [] then map[]
    else DepGraph(tasks[..|tasks| - 1])[tasks[|tasks| - 1].name := tasks[|tasks| - 1].dependsOn]
  }

  /** The entry of a name is the dependency list of the last task so named. */
  lemma {:induction false} DepGraphEntry(tasks: seq<Task>, n: string) returns (i: nat)
    requires n in DepGraph(tasks)
    ensures i < |tasks| && tasks[i].name == n && DepGraph(tasks)[n] == tasks[i].dependsOn
    ensures forall k :: i < k < |tasks| ==> tasks[k].name != n
  {
    var init := tasks[..|tasks| - 1];
    if tasks[|tasks| - 1].name == n {
      i := |tasks| - 1;
    } else {
      i := DepGraphEntry(init, n);
    }
  }

  /** With distinct names, each task's entry is its own dependency list. */
  lemma DepGraphUnique(tasks: seq<Task>, i: nat)
    requires UniqueNames(tasks) && i < |tasks|
    ensures tasks[i].name in DepGraph(tasks) && DepGraph(tasks)[tasks[i].name] == tasks[i].dependsOn
  {
    NameSetOf(tasks, i);
    var k := DepGraphEntry(tasks, tasks[i].name);
    assert Names(tasks)[k] == Names(tasks)[i];
  }

  /** `{task.name: task for task in tasks}`. */
  function TaskMap(tasks: seq<Task>): (m: map<string, Task>)
    ensures m.Keys == NameSet(tasks)
    ensures forall n :: n in m ==> m[n].name == n
  {
    if tasks == [] then map[]
    else TaskMap(tasks[..|tasks| - 1])[tasks[|tasks| - 1].name := tasks[|tasks| - 1]]
  }

  /** The entry of a name is the last task so named. */
  lemma {:induction false} TaskMapEntry(tasks: seq<Task>, n: string) returns (i: nat)
    requires n in TaskMap(tasks)
    ensures i < |tasks| && TaskMap(tasks)[n] == tasks[i]
    ensures forall k :: i < k < |tasks| ==> tasks[k].name != n
  {
    var init := tasks[..|tasks| - 1];
    if tasks[|tasks| - 1].name == n {
      i := |tasks| - 1;
    } else {
      i := TaskMapEntry(init, n);
    }
  }

  lemma TaskMapUnique(tasks: seq<Task>, i: nat)
    requires UniqueNames(tasks) && i < |tasks|
    ensures tasks[i].name in TaskMap(tasks) && TaskMap(tasks)[tasks[i].name] == tasks[i]
  {
    NameSetOf(tasks, i);
    var k := TaskMapEntry(tasks, tasks[i].name);
    assert Names(tasks)[k] == Names(tasks)[i];
  }

  /** Every dependency names a task of the component. */
  predicate DepsKnown(tasks: seq<Task>)
  {
    forall i, j :: 0 <= i < |tasks| && 0 <= j < |tasks[i].dependsOn| ==> tasks[i].dependsOn[j] in NameSet(tasks)
  }

  /** Dependency `j` of task `i` is the first unknown one in declaration order. */
  predicate FirstUnknownAt(tasks: seq<Task>, i: nat, j: nat)
  {
    i < |tasks| && j < |tasks[i].dependsOn| && tasks[i].dependsOn[j] !in NameSet(tasks) &&
    (forall i', j' :: 0 <= i' < i && 0 <= j' < |tasks[i'].dependsOn| ==> tasks[i'].dependsOn[j'] in NameSet(tasks)) &&
    (forall j' :: 0 <= j' < j ==> tasks[i].dependsOn[j'] in NameSet(tasks))
  }

  /** Each name's dict entry belongs to the last task so named, in the name
      map and in the dependency graph alike. */
  lemma {:induction false} TaskMapDeps(tasks: seq<Task>, n: string)
    requires n in NameSet(tasks)
    ensures n in TaskMap(tasks) && n in DepGraph(tasks)
    ensures TaskMap(tasks)[n].dependsOn == DepGraph(tasks)[n]
  {
    if tasks[|tasks| - 1].name != n {
      TaskMapDeps(tasks[..|tasks| - 1], n);
    }
  }

  /** The sequence lists tasks dependencies-first: each dependency of a task
      is the name of a task before it. */
  predicate DependenciesFirst(s: seq<Task>)
  {
    forall i :: 0 <= i < |s| ==> forall d :: d in s[i].dependsOn ==> d in Names(s)[..i]
  }

  // ---------------------------------------------------------------------
  // The arcs Kahn's algorithm counts

  /** A dependency arc as the loop building `adjacency` and `in_degree`
      meets it: the dependency, then the name of the task declaring it. */
  type Arc = (string, string)

  /** The arcs of one task's dependency list, in list order. */
  function ArcsOf(deps: seq<string>, name: string): (r: seq<Arc>)
    ensures |r| == |deps| && forall k :: 0 <= k < |deps| ==> r[k] == (deps[k], name)
  {
    if deps == [] then [] else ArcsOf(deps[..|deps| - 1], name) + [(deps[|deps| - 1], name)]
  }

  /** Every arc of the task list, task by task. */
  function Arcs(tasks: seq<Task>): seq<Arc>
  {
    if tasks == [] then []
    else Arcs(tasks[..|tasks| - 1]) + ArcsOf(tasks[|tasks| - 1].dependsOn, tasks[|tasks| - 1].name)
  }

  lemma ArcsStep(tasks: seq<Task>, i: nat)
    requires i < |tasks|
    ensures Arcs(tasks[..i + 1]) == Arcs(tasks[..i]) + ArcsOf(tasks[i].dependsOn, tasks[i].name)
  {
    assert tasks[..i + 1][..i] == tasks[..i];
  }

  /** The arcs of the tasks before position i come first. */
  lemma {:induction false} ArcsPrefix(tasks: seq<Task>, i: nat)
    requires i <= |tasks|
    ensures |Arcs(tasks[..i])| <= |Arcs(tasks)| && Arcs(tasks)[..|Arcs(tasks[..i])|] == Arcs(tasks[..i])
  {
    if i == |tasks| {
      assert tasks[..i] == tasks;
    } else {
      var init := tasks[..|tasks| - 1];
      ArcsPrefix(init, i);
      assert init[..i] == tasks[..i];
    }
  }

  /** How many arcs the tasks before position i declare. */
  function ArcsBefore(tasks: seq<Task>, i: nat): (n: nat)
    requires i <= |tasks|
    ensures n <= |Arcs(tasks)|
  {
    ArcsPrefix(tasks, i);
    |Arcs(tasks[..i])|
  }

  lemma ArcsBeforeBounds(tasks: seq<Task>)
    ensures ArcsBefore(tasks, 0) == 0 && ArcsBefore(tasks, |tasks|) == |Arcs(tasks)|
  {
    assert tasks[..0] == [] && tasks[..|tasks|] == tasks;
  }

  lemma ArcsBeforeStep(tasks: seq<Task>, i: nat)
    requires i < |tasks|
    ensures ArcsBefore(tasks, i + 1) == ArcsBefore(tasks, i) + |tasks[i].dependsOn|
  {
    ArcsStep(tasks, i);
  }

  /** The arc for dependency j of task i sits right after the arcs of the
      earlier tasks and earlier dependencies. */
  lemma ArcAt(tasks: seq<Task>, i: nat, j: nat, k: nat)
    requires i < |tasks| && j < |tasks[i].dependsOn| && k == ArcsBefore(tasks, i) + j
    ensures k < |Arcs(tasks)| && Arcs(tasks)[k] == (tasks[i].dependsOn[j], tasks[i].name)
  {
    ArcsStep(tasks, i);
    ArcsPrefix(tasks, i + 1);
    var n := ArcsBefore(tasks, i);
    assert Arcs(tasks[..i + 1])[n + j] == ArcsOf(tasks[i].dependsOn, tasks[i].name)[j];
  }

  /** Every arc comes from a dependency some task declares. */
  lemma {:induction false} ArcSource(tasks: seq<Task>, e: Arc) returns (i: nat)
    requires e in Arcs(tasks)
    ensures i < |tasks| && tasks[i].name == e.1 && e.0 in tasks[i].dependsOn
  {
    var init := tasks[..|tasks| - 1];
    var last := tasks[|tasks| - 1];
    if e in Arcs(init) {
      i := ArcSource(init, e);
    } else {
      var k :| 0 <= k < |last.dependsOn| && ArcsOf(last.dependsOn, last.name)[k] == e;
      i := |tasks| - 1;
    }
  }

  /** Every declared dependency gives an arc. */
  lemma {:induction false} ArcOfDependency(tasks: seq<Task>, i: nat, d: string)
    requires i < |tasks| && d in tasks[i].dependsOn
    ensures (d, tasks[i].name) in Arcs(tasks)
  {
    var init := tasks[..|tasks| - 1];
    var last := tasks[|tasks| - 1];
    if i == |tasks| - 1 {
      var k :| 0 <= k < |last.dependsOn| && last.dependsOn[k] == d;
      assert ArcsOf(last.dependsOn, last.name)[k] == (d, last.name);
    } else {
      ArcOfDependency(init, i, d);
    }
  }

  /** `adjacency[d]` once the first k arcs are met: one entry per arc
      leaving d, in arc order. */
  function Dependents(E: seq<Arc>, k: nat, d: string): seq<string>
    requires k <= |E|
  {
    if k == 0 then []
    else Dependents(E, k - 1, d) + (if E[k - 1].0 == d then [E[k - 1].1] else [])
  }

  /** Each dependent of d stands for an arc from d. */
  lemma {:induction false} DependentArc(E: seq<Arc>, k: nat, d: string, y: string)
    requires k <= |E| && y in Dependents(E, k, d)
    ensures (d, y) in E
  {
    if y in Dependents(E, k - 1, d) {
      DependentArc(E, k - 1, d, y);
    } else {
      assert E[k - 1] == (d, y);
    }
  }

  /** `in_degree[x]` once the first k arcs are met and the tasks named in D
      have been taken off the queue: the arcs into x whose dependency is
      not in D. */
  function Pending(E: seq<Arc>, k: nat, D: set<string>, x: string): nat
    requires k <= |E|
  {
    if k == 0 then 0
    else Pending(E, k - 1, D, x) + (if E[k - 1].1 == x && E[k - 1].0 !in D then 1 else 0)
  }

  /** How many times x occurs in s (`list.count`). */
  function Occurrences(s: seq<string>, x: string): nat
  {
    if s == [] then 0
    else Occurrences(s[..|s| - 1], x) + (if s[|s| - 1] == x then 1 else 0)
  }

  /** Counting along a sequence: one more element adds its own occurrence,
      and a prefix never counts more than the whole. */
  lemma {:induction false} OccurrencesPrefix(s: seq<string>, j: nat, x: string)
    requires j < |s|
    ensures Occurrences(s[..j + 1], x) == Occurrences(s[..j], x) + (if s[j] == x then 1 else 0)
    ensures Occurrences(s[..j + 1], x) <= Occurrences(s, x)
    decreases |s|
  {
    assert s[..j + 1][..j] == s[..j];
    if j + 1 < |s| {
      OccurrencesPrefix(s[..|s| - 1], j, x);
      assert s[..|s| - 1][..j + 1] == s[..j + 1];
      assert s[..|s| - 1][..j] == s[..j];
    } else {
      assert s[..j + 1] == s;
    }
  }

  /** Taking c off the queue lowers every count by the number of times the
      name occurs among c's dependents. */
  lemma {:induction false} PendingStep(E: seq<Arc>, k: nat, D: set<string>, c: string, x: string)
    requires k <= |E| && c !in D
    ensures Pending(E, k, D, x) == Pending(E, k, D + {c}, x) + Occurrences(Dependents(E, k, c), x)
  {
    if k > 0 {
      PendingStep(E, k - 1, D, c, x);
      var e := E[k - 1];
      var p := Dependents(E, k - 1, c);
      if e.0 == c {
        assert (p + [e.1])[..|p|] == p;
      } else {
        assert p + [] == p;
      }
    }
  }

  /** A count of zero means every arc into x starts in D. */
  lemma {:induction false} PendingZero(E: seq<Arc>, k: nat, D: set<string>, x: string, m: nat)
    requires k <= |E| && Pending(E, k, D, x) == 0 && m < k && E[m].1 == x
    ensures E[m].0 in D
  {
    if m < k - 1 {
      PendingZero(E, k - 1, D, x, m);
    }
  }

  /** A positive count has an arc behind it. */
  lemma {:induction false} PendingWitness(E: seq<Arc>, k: nat, D: set<string>, x: string) returns (m: nat)
    requires k <= |E| && Pending(E, k, D, x) > 0
    ensures m < k && E[m].1 == x && E[m].0 !in D
  {
    if E[k - 1].1 == x && E[k - 1].0 !in D {
      m := k - 1;
    } else {
      m := PendingWitness(E, k - 1, D, x);
    }
  }

  /** No task with this name declares a dependency. */
  predicate Independent(tasks: seq<Task>, x: string)
  {
    forall i :: 0 <= i < |tasks| && tasks[i].name == x ==> tasks[i].dependsOn == []
  }

  /** Initially, a name counts zero exactly when it is independent. */
  lemma IndependentIffNoArcs(tasks: seq<Task>, x: string)
    ensures Pending(Arcs(tasks), |Arcs(tasks)|, {}, x) == 0 <==> Independent(tasks, x)
  {
    var E := Arcs(tasks);
    if Pending(E, |E|, {}, x) == 0 {
      forall i | 0 <= i < |tasks| && tasks[i].name == x
        ensures tasks[i].dependsOn == []
      {
        if tasks[i].dependsOn != [] {
          ArcOfDependency(tasks, i, tasks[i].dependsOn[0]);
          var m :| 0 <= m < |E| && E[m] == (tasks[i].dependsOn[0], x);
          PendingZero(E, |E|, {}, x, m);
        }
      }
    } else {
      var m := PendingWitness(E, |E|, {}, x);
      var i := ArcSource(tasks, E[m]);
      assert tasks[i].dependsOn != [];
    }
  }

  /** The names of a list that are independent, in list order. */
  function IndependentNames(tasks: seq<Task>, names: seq<string>): (r: seq<string>)
    ensures forall x :: x in r <==> x in names && Independent(tasks, x)
    ensures Distinct(names) ==> Distinct(r)
  {
    if names == [] then []
    else
      var init := names[..|names| - 1];
      var x := names[|names| - 1];
      assert names == init + [x];
      IndependentNames(tasks, init) + (if Independent(tasks, x) then [x] else [])
  }

  /** The queue Kahn's algorithm starts from: the names whose in-degree is
      zero, in the dict's key order. */
  function Seeds(tasks: seq<Task>): seq<string>
  {
    IndependentNames(tasks, KeyOrder(tasks))
  }
}
