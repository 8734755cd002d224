/** Dependency graphs of a component's tasks and the facts about cycles
    that the cycle check and the topological sort of component.py rest on. */
module DependencyGraphs {

  /** Each task name to the names it depends on (`{task.name: task.depends_on}`). */
  type Graph = map<string, seq<string>>

  /** `graph.get(node, [])` */
  function Succ(g: Graph, n: string): seq<string>
  {
    if n in g then g[n] else []
  }

  /** `a` depends on `b`. */
  predicate Edge(g: Graph, a: string, b: string)
  {
    b in Succ(g, a)
  }

  /** A walk following dependency edges. */
  predicate IsPath(g: Graph, w: seq<string>)
  {
    forall i :: 0 <= i < |w| - 1 ==> Edge(g, w[i], w[i + 1])
  }

  /** A closed walk with at least one edge; `[a, a]` is a self-dependency. */
  predicate IsCycle(g: Graph, w: seq<string>)
  {
    |w| >= 2 && w[0] == w[|w| - 1] && IsPath(g, w)
  }

  ghost predicate HasCycle(g: Graph)
  {
    exists w :: IsCycle(g, w)
  }

  /** The elements of a sequence, as a set (`set(s)`). */
  function Elems(s: seq<string>): set<string>
  {
    set x | x in s
  }

  predicate Distinct<T(==)>(s: seq<T>)
  {
    forall i, j :: 0 <= i < j < |s| ==> s[i] != s[j]
  }

  /** Position of an element of a sequence (the first one). */
  function Position<T(==)>(s: seq<T>, x: T): (k: nat)
    requires x in s
    ensures k < |s| && s[k] == x && x !in s[..k]
    ensures forall m :: 0 <= m < |s| && s[m] == x ==> k <= m
  {
    if s[0] == x then 0
    else
      var k := Position(s[1..], x);
      assert s[..k + 1] == [s[0]] + s[1..][..k];
      k + 1
  }

  /** In a sequence without repetitions, an element's position is the only
      index holding it. */
  lemma PositionUnique<T>(s: seq<T>, i: nat)
    requires Distinct(s) && i < |s|
    ensures Position(s, s[i]) == i
  {
  }

  /** Every dependency of `f[i]` occurs in `f` before position i: `f` lists
      nodes dependencies-first. */
  predicate Ranked(g: Graph, f: seq<string>)
  {
    forall i :: 0 <= i < |f| ==> forall b :: b in Succ(g, f[i]) ==> b in f[..i]
  }

  lemma RankStep(g: Graph, f: seq<string>, a: string, b: string)
    requires Ranked(g, f) && a in f && Edge(g, a, b)
    ensures b in f && Position(f, b) < Position(f, a)
  {
    var i := Position(f, a);
    assert b in f[..i];
    var m :| 0 <= m < i && f[..i][m] == b;
    assert f[m] == b;
  }

  /** Along a walk that starts inside a dependencies-first sequence, the
      positions strictly decrease. */
  lemma {:induction false} WalkDescends(g: Graph, f: seq<string>, w: seq<string>, j: nat)
    requires Ranked(g, f) && IsPath(g, w)
    requires 1 <= j < |w| && w[0] in f
    ensures w[j] in f && Position(f, w[j]) < Position(f, w[0])
  {
    if j == 1 {
      RankStep(g, f, w[0], w[1]);
    } else {
      WalkDescends(g, f, w, j - 1);
      RankStep(g, f, w[j - 1], w[j]);
    }
  }

  /** No node of a cycle occurs in a dependencies-first sequence. */
  lemma CycleOutsideRanked(g: Graph, f: seq<string>, w: seq<string>)
    requires Ranked(g, f) && IsCycle(g, w)
    ensures w[0] !in f
  {
    if w[0] in f {
      WalkDescends(g, f, w, |w| - 1);
      assert false;
    }
  }

  /** A graph whose nodes can all be listed dependencies-first has no cycle. */
  lemma RankedAcyclic(g: Graph, f: seq<string>)
    requires Ranked(g, f)
    requires forall n :: n in g ==> n in f
    ensures !HasCycle(g)
  {
    if HasCycle(g) {
      var w :| IsCycle(g, w);
      assert Edge(g, w[0], w[1]);
      CycleOutsideRanked(g, f, w);
      assert false;
    }
  }

  lemma {:induction false} DistinctCard<T>(s: seq<T>)
    requires Distinct(s)
    ensures |set x | x in s| == |s|
  {
    if s != [] {
      DistinctCard(s[1..]);
      assert (set x | x in s) == (set x | x in s[1..]) + {s[0]};
    }
  }

  lemma SubsetCard(A: set<string>, B: set<string>)
    requires A <= B
    ensures |A| <= |B|
  {
    assert B == A + (B - A) && A * (B - A) == {};
  }

  /** A walk longer than the set it stays in repeats a node. */
  lemma Pigeonhole(w: seq<string>, S: set<string>)
    requires forall i :: 0 <= i < |w| ==> w[i] in S
    requires |w| > |S|
    ensures !Distinct(w)
  {
    if Distinct(w) {
      SubsetCard((set x | x in w), S);
      DistinctCard(w);
      assert false;
    }
  }

  /** Membership, as a separate term so that `Stuck` is instantiated only
      for the nodes a proof names. */
  predicate Member(S: set<string>, a: string)
  {
    a in S
  }

  /** Each node of S depends on some node of S. */
  ghost predicate Stuck(g: Graph, S: set<string>)
  {
    forall a {:trigger Member(S, a)} :: Member(S, a) ==> exists b :: b in S && Edge(g, a, b)
  }

  /** A walk of n edges inside a set from which there is always an edge back
      into the set. */
  lemma {:induction false} WalkInside(g: Graph, S: set<string>, x: string, n: nat) returns (w: seq<string>)
    requires x in S && Stuck(g, S)
    ensures |w| == n + 1 && w[0] == x && IsPath(g, w)
    ensures forall i :: 0 <= i < |w| ==> w[i] in S
    decreases n
  {
    if n == 0 {
      w := [x];
    } else {
      assert Member(S, x);
      var y :| y in S && Edge(g, x, y);
      var rest := WalkInside(g, S, y, n - 1);
      w := [x] + rest;
      forall i | 0 <= i < |w| - 1
        ensures Edge(g, w[i], w[i + 1])
      {
        if i > 0 {
          assert w[i] == rest[i - 1] && w[i + 1] == rest[i];
        }
      }
      forall i | 0 <= i < |w|
        ensures w[i] in S
      {
        if i > 0 {
          assert w[i] == rest[i - 1];
        }
      }
    }
  }

  /** A non-empty set of nodes each of which depends on a node of the set
      contains a cycle. */
  lemma StuckSetHasCycle(g: Graph, S: set<string>)
    requires S != {} && Stuck(g, S)
    ensures HasCycle(g)
  {
    var x :| x in S;
    var w := WalkInside(g, S, x, |S|);
    Pigeonhole(w, S);
    var i, j :| 0 <= i < j < |w| && w[i] == w[j];
    SubPath(g, w, i, j + 1);
    assert IsCycle(g, w[i..j + 1]);
  }

  /** A stretch of a walk is a walk. */
  lemma SubPath(g: Graph, w: seq<string>, i: nat, j: nat)
    requires IsPath(g, w) && i <= j <= |w|
    ensures IsPath(g, w[i..j])
  {
    var c := w[i..j];
    forall k | 0 <= k < |c| - 1
      ensures Edge(g, c[k], c[k + 1])
    {
      assert c[k] == w[i + k] && c[k + 1] == w[i + k + 1];
    }
  }

  /** Two sequences without repetitions holding the same elements hold them
      with the same multiplicities. */
  lemma DistinctSameElements<T>(s: seq<T>, t: seq<T>)
    requires Distinct(s) && Distinct(t)
    requires forall x :: x in s <==> x in t
    ensures multiset(s) == multiset(t)
  {
    forall x
      ensures multiset(s)[x] == multiset(t)[x]
    {
      DistinctMultiplicity(s, x);
      DistinctMultiplicity(t, x);
    }
  }

  lemma {:induction false} DistinctMultiplicity<T>(s: seq<T>, x: T)
    requires Distinct(s)
    ensures multiset(s)[x] == if x in s then 1 else 0
  {
    if s != [] {
      assert s == [s[0]] + s[1..];
      DistinctMultiplicity(s[1..], x);
    }
  }

  /** A node all of whose dependencies are finished may be finished next. */
  lemma RankedSnoc(g: Graph, f: seq<string>, x: string)
    requires Ranked(g, f)
    requires forall b :: b in Succ(g, x) ==> b in f
    ensures Ranked(g, f + [x])
  {
    var f' := f + [x];
    forall i | 0 <= i < |f'|
      ensures forall b :: b in Succ(g, f'[i]) ==> b in f'[..i]
    {
      if i == |f| {
        assert f'[..i] == f;
      } else {
        assert f'[..i] == f[..i];
      }
    }
  }
}
