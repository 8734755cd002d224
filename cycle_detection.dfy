/** Cycle detection by depth-first search (`_has_circular_dependencies` of
    component.py): the search state as a class whose methods are the
    nested `dfs` function and one turn of its loop. */
module CycleDetection {
  import opened Tasks
  import opened DependencyGraphs
  import opened TaskGraphs

  /** Every node the search can reach: the keys and every dependency named. */
  function Universe(g: Graph): set<string>
  {
    g.Keys + (set n, b | n in g && b in g[n] :: b)
  }

  /** Visiting a further node leaves fewer nodes of the universe to visit. */
  lemma VisitingShrinks(U: set<string>, before: set<string>, after: set<string>, node: string)
    requires before + {node} <= after && node in U && node !in before
    ensures |U - after| < |U - before|
  {
    var A, B := U - after, U - before;
    assert A < B by {
      assert node in B && node !in A;
    }
    assert B == A + (B - A) && A * (B - A) == {};
  }

  lemma PathSnoc(g: Graph, w: seq<string>, x: string)
    requires IsPath(g, w) && (w == [] || Edge(g, w[|w| - 1], x))
    ensures IsPath(g, w + [x])
  {
    var v := w + [x];
    forall i | 0 <= i < |v| - 1
      ensures Edge(g, v[i], v[i + 1])
    {
      if i < |w| - 1 {
        assert v[i] == w[i] && v[i + 1] == w[i + 1];
      }
    }
  }

  /** What holds between steps of the search: the nodes on the search stack
      form a walk, and every visited node off the stack is finished, the
      finished ones coming after their dependencies. */
  ghost predicate SearchInvariant(g: Graph, U: set<string>, visited: set<string>, recStack: set<string>, stack: seq<string>, finished: seq<string>)
  {
    recStack == Elems(stack) && recStack <= visited && visited <= U &&
    (forall x :: x in visited && x !in recStack ==> x in finished) &&
    IsPath(g, stack) &&
    Ranked(g, finished)
  }

  /** Entering a node not yet visited keeps the invariant. */
  lemma SearchPush(g: Graph, U: set<string>, visited: set<string>, recStack: set<string>, stack: seq<string>, finished: seq<string>, node: string)
    requires SearchInvariant(g, U, visited, recStack, stack, finished)
    requires node !in visited && node in U
    requires stack == [] || Edge(g, stack[|stack| - 1], node)
    ensures SearchInvariant(g, U, visited + {node}, recStack + {node}, stack + [node], finished)
  {
    PathSnoc(g, stack, node);
    assert Elems(stack + [node]) == Elems(stack) + {node};
  }

  /** Leaving a node all of whose dependencies are visited and off the
      stack keeps the invariant, with the node finished last. */
  lemma SearchPop(g: Graph, U: set<string>, visited: set<string>, recStack: set<string>, stack: seq<string>, finished: seq<string>, node: string)
    requires SearchInvariant(g, U, visited, recStack, stack + [node], finished)
    requires node !in Elems(stack)
    requires forall b :: b in Succ(g, node) ==> b in visited && b !in recStack
    ensures SearchInvariant(g, U, visited, recStack - {node}, stack, finished + [node])
  {
    assert Elems(stack + [node]) == Elems(stack) + {node};
    RankedSnoc(g, finished, node);
    SubPath(g, stack + [node], 0, |stack|);
    assert (stack + [node])[..|stack|] == stack;
  }

  /** A search that has visited every key with an empty stack has listed
      the whole graph dependencies-first, so the graph has no cycle. */
  lemma SearchComplete(g: Graph, U: set<string>, visited: set<string>, recStack: set<string>, finished: seq<string>)
    requires SearchInvariant(g, U, visited, recStack, [], finished)
    requires forall n :: n in g ==> n in visited
    ensures !HasCycle(g)
  {
    assert Elems([]) == {};
    RankedAcyclic(g, finished);
  }

  /** The depth-first search: `visited` and `rec_stack` are the sets the
      nested `dfs` of the source updates.  The ghost fields are the search
      stack as a sequence and the nodes whose search has finished, in
      finishing order. */
  class CycleDetector {
    const graph: Graph
    var visited: set<string>
    var recStack: set<string>
    ghost var stack: seq<string>
    ghost var finished: seq<string>
    /** Every node the search can reach. */
    ghost const universe: set<string>

    ghost predicate Valid()
      reads this
    {
      SearchInvariant(graph, universe, visited, recStack, stack, finished)
    }

    /** The dependencies of a node in the universe are in it too. */
    ghost predicate Closed()
    {
      forall n, b :: n in graph && b in graph[n] ==> b in universe
    }

    constructor (graph: Graph)
      ensures Valid() && Closed() && this.graph == graph && universe == Universe(graph)
      ensures visited == {} && stack == [] && finished == []
    {
      this.graph := graph;
      universe := Universe(graph);
      visited := {};
      recStack := {};
      stack := [];
      finished := [];
    }

    /** `dfs(node)`: true when it meets a node on the current search stack,
        which closes a cycle.  Otherwise the node and everything it reaches
        are visited and off the stack again. */
    method Dfs(node: string) returns (found: bool)
      requires Valid() && Closed() && node !in visited && node in universe
      requires stack == [] || Edge(graph, stack[|stack| - 1], node)
      modifies this
      ensures found ==> HasCycle(graph)
      ensures !found ==> Valid() && stack == old(stack) && recStack == old(recStack)
      ensures !found ==> old(visited) <= visited && node in visited
      decreases |universe - visited|, 1
    {
      SearchPush(graph, universe, visited, recStack, stack, finished, node);
      VisitingShrinks(universe, visited, visited + {node}, node);
      visited := visited + {node};
      recStack := recStack + {node};
      stack := stack + [node];
      found := VisitSuccessors(node);
      if !found {
        assert node !in old(recStack);
        Leave(node, old(stack), |Succ(graph, node)|);
      }
    }

    /** The loop of `dfs(node)` over the node's dependencies, in order,
        stopping at the first that closes a cycle. */
    method VisitSuccessors(node: string) returns (found: bool)
      requires Valid() && Closed() && stack != [] && stack[|stack| - 1] == node
      modifies this
      ensures found ==> HasCycle(graph)
      ensures !found ==> Valid() && stack == old(stack) && recStack == old(recStack) && old(visited) <= visited
      ensures !found ==> forall k :: 0 <= k < |Succ(graph, node)| ==>
        Succ(graph, node)[k] in visited && Succ(graph, node)[k] !in recStack
      decreases |universe - visited|, 3
    {
      var successors := Succ(graph, node);
      var i := 0;
      while i < |successors|
        invariant 0 <= i <= |successors|
        invariant Valid() && stack == old(stack) && recStack == old(recStack) && old(visited) <= visited
        invariant forall k :: 0 <= k < i ==> successors[k] in visited && successors[k] !in recStack
      {
        SubsetCard(universe - visited, universe - old(visited));
        ghost var seen := visited;
        found := Visit(node, successors[i]);
        if found {
          return;
        }
        forall k | 0 <= k < i + 1
          ensures successors[k] in visited && successors[k] !in recStack
        {
          if k < i {
            assert successors[k] in seen;
          }
        }
        i := i + 1;
      }
      return false;
    }

    /** Leaving `dfs(node)` after all its successors were searched: the node
        comes off the search stack and is finished. */
    method Leave(node: string, ghost below: seq<string>, count: nat)
      requires Valid() && stack == below + [node] && node !in Elems(below)
      requires count == |Succ(graph, node)|
      requires forall k :: 0 <= k < count ==> Succ(graph, node)[k] in visited && Succ(graph, node)[k] !in recStack
      modifies this
      ensures Valid() && visited == old(visited) && recStack == old(recStack) - {node} && stack == below
    {
      var successors := Succ(graph, node);
      forall b | b in successors
        ensures b in visited && b !in recStack
      {
        var k := Position(successors, b);
      }
      SearchPop(graph, universe, visited, recStack, below, finished, node);
      recStack := recStack - {node};
      stack := below;
      finished := finished + [node];
    }

    /** One turn of the loop over the successors of `node`, the node on top
        of the search stack: search an unvisited neighbour, report a
        neighbour on the stack, pass over a finished one. */
    method Visit(node: string, neighbor: string) returns (found: bool)
      requires Valid() && Closed() && stack != [] && stack[|stack| - 1] == node && Edge(graph, node, neighbor)
      modifies this
      ensures found ==> HasCycle(graph)
      ensures !found ==> Valid() && stack == old(stack) && recStack == old(recStack)
      ensures !found ==> old(visited) <= visited && neighbor in visited && neighbor !in recStack
      decreases |universe - visited|, 2
    {
      if neighbor !in visited {
        assert node in graph && neighbor in graph[node];
        found := Dfs(neighbor);
      } else if neighbor in recStack {
        CycleThroughStack(graph, stack, neighbor);
        found := true;
      } else {
        found := false;
      }
    }
  }

  /** An edge from the top of the search stack back to a node on the stack
      closes a cycle. */
  lemma CycleThroughStack(g: Graph, stack: seq<string>, x: string)
    requires IsPath(g, stack) && x in stack && Edge(g, stack[|stack| - 1], x)
    ensures HasCycle(g)
  {
    var k := Position(stack, x);
    SubPath(g, stack, k, |stack|);
    PathSnoc(g, stack[k..], x);
    assert IsCycle(g, stack[k..] + [x]);
  }

  /** `_has_circular_dependencies`: a search from every task name in turn
      (the source iterates the dict keys; a repeated name is already
      visited when its turn comes).  True exactly when the dependency graph
      has a cycle, self-dependencies included. */
  method HasCircularDependencies(tasks: seq<Task>) returns (r: bool)
    ensures r <==> HasCycle(DepGraph(tasks))
  {
    var graph := DepGraph(tasks);
    var detector := new CycleDetector(graph);
    for i := 0 to |tasks|
      invariant detector.Valid() && detector.Closed() && detector.stack == []
      invariant detector.graph == graph && detector.universe == Universe(graph)
      invariant forall k :: 0 <= k < i ==> tasks[k].name in detector.visited
    {
      var taskName := tasks[i].name;
      NameSetOf(tasks, i);
      ghost var seen := detector.visited;
      if taskName !in detector.visited {
        var found := detector.Dfs(taskName);
        if found {
          return true;
        }
      }
      forall k | 0 <= k < i + 1
        ensures tasks[k].name in detector.visited
      {
        if k < i {
          assert tasks[k].name in seen;
        }
      }
    }
    forall n | n in graph
      ensures n in detector.visited
    {
      var k := NameSetWitness(tasks, n);
    }
    SearchComplete(graph, detector.universe, detector.visited, detector.recStack, detector.finished);
    return false;
  }
}
