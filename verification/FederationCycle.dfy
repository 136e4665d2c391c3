/** The depth-first cycle finder of the federation registry. */
module FederationCycle {
  import opened Common
  import opened Graph

  /** Every node the search can meet. */
  function Nodes(g: Graph): set<string> {
    g.Keys + set n, d | n in g && d in g[n] :: d
  }

  /** The search state of `_dependency_cycle`: two sets and the current path, shared by all recursive calls. */
  class CycleFinder {
    const graph: Graph
    var visiting: set<string>
    var visited: set<string>
    var path: seq<string>
    ghost var order: seq<string>

    ghost predicate Valid()
      reads this
    {
      && visiting == Elements(path) && Distinct(path)
      && visiting !! visited && visiting <= Nodes(graph)
      && (path != [] ==> IsWalk(graph, path))
      && visited == Elements(order) && Distinct(order) && Topological(graph, order)
    }

    constructor (g: Graph)
      ensures graph == g && Valid() && path == [] && visited == {}
    {
      graph := g;
      visiting, visited, path, order := {}, {}, [], [];
    }

    /** Either node and everything below it is finished, or a cycle has been found. */
    method Visit(node: string) returns (cycle: Option<seq<string>>)
      requires Valid() && node in Nodes(graph)
      requires path != [] ==> node in Succ(graph, path[|path| - 1])
      modifies this
      ensures cycle.Some? ==> IsCycle(graph, cycle.value)
      ensures cycle.None? ==> Valid() && path == old(path) && node in visited && old(visited) <= visited
      decreases Nodes(graph) - visiting, 0
    {
      if node in visiting {
        ClosePath(graph, path, node);
        return Some(path[IndexOf(path, node)..] + [node]);
      }
      if node in visited { return None; }
      Enter(node);
      cycle := VisitDependencies(node);
      if cycle.None? { Finish(node, old(path)); }
    }

    /** The loop over the dependencies of the node at the end of the path. */
    method VisitDependencies(node: string) returns (cycle: Option<seq<string>>)
      requires Valid() && path != [] && path[|path| - 1] == node
      modifies this
      ensures cycle.Some? ==> IsCycle(graph, cycle.value)
      ensures cycle.None? ==> Valid() && path == old(path) && old(visited) <= visited
                              && forall d :: d in Succ(graph, node) ==> d in visited
      decreases Nodes(graph) - visiting, 1
    {
      var deps := Succ(graph, node);
      for i := 0 to |deps|
        invariant Valid() && path == old(path) && old(visited) <= visited
        invariant forall k :: 0 <= k < i ==> deps[k] in visited
      {
        assert node in graph && deps[i] in graph[node];
        cycle := Visit(deps[i]);
        if cycle.Some? { return; }
      }
      cycle := None;
    }

    method Enter(node: string)
      requires Valid() && node in Nodes(graph) && node !in visiting && node !in visited
      requires path != [] ==> node in Succ(graph, path[|path| - 1])
      modifies this`visiting, this`path
      ensures Valid() && path == old(path) + [node] && visiting == old(visiting) + {node}
    {
      if path != [] { WalkSnoc(graph, path, node); }
      visiting := visiting + {node};
      path := path + [node];
    }

    method Finish(node: string, ghost before: seq<string>)
      requires Valid() && path == before + [node] && node !in visited
      requires forall d :: d in Succ(graph, node) ==> d in visited
      modifies this
      ensures Valid() && path == before && visited == old(visited) + {node}
    {
      assert path[..|path| - 1] == before;
      DropLast(before, node);
      if before != [] { WalkSlice(graph, path, 0, |path| - 1); }
      TopologicalSnoc(graph, order, node);
      path := path[..|path| - 1];
      visiting := visiting - {node};
      visited := visited + {node};
      order := order + [node];
    }
  }

  /** An edge from the end of the path back into it closes a cycle. */
  lemma ClosePath(g: Graph, path: seq<string>, node: string)
    requires node in path && IsWalk(g, path) && Distinct(path) && node in Succ(g, path[|path| - 1])
    ensures IsCycle(g, path[IndexOf(path, node)..] + [node])
  {
    var start := IndexOf(path, node);
    assert path[start..] + [node] == (path + [node])[start..];
    WalkSnoc(g, path, node);
    assert (path + [node])[..|path|] == path;
    ReturnCloses(g, path + [node], start);
  }

  lemma DropLast(before: seq<string>, node: string)
    requires Distinct(before + [node])
    ensures Elements(before + [node]) - {node} == Elements(before) && Distinct(before)
  {
    var p := before + [node];
    forall k | 0 <= k < |before| ensures before[k] != node { assert p[k] != p[|before|]; }
    forall i, j | 0 <= i < j < |before| ensures before[i] != before[j] { assert p[i] != p[j]; }
  }

  lemma TopologicalSnoc(g: Graph, order: seq<string>, node: string)
    requires Topological(g, order) && Distinct(order) && node !in Elements(order)
    requires forall d :: d in Succ(g, node) ==> d in Elements(order)
    ensures Topological(g, order + [node]) && Distinct(order + [node])
    ensures Elements(order + [node]) == Elements(order) + {node}
  {
    var more := order + [node];
    forall i, d | 0 <= i < |more| && d in Succ(g, more[i]) ensures d in more[..i] {
      if i < |order| {
        assert more[..i] == order[..i];
      } else {
        assert more[..i] == order;
      }
    }
  }

  /** `path.index(node)`. */
  function IndexOf(s: seq<string>, x: string): (i: nat)
    requires x in s
    ensures i < |s| && s[i] == x && x !in s[..i]
  {
    if s[0] == x then 0 else
      assert x in s[1..];
      var i := IndexOf(s[1..], x);
      assert s[..i + 1] == [s[0]] + s[1..][..i];
      i + 1
  }

  /** None exactly when the graph has no closed walk; otherwise a genuine cycle of graph edges.
      `keys` lists the graph's nodes in the order the mapping holds them. */
  method DependencyCycle(graph: Graph, keys: seq<string>) returns (cycle: Option<seq<string>>)
    requires Elements(keys) == graph.Keys
    ensures cycle.None? <==> Acyclic(graph)
    ensures cycle.Some? ==> IsCycle(graph, cycle.value)
  {
    var finder := new CycleFinder(graph);
    for i := 0 to |keys|
      invariant finder.Valid() && finder.graph == graph && finder.path == []
      invariant forall k :: 0 <= k < i ==> keys[k] in finder.visited
      invariant fresh(finder)
    {
      assert keys[i] in Elements(keys);
      cycle := finder.Visit(keys[i]);
      if cycle.Some? {
        assert IsClosedWalk(graph, cycle.value);
        return;
      }
    }
    forall n | n in graph ensures n in finder.order {
      assert n in Elements(keys);
      assert n in finder.visited;
    }
    TopologicalAcyclic(graph, finder.order);
    cycle := None;
  }
}
