/** Finite directed graphs given by adjacency lists; a node without an entry has no successors. */
module Graph {
  import opened Common

  type Graph = map<string, seq<string>>

  function Succ(g: Graph, n: string): seq<string> {
    if n in g then g[n] else []
  }

  predicate IsWalk(g: Graph, p: seq<string>) {
    p != [] && forall i :: 0 <= i < |p| - 1 ==> p[i + 1] in Succ(g, p[i])
  }

  predicate IsWalkFrom(g: Graph, p: seq<string>, n: string) {
    IsWalk(g, p) && p[0] == n
  }

  ghost predicate Reaches(g: Graph, a: string, b: string) {
    exists p :: IsWalkFrom(g, p, a) && p[|p| - 1] == b
  }

  /** A closed walk of graph edges whose nodes differ except for the repeated endpoint. */
  predicate IsCycle(g: Graph, c: seq<string>) {
    |c| >= 2 && IsWalk(g, c) && c[0] == c[|c| - 1] && Distinct(c[..|c| - 1])
  }

  predicate IsClosedWalk(g: Graph, p: seq<string>) {
    |p| >= 2 && IsWalk(g, p) && p[0] == p[|p| - 1]
  }

  ghost predicate Acyclic(g: Graph) {
    forall p :: !IsClosedWalk(g, p)
  }

  lemma WalkSlice(g: Graph, p: seq<string>, i: nat, j: nat)
    requires IsWalk(g, p) && i < j <= |p|
    ensures IsWalk(g, p[i..j])
  {
  }

  lemma WalkCons(g: Graph, n: string, p: seq<string>)
    requires IsWalk(g, p) && p[0] in Succ(g, n)
    ensures IsWalkFrom(g, [n] + p, n)
  {
    var q := [n] + p;
    forall i | 0 <= i < |q| - 1 ensures q[i + 1] in Succ(g, q[i]) {
      if i > 0 { assert p[i] in Succ(g, p[i - 1]); }
    }
  }

  lemma WalkSnoc(g: Graph, p: seq<string>, n: string)
    requires IsWalk(g, p) && n in Succ(g, p[|p| - 1])
    ensures IsWalk(g, p + [n])
  {
  }

  /** A walk that returns to an earlier node closes a cycle there. */
  lemma ReturnCloses(g: Graph, p: seq<string>, k: nat)
    requires IsWalk(g, p) && k < |p| - 1 && p[k] == p[|p| - 1] && Distinct(p[..|p| - 1])
    ensures IsCycle(g, p[k..])
  {
    WalkSlice(g, p, k, |p|);
    var c := p[k..];
    forall i, j | 0 <= i < j < |c| - 1 ensures c[i] != c[j] {
      assert c[i] == p[..|p| - 1][k + i] && c[j] == p[..|p| - 1][k + j];
    }
  }

  // ---- Acyclicity by a topological order ----

  /** Every successor of a listed node is listed before it. */
  predicate Topological(g: Graph, order: seq<string>) {
    forall i, d :: 0 <= i < |order| && d in Succ(g, order[i]) ==> d in order[..i]
  }

  lemma {:induction false} WalkDescends(g: Graph, order: seq<string>, i: nat, p: seq<string>, j: nat)
    requires Topological(g, order) && i < |order| && IsWalkFrom(g, p, order[i]) && 1 <= j < |p|
    ensures p[j] in order[..i]
  {
    if j == 1 {
      assert p[1] in Succ(g, order[i]);
    } else {
      WalkDescends(g, order, i, p, j - 1);
      var k :| 0 <= k < |order[..i]| && order[..i][k] == p[j - 1];
      assert p[(j - 1) + 1] in Succ(g, p[j - 1]);
      assert p[j] in Succ(g, order[k]);
      assert p[j] in order[..k];
      assert order[..k] <= order[..i];
    }
  }

  /** A graph whose nodes with successors all occur in a topological order has no closed walk. */
  lemma TopologicalAcyclic(g: Graph, order: seq<string>)
    requires Topological(g, order) && Distinct(order) && forall n :: n in g ==> n in order
    ensures Acyclic(g)
  {
    forall p ensures !IsClosedWalk(g, p) {
      if IsClosedWalk(g, p) {
        assert p[0 + 1] in Succ(g, p[0]);
        var i :| 0 <= i < |order| && order[i] == p[0];
        assert order[i] !in order[..i];
        WalkDescends(g, order, i, p, |p| - 1);
      }
    }
  }
}
