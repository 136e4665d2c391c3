/** Taint propagation over explicit derivation edges: breadth-first closure of the roots. */
module TaintClosure {
  import opened Common
  import opened TextOrder

  datatype Edge = Edge(source: string, target: string, predicate_: string)

  const DERIVATIONS: set<string> := {"DERIVED_FROM", "TRANSFORMED_FROM", "SUMMARIZES", "COPIES", "USES_CLAIM"}

  /** The five relations along which taint spreads. */
  predicate Derives(relation: string) {
    || relation == "DERIVED_FROM" || relation == "TRANSFORMED_FROM" || relation == "SUMMARIZES"
    || relation == "COPIES" || relation == "USES_CLAIM"
  }

  /** S contains the target of every derivation edge that starts in S. */
  predicate Closed(edges: seq<Edge>, S: set<string>) {
    forall e :: e in edges && Derives(e.predicate_) && e.source in S ==> e.target in S
  }

  /** The least closed set containing the roots. */
  ghost predicate IsTaint(edges: seq<Edge>, roots: seq<string>, S: set<string>) {
    && Elements(roots) <= S
    && Closed(edges, S)
    && forall T :: Elements(roots) <= T && Closed(edges, T) ==> S <= T
  }

  lemma TaintUnique(edges: seq<Edge>, roots: seq<string>, S: set<string>, T: set<string>)
    requires IsTaint(edges, roots, S) && IsTaint(edges, roots, T)
    ensures S == T
  {
  }

  /** The adjacency lists of the first n edges that are derivations. */
  predicate Adjacency(edges: seq<Edge>, n: nat, out: map<string, seq<string>>)
    requires n <= |edges|
  {
    && (forall i :: 0 <= i < n && edges[i].predicate_ in DERIVATIONS
         ==> edges[i].source in out && edges[i].target in out[edges[i].source])
    && (forall s, t :: s in out && t in out[s]
         ==> exists i :: 0 <= i < n && edges[i] == Edge(s, t, edges[i].predicate_)
              && edges[i].predicate_ in DERIVATIONS)
  }

  method BuildAdjacency(edges: seq<Edge>) returns (out: map<string, seq<string>>)
    ensures Adjacency(edges, |edges|, out)
  {
    out := map[];
    for n := 0 to |edges|
      invariant Adjacency(edges, n, out)
    {
      var e := edges[n];
      if e.predicate_ in DERIVATIONS {
        ghost var before := out;
        var row := if e.source in out then out[e.source] else [];
        out := out[e.source := row + [e.target]];
        forall s, t | s in out && t in out[s]
          ensures exists i :: 0 <= i < n + 1 && edges[i] == Edge(s, t, edges[i].predicate_)
                    && edges[i].predicate_ in DERIVATIONS
        {
          if s == e.source && t == e.target {
            assert edges[n] == Edge(s, t, edges[n].predicate_);
          } else {
            assert s in before && t in before[s];
          }
        }
      }
    }
  }

  function Targets(edges: seq<Edge>): set<string> {
    set e | e in edges :: e.target
  }

  /** The inner loop: every unseen target of the dequeued node is marked and enqueued. */
  method Expand(row: seq<string>, queue: seq<string>, seen: set<string>)
    returns (queue': seq<string>, seen': set<string>)
    ensures seen' == seen + Elements(row)
    ensures Elements(queue') == Elements(queue) + (Elements(row) - seen)
    ensures seen' == seen ==> queue' == queue
  {
    queue', seen' := queue, seen;
    for i := 0 to |row|
      invariant seen' == seen + Elements(row[..i])
      invariant Elements(queue') == Elements(queue) + (Elements(row[..i]) - seen)
      invariant seen' == seen ==> queue' == queue
    {
      assert row[..i + 1] == row[..i] + [row[i]];
      ElementsAdd(row[..i], row[i]);
      if row[i] !in seen' {
        ElementsAdd(queue', row[i]);
        seen' := seen' + {row[i]};
        queue' := queue' + [row[i]];
      }
    }
    assert row[..|row|] == row;
  }

  /** What the breadth-first loop maintains: `seen` is forced by the roots, and closed except at the queue. */
  ghost predicate Frontier(edges: seq<Edge>, roots: seq<string>, queue: set<string>, seen: set<string>) {
    && Elements(roots) <= seen && queue <= seen
    && seen <= Elements(roots) + Targets(edges)
    && (forall T :: Elements(roots) <= T && Closed(edges, T) ==> seen <= T)
    && forall e :: e in edges && e.predicate_ in DERIVATIONS && e.source in seen && e.source !in queue
         ==> e.target in seen
  }

  function Row(out: map<string, seq<string>>, x: string): seq<string> {
    if x in out then out[x] else []
  }

  lemma RowIsTargets(edges: seq<Edge>, out: map<string, seq<string>>, x: string, y: string)
    requires Adjacency(edges, |edges|, out)
    ensures y in Row(out, x)
            <==> exists e :: e in edges && e.predicate_ in DERIVATIONS && e.source == x && e.target == y
  {
    if y in Row(out, x) {
      var i :| 0 <= i < |edges| && edges[i] == Edge(x, y, edges[i].predicate_) && edges[i].predicate_ in DERIVATIONS;
      assert edges[i] in edges;
    }
    if e :| e in edges && e.predicate_ in DERIVATIONS && e.source == x && e.target == y {
      var i :| 0 <= i < |edges| && edges[i] == e;
    }
  }

  lemma ExpandKeepsFrontier(edges: seq<Edge>, roots: seq<string>, out: map<string, seq<string>>,
                            x: string, rest: set<string>, seen: set<string>)
    requires Adjacency(edges, |edges|, out)
    requires Frontier(edges, roots, rest + {x}, seen)
    ensures Frontier(edges, roots, rest + (Elements(Row(out, x)) - seen), seen + Elements(Row(out, x)))
  {
    var row := Row(out, x);
    forall y | y in row
      ensures y in Targets(edges)
      ensures forall T :: Elements(roots) <= T && Closed(edges, T) ==> y in T
    {
      RowIsTargets(edges, out, x, y);
      var e :| e in edges && e.predicate_ in DERIVATIONS && e.source == x && e.target == y;
      assert x in seen;
    }
    forall e | e in edges && e.predicate_ in DERIVATIONS && e.source in seen + Elements(row)
               && e.source !in rest + (Elements(row) - seen)
      ensures e.target in seen + Elements(row)
    {
      if e.source == x { RowIsTargets(edges, out, x, e.target); }
    }
  }

  /** The reported ids are sorted and are exactly the least closed set containing the roots. */
  method Taint(edges: seq<Edge>, roots: seq<string>) returns (tainted: seq<string>)
    ensures IsTaint(edges, roots, Elements(tainted))
    ensures Increasing(tainted)
  {
    var out := BuildAdjacency(edges);
    var queue := roots;
    var seen := Elements(roots);
    while queue != []
      invariant Frontier(edges, roots, Elements(queue), seen)
      decreases Elements(roots) + Targets(edges) - seen, |queue|
    {
      var x, rest := queue[0], queue[1..];
      HeadElements(queue);
      ExpandKeepsFrontier(edges, roots, out, x, Elements(rest), seen);
      queue, seen := Expand(Row(out, x), rest, seen);
    }
    tainted := Sorted(seen);
    FrontierDone(edges, roots, seen);
  }

  lemma HeadElements(queue: seq<string>)
    requires queue != []
    ensures Elements(queue) == Elements(queue[1..]) + {queue[0]}
  {
    assert queue == [queue[0]] + queue[1..];
  }

  lemma FrontierDone(edges: seq<Edge>, roots: seq<string>, seen: set<string>)
    requires Frontier(edges, roots, {}, seen)
    ensures IsTaint(edges, roots, seen)
  {
  }
}
