/** The supersession lineage (`controller.py`, `envelope.py`): cycle check and ancestor projection. */
module Lineage {
  import opened Graphs

  /** The graph of a list of edges. */
  function EdgeGraph<K(==)>(edges: seq<(K, K)>): Graph<K> {
    if edges == [] then map[]
    else
      var n := |edges| - 1;
      var before := EdgeGraph(edges[..n]);
      before[edges[n].0 := Succ(before, edges[n].0) + [edges[n].1]]
  }

  /** Its edges are the listed ones, and only sources have an entry. */
  lemma {:induction false} EdgeGraphMeaning<K(!new)>(edges: seq<(K, K)>)
    ensures forall x, y :: y in Succ(EdgeGraph(edges), x) <==> (x, y) in edges
    ensures forall x :: x in EdgeGraph(edges) ==> Succ(EdgeGraph(edges), x) != []
  {
    if edges == [] {
    } else {
      var n := |edges| - 1;
      EdgeGraphMeaning(edges[..n]);
      assert edges == edges[..n] + [edges[n]];
    }
  }

  /** `setdefault(old, []).append(new)` over all edges. */
  method Successors<K(==)>(edges: seq<(K, K)>) returns (g: Graph<K>)
    ensures g == EdgeGraph(edges)
  {
    g := map[];
    for i := 0 to |edges|
      invariant g == EdgeGraph(edges[..i])
    {
      var (old_, new_) := edges[i];
      assert edges[..i + 1][..i] == edges[..i];
      g := g[old_ := Succ(g, old_) + [new_]];
    }
    assert edges[..|edges|] == edges;
  }

  /** The nested `visit` with the two sets it shares. */
  class CycleVisitor<K(==, !new)> {
    const successors: Graph<K>
    var visiting: set<K>
    var visited: set<K>

    /** Finished nodes lead nowhere unfinished and lie on no cycle. */
    ghost predicate Valid()
      reads this
    {
      && visiting !! visited
      && Closed(successors, visited)
      && forall x :: x in visited ==> !ReachesPlus(successors, x, x)
    }

    constructor (g: Graph<K>)
      ensures Valid() && successors == g && visiting == {} && visited == {}
    {
      successors := g;
      visiting, visited := {}, {};
    }

    /** `path` is the chain of calls in progress; `visiting` holds its nodes. */
    ghost predicate OnPath(path: seq<K>, node: K)
      reads this
    {
      (forall x :: x in visiting <==> x in path) && Walk(successors, path + [node])
    }

    method Visit(node: K, ghost path: seq<K>) returns (ok: bool)
      requires Valid() && node in Nodes(successors) && OnPath(path, node)
      modifies this`visiting, this`visited
      ensures ok ==> Valid() && visiting == old(visiting) && old(visited) <= visited && node in visited
      ensures !ok ==> exists x :: ReachesPlus(successors, x, x)
      decreases Nodes(successors) - visiting
    {
      if node in visiting {
        PathMeetsItself(successors, path, node);
        return false;
      }
      if node in visited { return true; }
      visiting := visiting + {node};
      var children := Succ(successors, node);
      for i := 0 to |children|
        invariant Valid() && visiting == old(visiting) + {node} && old(visited) <= visited
        invariant forall j :: 0 <= j < i ==> children[j] in visited
      {
        ChildIsNode(successors, node, children[i]);
        ExtendPath(successors, path, node, children[i]);
        ok := Visit(children[i], path + [node]);
        if !ok { return; }
      }
      visiting := visiting - {node};
      FinishedIsAcyclic(successors, visited, node);
      visited := visited + {node};
      ok := true;
    }
  }

  lemma ChildIsNode<K(!new)>(g: Graph<K>, x: K, y: K)
    requires y in Succ(g, x)
    ensures y in Nodes(g)
  {
  }

  lemma ExtendPath<K(!new)>(g: Graph<K>, path: seq<K>, node: K, child: K)
    requires Walk(g, path + [node]) && child in Succ(g, node)
    ensures Walk(g, path + [node] + [child])
  {
    var p := path + [node];
    forall i | 0 <= i < |p + [child]| - 1 ensures (p + [child])[i + 1] in Succ(g, (p + [child])[i]) {
      if i < |p| - 1 { assert p[i + 1] in Succ(g, p[i]); }
    }
  }

  lemma WalkSuffix<K(!new)>(g: Graph<K>, p: seq<K>, n: nat)
    requires Walk(g, p) && n < |p|
    ensures Walk(g, p[n..])
  {
    var q := p[n..];
    forall j | 0 <= j < |q| - 1 ensures q[j + 1] in Succ(g, q[j]) {
      assert p[n + j + 1] in Succ(g, p[n + j]);
    }
  }

  lemma PathMeetsItself<K(!new)>(g: Graph<K>, path: seq<K>, node: K)
    requires Walk(g, path + [node]) && node in path
    ensures ReachesPlus(g, node, node)
  {
    var p := path + [node];
    var i :| 0 <= i < |path| && path[i] == node;
    assert p[i + 1] in Succ(g, p[i]);
    WalkSuffix(g, p, i + 1);
    assert WalkFromTo(g, p[i + 1..], p[i + 1], node);
  }

  /** A node whose children are all finished, and which is not, lies on no cycle either. */
  lemma FinishedIsAcyclic<K(!new)>(g: Graph<K>, visited: set<K>, node: K)
    requires Closed(g, visited) && node !in visited
    requires forall c :: c in Succ(g, node) ==> c in visited
    ensures !ReachesPlus(g, node, node)
  {
    if ReachesPlus(g, node, node) {
      var c :| c in Succ(g, node) && Reaches(g, c, node);
      ClosedContains(g, visited, c, node);
      assert false;
    }
  }

  /** `_validate_lineage_cycles`: refused exactly when the supersession graph has a cycle. */
  method ValidateLineageCycles<K(==, !new)>(edges: seq<(K, K)>) returns (ok: bool)
    ensures ok <==> Acyclic(EdgeGraph(edges))
  {
    var successors := Successors(edges);
    ghost var g := successors;
    var visitor := new CycleVisitor(successors);
    var todo := successors.Keys;
    while todo != {}
      invariant fresh(visitor) && visitor.Valid() && visitor.successors == successors && visitor.visiting == {}
      invariant todo <= successors.Keys && successors.Keys - todo <= visitor.visited
      decreases todo
    {
      var node :| node in todo;
      var fine := visitor.Visit(node, []);
      if !fine { return false; }
      todo := todo - {node};
    }
    forall x ensures !ReachesPlus(g, x, x) {
      assert ReachesPlus(g, x, x) ==> x in g;
    }
    ok := true;
  }

  // ---------- Ancestors of a current task ----------

  ghost predicate NoDuplicates<K>(s: seq<K>) {
    forall i, j :: 0 <= i < j < |s| ==> s[i] != s[j]
  }

  /** The breadth-first loop of `project_supersession_lineage`: each strict ancestor once, nothing else. */
  method Ancestors<K(==, !new)>(predecessors: Graph<K>, current: K) returns (ancestors: seq<K>)
    ensures NoDuplicates(ancestors)
    ensures forall x :: x in ancestors <==> ReachesPlus(predecessors, current, x)
  {
    ancestors := [];
    var pending := Succ(predecessors, current);
    forall x | x in pending ensures ReachesPlus(predecessors, current, x) { ReachesSelf(predecessors, x); }
    hide Reaches, ReachesPlus;
    while pending != []
      invariant BreadthInvariant(predecessors, current, ancestors, pending)
      decreases Nodes(predecessors) - Elements(ancestors), |pending|
    {
      var head, rest := pending[0], pending[1..];
      assert pending == [head] + rest;
      BreadthStep(predecessors, current, ancestors, head, rest);
      if head in ancestors {
        pending := rest;
      } else {
        ancestors := ancestors + [head];
        pending := rest + Succ(predecessors, head);
      }
    }
    BreadthDone(predecessors, current, ancestors);
  }

  ghost function Elements<K>(s: seq<K>): set<K> {
    set x | x in s
  }

  ghost predicate BreadthInvariant<K(!new)>(g: Graph<K>, current: K, ancestors: seq<K>, pending: seq<K>) {
    && NoDuplicates(ancestors)
    && (forall x :: x in ancestors || x in pending ==> ReachesPlus(g, current, x))
    && (forall x, y :: x in ancestors && y in Succ(g, x) ==> y in ancestors || y in pending)
    && (forall x :: x in Succ(g, current) ==> x in ancestors || x in pending)
  }

  lemma BreadthStep<K(!new)>(g: Graph<K>, current: K, ancestors: seq<K>, head: K, rest: seq<K>)
    requires BreadthInvariant(g, current, ancestors, [head] + rest)
    ensures head in ancestors ==> BreadthInvariant(g, current, ancestors, rest)
    ensures head !in ancestors ==> BreadthInvariant(g, current, ancestors + [head], rest + Succ(g, head))
    ensures head in Nodes(g) && Elements(ancestors + [head]) == Elements(ancestors) + {head}
  {
    assert forall x :: x in [head] + rest <==> x == head || x in rest;
    BelowIsNode(g, current, head);
    forall y | y in Succ(g, head) ensures ReachesPlus(g, current, y) { PlusExtend(g, current, head, y); }
  }

  lemma BreadthDone<K(!new)>(g: Graph<K>, current: K, ancestors: seq<K>)
    requires BreadthInvariant(g, current, ancestors, [])
    ensures forall x :: x in ancestors <==> ReachesPlus(g, current, x)
  {
    forall x | ReachesPlus(g, current, x) ensures x in ancestors {
      var c :| c in Succ(g, current) && Reaches(g, c, x);
      ClosedContains(g, Elements(ancestors), c, x);
    }
  }

  lemma BelowIsNode<K(!new)>(g: Graph<K>, a: K, b: K)
    requires ReachesPlus(g, a, b)
    ensures b in Nodes(g)
  {
    assert b in Below(g, a);
    var c :| c in Succ(g, a) && Reaches(g, c, b);
    var p :| WalkFromTo(g, p, c, b);
    if |p| > 1 { assert p[|p| - 2 + 1] in Succ(g, p[|p| - 2]); }
  }

  lemma PlusExtend<K(!new)>(g: Graph<K>, a: K, b: K, c: K)
    requires ReachesPlus(g, a, b) && c in Succ(g, b)
    ensures ReachesPlus(g, a, c)
  {
    PlusIsReaches(g, a, b);
    ReachesExtend(g, a, b, c);
  }
}
