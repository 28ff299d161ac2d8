/** Finite directed graphs as successor lists: walks, reachability, cycles, worklists. */
module Graphs {
  type Graph<K> = map<K, seq<K>>

  function Succ<K>(g: Graph<K>, x: K): seq<K> {
    if x in g then g[x] else []
  }

  ghost predicate Walk<K>(g: Graph<K>, p: seq<K>) {
    |p| > 0 && forall i :: 0 <= i < |p| - 1 ==> p[i + 1] in Succ(g, p[i])
  }

  ghost predicate WalkFromTo<K>(g: Graph<K>, p: seq<K>, a: K, b: K) {
    Walk(g, p) && p[0] == a && p[|p| - 1] == b
  }

  /** Zero or more edges lead from `a` to `b`. */
  ghost predicate Reaches<K(!new)>(g: Graph<K>, a: K, b: K) {
    exists p :: WalkFromTo(g, p, a, b)
  }

  /** One or more edges lead from `a` to `b`. */
  ghost predicate ReachesPlus<K(!new)>(g: Graph<K>, a: K, b: K) {
    exists c :: c in Succ(g, a) && Reaches(g, c, b)
  }

  ghost predicate Acyclic<K(!new)>(g: Graph<K>) {
    forall x :: !ReachesPlus(g, x, x)
  }

  ghost predicate CycleFrom<K(!new)>(g: Graph<K>, root: K) {
    exists x :: Reaches(g, root, x) && ReachesPlus(g, x, x)
  }

  lemma ReachesSelf<K(!new)>(g: Graph<K>, a: K)
    ensures Reaches(g, a, a)
  {
    assert WalkFromTo(g, [a], a, a);
  }

  lemma ReachesVia<K(!new)>(g: Graph<K>, a: K, c: K, b: K)
    requires c in Succ(g, a) && Reaches(g, c, b)
    ensures Reaches(g, a, b) && ReachesPlus(g, a, b)
  {
    var p :| WalkFromTo(g, p, c, b);
    assert WalkFromTo(g, [a] + p, a, b);
  }

  lemma ReachesExtend<K(!new)>(g: Graph<K>, a: K, b: K, c: K)
    requires Reaches(g, a, b) && c in Succ(g, b)
    ensures Reaches(g, a, c) && ReachesPlus(g, a, c)
  {
    var p :| WalkFromTo(g, p, a, b);
    assert WalkFromTo(g, p + [c], a, c);
    var q := p + [c];
    assert WalkFromTo(g, q[1..], q[1], c);
    assert q[1] in Succ(g, q[0]) && Reaches(g, q[1], c);
  }

  lemma ReachesTransitive<K(!new)>(g: Graph<K>, a: K, b: K, c: K)
    requires Reaches(g, a, b) && Reaches(g, b, c)
    ensures Reaches(g, a, c)
  {
    var p :| WalkFromTo(g, p, a, b);
    var q :| WalkFromTo(g, q, b, c);
    var r := p + q[1..];
    forall i | 0 <= i < |r| - 1 ensures r[i + 1] in Succ(g, r[i]) {
      if i >= |p| - 1 { assert r[i + 1] == q[i + 2 - |p|] && r[i] == q[i + 1 - |p|]; }
    }
    assert WalkFromTo(g, r, a, c);
  }

  lemma PlusThenReaches<K(!new)>(g: Graph<K>, a: K, b: K, c: K)
    requires ReachesPlus(g, a, b) && Reaches(g, b, c)
    ensures ReachesPlus(g, a, c)
  {
    var d :| d in Succ(g, a) && Reaches(g, d, b);
    ReachesTransitive(g, d, b, c);
  }

  lemma PlusIsReaches<K(!new)>(g: Graph<K>, a: K, b: K)
    requires ReachesPlus(g, a, b)
    ensures Reaches(g, a, b)
  {
    var d :| d in Succ(g, a) && Reaches(g, d, b);
    ReachesVia(g, a, d, b);
  }

  lemma ReachesSplit<K(!new)>(g: Graph<K>, a: K, b: K)
    requires Reaches(g, a, b)
    ensures a == b || ReachesPlus(g, a, b)
  {
    var p :| WalkFromTo(g, p, a, b);
    if |p| > 1 {
      assert WalkFromTo(g, p[1..], p[1], b);
      assert p[1] in Succ(g, p[0]) && Reaches(g, p[1], b);
    }
  }

  ghost predicate Closed<K(!new)>(g: Graph<K>, s: set<K>) {
    forall x, y :: x in s && y in Succ(g, x) ==> y in s
  }

  /** A closed set contains everything reachable from its members. */
  lemma ClosedContains<K(!new)>(g: Graph<K>, s: set<K>, a: K, b: K)
    requires Closed(g, s) && a in s && Reaches(g, a, b)
    ensures b in s
  {
    var p :| WalkFromTo(g, p, a, b);
    var i := 0;
    while i < |p| - 1
      invariant 0 <= i < |p| && p[i] in s
    {
      i := i + 1;
    }
  }

  // ---------- Reversing and deleting ----------

  /** Every edge of `g` is a backward edge of `h`. */
  ghost predicate EdgesReversedIn<K(!new)>(g: Graph<K>, h: Graph<K>) {
    forall x, y :: y in Succ(g, x) ==> x in Succ(h, y)
  }

  lemma ReversedReaches<K(!new)>(g: Graph<K>, h: Graph<K>, a: K, b: K)
    requires EdgesReversedIn(g, h) && Reaches(g, a, b)
    ensures Reaches(h, b, a)
  {
    var p :| WalkFromTo(g, p, a, b);
    var q := seq(|p|, i requires 0 <= i < |p| => p[|p| - 1 - i]);
    forall i | 0 <= i < |q| - 1 ensures q[i + 1] in Succ(h, q[i]) {
      var j := |p| - 2 - i;
      assert p[j + 1] in Succ(g, p[j]);
    }
    assert WalkFromTo(h, q, b, a);
  }

  /** Cutting a node out of a graph keeps the walks that do not meet it. */
  lemma ReachesAvoiding<K(!new)>(g: Graph<K>, cut: K, a: K, b: K)
    ensures Reaches(g - {cut}, a, b) ==> Reaches(g, a, b)
    ensures Reaches(g, a, b) ==> Reaches(g - {cut}, a, b) || Reaches(g, cut, b)
  {
    if p :| WalkFromTo(g - {cut}, p, a, b) {
      forall i | 0 <= i < |p| - 1 ensures p[i + 1] in Succ(g, p[i]) {
        assert p[i + 1] in Succ(g - {cut}, p[i]);
      }
      assert WalkFromTo(g, p, a, b);
    }
    if p :| WalkFromTo(g, p, a, b) {
      if i :| 0 <= i < |p| && p[i] == cut {
        assert WalkFromTo(g, p[i..], cut, b);
      } else {
        forall i | 0 <= i < |p| - 1 ensures p[i + 1] in Succ(g - {cut}, p[i]) {
          assert p[i + 1] in Succ(g, p[i]);
        }
        assert WalkFromTo(g - {cut}, p, a, b);
      }
    }
  }

  // ---------- Everything downstream, as a finite set ----------

  ghost function Nodes<K>(g: Graph<K>): set<K> {
    g.Keys + set x, i | x in g && 0 <= i < |g[x]| :: g[x][i]
  }

  /** The nodes one or more edges below `a`. */
  ghost function Below<K(!new)>(g: Graph<K>, a: K): (s: set<K>)
    ensures forall b :: b in s <==> ReachesPlus(g, a, b)
  {
    forall b | ReachesPlus(g, a, b) ensures b in Nodes(g) {
      var c :| c in Succ(g, a) && Reaches(g, c, b);
      var p :| WalkFromTo(g, p, c, b);
      if |p| > 1 {
        assert p[|p| - 2 + 1] in Succ(g, p[|p| - 2]);
      }
    }
    set b | b in Nodes(g) && ReachesPlus(g, a, b)
  }

  /** In an acyclic graph, going down an edge strictly shrinks what is below. */
  lemma BelowShrinks<K(!new)>(g: Graph<K>, a: K, b: K)
    requires !ReachesPlus(g, b, b) && ReachesPlus(g, a, b)
    ensures Below(g, b) < Below(g, a) && |Below(g, b)| < |Below(g, a)|
  {
    forall c | c in Below(g, b) ensures c in Below(g, a) {
      PlusIsReaches(g, b, c);
      PlusThenReaches(g, a, b, c);
    }
    SubsetSize(Below(g, b), Below(g, a));
  }

  lemma SubsetSize<K>(a: set<K>, b: set<K>)
    requires a < b
    ensures |a| < |b|
  {
    var x :| x in b && x !in a;
    assert a <= b - {x};
    SubsetSizeLe(a, b - {x});
  }

  lemma {:induction false} SubsetSizeLe<K>(a: set<K>, b: set<K>)
    requires a <= b
    ensures |a| <= |b|
    decreases |a|
  {
    if a == {} {
    } else {
      var x :| x in a;
      SubsetSizeLe(a - {x}, b - {x});
    }
  }

  // ---------- Worklists ----------

  ghost predicate ReachedFrom<K(!new)>(g: Graph<K>, starts: seq<K>, x: K) {
    exists s :: s in starts && Reaches(g, s, x)
  }

  lemma ReachedFromStart<K(!new)>(g: Graph<K>, starts: seq<K>, x: K)
    requires x in starts
    ensures ReachedFrom(g, starts, x)
  {
    ReachesSelf(g, x);
  }

  lemma ReachedFromEdge<K(!new)>(g: Graph<K>, starts: seq<K>, x: K, y: K)
    requires ReachedFrom(g, starts, x) && y in Succ(g, x)
    ensures ReachedFrom(g, starts, y)
  {
    var s :| s in starts && Reaches(g, s, x);
    ReachesExtend(g, s, x, y);
  }

  /** What every pass of a worklist keeps. */
  ghost predicate WorkInvariant<K(!new)>(g: Graph<K>, starts: seq<K>, seen: set<K>, stack: seq<K>) {
    && seen <= g.Keys
    && (forall x :: x in seen || x in stack ==> ReachedFrom(g, starts, x))
    && (forall x, y :: x in seen && y in Succ(g, x) && y in g ==> y in seen || y in stack)
    && (forall x :: x in starts && x in g ==> x in seen || x in stack)
  }

  lemma WorkStep<K(!new)>(g: Graph<K>, starts: seq<K>, seen: set<K>, rest: seq<K>, cur: K)
    requires WorkInvariant(g, starts, seen, rest + [cur])
    ensures cur in seen || cur !in g ==> WorkInvariant(g, starts, seen, rest)
    ensures cur in g ==> WorkInvariant(g, starts, seen + {cur}, rest + g[cur])
  {
    assert cur in rest + [cur];
    assert forall x :: x in rest ==> x in rest + [cur];
    forall y | y in Succ(g, cur) ensures ReachedFrom(g, starts, y) { ReachedFromEdge(g, starts, cur, y); }
  }

  /** A finished worklist has seen exactly the known nodes that are reachable. */
  lemma WorkDone<K(!new)>(g: Graph<K>, starts: seq<K>, seen: set<K>)
    requires WorkInvariant(g, starts, seen, [])
    ensures forall x :: x in seen <==> x in g && ReachedFrom(g, starts, x)
  {
    forall x | x in g && ReachedFrom(g, starts, x) ensures x in seen {
      var s :| s in starts && Reaches(g, s, x);
      var p :| WalkFromTo(g, p, s, x);
      assert |p| > 1 ==> p[0 + 1] in Succ(g, p[0]);
      var i := 0;
      while i < |p| - 1
        invariant 0 <= i < |p| && p[i] in seen
      {
        assert p[i + 1] in Succ(g, p[i]);
        assert i + 1 < |p| - 1 ==> p[i + 1 + 1] in Succ(g, p[i + 1]);
        i := i + 1;
      }
    }
  }

  /**
   The worklist the source writes for every closure: pop a node, skip it when it was
   seen or is unknown, mark it, push its successors.
   */
  method Closure<K(==, !new)>(g: Graph<K>, starts: seq<K>) returns (seen: set<K>)
    ensures forall x :: x in seen <==> x in g && ReachedFrom(g, starts, x)
  {
    seen := {};
    var stack := starts;
    forall x | x in starts ensures ReachedFrom(g, starts, x) { ReachedFromStart(g, starts, x); }
    hide Reaches, ReachedFrom;
    while stack != []
      invariant WorkInvariant(g, starts, seen, stack)
      decreases g.Keys - seen, |stack|
    {
      var cur := stack[|stack| - 1];
      var rest := stack[..|stack| - 1];
      assert stack == rest + [cur];
      WorkStep(g, starts, seen, rest, cur);
      if cur in seen || cur !in g {
        stack := rest;
      } else {
        seen := seen + {cur};
        stack := rest + g[cur];
      }
    }
    WorkDone(g, starts, seen);
  }

  /** The same worklist with an early exit: is some known goal reachable from the starting list? */
  method Search<K(==, !new)>(g: Graph<K>, starts: seq<K>, goal: set<K>) returns (found: bool)
    ensures found <==> exists x :: x in goal && x in g && ReachedFrom(g, starts, x)
  {
    var seen: set<K> := {};
    var stack := starts;
    forall x | x in starts ensures ReachedFrom(g, starts, x) { ReachedFromStart(g, starts, x); }
    hide Reaches, ReachedFrom;
    while stack != []
      invariant WorkInvariant(g, starts, seen, stack) && seen !! goal
      decreases g.Keys - seen, |stack|
    {
      var cur := stack[|stack| - 1];
      var rest := stack[..|stack| - 1];
      assert stack == rest + [cur];
      WorkStep(g, starts, seen, rest, cur);
      if cur in seen || cur !in g {
        stack := rest;
      } else if cur in goal {
        assert ReachedFrom(g, starts, cur);
        return true;
      } else {
        seen := seen + {cur};
        stack := rest + g[cur];
      }
    }
    WorkDone(g, starts, seen);
    return false;
  }
}
