/** The rendering order of `envelope.py`: Kahn's algorithm with list order as the tie-break. */
module TopologicalOrder {
  import opened Graphs
  import opened Tasks

  // ---------- Specification ----------

  /** Visible predecessors that are not superseded, with repetitions. */
  function LiveOf(preds: map<string, seq<string>>, visible: set<string>, st: Statuses, id: string): seq<string> {
    LiveFilter(Succ(preds, id), visible, st)
  }

  function LiveFilter(ps: seq<string>, visible: set<string>, st: Statuses): (r: seq<string>)
    ensures forall p :: p in r <==> p in ps && p in visible && StatusOf(st, p) != Superseded
  {
    if ps == [] then []
    else
      assert ps == [ps[0]] + ps[1..];
      (if ps[0] in visible && StatusOf(st, ps[0]) != Superseded then [ps[0]] else []) + LiveFilter(ps[1..], visible, st)
  }

  function LiveGraph(tasks: seq<Task>, preds: map<string, seq<string>>, st: Statuses): (g: Graph<string>)
    ensures g.Keys == Ids(tasks)
  {
    map id | id in Ids(tasks) :: LiveOf(preds, Ids(tasks), st, id)
  }

  /** Task `i` is not out yet and everything it waits for is. */
  ghost predicate Available(tasks: seq<Task>, live: Graph<string>, out: set<string>, i: int) {
    0 <= i < |tasks| && tasks[i].id !in out && forall p :: p in Succ(live, tasks[i].id) ==> p in out
  }

  /** Place `k` of the result holds the first available task in list order. */
  ghost predicate PicksFirst(tasks: seq<Task>, live: Graph<string>, result: seq<Task>, k: int)
    requires 0 <= k < |result|
  {
    exists i :: Available(tasks, live, Ids(result[..k]), i) && result[k] == tasks[i]
                && forall j :: j < i ==> !Available(tasks, live, Ids(result[..k]), j)
  }

  /** The tasks that are not out, in list order. */
  function Remaining(tasks: seq<Task>, out: set<string>): (r: seq<Task>)
    ensures forall t :: t in r <==> t in tasks && t.id !in out
  {
    if tasks == [] then []
    else
      assert tasks == [tasks[0]] + tasks[1..];
      (if tasks[0].id !in out then [tasks[0]] else []) + Remaining(tasks[1..], out)
  }

  /** The greedy order: first-available picks while there are any, then the rest as listed. */
  ghost predicate GreedyOrder(tasks: seq<Task>, live: Graph<string>, result: seq<Task>, n: nat) {
    && n <= |result|
    && (forall k :: 0 <= k < n ==> PicksFirst(tasks, live, result, k))
    && (forall i :: !Available(tasks, live, Ids(result[..n]), i))
    && result[n..] == Remaining(tasks, Ids(result[..n]))
  }

  // ---------- What the greedy order guarantees ----------

  lemma IdsAppend(a: seq<Task>, t: Task)
    ensures Ids(a + [t]) == Ids(a) + {t.id}
  {
    assert forall x :: x in a + [t] <==> x in a || x == t;
  }

  lemma {:induction false} PickedUnique(tasks: seq<Task>, live: Graph<string>, result: seq<Task>, n: nat)
    requires UniqueIds(tasks) && n <= |result|
    requires forall k :: 0 <= k < n ==> PicksFirst(tasks, live, result, k)
    ensures UniqueIds(result[..n]) && forall t :: t in result[..n] ==> t in tasks
  {
    if n == 0 {
    } else {
      PickedUnique(tasks, live, result, n - 1);
      assert PicksFirst(tasks, live, result, n - 1);
      assert result[..n] == result[..n - 1] + [result[n - 1]];
      forall t | t in result[..n - 1] ensures t.id != result[n - 1].id {
        assert t.id in Ids(result[..n - 1]);
      }
    }
  }

  lemma {:induction false} RemainingUnique(tasks: seq<Task>, out: set<string>)
    requires UniqueIds(tasks)
    ensures UniqueIds(Remaining(tasks, out))
  {
    if tasks == [] {
    } else {
      RemainingUnique(tasks[1..], out);
      forall t | t in Remaining(tasks[1..], out) ensures t.id != tasks[0].id {
        var i :| 0 <= i < |tasks| - 1 && tasks[1..][i] == t;
        assert tasks[i + 1] == t;
      }
    }
  }

  /** The result holds exactly the visible tasks, each once. */
  lemma OrderIsAPermutation(tasks: seq<Task>, live: Graph<string>, result: seq<Task>, n: nat)
    requires UniqueIds(tasks) && GreedyOrder(tasks, live, result, n)
    ensures UniqueIds(result) && forall t :: t in result <==> t in tasks
  {
    PickedUnique(tasks, live, result, n);
    RemainingUnique(tasks, Ids(result[..n]));
    assert result == result[..n] + result[n..];
    forall i, j | 0 <= i < j < |result| ensures result[i].id != result[j].id {
      if i < n <= j {
        assert result[j] == result[n..][j - n] && result[j] in result[n..];
        assert result[i] == result[..n][i];
      } else if j < n {
        assert result[i] == result[..n][i] && result[j] == result[..n][j];
      } else {
        assert result[i] == result[n..][i - n] && result[j] == result[n..][j - n];
      }
    }
    forall t | t in tasks ensures t in result {
      if t.id in Ids(result[..n]) {
        var s :| s in result[..n] && s.id == t.id;
        SameIdSameTask(tasks, s, t);
      }
    }
  }

  /** On an acyclic list the greedy part takes everything. */
  lemma AcyclicTakesAll(tasks: seq<Task>, live: Graph<string>, result: seq<Task>, n: nat)
    requires GreedyOrder(tasks, live, result, n) && live.Keys == Ids(tasks) && Acyclic(live)
    requires forall id, p :: id in live && p in live[id] ==> p in live
    ensures n == |result|
  {
    var out := Ids(result[..n]);
    if result[n..] != [] {
      var t := result[n..][0];
      assert t in Remaining(tasks, out);
      NoneIsStuck(tasks, live, out, t);
    }
  }

  lemma {:induction false} NoneIsStuck(tasks: seq<Task>, live: Graph<string>, out: set<string>, t: Task)
    requires live.Keys == Ids(tasks) && Acyclic(live) && t in tasks && t.id !in out
    requires forall id, p :: id in live && p in live[id] ==> p in live
    ensures exists i :: Available(tasks, live, out, i)
    decreases |Below(live, t.id)|
  {
    var i :| 0 <= i < |tasks| && tasks[i] == t;
    if Available(tasks, live, out, i) {
    } else {
      var p :| p in Succ(live, t.id) && p !in out;
      assert p in live;
      var s :| s in tasks && s.id == p;
      ReachesSelf(live, p);
      BelowShrinks(live, t.id, p);
      NoneIsStuck(tasks, live, out, s);
    }
  }

  /** On an acyclic list every live predecessor comes first. */
  lemma PredecessorsComeFirst(tasks: seq<Task>, live: Graph<string>, result: seq<Task>, n: nat, k: nat, p: string)
    requires GreedyOrder(tasks, live, result, n) && live.Keys == Ids(tasks) && Acyclic(live)
    requires forall id, q :: id in live && q in live[id] ==> q in live
    requires k < |result| && p in Succ(live, result[k].id)
    ensures exists j :: 0 <= j < k && result[j].id == p
  {
    AcyclicTakesAll(tasks, live, result, n);
    assert PicksFirst(tasks, live, result, k);
    assert p in Ids(result[..k]);
    var t :| t in result[..k] && t.id == p;
  }

  ghost predicate InDependencyOrder(tasks: seq<Task>, live: Graph<string>) {
    forall i, p :: 0 <= i < |tasks| && p in Succ(live, tasks[i].id) ==> p in Ids(tasks[..i])
  }

  lemma PickIsFirst(tasks: seq<Task>, live: Graph<string>, result: seq<Task>, n: nat, k: nat, i: nat)
    requires GreedyOrder(tasks, live, result, n) && k <= n
    requires Available(tasks, live, Ids(result[..k]), i)
    requires forall j :: j < i ==> !Available(tasks, live, Ids(result[..k]), j)
    ensures k < n && result[k] == tasks[i]
  {
    if k < n { assert PicksFirst(tasks, live, result, k); }
  }

  lemma {:induction false} OrderedPrefix(tasks: seq<Task>, live: Graph<string>, result: seq<Task>, n: nat, m: nat)
    requires UniqueIds(tasks) && GreedyOrder(tasks, live, result, n) && InDependencyOrder(tasks, live)
    requires m <= |tasks|
    ensures m <= n && result[..m] == tasks[..m]
  {
    hide Available, PicksFirst, Remaining, Ids, InDependencyOrder;
    if m == 0 {
    } else {
      OrderedPrefix(tasks, live, result, n, m - 1);
      FirstMissing(tasks, live, m - 1);
      PickIsFirst(tasks, live, result, n, m - 1, m - 1);
      assert result[..m] == result[..m - 1] + [result[m - 1]] && tasks[..m] == tasks[..m - 1] + [tasks[m - 1]];
    }
  }

  /** In a list in dependency order the task after a finished prefix is the first available one. */
  lemma FirstMissing(tasks: seq<Task>, live: Graph<string>, m: nat)
    requires UniqueIds(tasks) && InDependencyOrder(tasks, live) && m < |tasks|
    ensures Available(tasks, live, Ids(tasks[..m]), m)
    ensures forall j :: j < m ==> !Available(tasks, live, Ids(tasks[..m]), j)
  {
    forall s | s in tasks[..m] ensures s.id != tasks[m].id {
      var i :| 0 <= i < m && tasks[..m][i] == s;
    }
    forall j | 0 <= j < m ensures tasks[j].id in Ids(tasks[..m]) { assert tasks[j] in tasks[..m]; }
  }

  lemma {:induction false} IdsSize(tasks: seq<Task>)
    requires UniqueIds(tasks)
    ensures |Ids(tasks)| == |tasks|
  {
    if tasks == [] {
    } else {
      var n := |tasks| - 1;
      IdsSize(tasks[..n]);
      assert tasks == tasks[..n] + [tasks[n]];
      IdsAppend(tasks[..n], tasks[n]);
      forall t | t in tasks[..n] ensures t.id != tasks[n].id { var i :| 0 <= i < n && tasks[..n][i] == t; }
    }
  }

  /** A list already in dependency order is returned unchanged. */
  lemma OrderedStays(tasks: seq<Task>, live: Graph<string>, result: seq<Task>, n: nat)
    requires UniqueIds(tasks) && GreedyOrder(tasks, live, result, n) && InDependencyOrder(tasks, live)
    ensures result == tasks
  {
    var m := |tasks|;
    OrderedPrefix(tasks, live, result, n, m);
    assert tasks[..m] == tasks;
    OrderIsAPermutation(tasks, live, result, n);
    IdsSize(tasks);
    IdsSize(result);
    assert Ids(result) == Ids(tasks);
    assert result[..m] == result;
  }

  /** What the rendering relies on: every task once, predecessors first unless there is a cycle, and the hint kept. */
  lemma OrderGuarantees(tasks: seq<Task>, preds: map<string, seq<string>>, st: Statuses, result: seq<Task>, n: nat)
    requires UniqueIds(tasks) && GreedyOrder(tasks, LiveGraph(tasks, preds, st), result, n)
    ensures UniqueIds(result) && forall t :: t in result <==> t in tasks
    ensures Acyclic(LiveGraph(tasks, preds, st)) ==> InDependencyOrder(result, LiveGraph(tasks, preds, st))
    ensures InDependencyOrder(tasks, LiveGraph(tasks, preds, st)) ==> result == tasks
  {
    var live := LiveGraph(tasks, preds, st);
    OrderIsAPermutation(tasks, live, result, n);
    if InDependencyOrder(tasks, live) {
      OrderedStays(tasks, live, result, n);
    }
    if Acyclic(live) {
      hide Acyclic, GreedyOrder;
      forall i, p | 0 <= i < |result| && p in Succ(live, result[i].id) ensures p in Ids(result[..i]) {
        PredecessorsComeFirst(tasks, live, result, n, i, p);
        var j :| 0 <= j < i && result[j].id == p;
        assert result[j] in result[..i];
      }
    }
  }

  // ---------- Kahn's algorithm ----------

  function Outstanding(ps: seq<string>, out: set<string>): nat {
    if ps == [] then 0 else (if ps[0] in out then 0 else 1) + Outstanding(ps[1..], out)
  }

  lemma {:induction false} OutstandingMeaning(ps: seq<string>, out: set<string>, id: string)
    ensures Outstanding(ps, out) == 0 <==> forall p :: p in ps ==> p in out
    ensures id !in out ==> Outstanding(ps, out + {id}) == Outstanding(ps, out) - multiset(ps)[id]
  {
    if ps == [] {
    } else {
      OutstandingMeaning(ps[1..], out, id);
      assert ps == [ps[0]] + ps[1..];
    }
  }

  predicate Increasing(s: seq<int>) {
    forall i, j :: 0 <= i < j < |s| ==> s[i] < s[j]
  }

  function Insert(ready: seq<int>, i: int): seq<int> {
    if ready == [] || i < ready[0] then [i] + ready else [ready[0]] + Insert(ready[1..], i)
  }

  lemma {:induction false} InsertKeeps(ready: seq<int>, i: int)
    requires Increasing(ready)
    ensures forall x :: x in Insert(ready, i) <==> x in ready || x == i
    ensures i !in ready ==> Increasing(Insert(ready, i))
  {
    if ready == [] || i < ready[0] {
    } else {
      assert ready == [ready[0]] + ready[1..];
      InsertKeeps(ready[1..], i);
      var rest := Insert(ready[1..], i);
      assert forall k :: 0 <= k < |rest| ==> rest[k] in rest;
    }
  }

  /** `successors[p]` lists every task once per live occurrence of `p` among its predecessors. */
  ghost predicate CountsReversed(live: Graph<string>, successors: Graph<string>) {
    && successors.Keys == live.Keys
    && (forall p, s :: p in successors && s in successors[p] ==> s in live)
    && forall p, s :: p in live && s in live ==> multiset(successors[p])[s] == multiset(live[s])[p]
  }

  lemma MultisetAppend(a: seq<string>, x: string)
    ensures multiset(a + [x]) == multiset(a) + multiset{x}
  {
  }

  /** The adjacency built beside the indegrees. */
  method BuildSuccessors(live: Graph<string>) returns (successors: Graph<string>)
    requires forall id, p :: id in live && p in live[id] ==> p in live
    ensures CountsReversed(live, successors)
  {
    successors := map id | id in live :: [];
    var todo := live.Keys;
    while todo != {}
      invariant successors.Keys == live.Keys && todo <= live.Keys
      invariant forall p, s :: p in successors && s in successors[p] ==> s in live
      invariant forall p, s :: p in live && s in live ==>
        multiset(successors[p])[s] == if s in todo then 0 else multiset(live[s])[p]
      decreases todo
    {
      var s :| s in todo;
      ghost var before := successors;
      successors := AddEdges(successors, s, live[s]);
      forall p, q | p in successors && q in successors[p] ensures q in live {
        assert multiset(successors[p])[q] > 0;
        assert q == s || multiset(before[p])[q] > 0;
      }
      todo := todo - {s};
    }
  }

  method AddEdges(before: Graph<string>, s: string, ps: seq<string>) returns (successors: Graph<string>)
    requires forall p :: p in ps ==> p in before
    ensures successors.Keys == before.Keys
    ensures forall p, q :: p in before ==>
      multiset(successors[p])[q] == multiset(before[p])[q] + if q == s then multiset(ps)[p] else 0
  {
    successors := before;
    for i := 0 to |ps|
      invariant successors.Keys == before.Keys
      invariant forall p, q :: p in before ==>
        multiset(successors[p])[q] == multiset(before[p])[q] + if q == s then multiset(ps[..i])[p] else 0
    {
      assert ps[..i + 1] == ps[..i] + [ps[i]];
      MultisetAppend(ps[..i], ps[i]);
      MultisetAppend(successors[ps[i]], s);
      successors := successors[ps[i] := successors[ps[i]] + [s]];
    }
    assert ps[..|ps|] == ps;
  }

  /** Everything the tasks in `some` wait for is out. */
  ghost predicate PredsOut(live: Graph<string>, some: set<string>, out: set<string>) {
    forall id :: id in some && id in live ==> forall p :: p in live[id] ==> p in out
  }

  /** The lookup tables the loops use. */
  ghost predicate Tables(tasks: seq<Task>, live: Graph<string>, successors: Graph<string>, index: map<string, int>) {
    && UniqueIds(tasks) && CountsReversed(live, successors)
    && forall p, s :: p in successors && s in successors[p] ==>
      s in index && 0 <= index[s] < |tasks| && tasks[index[s]].id == s
  }

  /** A waiting task is ready when its count has dropped to zero. */
  ghost predicate InReady(tasks: seq<Task>, out: set<string>, c: Counts, i: int) {
    0 <= i < |tasks| && tasks[i].id !in out && tasks[i].id in c.indeg && c.indeg[tasks[i].id] == 0
  }

  ghost predicate ReadyIs(tasks: seq<Task>, out: set<string>, c: Counts) {
    Increasing(c.ready) && forall i :: i in c.ready <==> InReady(tasks, out, c, i)
  }

  /** Indegrees count the live predecessors that are not out; the ready list is the available tasks. */
  ghost predicate KahnState(tasks: seq<Task>, live: Graph<string>, out: set<string>, c: Counts) {
    && c.indeg.Keys == Ids(tasks) == live.Keys
    && (forall id :: id in live ==> c.indeg[id] == Outstanding(live[id], out))
    && ReadyIs(tasks, out, c)
  }

  /** In the middle of releasing the successors of `tid`. */
  ghost predicate Releasing(tasks: seq<Task>, live: Graph<string>, out: set<string>, tid: string, c: Counts,
                            all: seq<string>, j: nat) {
    && j <= |all|
    && c.indeg.Keys == Ids(tasks) == live.Keys
    && (forall id :: id in live ==> c.indeg[id] == Outstanding(live[id], out) - multiset(all[..j])[id])
    && ReadyIs(tasks, out + {tid}, c)
  }

  lemma ReadyIsAvailable(tasks: seq<Task>, live: Graph<string>, out: set<string>, c: Counts, i: int)
    requires KahnState(tasks, live, out, c)
    ensures InReady(tasks, out, c, i) <==> Available(tasks, live, out, i)
  {
    if 0 <= i < |tasks| {
      assert tasks[i] in tasks;
      OutstandingMeaning(live[tasks[i].id], out, "");
    }
  }

  lemma ReleaseStart(tasks: seq<Task>, live: Graph<string>, out: set<string>, c: Counts, all: seq<string>)
    requires UniqueIds(tasks) && KahnState(tasks, live, out, c) && c.ready != []
    ensures var i := c.ready[0];
      && Available(tasks, live, out, i)
      && (forall j :: j < i ==> !Available(tasks, live, out, j))
      && Releasing(tasks, live, out, tasks[i].id, c.(ready := c.ready[1..]), all, 0)
  {
    var i := c.ready[0];
    assert i in c.ready;
    ReadyIsAvailable(tasks, live, out, c, i);
    assert forall k :: 0 <= k < |c.ready| ==> c.ready[k] >= i;
    assert c.ready == [i] + c.ready[1..];
    forall j | j < i ensures !Available(tasks, live, out, j) {
      ReadyIsAvailable(tasks, live, out, c, j);
      assert j !in c.ready;
    }
    var c' := c.(ready := c.ready[1..]);
    forall k ensures k in c'.ready <==> InReady(tasks, out + {tasks[i].id}, c', k) {
      assert k in c.ready <==> InReady(tasks, out, c, k);
      assert forall n :: 1 <= n < |c.ready| ==> c.ready[n] > i;
    }
  }

  lemma ReleaseEnd(tasks: seq<Task>, live: Graph<string>, successors: Graph<string>, index: map<string, int>,
                   out: set<string>, tid: string, c: Counts)
    requires tid in live && tid !in out && Tables(tasks, live, successors, index) && tid in successors
    requires Releasing(tasks, live, out, tid, c, successors[tid], |successors[tid]|)
    ensures KahnState(tasks, live, out + {tid}, c)
  {
    assert successors[tid][..|successors[tid]|] == successors[tid];
    forall id | id in live ensures c.indeg[id] == Outstanding(live[id], out + {tid}) {
      OutstandingMeaning(live[id], out, tid);
    }
  }

  /** The target of an edge that is about to be taken off is still waiting for it. */
  lemma StillWaiting(live: Graph<string>, successors: Graph<string>, out: set<string>, tid: string, j: nat)
    requires tid in live && tid !in out && CountsReversed(live, successors) && j < |successors[tid]|
    requires successors[tid][j] in live
    requires PredsOut(live, out + {tid}, out)
    ensures var s := successors[tid][j];
      Outstanding(live[s], out) > multiset(successors[tid][..j])[s] && s !in out + {tid}
  {
    var s := successors[tid][j];
    var all := successors[tid];
    assert all == all[..j] + ([s] + all[j + 1..]);
    assert multiset(all) == multiset(all[..j]) + multiset([s] + all[j + 1..]);
    assert multiset([s] + all[j + 1..])[s] >= 1;
    OutstandingMeaning(live[s], out, tid);
    assert tid in multiset(live[s]);
  }

  /** The loop variables that change together. */
  datatype Counts = Counts(indeg: map<string, int>, ready: seq<int>)

  /** `indeg[s] -= 1`, and `ready.append(...); ready.sort()` when that leaves zero. */
  function TakeEdge(c: Counts, index: map<string, int>, s: string): Counts {
    if s !in c.indeg || s !in index then c
    else if c.indeg[s] == 1 then Counts(c.indeg[s := 0], Insert(c.ready, index[s]))
    else c.(indeg := c.indeg[s := c.indeg[s] - 1])
  }

  lemma OneMore(all: seq<string>, j: nat)
    requires j < |all|
    ensures multiset(all[..j + 1]) == multiset(all[..j]) + multiset{all[j]}
  {
    assert all[..j + 1] == all[..j] + [all[j]];
  }

  /** Taking one edge off: its target becomes ready when nothing is outstanding any more. */
  lemma ReleaseStep(tasks: seq<Task>, live: Graph<string>, successors: Graph<string>, index: map<string, int>,
                    out: set<string>, tid: string, c: Counts, j: nat)
    requires Tables(tasks, live, successors, index) && tid in live && tid !in out && tid in successors
      && j < |successors[tid]|
    requires Releasing(tasks, live, out, tid, c, successors[tid], j)
    requires PredsOut(live, out + {tid}, out)
    ensures Releasing(tasks, live, out, tid, TakeEdge(c, index, successors[tid][j]), successors[tid], j + 1)
  {
    hide CountsReversed, Outstanding, PredsOut, Insert, TakeEdge, UniqueIds, ReadyIs;
    var s := successors[tid][j];
    var i := index[s];
    assert tasks[i] in tasks && s in live;
    StillWaiting(live, successors, out, tid, j);
    CountStep(live, out, c, index, successors[tid], j);
    ReadyStep(tasks, out + {tid}, c, index, i);
  }

  lemma CountStep(live: Graph<string>, out: set<string>, c: Counts, index: map<string, int>, all: seq<string>, j: nat)
    requires j < |all| && all[j] in live && all[j] in index && c.indeg.Keys == live.Keys
    requires forall id :: id in live ==> c.indeg[id] == Outstanding(live[id], out) - multiset(all[..j])[id]
    ensures var c' := TakeEdge(c, index, all[j]);
      && c'.indeg.Keys == live.Keys
      && forall id :: id in live ==> c'.indeg[id] == Outstanding(live[id], out) - multiset(all[..j + 1])[id]
  {
    OneMore(all, j);
  }

  lemma ReadyStep(tasks: seq<Task>, out: set<string>, c: Counts, index: map<string, int>, i: int)
    requires UniqueIds(tasks) && c.indeg.Keys == Ids(tasks)
    requires 0 <= i < |tasks| && tasks[i] in tasks && tasks[i].id !in out && c.indeg[tasks[i].id] > 0
    requires tasks[i].id in index && index[tasks[i].id] == i
    requires ReadyIs(tasks, out, c)
    ensures ReadyIs(tasks, out, TakeEdge(c, index, tasks[i].id))
  {
    var c' := TakeEdge(c, index, tasks[i].id);
    InsertKeeps(c.ready, i);
    forall k | 0 <= k < |tasks| && k != i ensures tasks[k].id != tasks[i].id {}
    forall k ensures k in c'.ready <==> InReady(tasks, out, c', k) {
      assert k in c.ready <==> InReady(tasks, out, c, k);
    }
  }

  /** The inner `for s in successors[tid]`. */
  method Release(tasks: seq<Task>, live: Graph<string>, successors: Graph<string>, ghost out: set<string>, tid: string,
                 index: map<string, int>, before: Counts)
    returns (c: Counts)
    requires Tables(tasks, live, successors, index) && tid in live && tid !in out && tid in successors
    requires Releasing(tasks, live, out, tid, before, successors[tid], 0)
    requires PredsOut(live, out + {tid}, out)
    ensures KahnState(tasks, live, out + {tid}, c)
  {
    hide *;
    c := before;
    for j := 0 to |successors[tid]|
      invariant Releasing(tasks, live, out, tid, c, successors[tid], j)
    {
      ReleaseStep(tasks, live, successors, index, out, tid, c, j);
      c := TakeEdge(c, index, successors[tid][j]);
    }
    ReleaseEnd(tasks, live, successors, index, out, tid, c);
  }

  /** What the outer loop keeps. */
  ghost predicate KahnInvariant(tasks: seq<Task>, live: Graph<string>, result: seq<Task>, c: Counts) {
    && KahnState(tasks, live, Ids(result), c)
    && (forall k :: 0 <= k < |result| ==> PicksFirst(tasks, live, result, k))
  }

  lemma {:induction false} PickedHavePreds(tasks: seq<Task>, live: Graph<string>, result: seq<Task>)
    requires UniqueIds(tasks) && live.Keys == Ids(tasks)
    requires forall k :: 0 <= k < |result| ==> PicksFirst(tasks, live, result, k)
    ensures PredsOut(live, Ids(result), Ids(result))
    ensures Ids(result) <= Ids(tasks)
  {
    if result == [] {
    } else {
      var n := |result| - 1;
      var before := result[..n];
      assert result == before + [result[n]];
      forall k | 0 <= k < n ensures PicksFirst(tasks, live, before, k) {
        assert PicksFirst(tasks, live, result, k) && before[..k] == result[..k];
      }
      PickedHavePreds(tasks, live, before);
      assert PicksFirst(tasks, live, result, n);
      IdsAppend(before, result[n]);
    }
  }

  lemma PickNext(tasks: seq<Task>, live: Graph<string>, result: seq<Task>, i: int)
    requires forall k :: 0 <= k < |result| ==> PicksFirst(tasks, live, result, k)
    requires Available(tasks, live, Ids(result), i) && forall j :: j < i ==> !Available(tasks, live, Ids(result), j)
    ensures forall k :: 0 <= k < |result| + 1 ==> PicksFirst(tasks, live, result + [tasks[i]], k)
  {
    var after := result + [tasks[i]];
    forall k | 0 <= k < |after| ensures PicksFirst(tasks, live, after, k) {
      if k < |result| {
        assert PicksFirst(tasks, live, result, k) && after[..k] == result[..k];
      } else {
        assert after[..k] == result;
      }
    }
  }

  /** One pass of the outer loop: pop the least ready index, emit it, release its successors. */
  lemma PredsOutWith(tasks: seq<Task>, live: Graph<string>, out: set<string>, i: int)
    requires PredsOut(live, out, out) && Available(tasks, live, out, i)
    ensures PredsOut(live, out + {tasks[i].id}, out)
  {
  }

  /** A ready position is a task not yet out that has its list of successors. */
  lemma ReadyHasTables(tasks: seq<Task>, live: Graph<string>, successors: Graph<string>, out: set<string>, c: Counts)
    requires CountsReversed(live, successors) && KahnState(tasks, live, out, c) && c.ready != []
    ensures var i := c.ready[0];
      && 0 <= i < |tasks| && tasks[i] in tasks && tasks[i].id in Ids(tasks) && tasks[i].id !in out
      && tasks[i].id in successors && tasks[i].id in live
  {
    assert c.ready[0] in c.ready;
    assert InReady(tasks, out, c, c.ready[0]);
  }

  method Emit(tasks: seq<Task>, live: Graph<string>, successors: Graph<string>, index: map<string, int>,
              resultIn: seq<Task>, before: Counts)
    returns (result: seq<Task>, c: Counts)
    requires Tables(tasks, live, successors, index)
    requires KahnInvariant(tasks, live, resultIn, before) && before.ready != []
    ensures KahnInvariant(tasks, live, result, c)
    ensures Ids(tasks) - Ids(result) < Ids(tasks) - Ids(resultIn)
  {
    hide CountsReversed, UniqueIds, PicksFirst, Available, PredsOut, Ids, KahnState, Releasing;
    ghost var out := Ids(resultIn);
    var i := before.ready[0];
    ReadyHasTables(tasks, live, successors, out, before);
    ReleaseStart(tasks, live, out, before, successors[tasks[i].id]);
    PickNext(tasks, live, resultIn, i);
    PickedHavePreds(tasks, live, resultIn);
    IdsAppend(resultIn, tasks[i]);
    PredsOutWith(tasks, live, out, i);
    result := resultIn + [tasks[i]];
    c := Release(tasks, live, successors, out, tasks[i].id, index, before.(ready := before.ready[1..]));
  }

  method BuildTables(visible: seq<Task>, live: Graph<string>)
    returns (successors: Graph<string>, index: map<string, int>)
    requires UniqueIds(visible) && live.Keys == Ids(visible)
    requires forall id, p :: id in live && p in live[id] ==> p in live
    ensures Tables(visible, live, successors, index)
  {
    successors := BuildSuccessors(live);
    index := map[];
    for i := 0 to |visible|
      invariant forall j :: 0 <= j < i ==> visible[j].id in index && index[visible[j].id] == j
    {
      index := index[visible[i].id := i];
    }
    IndexIsTotal(visible, index);
  }

  lemma IndexIsTotal(visible: seq<Task>, index: map<string, int>)
    requires forall i :: 0 <= i < |visible| ==> visible[i].id in index && index[visible[i].id] == i
    ensures forall s :: s in Ids(visible) ==> s in index && 0 <= index[s] < |visible| && visible[index[s]].id == s
  {
    forall s | s in Ids(visible) ensures s in index && 0 <= index[s] < |visible| && visible[index[s]].id == s {
      var t :| t in visible && t.id == s;
      var i :| 0 <= i < |visible| && visible[i] == t;
    }
  }

  /** Indegrees of all visible tasks, and the indices that start at zero. */
  method InitialCounts(visible: seq<Task>, live: Graph<string>) returns (c: Counts)
    requires live.Keys == Ids(visible)
    ensures KahnInvariant(visible, live, [], c)
  {
    c := Counts(map id | id in live :: |live[id]|, []);
    for i := 0 to |visible|
      invariant c.indeg == map id | id in live :: |live[id]|
      invariant Increasing(c.ready) && forall k :: k in c.ready <==> k < i && InReady(visible, {}, c, k)
    {
      assert visible[i] in visible;
      if c.indeg[visible[i].id] == 0 {
        InsertKeeps(c.ready, i);
        c := c.(ready := Insert(c.ready, i));
      }
    }
    assert Ids([]) == {};
    forall id | id in live ensures c.indeg[id] == Outstanding(live[id], {}) { AllOutstanding(live[id]); }
  }

  /** `_topological_order`. */
  method Order(visible: seq<Task>, preds: map<string, seq<string>>, st: Statuses)
    returns (result: seq<Task>, ghost n: nat)
    requires UniqueIds(visible)
    ensures GreedyOrder(visible, LiveGraph(visible, preds, st), result, n)
    ensures UniqueIds(result) && forall t :: t in result <==> t in visible
    ensures Acyclic(LiveGraph(visible, preds, st)) ==> InDependencyOrder(result, LiveGraph(visible, preds, st))
    ensures InDependencyOrder(visible, LiveGraph(visible, preds, st)) ==> result == visible
  {
    var live := LiveGraph(visible, preds, st);
    var successors, index := BuildTables(visible, live);
    var c := InitialCounts(visible, live);
    result := [];
    hide KahnInvariant, Tables, Available, PicksFirst;
    while c.ready != []
      invariant KahnInvariant(visible, live, result, c)
      decreases Ids(visible) - Ids(result)
    {
      result, c := Emit(visible, live, successors, index, result, c);
    }
    n := |result|;
    KahnDone(visible, live, result, c);
    result := result + Remaining(visible, set t | t in result :: t.id);
    OrderGuarantees(visible, preds, st, result, n);
  }

  lemma {:induction false} AllOutstanding(ps: seq<string>)
    ensures Outstanding(ps, {}) == |ps|
  {
    if ps == [] {
    } else {
      AllOutstanding(ps[1..]);
    }
  }

  /** When nothing is ready the picks end, and what is left is appended as listed. */
  lemma KahnDone(tasks: seq<Task>, live: Graph<string>, result: seq<Task>, c: Counts)
    requires KahnInvariant(tasks, live, result, c) && c.ready == []
    ensures GreedyOrder(tasks, live, result + Remaining(tasks, Ids(result)), |result|)
  {
    var n := |result|;
    var all := result + Remaining(tasks, Ids(result));
    assert all[..n] == result && all[n..] == Remaining(tasks, Ids(result));
    forall i ensures !Available(tasks, live, Ids(result), i) {
      ReadyIsAvailable(tasks, live, Ids(result), c, i);
      assert i !in c.ready;
    }
    forall k | 0 <= k < n ensures PicksFirst(tasks, live, all, k) {
      assert PicksFirst(tasks, live, result, k) && all[..k] == result[..k];
    }
  }
}
