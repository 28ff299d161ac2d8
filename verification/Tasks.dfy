/** Task lists and their live statuses (`models.py`), and the dependency graph they spell. */
module Tasks {
  import opened Graphs

  datatype Kind = Work | Validate | Gate

  datatype Status = Pending | Running | Cleared | Failed | Superseded

  /** `dependsOn` points from a task to its predecessors. */
  datatype Task = Task(id: string, kind: Kind, targets: seq<string>, dependsOn: seq<string>)

  /** One verdict of a validator about one contract item. */
  datatype Item = Item(itemId: string, passed: bool)

  type Statuses = map<string, Status>

  /** A task without an entry is pending. */
  function StatusOf(st: Statuses, id: string): Status {
    if id in st then st[id] else Pending
  }

  ghost predicate UniqueIds(tasks: seq<Task>) {
    forall i, j :: 0 <= i < j < |tasks| ==> tasks[i].id != tasks[j].id
  }

  function Ids(tasks: seq<Task>): set<string> {
    set t | t in tasks :: t.id
  }

  /** What submission checks: ids are unique and every dependency is a declared task. */
  ghost predicate WellFormed(tasks: seq<Task>) {
    && UniqueIds(tasks)
    && forall t, d :: t in tasks && d in t.dependsOn ==> d in Ids(tasks)
  }

  lemma SameIdSameTask(tasks: seq<Task>, s: Task, t: Task)
    requires UniqueIds(tasks) && s in tasks && t in tasks && s.id == t.id
    ensures s == t
  {
    var i :| 0 <= i < |tasks| && tasks[i] == s;
    var j :| 0 <= j < |tasks| && tasks[j] == t;
  }

  /** `{t.id: t for t in tasks}`, reduced to the dependency lists. */
  method Dependencies(tasks: seq<Task>) returns (g: Graph<string>)
    requires UniqueIds(tasks)
    ensures IsDependencyGraph(tasks, g)
  {
    g := map[];
    for i := 0 to |tasks|
      invariant forall id :: id in g <==> exists j :: 0 <= j < i && tasks[j].id == id
      invariant forall j :: 0 <= j < i ==> tasks[j].id in g && g[tasks[j].id] == tasks[j].dependsOn
    {
      g := g[tasks[i].id := tasks[i].dependsOn];
    }
  }

  ghost predicate IsDependencyGraph(tasks: seq<Task>, g: Graph<string>) {
    && g.Keys == Ids(tasks)
    && forall t :: t in tasks ==> g[t.id] == t.dependsOn
  }

  /** The dependency graph as a value, for specifications. */
  ghost function DependencyGraph(tasks: seq<Task>): (g: Graph<string>)
    requires UniqueIds(tasks)
    ensures IsDependencyGraph(tasks, g)
  {
    var g := map id | id in Ids(tasks) :: (var t :| t in tasks && t.id == id; t.dependsOn);
    forall t | t in tasks ensures g[t.id] == t.dependsOn {
      var s :| s in tasks && s.id == t.id && g[t.id] == s.dependsOn;
      SameIdSameTask(tasks, s, t);
    }
    g
  }

  lemma DependencyGraphUnique(tasks: seq<Task>, g: Graph<string>, h: Graph<string>)
    requires IsDependencyGraph(tasks, g) && IsDependencyGraph(tasks, h)
    ensures g == h
  {
    forall id | id in g ensures g[id] == h[id] {
      var t :| t in tasks && t.id == id;
    }
  }

  /** The reverse adjacency every downstream search starts from. */
  ghost predicate IsDownstream(tasks: seq<Task>, down: Graph<string>) {
    && down.Keys == Ids(tasks)
    && forall x, y :: x in down ==> (y in down[x] <==> exists t :: t in tasks && t.id == y && x in t.dependsOn)
  }

  method Downstream(tasks: seq<Task>) returns (down: Graph<string>)
    ensures IsDownstream(tasks, down)
  {
    down := map id | id in Ids(tasks) :: [];
    for i := 0 to |tasks|
      invariant down.Keys == Ids(tasks)
      invariant forall x, y :: x in down ==>
        (y in down[x] <==> exists k :: 0 <= k < i && tasks[k].id == y && x in tasks[k].dependsOn)
    {
      var deps := tasks[i].dependsOn;
      ghost var before := down;
      for j := 0 to |deps|
        invariant down.Keys == Ids(tasks)
        invariant forall x, y :: x in down ==>
          (y in down[x] <==> y in before[x] || (y == tasks[i].id && x in deps[..j]))
      {
        assert deps[..j + 1] == deps[..j] + [deps[j]];
        if deps[j] in down {
          down := down[deps[j] := down[deps[j]] + [tasks[i].id]];
        }
      }
      assert deps[..|deps|] == deps;
    }
  }

  lemma DownstreamReverses(tasks: seq<Task>, g: Graph<string>, down: Graph<string>)
    requires UniqueIds(tasks) && IsDependencyGraph(tasks, g) && IsDownstream(tasks, down)
    ensures EdgesReversedIn(down, g)
    ensures forall x, y :: y in Succ(g, x) && y in Ids(tasks) ==> x in Succ(down, y)
  {
    forall x, y | y in Succ(g, x) && y in Ids(tasks) ensures x in Succ(down, y) {
      var t :| t in tasks && t.id == x;
    }
  }

  /** The ids of a set, in authored order. */
  function InOrder(tasks: seq<Task>, chosen: set<string>): (r: seq<string>)
    ensures forall id :: id in r <==> id in chosen && id in Ids(tasks)
  {
    if tasks == [] then []
    else
      assert tasks == [tasks[0]] + tasks[1..];
      (if tasks[0].id in chosen then [tasks[0].id] else []) + InOrder(tasks[1..], chosen)
  }
}
