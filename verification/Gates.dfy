/**
 Gate evaluation (`coordinator.py`): which validators are current for a gate target,
 and when the gate clears on their evidence.
 */
module Gates {
  import opened Graphs
  import opened Tasks

  // ---------- Currentness ----------

  /** A validator, not superseded, that has the target and that the gate depends on. */
  ghost predicate Covers(tasks: seq<Task>, st: Statuses, gate: Task, target: string, id: string)
    requires UniqueIds(tasks)
  {
    && ReachedFrom(DependencyGraph(tasks), gate.dependsOn, id)
    && StatusOf(st, id) != Superseded
    && exists t :: t in tasks && t.id == id && t.kind == Validate && target in t.targets
  }

  ghost function Covering(tasks: seq<Task>, st: Statuses, gate: Task, target: string): set<string>
    requires UniqueIds(tasks)
  {
    set id | id in Ids(tasks) && Covers(tasks, st, gate, target, id)
  }

  /**
   The declarative meaning: a covering validator is current when no other covering
   validator transitively depends on it.
   */
  ghost predicate Current(tasks: seq<Task>, st: Statuses, gate: Task, target: string, id: string)
    requires UniqueIds(tasks)
  {
    && Covers(tasks, st, gate, target, id)
    && forall other :: Covers(tasks, st, gate, target, other) ==> !ReachesPlus(DependencyGraph(tasks), other, id)
  }

  ghost function CurrentSet(tasks: seq<Task>, st: Statuses, gate: Task, target: string): set<string>
    requires UniqueIds(tasks)
  {
    set id | id in Ids(tasks) && Current(tasks, st, gate, target, id)
  }

  /** The source's forward search from `id`, which never passes the gate, meets another candidate. */
  ghost predicate Dominated(covering: set<string>, gateId: string, down: Graph<string>, id: string)
    requires id in down
  {
    exists other :: other in covering && other in down - {gateId} && ReachedFrom(down - {gateId}, down[id], other)
  }

  lemma DominatedIsNotCurrent(tasks: seq<Task>, st: Statuses, gate: Task, target: string, id: string,
                              down: Graph<string>)
    requires UniqueIds(tasks) && IsDownstream(tasks, down) && id in down
    requires Dominated(Covering(tasks, st, gate, target), gate.id, down, id)
    ensures !Current(tasks, st, gate, target, id)
  {
    var g := DependencyGraph(tasks);
    var cut := down - {gate.id};
    hide DependencyGraph, Reaches, ReachesPlus;
    DownstreamReverses(tasks, g, down);
    var other :| other in Covering(tasks, st, gate, target) && other in cut && ReachedFrom(cut, down[id], other);
    var s :| s in down[id] && Reaches(cut, s, other);
    ReachesAvoiding(down, gate.id, s, other);
    ReversedReaches(down, g, s, other);
    assert s in Succ(down, id);
    ReachesExtend(g, other, s, id);
  }

  lemma AboveIsDominating(tasks: seq<Task>, gate: Task, id: string, other: string, down: Graph<string>)
    requires WellFormed(tasks) && Acyclic(DependencyGraph(tasks)) && IsDownstream(tasks, down)
    requires gate in tasks && id in Ids(tasks) && other in Ids(tasks)
    requires ReachesPlus(DependencyGraph(tasks), other, id)
      && ReachedFrom(DependencyGraph(tasks), gate.dependsOn, other)
    ensures ReachedFrom(down - {gate.id}, down[id], other)
  {
    var g := DependencyGraph(tasks);
    hide Reaches, ReachesPlus;
    LastStep(g, other, id);
    var s :| Reaches(g, other, s) && id in Succ(g, s);
    DependenciesAreTasks(tasks, other, s);
    DownstreamReverses(tasks, g, down);
    ReverseInside(tasks, g, down, other, s);
    ReachesAvoiding(down, gate.id, s, other);
    if Reaches(down, gate.id, other) {
      ReversedReaches(down, g, gate.id, other);
      var d :| d in gate.dependsOn && Reaches(g, d, other);
      ReachesVia(g, gate.id, d, other);
      PlusThenReaches(g, gate.id, other, gate.id);
      assert false;
    }
  }

  /** The search decides currentness. */
  lemma SearchFindsDominance(tasks: seq<Task>, st: Statuses, gate: Task, target: string, id: string,
                             down: Graph<string>)
    requires WellFormed(tasks) && Acyclic(DependencyGraph(tasks))
    requires gate in tasks && gate.kind == Gate && IsDownstream(tasks, down)
    requires Covers(tasks, st, gate, target, id) && id in down
    ensures Dominated(Covering(tasks, st, gate, target), gate.id, down, id) <==> !Current(tasks, st, gate, target, id)
  {
    if Dominated(Covering(tasks, st, gate, target), gate.id, down, id) {
      DominatedIsNotCurrent(tasks, st, gate, target, id, down);
    }
    if !Current(tasks, st, gate, target, id) {
      hide Acyclic, IsDownstream, ReachedFrom, ReachesPlus;
      var other :| Covers(tasks, st, gate, target, other) && ReachesPlus(DependencyGraph(tasks), other, id);
      CoversIsNoGate(tasks, st, gate, target, other);
      AboveIsDominating(tasks, gate, id, other, down);
    }
  }

  lemma CoversIsNoGate(tasks: seq<Task>, st: Statuses, gate: Task, target: string, other: string)
    requires WellFormed(tasks) && gate in tasks && gate.kind == Gate && Covers(tasks, st, gate, target, other)
    ensures other != gate.id && other in Covering(tasks, st, gate, target)
    ensures exists t :: t in tasks && t.id == other && t.kind == Validate
  {
    var t :| t in tasks && t.id == other && t.kind == Validate;
    if t.id == gate.id { SameIdSameTask(tasks, t, gate); }
  }

  lemma LastStep(g: Graph<string>, a: string, b: string)
    requires ReachesPlus(g, a, b)
    ensures exists s :: Reaches(g, a, s) && b in Succ(g, s)
  {
    var c :| c in Succ(g, a) && Reaches(g, c, b);
    var p :| WalkFromTo(g, p, c, b);
    if |p| == 1 {
      ReachesSelf(g, a);
    } else {
      var s := p[|p| - 2];
      assert p[|p| - 2 + 1] in Succ(g, s);
      assert WalkFromTo(g, p[..|p| - 1], c, s);
      ReachesVia(g, a, c, s);
    }
  }

  lemma DependenciesAreTasks(tasks: seq<Task>, a: string, b: string)
    requires WellFormed(tasks) && a in Ids(tasks) && Reaches(DependencyGraph(tasks), a, b)
    ensures b in Ids(tasks)
  {
    var g := DependencyGraph(tasks);
    forall x, y | x in Ids(tasks) && y in Succ(g, x) ensures y in Ids(tasks) {
      var t :| t in tasks && t.id == x;
    }
    ClosedContains(g, Ids(tasks), a, b);
  }

  lemma ReverseInside(tasks: seq<Task>, g: Graph<string>, down: Graph<string>, a: string, b: string)
    requires WellFormed(tasks) && g == DependencyGraph(tasks) && IsDownstream(tasks, down)
    requires a in Ids(tasks) && Reaches(g, a, b)
    ensures Reaches(down, b, a)
  {
    DownstreamReverses(tasks, g, down);
    forall x, y | y in Succ(g, x) ensures x in Succ(down, y) {
      var t :| t in tasks && t.id == x;
    }
    ReversedReaches(g, down, a, b);
  }

  lemma CoveringIs(tasks: seq<Task>, st: Statuses, gate: Task, target: string, reachable: set<string>,
                   covering: set<string>)
    requires UniqueIds(tasks)
    requires forall x :: x in reachable <==>
      x in DependencyGraph(tasks) && ReachedFrom(DependencyGraph(tasks), gate.dependsOn, x)
    requires covering == set t | t in tasks && t.id in reachable && t.kind == Validate && target in t.targets
                                 && StatusOf(st, t.id) != Superseded :: t.id
    ensures covering == Covering(tasks, st, gate, target)
  {
  }

  /** `_current_validators_by_target`. */
  method CurrentValidatorsByTarget(tasks: seq<Task>, st: Statuses, gate: Task)
    returns (current: map<string, seq<string>>)
    requires WellFormed(tasks) && Acyclic(DependencyGraph(tasks)) && gate in tasks && gate.kind == Gate
    ensures current.Keys == set target | target in gate.targets
    ensures forall target :: target in gate.targets ==>
      current[target] == InOrder(tasks, CurrentSet(tasks, st, gate, target))
  {
    hide Acyclic, Covers, Current, ReachedFrom;
    var g := Dependencies(tasks);
    DependencyGraphUnique(tasks, g, DependencyGraph(tasks));
    var reachable := Closure(g, gate.dependsOn);
    var down := Downstream(tasks);
    current := map[];
    for i := 0 to |gate.targets|
      invariant current.Keys == set target | target in gate.targets[..i]
      invariant forall target :: target in gate.targets[..i] ==>
        current[target] == InOrder(tasks, CurrentSet(tasks, st, gate, target))
    {
      var ids := CurrentForTarget(tasks, st, gate, gate.targets[i], reachable, down);
      current := current[gate.targets[i] := ids];
      assert gate.targets[..i + 1] == gate.targets[..i] + [gate.targets[i]];
    }
    assert gate.targets[..|gate.targets|] == gate.targets;
  }

  method CurrentForTarget(tasks: seq<Task>, st: Statuses, gate: Task, target: string, reachable: set<string>,
                          down: Graph<string>)
    returns (ids: seq<string>)
    requires WellFormed(tasks) && Acyclic(DependencyGraph(tasks)) && gate in tasks && gate.kind == Gate
    requires forall x :: x in reachable <==>
      x in DependencyGraph(tasks) && ReachedFrom(DependencyGraph(tasks), gate.dependsOn, x)
    requires IsDownstream(tasks, down)
    ensures ids == InOrder(tasks, CurrentSet(tasks, st, gate, target))
  {
    var covering := set t | t in tasks && t.id in reachable && t.kind == Validate && target in t.targets
                              && StatusOf(st, t.id) != Superseded :: t.id;
    CoveringIs(tasks, st, gate, target, reachable, covering);
    var undominated := Undominated(tasks, st, gate, target, down, covering);
    ids := InOrder(tasks, undominated);
  }

  method IsDominated(tasks: seq<Task>, st: Statuses, gate: Task, target: string, id: string, down: Graph<string>,
                     covering: set<string>)
    returns (found: bool)
    requires WellFormed(tasks) && Acyclic(DependencyGraph(tasks)) && gate in tasks && gate.kind == Gate
    requires IsDownstream(tasks, down) && covering == Covering(tasks, st, gate, target) && id in covering
    ensures found <==> !Current(tasks, st, gate, target, id)
  {
    found := Search(down - {gate.id}, down[id], covering);
    SearchFindsDominance(tasks, st, gate, target, id, down);
    hide ReachedFrom, Current, Covers, Covering;
    assert found <==> Dominated(covering, gate.id, down, id);
  }

  lemma CurrentAmongCovering(tasks: seq<Task>, st: Statuses, gate: Task, target: string, covering: set<string>)
    requires WellFormed(tasks) && gate in tasks && covering == Covering(tasks, st, gate, target)
    ensures forall id :: id in CurrentSet(tasks, st, gate, target) <==>
      id in covering && Current(tasks, st, gate, target, id)
  {
  }

  /** The candidates that no other candidate is found downstream of. */
  method Undominated(tasks: seq<Task>, st: Statuses, gate: Task, target: string, down: Graph<string>,
                     covering: set<string>)
    returns (kept: set<string>)
    requires UniqueIds(tasks) && WellFormed(tasks) && Acyclic(DependencyGraph(tasks)) && gate in tasks
      && gate.kind == Gate
    requires IsDownstream(tasks, down) && covering == Covering(tasks, st, gate, target)
    ensures kept == CurrentSet(tasks, st, gate, target)
  {
    hide UniqueIds, Acyclic, ReachedFrom, Current, Covers, IsDownstream, Covering, CurrentSet, WellFormed,
      DependencyGraph;
    CurrentAmongCovering(tasks, st, gate, target, covering);
    kept := covering;
    var todo := covering;
    while todo != {}
      invariant todo <= covering
      invariant forall id :: id in kept <==> id in covering && (id in todo || Current(tasks, st, gate, target, id))
      decreases todo
    {
      var id :| id in todo;
      var found := IsDominated(tasks, st, gate, target, id, down, covering);
      todo := todo - {id};
      if found {
        kept := kept - {id};
      }
    }
  }

  /** Current validators are pairwise incomparable. */
  lemma CurrentIsAntichain(tasks: seq<Task>, st: Statuses, gate: Task, target: string, a: string, b: string)
    requires UniqueIds(tasks)
    requires Current(tasks, st, gate, target, a) && Current(tasks, st, gate, target, b)
    ensures !ReachesPlus(DependencyGraph(tasks), a, b)
  {
  }

  /** A covered target has a current validator: going downstream from any covering one ends in it. */
  lemma {:induction false} CoveredHasCurrent(tasks: seq<Task>, st: Statuses, gate: Task, target: string, id: string)
    returns (top: string)
    requires UniqueIds(tasks) && Acyclic(DependencyGraph(tasks)) && Covers(tasks, st, gate, target, id)
    ensures Current(tasks, st, gate, target, top)
    ensures top == id || ReachesPlus(DependencyGraph(tasks), top, id)
    decreases |Nodes(DependencyGraph(tasks))| - |Below(DependencyGraph(tasks), id)|
  {
    var g := DependencyGraph(tasks);
    if Current(tasks, st, gate, target, id) {
      top := id;
    } else {
      var other :| Covers(tasks, st, gate, target, other) && ReachesPlus(g, other, id);
      BelowShrinks(g, other, id);
      SubsetSizeLe(Below(g, other), Nodes(g));
      top := CoveredHasCurrent(tasks, st, gate, target, other);
      if top != other {
        PlusIsReaches(g, other, id);
        PlusThenReaches(g, top, other, id);
      }
    }
  }

  // ---------- Evidence ----------

  /** What reading a validator's current generation yields. */
  datatype Evidence = NoGeneration | Rejected | OtherHandoff | Verdicts(items: seq<Item>)

  /** Readable evidence with exactly one item for the target, and that one passed. */
  ghost predicate Passes(e: Evidence, target: string) {
    && e.Verdicts?
    && exists i :: 0 <= i < |e.items| && e.items[i].itemId == target && e.items[i].passed
         && forall j :: 0 <= j < |e.items| && e.items[j].itemId == target ==> j == i
  }

  /** The verdict dictionary of one validator: duplicates and omissions count as failed. */
  method ReadVerdicts(e: Evidence, expected: seq<string>) returns (verdicts: map<string, bool>)
    ensures verdicts.Keys == set t | t in expected
    ensures forall t :: t in expected ==> (verdicts[t] <==> Passes(e, t))
  {
    verdicts := map t | t in expected :: false;
    if !e.Verdicts? { return; }
    var returned: set<string> := {};
    for i := 0 to |e.items|
      invariant verdicts.Keys == set t | t in expected
      invariant forall t :: t in returned <==> exists j :: 0 <= j < i && e.items[j].itemId == t
      invariant forall t :: t in expected ==> (verdicts[t] <==> Passes(Verdicts(e.items[..i]), t))
    {
      var item := e.items[i];
      ghost var before, after := Verdicts(e.items[..i]), Verdicts(e.items[..i + 1]);
      forall t | t in expected
        ensures Passes(after, t) <==> if t != item.itemId then Passes(before, t) else t !in returned && item.passed
      {
        PassesAppend(e.items, i, t);
      }
      if item.itemId in expected {
        verdicts := verdicts[item.itemId := item.itemId !in returned && item.passed];
      }
      returned := returned + {item.itemId};
    }
    assert e.items[..|e.items|] == e.items;
  }

  lemma PassesAppend(items: seq<Item>, i: nat, t: string)
    requires i < |items|
    ensures Passes(Verdicts(items[..i + 1]), t) <==>
      if t != items[i].itemId then Passes(Verdicts(items[..i]), t)
      else items[i].passed && forall j :: 0 <= j < i ==> items[j].itemId != t
  {
    var a, b := items[..i], items[..i + 1];
    assert forall j :: 0 <= j < i ==> b[j] == a[j];
    if t != items[i].itemId {
      if k :| 0 <= k < |b| && b[k].itemId == t && b[k].passed && forall j :: 0 <= j < |b| && b[j].itemId == t ==>
        j == k {
        assert a[k] == b[k];
      }
      if k :| 0 <= k < |a| && a[k].itemId == t && a[k].passed && forall j :: 0 <= j < |a| && a[j].itemId == t ==>
        j == k {
        assert a[k] == b[k];
      }
    } else {
      assert b[i].itemId == t;
    }
  }

  datatype GateResult = GateResult(cleared: bool, failedItems: seq<string>)

  ghost predicate TargetClears(tasks: seq<Task>, st: Statuses, gate: Task, evidence: string -> Evidence, target: string)
    requires UniqueIds(tasks)
  {
    && (exists id :: Current(tasks, st, gate, target, id))
    && forall id :: Current(tasks, st, gate, target, id) ==> Passes(evidence(id), target)
  }

  /** A target of the gate that no current validator covers. */
  ghost predicate Uncovered(tasks: seq<Task>, st: Statuses, gate: Task, target: string)
    requires UniqueIds(tasks)
  {
    target in gate.targets && forall id :: !Current(tasks, st, gate, target, id)
  }

  lemma InOrderCurrent(tasks: seq<Task>, st: Statuses, gate: Task, target: string)
    requires UniqueIds(tasks)
    ensures forall id :: id in InOrder(tasks, CurrentSet(tasks, st, gate, target)) <==>
      Current(tasks, st, gate, target, id)
  {
  }

  /** `_evaluate_gate`: the gate clears exactly when every target does. */
  method EvaluateGate(tasks: seq<Task>, st: Statuses, gate: Task, evidence: string -> Evidence) returns (r: GateResult)
    requires WellFormed(tasks) && Acyclic(DependencyGraph(tasks)) && gate in tasks && gate.kind == Gate
    ensures r.cleared <==> forall target :: target in gate.targets ==> TargetClears(tasks, st, gate, evidence, target)
    ensures r.cleared ==> r.failedItems == []
    ensures !r.cleared ==> r.failedItems != []
    ensures forall target :: target in r.failedItems <==>
      if exists x :: Uncovered(tasks, st, gate, x) then Uncovered(tasks, st, gate, target)
      else target in gate.targets && !TargetClears(tasks, st, gate, evidence, target)
  {
    hide Acyclic, Current, Passes, InOrder;
    var current := CurrentValidatorsByTarget(tasks, st, gate);
    forall target | target in gate.targets
      ensures forall id :: id in current[target] <==> Current(tasks, st, gate, target, id)
    {
      InOrderCurrent(tasks, st, gate, target);
    }
    var verdicts := CollectVerdicts(tasks, gate, current, evidence);
    var uncovered, failed := SplitTargets(gate, current, evidence, verdicts);
    TargetsSplit(tasks, st, gate, evidence, current, uncovered, failed);
    hide TargetClears, Uncovered;
    if uncovered != [] {
      assert uncovered[0] in uncovered;
      r := GateResult(false, uncovered);
    } else {
      assert failed != [] ==> failed[0] in failed;
      r := GateResult(failed == [], failed);
    }
  }

  lemma TargetsSplit(tasks: seq<Task>, st: Statuses, gate: Task, evidence: string -> Evidence,
                     current: map<string, seq<string>>, uncovered: seq<string>, failed: seq<string>)
    requires UniqueIds(tasks) && current.Keys == set target | target in gate.targets
    requires forall target, id :: target in gate.targets ==>
      (id in current[target] <==> Current(tasks, st, gate, target, id))
    requires forall t :: t in uncovered <==> t in gate.targets && current[t] == []
    requires forall t :: t in failed <==> t in gate.targets && exists id :: id in current[t] && !Passes(evidence(id), t)
    ensures forall t :: t in uncovered <==> Uncovered(tasks, st, gate, t)
    ensures forall t :: t in gate.targets ==>
      (TargetClears(tasks, st, gate, evidence, t) <==> t !in uncovered && t !in failed)
    ensures forall t :: t in failed ==> t in gate.targets
  {
    hide Current, Passes;
    forall t | t in gate.targets
      ensures current[t] == [] <==> forall id :: !Current(tasks, st, gate, t, id)
    {
      assert current[t] != [] ==> current[t][0] in current[t];
    }
  }

  /** The last loop of the evaluation: targets nobody covers, and covered targets somebody fails. */
  method SplitTargets(gate: Task, current: map<string, seq<string>>, evidence: string -> Evidence, verdicts: map<string,
                      map<string, bool>>)
    returns (uncovered: seq<string>, failed: seq<string>)
    requires current.Keys == set target | target in gate.targets
    requires forall id, target :: id in verdicts && target in verdicts[id] <==>
      target in gate.targets && id in current[target]
    requires forall id, target :: id in verdicts && target in verdicts[id] ==>
      (verdicts[id][target] <==> Passes(evidence(id), target))
    ensures forall t :: t in uncovered <==> t in gate.targets && current[t] == []
    ensures forall t :: t in failed <==> t in gate.targets && exists id :: id in current[t] && !Passes(evidence(id), t)
  {
    hide Passes;
    uncovered, failed := [], [];
    for i := 0 to |gate.targets|
      invariant forall t :: t in uncovered <==> t in gate.targets[..i] && current[t] == []
      invariant forall t :: t in failed <==>
        t in gate.targets[..i] && exists id :: id in current[t] && !Passes(evidence(id), t)
    {
      var target := gate.targets[i];
      assert gate.targets[..i + 1] == gate.targets[..i] + [target];
      var covering := set id | id in verdicts && target in verdicts[id];
      assert forall id :: id in covering <==> id in current[target];
      assert current[target] != [] ==> current[target][0] in covering;
      if covering == {} {
        uncovered := uncovered + [target];
      } else {
        assert current[target] != [] by { var id :| id in covering; assert id in current[target]; }
        if !(forall id :: id in covering ==> verdicts[id][target]) {
          failed := failed + [target];
        }
      }
    }
    assert gate.targets[..|gate.targets|] == gate.targets;
  }

  /** One verdict dictionary per validator that is current for some target. */
  method CollectVerdicts(tasks: seq<Task>, gate: Task, current: map<string, seq<string>>, evidence: string -> Evidence)
    returns (verdicts: map<string, map<string, bool>>)
    requires current.Keys == set target | target in gate.targets
    requires forall target, id :: target in gate.targets && id in current[target] ==> id in Ids(tasks)
    ensures forall id, target :: id in verdicts && target in verdicts[id] <==>
      target in gate.targets && id in current[target]
    ensures forall id, target :: id in verdicts && target in verdicts[id] ==>
      (verdicts[id][target] <==> Passes(evidence(id), target))
  {
    verdicts := map[];
    for i := 0 to |tasks|
      invariant forall id :: id in verdicts ==> exists j :: 0 <= j < i && tasks[j].id == id
      invariant forall id, target :: id in verdicts && target in verdicts[id] ==>
        target in gate.targets && id in current[target]
      invariant forall j, target :: 0 <= j < i && target in gate.targets && tasks[j].id in current[target] ==>
        tasks[j].id in verdicts && target in verdicts[tasks[j].id]
      invariant forall id, target :: id in verdicts && target in verdicts[id] ==>
        (verdicts[id][target] <==> Passes(evidence(id), target))
    {
      var id := tasks[i].id;
      var expected := Expected(gate.targets, current, id);
      if expected != [] {
        var v := ReadVerdicts(evidence(id), expected);
        verdicts := verdicts[id := v];
      }
    }
    forall id, target | target in gate.targets && id in current[target]
      ensures id in verdicts && target in verdicts[id]
    {
      assert id in Ids(tasks);
      var t :| t in tasks && t.id == id;
      var j :| 0 <= j < |tasks| && tasks[j] == t;
    }
  }

  /** `[target for target in gate.targets if id in current[target]]`. */
  function Expected(targets: seq<string>, current: map<string, seq<string>>, id: string): (r: seq<string>)
    requires forall t :: t in targets ==> t in current
    ensures forall t :: t in r <==> t in targets && id in current[t]
  {
    if targets == [] then []
    else
      assert targets == [targets[0]] + targets[1..];
      (if id in current[targets[0]] then [targets[0]] else []) + Expected(targets[1..], current, id)
  }
}
