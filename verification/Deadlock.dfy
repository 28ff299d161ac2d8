/** Stranded failures: the tasks that hold pending work back when nothing can run. */
module Deadlock {
  import opened Graphs
  import opened Tasks
  import opened MissionRuns

  predicate Blocks(s: Status) {
    s == Pending || s == Failed
  }

  /** Dependencies are followed only through tasks that are not satisfied yet. */
  ghost function BlockingGraph(tasks: seq<Task>, st: Statuses): Graph<string>
    requires UniqueIds(tasks)
  {
    var g := DependencyGraph(tasks);
    map id | id in g :: if Blocks(StatusOf(st, id)) then g[id] else []
  }

  /** A failed task that some pending task reaches through pending or failed dependencies. */
  ghost predicate Blocker(tasks: seq<Task>, st: Statuses, id: string)
    requires UniqueIds(tasks)
  {
    && id in Ids(tasks) && StatusOf(st, id) == Failed
    && exists p :: p in tasks && StatusOf(st, p.id) == Pending && ReachedFrom(BlockingGraph(tasks, st), p.dependsOn, id)
  }

  lemma NobodyHeld(st: Statuses, g: Graph<string>)
    ensures forall id :: !HeldBy([], st, g, id)
  {
  }

  lemma BlockerIsHeld(tasks: seq<Task>, st: Statuses)
    requires UniqueIds(tasks)
    ensures forall id :: Blocker(tasks, st, id) <==> HeldBy(tasks, st, BlockingGraph(tasks, st), id)
  {
    DependencyGraphKeys(tasks);
    hide ReachedFrom;
  }

  lemma DependencyGraphKeys(tasks: seq<Task>)
    requires UniqueIds(tasks)
    ensures DependencyGraph(tasks).Keys == Ids(tasks)
  {
  }

  lemma BlockingTable(tasks: seq<Task>, st: Statuses, deps: Graph<string>, g: Graph<string>)
    requires UniqueIds(tasks) && deps == DependencyGraph(tasks)
    requires g == map id | id in deps :: if Blocks(StatusOf(st, id)) then deps[id] else []
    ensures g == BlockingGraph(tasks, st)
  {
  }

  /** The double loop of `_recover_stranded_failure` that collects the blockers. */
  method FindBlockers(tasks: seq<Task>, st: Statuses) returns (blockers: set<string>)
    requires WellFormed(tasks)
    ensures forall id :: id in blockers <==> Blocker(tasks, st, id)
  {
    hide ReachedFrom, BlockingGraph, DependencyGraph, HeldBy, Blocker;
    BlockerIsHeld(tasks, st);
    var deps := Dependencies(tasks);
    var g := map id | id in deps :: if Blocks(StatusOf(st, id)) then deps[id] else [];
    BlockingTable(tasks, st, deps, g);
    NobodyHeld(st, g);
    blockers := {};
    assert tasks[..0] == [];
    for i := 0 to |tasks|
      invariant forall id :: id in blockers <==> HeldBy(tasks[..i], st, g, id)
    {
      HeldByOneMore(tasks, i, st, g);
      if StatusOf(st, tasks[i].id) == Pending {
        var visited := Closure(g, tasks[i].dependsOn);
        blockers := blockers + set id | id in visited && StatusOf(st, id) == Failed;
      }
    }
    assert tasks[..|tasks|] == tasks;
  }

  /** `id` failed and one of these tasks is pending and reaches it. */
  ghost predicate HeldBy(some: seq<Task>, st: Statuses, g: Graph<string>, id: string) {
    id in g && StatusOf(st, id) == Failed
    && exists p :: p in some && StatusOf(st, p.id) == Pending && ReachedFrom(g, p.dependsOn, id)
  }

  lemma HeldByOneMore(tasks: seq<Task>, i: nat, st: Statuses, g: Graph<string>)
    requires i < |tasks|
    ensures forall id :: HeldBy(tasks[..i + 1], st, g, id) <==>
      HeldBy(tasks[..i], st, g, id)
      || (id in g && StatusOf(st, id) == Failed && StatusOf(st, tasks[i].id) == Pending
          && ReachedFrom(g, tasks[i].dependsOn, id))
  {
    hide ReachedFrom;
    assert tasks[..i + 1] == tasks[..i] + [tasks[i]];
  }

  /** Every dependency is a task that was not superseded. */
  ghost predicate LiveDependencies(tasks: seq<Task>, st: Statuses) {
    forall t, d :: t in tasks && d in t.dependsOn ==> StatusOf(st, d) != Superseded
  }

  ghost predicate Stuck(tasks: seq<Task>, st: Statuses) {
    forall t :: t in tasks ==> StatusOf(st, t.id) != Running && !Runnable(st, t) && !GateReady(st, t)
  }

  /** Nothing deadlocks silently: whatever is pending when nothing can move has a blocker above it. */
  lemma {:induction false} StuckHasBlocker(tasks: seq<Task>, st: Statuses, p: Task) returns (id: string)
    requires WellFormed(tasks) && Acyclic(DependencyGraph(tasks)) && LiveDependencies(tasks, st) && Stuck(tasks, st)
    requires p in tasks && StatusOf(st, p.id) == Pending
    ensures Blocker(tasks, st, id) && ReachedFrom(BlockingGraph(tasks, st), p.dependsOn, id)
    decreases |Below(DependencyGraph(tasks), p.id)|
  {
    var g, b := DependencyGraph(tasks), BlockingGraph(tasks, st);
    assert !DepsCleared(st, p);
    var d :| d in p.dependsOn && StatusOf(st, d) != Cleared;
    assert d in Ids(tasks);
    var t :| t in tasks && t.id == d;
    assert Blocks(StatusOf(st, d));
    ReachedFromStart(b, p.dependsOn, d);
    if StatusOf(st, d) == Failed {
      id := d;
    } else {
      ReachesSelf(g, d);
      assert d in Succ(g, p.id);
      BelowShrinks(g, p.id, d);
      id := StuckHasBlocker(tasks, st, t);
      var s :| s in t.dependsOn && Reaches(b, s, id);
      ReachesVia(b, d, s, id);
      assert Reaches(b, d, id);
    }
  }

  /** Dependencies inherited by a run: patches being left out, nothing is ever superseded. */
  lemma {:induction false} RunsSupersedeNothing(tasks: seq<Task>, m: Mission, trail: seq<Write>)
    requires WellFormed(tasks) && Fresh(tasks, m) && Legal(tasks, m, trail)
    ensures LiveDependencies(tasks, After(m, trail).st)
  {
    if trail == [] {
      forall t, d | t in tasks && d in t.dependsOn ensures StatusOf(m.st, d) == Pending {
        assert d in Ids(tasks);
        var s :| s in tasks && s.id == d;
      }
    } else {
      var n := |trail| - 1;
      RunsSupersedeNothing(tasks, m, trail[..n]);
      WriteSupersedesNothing(tasks, After(m, trail[..n]), trail[n]);
    }
  }

  lemma WriteSupersedesNothing(tasks: seq<Task>, m: Mission, w: Write)
    requires LiveDependencies(tasks, m.st)
    ensures LiveDependencies(tasks, Apply(m, w).st)
  {
  }

  /**
   A mission that is stuck with pending work is held by a failed task.  When that task is
   a gate nothing is reported: the recovery only looks at work and validation tasks.
   */
  lemma StuckMissionIsHeld(tasks: seq<Task>, m: Mission, trail: seq<Write>)
    requires WellFormed(tasks) && Acyclic(DependencyGraph(tasks)) && Fresh(tasks, m) && Legal(tasks, m, trail)
    requires Stuck(tasks, After(m, trail).st)
    ensures (exists p :: p in tasks && StatusOf(After(m, trail).st, p.id) == Pending)
       <==> (exists id :: Blocker(tasks, After(m, trail).st, id))
  {
    var st := After(m, trail).st;
    RunsSupersedeNothing(tasks, m, trail);
    if p :| p in tasks && StatusOf(st, p.id) == Pending {
      var id := StuckHasBlocker(tasks, st, p);
    }
  }

  // ---------- The silent case ----------

  const BEFORE_GATE := Task("a", Work, [], [])
  const GATE := Task("g", Gate, [], ["a"])
  const AFTER_GATE := Task("b", Work, [], ["g"])

  const GATED := [BEFORE_GATE, GATE, AFTER_GATE]

  /** Sealing a gate as failed and raising its attention are two writes; a crash between them leaves this trail. */
  const SEALED_AND_DIED :=
    [Dispatch({"a"}), SaveAttempt("a", Handoff(true, false, false, [], false)), Finish("a", true), SealGate("g", false)]

  lemma GatedIsAcyclic()
    ensures WellFormed(GATED) && Acyclic(DependencyGraph(GATED))
  {
    assert Ids(GATED) == {"a", "g", "b"} by {
      assert BEFORE_GATE in GATED && GATE in GATED && AFTER_GATE in GATED;
    }
    var g := DependencyGraph(GATED);
    assert g["a"] == [] && g["g"] == ["a"] && g["b"] == ["g"] by {
      assert BEFORE_GATE in GATED && GATE in GATED && AFTER_GATE in GATED;
    }
    assert Closed(g, {"a"}) && Closed(g, {"a", "g"});
    forall x ensures !ReachesPlus(g, x, x) {
      if ReachesPlus(g, x, x) {
        var c :| c in Succ(g, x) && Reaches(g, c, x);
        ClosedContains(g, if c == "a" then {"a"} else {"a", "g"}, c, x);
      }
    }
  }

  /**
   The mission can be held back in silence: this legal trail ends, running and without any
   attention item, with nothing that can move and a failed gate as the only blocker, which the
   recovery of stranded failures passes over.
   */
  lemma FailedGateHoldsInSilence(m: Mission)
    requires Fresh(GATED, m)
    ensures WellFormed(GATED) && Legal(GATED, m, SEALED_AND_DIED)
    ensures var r := After(m, SEALED_AND_DIED);
      && r.phase == MissionRunning && r.attention == [] && Stuck(GATED, r.st)
      && (exists t :: t in GATED && StatusOf(r.st, t.id) == Pending)
      && (forall t :: t in GATED && Blocker(GATED, r.st, t.id) ==> t.kind == Gate)
  {
    assert |SEALED_AND_DIED| == 4;
    hide *;
    GatedIsAcyclic();
    var m1, m2, m3, r := SealedStates(m);
    SealedIsLegal(m, m1, m2, m3);
    SealedIsStuck(r);
    FourSteps(GATED, m, m1, m2, m3, r, SEALED_AND_DIED);
  }

  lemma FourSteps(tasks: seq<Task>, m: Mission, m1: Mission, m2: Mission, m3: Mission, r: Mission, trail: seq<Write>)
    requires |trail| == 4
    requires Allowed(tasks, m, trail[0]) && Allowed(tasks, m1, trail[1]) && Allowed(tasks, m2, trail[2])
      && Allowed(tasks, m3, trail[3])
    requires m1 == Apply(m, trail[0]) && m2 == Apply(m1, trail[1]) && m3 == Apply(m2, trail[2])
      && r == Apply(m3, trail[3])
    ensures Legal(tasks, m, trail) && After(m, trail) == r
  {
    hide Allowed, Apply, Legal, After;
    var states := [m, m1, m2, m3, r];
    assert Leads(tasks, states, trail);
    RunThrough(tasks, states, trail);
  }

  lemma SealedStates(m: Mission) returns (m1: Mission, m2: Mission, m3: Mission, r: Mission)
    requires Fresh(GATED, m)
    ensures m1 == Apply(m, SEALED_AND_DIED[0]) && m2 == Apply(m1, SEALED_AND_DIED[1])
      && m3 == Apply(m2, SEALED_AND_DIED[2])
    ensures r == Apply(m3, SEALED_AND_DIED[3])
    ensures forall id :: StatusOf(m1.st, id) == if id == "a" then Running else StatusOf(m.st, id)
    ensures m2.st == m1.st
    ensures forall id :: StatusOf(m3.st, id) == if id == "a" then Cleared else StatusOf(m.st, id)
    ensures m1.phase == m2.phase == m3.phase == MissionRunning && m1.attention == m2.attention == m3.attention == []
    ensures r.phase == MissionRunning && r.attention == []
    ensures StatusOf(r.st, "a") == Cleared && StatusOf(r.st, "g") == Failed && StatusOf(r.st, "b") == Pending
  {
    assert BEFORE_GATE in GATED && GATE in GATED && AFTER_GATE in GATED;
    assert StatusOf(m.st, AFTER_GATE.id) == Pending && StatusOf(m.st, GATE.id) == Pending;
    WriteEffect(m, SEALED_AND_DIED[0]);
    m1 := Apply(m, SEALED_AND_DIED[0]);
    WriteEffect(m1, SEALED_AND_DIED[1]);
    m2 := Apply(m1, SEALED_AND_DIED[1]);
    WriteEffect(m2, SEALED_AND_DIED[2]);
    m3 := Apply(m2, SEALED_AND_DIED[2]);
    WriteEffect(m3, SEALED_AND_DIED[3]);
    r := Apply(m3, SEALED_AND_DIED[3]);
    hide Apply;
  }

  lemma WriteEffect(m: Mission, w: Write)
    requires w.Dispatch? || w.SaveAttempt? || w.Finish? || w.SealGate?
    ensures Apply(m, w).phase == m.phase && Apply(m, w).attention == m.attention
    ensures w.Dispatch? ==>
      forall n :: StatusOf(Apply(m, w).st, n) == if n in w.nodes then Running else StatusOf(m.st, n)
    ensures w.SaveAttempt? ==> Apply(m, w).st == m.st
    ensures w.Finish? || w.SealGate? ==>
      forall n :: StatusOf(Apply(m, w).st, n) == if n == w.node then (if w.cleared then Cleared else Failed)
        else StatusOf(m.st, n)
  {
  }

  lemma SealedIsLegal(m: Mission, m1: Mission, m2: Mission, m3: Mission)
    requires Fresh(GATED, m) && m1.phase == m2.phase == m3.phase == MissionRunning
    requires StatusOf(m1.st, "a") == Running == StatusOf(m2.st, "a")
    requires forall id :: StatusOf(m3.st, id) == if id == "a" then Cleared else StatusOf(m.st, id)
    ensures Allowed(GATED, m, SEALED_AND_DIED[0]) && Allowed(GATED, m1, SEALED_AND_DIED[1])
    ensures Allowed(GATED, m2, SEALED_AND_DIED[2]) && Allowed(GATED, m3, SEALED_AND_DIED[3])
  {
    assert BEFORE_GATE in GATED && GATE in GATED;
    assert Runnable(m.st, BEFORE_GATE);
    assert GateReady(m3.st, GATE);
  }

  lemma SealedIsStuck(r: Mission)
    requires WellFormed(GATED)
    requires StatusOf(r.st, "a") == Cleared && StatusOf(r.st, "g") == Failed && StatusOf(r.st, "b") == Pending
    ensures Stuck(GATED, r.st) && exists t :: t in GATED && StatusOf(r.st, t.id) == Pending
    ensures forall t :: t in GATED && Blocker(GATED, r.st, t.id) ==> t.kind == Gate
  {
    assert AFTER_GATE in GATED && StatusOf(r.st, AFTER_GATE.id) == Pending;
    hide ReachedFrom, BlockingGraph;
  }
}
