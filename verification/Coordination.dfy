/**
 `MissionCoordinator.step`, the advance loop and the decision handler, over persisted
 mission files.  Every durable write goes through `Save`, which may be the one the process
 dies at; what is on disk is then still a legal run.
 */
module Coordination {
  import opened Graphs
  import opened Tasks
  import opened MissionRuns
  import opened Gates

  /** What the outside contributes to one step. */
  datatype World = World(
    denied: nat -> set<string>,        // provider denials recorded before each look at the guards
    handoff: string -> Handoff,        // what the dispatcher returns for a task
    rejected: set<string>,             // persisted attempts that fail validation when read
    capacity: nat,                     // configured parallelism
    isolates: seq<string> -> bool,     // disjoint write scopes in a clean Git parent
    worktrees: bool,                   // leases for an isolated batch can be had
    integrates: bool,                  // an isolated batch can be integrated
    activeAttempts: bool)              // supervision still knows a live attempt

  datatype StepKind = Idle | Advanced | AttentionRaised | Terminal | Fault | Died

  // ---------- Selection ----------

  /** Some of the tasks, in their order. */
  predicate Subsequence(r: seq<Task>, tasks: seq<Task>) {
    r == []
    || (tasks != [] && ((r[0] == tasks[0] && Subsequence(r[1..], tasks[1..])) || Subsequence(r, tasks[1..])))
  }

  lemma {:induction false} SubsequenceIsAmong(r: seq<Task>, tasks: seq<Task>)
    requires Subsequence(r, tasks)
    ensures forall t :: t in r ==> t in tasks
  {
    if r == [] {
    } else if r[0] == tasks[0] && Subsequence(r[1..], tasks[1..]) {
      SubsequenceIsAmong(r[1..], tasks[1..]);
      assert r == [r[0]] + r[1..];
    } else {
      SubsequenceIsAmong(r, tasks[1..]);
    }
  }

  /** Tasks taken in their order are determined by which ones were taken. */
  lemma {:induction false} OneSubsequence(tasks: seq<Task>, a: seq<Task>, b: seq<Task>)
    requires UniqueIds(tasks) && Subsequence(a, tasks) && Subsequence(b, tasks)
    requires forall t :: t in a <==> t in b
    ensures a == b
  {
    if a == [] {
      NothingTaken(b);
    } else if b == [] {
      NothingTaken(a);
    } else {
      var rest := tasks[1..];
      assert forall i :: 0 <= i < |rest| ==> rest[i] == tasks[i + 1] && rest[i] != tasks[0];
      FirstTaken(tasks, a);
      FirstTaken(tasks, b);
      if tasks[0] in a {
        assert a == [a[0]] + a[1..] && b == [b[0]] + b[1..];
        forall t ensures t in a[1..] <==> t in b[1..] {
          assert t in a[1..] ==> t in a && t in rest;
          assert t in b[1..] ==> t in b && t in rest;
        }
        OneSubsequence(rest, a[1..], b[1..]);
      } else {
        OneSubsequence(rest, a, b);
      }
    }
  }

  lemma NothingTaken(a: seq<Task>)
    requires forall t :: t !in a
    ensures a == []
  {
    forall t ensures multiset(a)[t] == 0 {
      assert t !in a;
    }
    assert multiset(a) == multiset{} && |multiset(a)| == |a|;
  }

  lemma FirstTaken(tasks: seq<Task>, a: seq<Task>)
    requires tasks != [] && a != [] && Subsequence(a, tasks) && tasks[0] !in tasks[1..]
    ensures tasks[0] in a ==> a[0] == tasks[0] && Subsequence(a[1..], tasks[1..])
    ensures tasks[0] in a ==> forall t :: t in a[1..] ==> t in tasks[1..]
    ensures tasks[0] !in a ==> Subsequence(a, tasks[1..])
  {
    if Subsequence(a, tasks[1..]) {
      SubsequenceIsAmong(a, tasks[1..]);
    } else {
      SubsequenceIsAmong(a[1..], tasks[1..]);
    }
  }

  function Keep(tasks: seq<Task>, wanted: set<Task>): (r: seq<Task>)
    ensures forall t :: t in r <==> t in tasks && t in wanted
    ensures |r| <= |tasks| && Subsequence(r, tasks)
  {
    if tasks == [] then []
    else
      assert tasks == [tasks[0]] + tasks[1..];
      var rest := Keep(tasks[1..], wanted);
      assert ([tasks[0]] + rest)[1..] == rest;
      if tasks[0] in wanted then [tasks[0]] + rest else rest
  }

  lemma {:induction false} KeepUnique(tasks: seq<Task>, wanted: set<Task>)
    requires UniqueIds(tasks)
    ensures UniqueIds(Keep(tasks, wanted))
  {
    if tasks == [] {
    } else {
      KeepUnique(tasks[1..], wanted);
      forall t | t in Keep(tasks[1..], wanted) ensures t.id != tasks[0].id {
        var i :| 0 <= i < |tasks| - 1 && tasks[1..][i] == t;
        assert tasks[i + 1] == t;
      }
    }
  }

  lemma PrefixUnique(tasks: seq<Task>, n: nat)
    requires UniqueIds(tasks) && n <= |tasks|
    ensures UniqueIds(tasks[..n]) && forall t :: t in tasks[..n] ==> t in tasks
  {
  }

  /** `_all_runnable_tasks`, in authored order. */
  function RunnableTasks(tasks: seq<Task>, st: Statuses): (r: seq<Task>)
    ensures forall t :: t in r <==> t in tasks && Runnable(st, t)
  {
    Keep(tasks, set t | t in tasks && Runnable(st, t))
  }

  /** The validators a pending gate still waits for, when nothing else holds it back. */
  predicate LaneReady(tasks: seq<Task>, st: Statuses, runnable: seq<Task>, gate: Task) {
    && gate.kind == Gate && StatusOf(st, gate.id) == Pending
    && (exists t :: t in tasks && t.kind == Validate && t.id in gate.dependsOn)
    && forall d :: d in gate.dependsOn ==>
         StatusOf(st, d) == Cleared || exists t :: t in runnable && t.kind == Validate && t.id == d
  }

  /** Every runnable validator has cleared. */
  function AfterValidators(st: Statuses, runnable: seq<Task>): Statuses {
    st + map t | t in runnable && t.kind == Validate :: t.id := Cleared
  }

  /** A gate has a lane exactly when it waits for a validator, and the runnable ones clearing would make it ready. */
  lemma LaneReadyExactly(tasks: seq<Task>, st: Statuses, runnable: seq<Task>, gate: Task)
    requires UniqueIds(tasks) && gate in tasks && forall t :: t in runnable ==> t in tasks
    ensures LaneReady(tasks, st, runnable, gate) <==>
      && (exists t :: t in tasks && t.kind == Validate && t.id in gate.dependsOn)
      && GateReady(AfterValidators(st, runnable), gate)
  {
    var later := AfterValidators(st, runnable);
    forall d
      ensures StatusOf(later, d) ==
        if exists t :: t in runnable && t.kind == Validate && t.id == d then Cleared else StatusOf(st, d)
    {
    }
    assert gate.kind == Gate ==> StatusOf(later, gate.id) == StatusOf(st, gate.id);
  }

  /** A lane is all the runnable validators its gate waits for. */
  ghost predicate CompleteLane(tasks: seq<Task>, st: Statuses, runnable: seq<Task>, gate: Task, lane: seq<Task>) {
    && LaneReady(tasks, st, runnable, gate)
    && forall t :: t in lane <==> t in runnable && t.kind == Validate && t.id in gate.dependsOn
  }

  /** The lane of the first gate, in list order from `i` on, that only waits for runnable validators. */
  function FirstLane(tasks: seq<Task>, st: Statuses, runnable: seq<Task>, i: nat): seq<Task>
    requires i <= |tasks|
    decreases |tasks| - i
  {
    if i == |tasks| then []
    else if LaneReady(tasks, st, runnable, tasks[i]) then
      Keep(runnable, set t | t in runnable && t.kind == Validate && t.id in tasks[i].dependsOn)
    else FirstLane(tasks, st, runnable, i + 1)
  }

  /** The lane is that of the first gate that has one, or no gate has one. */
  ghost predicate IsFirstLane(tasks: seq<Task>, st: Statuses, runnable: seq<Task>, lane: seq<Task>) {
    || (lane == [] && forall j :: 0 <= j < |tasks| ==> !LaneReady(tasks, st, runnable, tasks[j]))
    || exists i ::
         && 0 <= i < |tasks| && CompleteLane(tasks, st, runnable, tasks[i], lane)
         && forall j :: 0 <= j < i ==> !LaneReady(tasks, st, runnable, tasks[j])
  }

  method ValidatorLane(tasks: seq<Task>, st: Statuses, runnable: seq<Task>) returns (lane: seq<Task>)
    requires UniqueIds(tasks) && UniqueIds(runnable) && forall t :: t in runnable ==> t in tasks
    ensures UniqueIds(lane) && forall t :: t in lane ==> t in runnable && t.kind == Validate
    ensures lane == FirstLane(tasks, st, runnable, 0)
    ensures IsFirstLane(tasks, st, runnable, lane) && Subsequence(lane, runnable)
  {
    hide LaneReady;
    for i := 0 to |tasks|
      invariant FirstLane(tasks, st, runnable, 0) == FirstLane(tasks, st, runnable, i)
      invariant forall j :: 0 <= j < i ==> !LaneReady(tasks, st, runnable, tasks[j])
    {
      var gate := tasks[i];
      if LaneReady(tasks, st, runnable, gate) {
        var wanted := set t | t in runnable && t.kind == Validate && t.id in gate.dependsOn;
        KeepUnique(runnable, wanted);
        lane := Keep(runnable, wanted);
        assert CompleteLane(tasks, st, runnable, gate, lane);
        return;
      }
    }
    lane := [];
  }

  function IdList(batch: seq<Task>): seq<string> {
    seq(|batch|, i requires 0 <= i < |batch| => batch[i].id)
  }

  /** A batch that may run together: one task, validators only, or isolated work only. */
  ghost predicate BatchAllowed(w: World, batch: seq<Task>) {
    || |batch| == 1
    || (forall t :: t in batch ==> t.kind == Validate)
    || ((forall t :: t in batch ==> t.kind == Work) && w.isolates(IdList(batch)))
  }

  /** All the work among the tasks, in their order. */
  ghost predicate AllWork(slice: seq<Task>, work: seq<Task>) {
    Subsequence(work, slice) && forall t :: t in work <==> t in slice && t.kind == Work
  }

  ghost predicate IsolatedWork(slice: seq<Task>, w: World, work: seq<Task>) {
    AllWork(slice, work) && |work| >= 2 && w.isolates(IdList(work))
  }

  /**
   Without a lane: all of the slice when it only validates, else its work if that is isolated, else
   its first task.
   */
  ghost predicate ChosenFrom(slice: seq<Task>, w: World, batch: seq<Task>) {
    if forall t :: t in slice ==> t.kind != Work then batch == slice
    else
      || IsolatedWork(slice, w, batch)
      || (slice != [] && batch == slice[..1] && forall work :: !IsolatedWork(slice, w, work))
  }

  function UpTo(tasks: seq<Task>, n: nat): (r: seq<Task>)
    ensures r <= tasks && |r| == if |tasks| > n then n else |tasks|
  {
    if |tasks| > n then tasks[..n] else tasks
  }

  /** `_select_dispatch_tasks`. */
  method SelectDispatchTasks(tasks: seq<Task>, st: Statuses, runnable: seq<Task>, w: World) returns (batch: seq<Task>)
    requires UniqueIds(tasks) && UniqueIds(runnable) && runnable != []
    requires forall t :: t in runnable ==> t in tasks && t.kind != Gate
    ensures batch != [] && UniqueIds(batch) && forall t :: t in batch ==> t in runnable
    ensures |batch| <= (if w.capacity > 1 then w.capacity else 1) && BatchAllowed(w, batch)
    ensures var lane, capacity := FirstLane(tasks, st, runnable, 0), if w.capacity > 1 then w.capacity else 1;
      if lane != [] then batch == UpTo(lane, capacity) else ChosenFrom(UpTo(runnable, capacity), w, batch)
  {
    var capacity := if w.capacity > 1 then w.capacity else 1;
    var lane := ValidatorLane(tasks, st, runnable);
    if lane != [] {
      batch := if |lane| > capacity then lane[..capacity] else lane;
      PrefixUnique(lane, |batch|);
      return;
    }
    var slice := UpTo(runnable, capacity);
    PrefixUnique(runnable, |slice|);
    hide FirstLane, BatchAllowed, ChosenFrom;
    batch := ChooseFrom(slice, w);
  }

  lemma IsolatedWorkIsChosen(slice: seq<Task>, w: World, work: seq<Task>)
    requires |work| >= 2 && w.isolates(IdList(work)) && AllWork(slice, work)
    ensures BatchAllowed(w, work) && ChosenFrom(slice, w, work)
  {
    hide IdList;
    assert work[0] in work;
  }

  lemma FirstIsChosen(slice: seq<Task>, w: World, work: seq<Task>)
    requires UniqueIds(slice) && AllWork(slice, work) && work != [] && !(|work| >= 2 && w.isolates(IdList(work)))
    ensures slice != [] && BatchAllowed(w, slice[..1]) && ChosenFrom(slice, w, slice[..1])
  {
    hide IdList;
    assert work[0] in work;
    forall other ensures !IsolatedWork(slice, w, other) {
      if AllWork(slice, other) { OneSubsequence(slice, work, other); }
    }
  }

  lemma ValidatorsAreChosen(slice: seq<Task>, w: World)
    requires forall t :: t in slice ==> t.kind != Work && t.kind != Gate
    ensures BatchAllowed(w, slice) && ChosenFrom(slice, w, slice)
  {
    hide IdList;
  }

  function WorkTasks(slice: seq<Task>): (r: seq<Task>)
    ensures AllWork(slice, r) && |r| <= |slice|
  {
    Keep(slice, set t | t in slice && t.kind == Work)
  }

  /** The choice among the first runnable tasks when no validator lane is ready. */
  method ChooseFrom(slice: seq<Task>, w: World) returns (batch: seq<Task>)
    requires UniqueIds(slice) && slice != [] && forall t :: t in slice ==> t.kind != Gate
    ensures batch != [] && UniqueIds(batch) && |batch| <= |slice| && forall t :: t in batch ==> t in slice
    ensures BatchAllowed(w, batch) && ChosenFrom(slice, w, batch)
  {
    hide *;
    var work := WorkTasks(slice);
    if |work| >= 2 && w.isolates(IdList(work)) {
      batch := work;
      WorkIsUnique(slice);
      WorkIsAmong(slice);
      IsolatedWorkIsChosen(slice, w, work);
    } else if |work| >= 1 {
      batch := slice[..1];
      PrefixUnique(slice, 1);
      FirstIsChosen(slice, w, work);
    } else {
      batch := slice;
      NoWork(slice);
      ValidatorsAreChosen(slice, w);
    }
  }

  lemma WorkIsUnique(slice: seq<Task>)
    requires UniqueIds(slice)
    ensures UniqueIds(WorkTasks(slice))
  {
    KeepUnique(slice, set t | t in slice && t.kind == Work);
  }

  lemma WorkIsAmong(slice: seq<Task>)
    ensures forall t :: t in WorkTasks(slice) ==> t in slice
  {
  }

  lemma NoWork(slice: seq<Task>)
    requires |WorkTasks(slice)| == 0
    ensures forall t :: t in slice ==> t.kind != Work
  {
    var work := WorkTasks(slice);
    forall t | t in slice ensures t.kind != Work {
      assert t !in work;
    }
  }

  // ---------- Attention for a finished validator ----------

  /** A pending gate with the target transitively depends on `id`, so it will report it. */
  ghost predicate GateWillReport(tasks: seq<Task>, st: Statuses, id: string, target: string)
    requires UniqueIds(tasks)
  {
    exists gate :: gate in tasks && gate.kind == Gate && target in gate.targets && StatusOf(st, gate.id) == Pending
                   && ReachesPlus(DependencyGraph(tasks), gate.id, id)
  }

  lemma DownstreamMeansDependsOn(tasks: seq<Task>, down: Graph<string>, id: string, other: string)
    requires WellFormed(tasks) && IsDownstream(tasks, down) && id in Ids(tasks) && other in Ids(tasks)
    ensures ReachedFrom(down, down[id], other) <==> ReachesPlus(DependencyGraph(tasks), other, id)
  {
    var g := DependencyGraph(tasks);
    hide Reaches;
    DownstreamReverses(tasks, g, down);
    if ReachedFrom(down, down[id], other) {
      var s :| s in down[id] && Reaches(down, s, other);
      ReversedReaches(down, g, s, other);
      assert s in Succ(down, id);
      ReachesExtend(g, other, s, id);
    }
    if ReachesPlus(g, other, id) {
      LastStep(g, other, id);
      var s :| Reaches(g, other, s) && id in Succ(g, s);
      DependenciesAreTasks(tasks, other, s);
      ReverseInside(tasks, g, down, other, s);
    }
  }

  method HasPendingDownstreamGateCovering(tasks: seq<Task>, st: Statuses, down: Graph<string>, id: string,
                                          target: string)
    returns (found: bool)
    requires WellFormed(tasks) && IsDownstream(tasks, down) && id in Ids(tasks)
    ensures found <==> GateWillReport(tasks, st, id, target)
  {
    var goal := set t | t in tasks && t.kind == Gate && target in t.targets && StatusOf(st, t.id) == Pending :: t.id;
    found := Search(down, down[id], goal);
    hide Reaches, ReachesPlus, ReachedFrom;
    forall t | t in tasks ensures ReachedFrom(down, down[id], t.id) <==> ReachesPlus(DependencyGraph(tasks), t.id, id) {
      DownstreamMeansDependsOn(tasks, down, id, t.id);
    }
  }

  /** The last verdict given for the target passed. */
  predicate ReportedPassed(items: seq<Item>, target: string): (r: bool)
    ensures r <==> exists i ::
      && 0 <= i < |items| && items[i].itemId == target && items[i].passed
      && forall j :: i < j < |items| ==> items[j].itemId != target
  {
    items != [] && if items[|items| - 1].itemId == target then items[|items| - 1].passed
                   else ReportedPassed(items[..|items| - 1], target)
  }

  /** A target the handoff leaves open: its own failed or missing verdict, or all of them on an overall failure. */
  predicate LeavesOpen(task: Task, h: Handoff, target: string) {
    target in task.targets
    && (!ReportedPassed(h.items, target) || (!h.passed && forall x :: x in task.targets ==> ReportedPassed(h.items, x)))
  }

  /** `_validate_failure_needs_attention`: some open target that no pending gate will report. */
  method ValidateFailureNeedsAttention(tasks: seq<Task>, st: Statuses, task: Task, h: Handoff) returns (needed: bool)
    requires WellFormed(tasks) && task in tasks
    ensures needed <==> exists target :: LeavesOpen(task, h, target) && !GateWillReport(tasks, st, task.id, target)
  {
    hide GateWillReport, ReportedPassed;
    var down := Downstream(tasks);
    needed := false;
    var all := forall x :: x in task.targets ==> ReportedPassed(h.items, x);
    if all && h.passed { return; }
    for i := 0 to |task.targets|
      invariant forall target :: target in task.targets[..i] && LeavesOpen(task, h, target) ==>
        GateWillReport(tasks, st, task.id, target)
    {
      var target := task.targets[i];
      assert task.targets[..i + 1] == task.targets[..i] + [target];
      if !ReportedPassed(h.items, target) || all {
        var found := HasPendingDownstreamGateCovering(tasks, st, down, task.id, target);
        if !found {
          assert LeavesOpen(task, h, target);
          return true;
        }
      }
    }
    assert task.targets[..|task.targets|] == task.targets;
  }

  // ---------- Decisions ----------

  /** `patch` is not part of this model.  An item's id is its place in the open list. */
  datatype Action = Continue | Retry | NextMission | Abort

  datatype Decision = Decision(itemId: nat, action: Action)

  datatype DecisionError =
    | UnresolvedItem(id: nat) | UnknownItem(id: nat) | DuplicateDecision(id: nat) | InvalidAction(id: nat)

  predicate ActionFits(action: Action, item: Attention) {
    && (action == Retry ==> item.kind == NodeFailed)
    && (action == NextMission ==> item.kind == TerminalReview)
  }

  predicate Decides(decisions: seq<Decision>, id: nat) {
    exists k :: 0 <= k < |decisions| && decisions[k].itemId == id
  }

  predicate AllDecided(decisions: seq<Decision>, open: seq<Attention>) {
    forall id: nat :: id < |open| ==> Decides(decisions, id)
  }

  predicate DecisionFits(d: Decision, open: seq<Attention>) {
    d.itemId < |open| && ActionFits(d.action, open[d.itemId])
  }

  predicate DistinctDecisions(decisions: seq<Decision>) {
    forall j, k :: 0 <= j < k < |decisions| ==> decisions[j].itemId != decisions[k].itemId
  }

  /** Every open item is decided, by exactly one decision, with an action its kind admits. */
  predicate DecisionsValid(decisions: seq<Decision>, open: seq<Attention>) {
    && AllDecided(decisions, open)
    && (forall k :: 0 <= k < |decisions| ==> DecisionFits(decisions[k], open))
    && DistinctDecisions(decisions)
  }

  /**
   Each open item is decided once and nothing else is; only failed work is retried, and only a
   closure report opens the next mission.
   */
  lemma DecisionsValidExactly(decisions: seq<Decision>, open: seq<Attention>)
    ensures DecisionsValid(decisions, open) <==>
      && (forall k :: 0 <= k < |decisions| ==> decisions[k].itemId < |open|)
      && (forall id: nat :: id < |open| ==> Decides(decisions, id) && !DecidesTwice(decisions, id))
      && forall k :: 0 <= k < |decisions| ==>
           && (decisions[k].action == Retry ==> open[decisions[k].itemId].kind == NodeFailed)
           && (decisions[k].action == NextMission ==> open[decisions[k].itemId].kind == TerminalReview)
  {
    if forall id: nat :: id < |open| ==> Decides(decisions, id) && !DecidesTwice(decisions, id) {
      forall j, k | 0 <= j < k < |decisions| && decisions[j].itemId == decisions[k].itemId < |open| ensures false {
        assert DecidesTwice(decisions, decisions[j].itemId);
      }
    }
  }

  predicate DecidesTwice(decisions: seq<Decision>, id: nat) {
    exists j, k :: 0 <= j < k < |decisions| && decisions[j].itemId == id && decisions[k].itemId == id
  }

  predicate Misfits(decisions: seq<Decision>, open: seq<Attention>, id: nat) {
    exists k :: 0 <= k < |decisions| && decisions[k].itemId == id && id < |open|
      && !ActionFits(decisions[k].action, open[id])
  }

  /** What each error says is so of the decisions. */
  predicate ErrorHolds(decisions: seq<Decision>, open: seq<Attention>, e: DecisionError) {
    match e
    case UnresolvedItem(id) => id < |open| && !Decides(decisions, id)
    case UnknownItem(id) => id >= |open| && Decides(decisions, id)
    case DuplicateDecision(id) => DecidesTwice(decisions, id)
    case InvalidAction(id) => Misfits(decisions, open, id)
  }

  /** Of the errors but the unresolved ones, those that the first decisions show. */
  predicate ShownBy(decisions: seq<Decision>, open: seq<Attention>, e: DecisionError) {
    !e.UnresolvedItem? && ErrorHolds(decisions, open, e)
  }

  lemma ShownByOneMore(before: seq<Decision>, open: seq<Attention>, d: Decision, e: DecisionError)
    ensures ShownBy(before + [d], open, e) <==>
      || ShownBy(before, open, e)
      || (e == UnknownItem(d.itemId) && d.itemId >= |open|)
      || (e == DuplicateDecision(d.itemId) && Decides(before, d.itemId))
      || (e == InvalidAction(d.itemId) && d.itemId < |open| && !ActionFits(d.action, open[d.itemId]))
  {
    hide ActionFits;
    var all := before + [d];
    assert all[|before|] == d && forall k :: 0 <= k < |before| ==> all[k] == before[k];
    match e {
      case UnresolvedItem(_) =>
      case UnknownItem(id) => DecidesOneMore(before, d, id);
      case DuplicateDecision(id) => TwiceOneMore(before, d, id);
      case InvalidAction(id) => MisfitsOneMore(before, open, d, id);
    }
  }

  lemma DecidesOneMore(before: seq<Decision>, d: Decision, id: nat)
    ensures Decides(before + [d], id) <==> Decides(before, id) || d.itemId == id
  {
    var all := before + [d];
    assert all[|before|] == d;
    if k :| 0 <= k < |before| && before[k].itemId == id { assert all[k].itemId == id; }
  }

  lemma TwiceOneMore(before: seq<Decision>, d: Decision, id: nat)
    ensures DecidesTwice(before + [d], id) <==> DecidesTwice(before, id) || (d.itemId == id && Decides(before, id))
  {
    var all := before + [d];
    assert all[|before|] == d;
    if j, k :| 0 <= j < k < |before| && before[j].itemId == id && before[k].itemId == id {
      assert all[j].itemId == id && all[k].itemId == id;
    }
    if k :| 0 <= k < |before| && before[k].itemId == id { assert all[k].itemId == id; }
  }

  lemma MisfitsOneMore(before: seq<Decision>, open: seq<Attention>, d: Decision, id: nat)
    ensures Misfits(before + [d], open, id) <==>
      Misfits(before, open, id) || (d.itemId == id && id < |open| && !ActionFits(d.action, open[id]))
  {
    hide ActionFits;
    var all := before + [d];
    assert all[|before|] == d;
    if k :| 0 <= k < |before| && before[k].itemId == id && id < |open| && !ActionFits(before[k].action, open[id]) {
      assert all[k] == before[k];
    }
  }

  /** `_validate_decisions`: exactly the errors there are, and none exactly when the decisions are valid. */
  method ValidateDecisions(decisions: seq<Decision>, open: seq<Attention>) returns (errors: seq<DecisionError>)
    ensures errors == [] <==> DecisionsValid(decisions, open)
    ensures forall e :: e in errors <==> ErrorHolds(decisions, open, e)
  {
    hide ActionFits, DecidesTwice, Misfits, Decides;
    errors := [];
    for id := 0 to |open|
      invariant forall e :: e in errors <==> e.UnresolvedItem? && e.id < id && !Decides(decisions, e.id)
    {
      if !Decides(decisions, id) { errors := errors + [UnresolvedItem(id)]; }
    }
    ghost var unresolved := errors;
    NothingShown(open);
    for k := 0 to |decisions|
      invariant forall e :: e in errors <==> e in unresolved || ShownBy(decisions[..k], open, e)
    {
      var d := decisions[k];
      ghost var before := errors;
      assert decisions[..k + 1] == decisions[..k] + [d];
      if Decides(decisions[..k], d.itemId) { errors := errors + [DuplicateDecision(d.itemId)]; }
      if d.itemId >= |open| {
        errors := errors + [UnknownItem(d.itemId)];
      } else if !ActionFits(d.action, open[d.itemId]) {
        errors := errors + [InvalidAction(d.itemId)];
      }
      forall e ensures e in errors <==> e in unresolved || ShownBy(decisions[..k + 1], open, e) {
        ShownByOneMore(decisions[..k], open, d, e);
      }
    }
    assert decisions[..|decisions|] == decisions;
    NoErrorsHold(decisions, open);
    assert errors != [] ==> errors[0] in errors;
  }

  lemma NothingShown(open: seq<Attention>)
    ensures forall e :: !ShownBy([], open, e)
  {
  }

  lemma NoErrorsHold(decisions: seq<Decision>, open: seq<Attention>)
    ensures DecisionsValid(decisions, open) <==> forall e :: !ErrorHolds(decisions, open, e)
  {
    hide ActionFits;
    if forall e :: !ErrorHolds(decisions, open, e) {
      forall id: nat | id < |open| ensures Decides(decisions, id) {
        assert !ErrorHolds(decisions, open, UnresolvedItem(id));
      }
      forall k | 0 <= k < |decisions| ensures DecisionFits(decisions[k], open) {
        assert !ErrorHolds(decisions, open, UnknownItem(decisions[k].itemId));
        assert !ErrorHolds(decisions, open, InvalidAction(decisions[k].itemId));
      }
      forall j, k | 0 <= j < k < |decisions| ensures decisions[j].itemId != decisions[k].itemId {
        assert !ErrorHolds(decisions, open, DuplicateDecision(decisions[j].itemId));
      }
    }
  }

  /** A guarded node admits no decision but `abort`. */
  predicate ProviderAdmits(decisions: seq<Decision>, m: Mission)
    requires DecisionsValid(decisions, m.attention)
  {
    forall k :: 0 <= k < |decisions| ==> ProviderAdmitsOne(decisions[k], m)
  }

  predicate ProviderAdmitsOne(d: Decision, m: Mission)
    requires d.itemId < |m.attention|
  {
    var item := m.attention[d.itemId];
    item.kind == TerminalReview || item.node !in m.guards || d.action == Abort
  }

  /** A provider's guard on a task stands against every decision on it but an abort or one on a closure report. */
  lemma ProviderAdmitsExactly(decisions: seq<Decision>, m: Mission)
    requires DecisionsValid(decisions, m.attention)
    ensures ProviderAdmits(decisions, m) <==>
      forall k :: 0 <= k < |decisions| && m.attention[decisions[k].itemId].node in m.guards ==>
        decisions[k].action == Abort || m.attention[decisions[k].itemId].kind == TerminalReview
  {
  }

  datatype DecideResult =
    | WrongState | InvalidDecisions(errors: seq<DecisionError>) | ProviderRefused | Decided | Interrupted
}
