/** The coordinator over its store: each method leaves a legal run behind, wherever it dies. */
module Coordinators {
  import opened Wrappers
  import opened Graphs
  import opened Tasks
  import opened MissionRuns
  import opened Gates
  import opened Deadlock
  import opened Coordination
  import opened AttentionItems

  // ---------- What the steps use about single writes ----------

  /** Tasks that can still move: the measure of the advance loop. */
  function Active(tasks: seq<Task>, st: Statuses): set<string> {
    set t | t in tasks && StatusOf(st, t.id) in {Pending, Running} :: t.id
  }

  lemma ActiveAfter(tasks: seq<Task>, m: Mission, w: Write)
    requires Inv(tasks, m) && Allowed(tasks, m, w) && !w.Decide?
    ensures Active(tasks, Apply(m, w).st) <= Active(tasks, m.st)
    ensures w.Finish? && w.node in Ids(tasks) ==>
      w.node in Active(tasks, m.st) && w.node !in Active(tasks, Apply(m, w).st)
  {
    forall t | t in tasks && StatusOf(Apply(m, w).st, t.id) in {Pending, Running}
      ensures StatusOf(m.st, t.id) in {Pending, Running}
    {
    }
  }

  predicate Raisable(tasks: seq<Task>, m: Mission, items: seq<Attention>) {
    Allowed(tasks, m, Raise(items))
  }

  /** Ending a running task adds its own attention to what may be raised. */
  lemma RaisableAfterFinish(tasks: seq<Task>, m: Mission, t: Task, h: Handoff, items: seq<Attention>, unreported: bool)
    requires Inv(tasks, m) && m.phase == MissionRunning && Raisable(tasks, m, items)
    requires t in tasks && t.kind != Gate && StatusOf(m.st, t.id) == Running && t.id in m.generation
    ensures var m' := Apply(m, Finish(t.id, h.done && !h.stopped));
      Raisable(tasks, m', items + Reported(t, m.generation[t.id], h, unreported))
  {
    var m' := Apply(m, Finish(t.id, h.done && !h.stopped));
    var own := Reported(t, m.generation[t.id], h, unreported);
    var all := items + own;
    forall i | 0 <= i < |all| && IsFailure(all[i])
      ensures Names(tasks, m', all[i]) && StatusOf(m'.st, all[i].node) == Failed
        && !HasFailureItem(m'.attention, all[i].node)
      ensures forall j :: 0 <= j < i ==> !(IsFailure(all[j]) && all[j].node == all[i].node)
    {
      if i < |items| {
        assert all[i] == items[i];
        assert Names(tasks, m, items[i]);
      } else {
        assert all[i] == own[i - |items|] && all[i].node == t.id;
        if HasFailureItem(m.attention, t.id) { SettledStatus(tasks, m, t.id); }
      }
    }
  }

  lemma RaisableStill(tasks: seq<Task>, m: Mission, w: Write, items: seq<Attention>)
    requires Raisable(tasks, m, items) && w.SaveAttempt?
    ensures Raisable(tasks, Apply(m, w), items)
  {
    var m' := Apply(m, w);
    forall i | 0 <= i < |items| && IsFailure(items[i]) ensures Names(tasks, m', items[i]) {
      assert Names(tasks, m, items[i]);
    }
  }

  function EvidenceOf(m: Mission, rejected: set<string>, id: string): (e: Evidence)
    ensures e.NoGeneration? <==> id !in m.generation
    ensures e.Rejected? <==> id in m.generation && id in rejected
    ensures e.Verdicts? <==> id in m.generation && id !in rejected && id in m.attempts
    ensures e.Verdicts? ==> e.items == m.attempts[id].items
  {
    if id !in m.generation then NoGeneration
    else if id in rejected then Rejected
    else if id !in m.attempts then OtherHandoff
    else Verdicts(m.attempts[id].items)
  }

  /** The first ready gate was sealed, cleared exactly when the evidence on disk clears all its targets. */
  ghost predicate GateDecided(tasks: seq<Task>, m: Mission, m': Mission, rejected: set<string>)
    requires UniqueIds(tasks)
  {
    exists i ::
      && 0 <= i < |tasks| && GateReady(m.st, tasks[i]) && (forall j :: 0 <= j < i ==> !GateReady(m.st, tasks[j]))
      && Sealed(m, m', tasks[i], GateVerdict(tasks, m, tasks[i], rejected))
  }

  /** The gate has its verdict, its item is raised, and nothing else is changed. */
  ghost predicate Sealed(m: Mission, m': Mission, gate: Task, verdict: Status) {
    && m' == m.(st := m'.st, attention := m'.attention, phase := AttentionNeeded)
    && StatusOf(m'.st, gate.id) == verdict
    && (forall id :: id != gate.id ==> StatusOf(m'.st, id) == StatusOf(m.st, id))
    && m'.attention ==
       m.attention + [Attention(gate.id, 0, if verdict == Cleared then GateCheckpoint else GateFailed)]
  }

  ghost function GateVerdict(tasks: seq<Task>, m: Mission, gate: Task, rejected: set<string>): Status
    requires UniqueIds(tasks)
  {
    if forall target :: target in gate.targets ==>
      TargetClears(tasks, m.st, gate, id => EvidenceOf(m, rejected, id), target)
    then Cleared else Failed
  }

  /** `retry` and `continue` on a failure item are the decisions that touch a task. */
  predicate Moves(d: Decision, m: Mission)
    requires d.itemId < |m.attention|
  {
    IsFailure(m.attention[d.itemId]) && (d.action == Continue || d.action == Retry)
  }

  /** After the first `n` decisions exactly their failures have moved. */
  ghost predicate DecidedStatuses(decisions: seq<Decision>, n: nat, m: Mission, m': Mission)
    requires DecisionsValid(decisions, m.attention) && n <= |decisions|
  {
    && (forall k :: 0 <= k < n && Moves(decisions[k], m) ==>
          StatusOf(m'.st, m.attention[decisions[k].itemId].node) ==
            (if decisions[k].action == Continue then Cleared else Pending))
    && (forall id :: (forall k :: 0 <= k < n && Moves(decisions[k], m) ==> m.attention[decisions[k].itemId].node != id)
          ==> StatusOf(m'.st, id) == StatusOf(m.st, id))
  }

  lemma DecideStep(decisions: seq<Decision>, k: nat, m: Mission, m': Mission)
    requires DecisionsValid(decisions, m.attention) && k < |decisions| && DistinctFailures(m.attention)
    requires DecidedStatuses(decisions, k, m, m')
    ensures Moves(decisions[k], m) ==>
      DecidedStatuses(decisions, k + 1, m,
                      Apply(m', Decide(m.attention[decisions[k].itemId], decisions[k].action == Continue)))
    ensures !Moves(decisions[k], m) ==> DecidedStatuses(decisions, k + 1, m, m')
  {
    var d := decisions[k];
    if Moves(d, m) {
      var item := m.attention[d.itemId];
      var m'' := Apply(m', Decide(item, d.action == Continue));
      forall j | 0 <= j < k && Moves(decisions[j], m) ensures m.attention[decisions[j].itemId].node != item.node {
        assert decisions[j].itemId != d.itemId;
      }
    }
  }

  /** What a task found running is resumed with: its persisted handoff, or a failure made up for it. */
  function ResumedWith(m: Mission, rejected: set<string>, id: string): (h: Handoff)
    ensures id in m.attempts && id !in rejected ==> h == m.attempts[id]
    ensures id !in m.attempts || id in rejected ==> h == Handoff(false, false, false, [], false)
  {
    if id in rejected || id !in m.attempts then SYNTHETIC else m.attempts[id]
  }

  function ResumedHandoffs(m: Mission, rejected: set<string>): string -> Handoff {
    id => ResumedWith(m, rejected, id)
  }

  /** A failure is persisted for a task that left nothing. */
  predicate MadeUp(before: Mission, after: Mission, rejected: set<string>, id: string) {
    if id in rejected || id in before.attempts then after.attempts == before.attempts
    else after.attempts == before.attempts[id := SYNTHETIC]
  }

  /** A failure is persisted for each of these tasks that ran and left nothing; all else stays. */
  predicate MadeUpFor(before: Mission, after: Mission, rejected: set<string>, seen: seq<Task>) {
    && (forall id :: id in before.attempts ==> id in after.attempts && after.attempts[id] == before.attempts[id])
    && (forall id :: id in after.attempts && id !in before.attempts ==>
          && after.attempts[id] == Handoff(false, false, false, [], false)
          && StatusOf(before.st, id) == Running && id !in rejected)
    && (forall t :: t in seen && StatusOf(before.st, t.id) == Running && t.id !in rejected ==> t.id in after.attempts)
  }

  function DeniedStatus(tasks: seq<Task>, m: Mission, id: string): Status {
    if id in Ids(tasks) && id in m.guards && StatusOf(m.st, id) == Pending then Failed else StatusOf(m.st, id)
  }

  /** A pending task that failed because a provider denial guards it. */
  predicate Denied(m: Mission, m': Mission, id: string) {
    StatusOf(m.st, id) == Pending && StatusOf(m'.st, id) == Failed && id in m'.guards
  }

  /** Between the two nothing happened but denials. */
  ghost predicate DenialsOnly(m: Mission, m': Mission) {
    && m' == m.(st := m'.st, guards := m'.guards) && m.guards <= m'.guards
    && forall id :: StatusOf(m'.st, id) == StatusOf(m.st, id) || Denied(m, m', id)
  }

  /** What looking at the guards again leaves of a batch: a task is dropped exactly when it was denied. */
  lemma DroppedAreDenied(tasks: seq<Task>, m: Mission, m': Mission, batch: seq<Task>, kept: seq<Task>)
    requires DenialsOnly(m, m') && forall t :: t in batch ==> t in tasks && Runnable(m.st, t)
    requires forall id :: id in Ids(tasks) && id in m'.guards ==> StatusOf(m'.st, id) != Pending
    requires forall t :: t in kept <==> t in batch && Runnable(m'.st, t) && t.id !in m'.guards
    ensures forall t :: t in batch && t !in kept ==> Denied(m, m', t.id)
    ensures kept == [] && batch != [] ==> Active(tasks, m'.st) < Active(tasks, m.st)
  {
    forall t | t in batch && t !in kept ensures Denied(m, m', t.id) {
      assert t.id in Ids(tasks);
    }
    forall t | t in tasks && StatusOf(m'.st, t.id) in {Pending, Running}
      ensures StatusOf(m.st, t.id) in {Pending, Running}
    {
    }
    if kept == [] && batch != [] {
      var t := batch[0];
      assert t in batch && t !in kept;
      assert t.id in Active(tasks, m.st);
      assert t.id !in Active(tasks, m'.st);
    }
  }

  /** An isolated batch with a failure in it, or one that could not be integrated. */
  predicate Withheld(batch: seq<Task>, w: World) {
    && |batch| > 1 && (exists t :: t in batch && t.kind == Work)
    && (!w.integrates || exists t :: t in batch && !w.handoff(t.id).done)
  }

  /** In an isolated batch one failure, or a failed integration, turns every result into a failure. */
  function BatchHandoff(batch: seq<Task>, w: World, id: string): (r: Handoff)
    ensures |batch| <= 1 || (forall t :: t in batch ==> t.kind != Work) ==> r == w.handoff(id)
    ensures w.integrates && (forall t :: t in batch ==> w.handoff(t.id).done) ==> r == w.handoff(id)
    ensures !w.handoff(id).done ==> r == w.handoff(id)
    ensures Withheld(batch, w) && w.handoff(id).done ==> r == Handoff(false, false, w.handoff(id).stopped, [], false)
  {
    var h := w.handoff(id);
    if Withheld(batch, w) && h.done
    then h.(done := false, requestAttention := false, items := [], passed := false)
    else h
  }

  function BatchHandoffs(batch: seq<Task>, w: World): string -> Handoff {
    id => BatchHandoff(batch, w, id)
  }

  /** `ran` were started anew: each under the next attempt number, with nothing persisted for it yet. */
  predicate Started(m: Mission, m': Mission, ran: seq<Task>) {
    && (forall t :: t in ran ==>
          t.id in m'.generation
          && m'.generation[t.id] == if t.id in m.generation then m.generation[t.id] + 1 else 0)
    && (forall id :: id in m.generation ==>
          id in m'.generation && (m'.generation[id] == m.generation[id] || exists t :: t in ran && t.id == id))
    && (forall id :: id in m'.generation ==> id in m.generation || exists t :: t in ran && t.id == id)
  }

  /** Whatever was persisted for other tasks is still there. */
  predicate AttemptsKept(m: Mission, m': Mission, ran: seq<Task>) {
    && (forall id :: id in m'.attempts ==>
          (id in m.attempts && m'.attempts[id] == m.attempts[id]) || exists t :: t in ran && t.id == id)
    && (forall id :: id in m.attempts ==> id in m'.attempts || exists t :: t in ran && t.id == id)
  }

  /** The results of `ran` are persisted as they are, and the attention is what they ask for. */
  ghost predicate Collected(tasks: seq<Task>, m: Mission, m': Mission, ran: seq<Task>, w: World, kind: StepKind)
    requires UniqueIds(tasks)
  {
    && (forall t :: t in ran ==> t.id in m'.attempts && m'.attempts[t.id] == BatchHandoff(ran, w, t.id))
    && exists items ::
         && Asked(tasks, m'.st, m'.generation, ran, BatchHandoffs(ran, w), items)
         && m'.attention == m.attention + items && (kind == Advanced <==> items == [])
  }

  /**
   What a dispatch of `batch` leaves when the tasks `ran` were run.  Idle: everything was denied,
   or the first task was when there are no worktrees.  A result: those that ran end as their
   handoffs say, others were denied, or left alone when there are no worktrees; what they returned
   is persisted and what they ask for is raised.  Nothing else moves.  An error is a denial
   recorded after the tasks were marked running.
   */
  ghost predicate DispatchEnds(tasks: seq<Task>, m: Mission, m': Mission, batch: seq<Task>, ran: seq<Task>, w: World,
                               kind: StepKind)
    requires UniqueIds(tasks)
  {
    && kind in {Idle, Advanced, AttentionRaised, Fault, Died}
    && (kind == Idle ==> DenialsOnly(m, m') && SomeDenied(m, m', batch)
                         && (w.worktrees ==> forall t :: t in batch ==> Denied(m, m', t.id)))
    && (kind == Fault ==> RanAmong(m, m', batch, ran, w) && (forall t :: t in ran ==> StatusOf(m'.st, t.id) == Running)
                          && (exists t :: t in ran && t.id in m'.guards)
                          && m'.attention == m.attention && m'.phase == m.phase
                          && forall t :: t in ran ==> t.id !in m'.attempts)
    && (kind == Advanced || kind == AttentionRaised ==>
          && RanAmong(m, m', batch, ran, w) && Collected(tasks, m, m', ran, w, kind)
          && forall t :: t in ran ==>
               StatusOf(m'.st, t.id) ==
                 if BatchHandoff(ran, w, t.id).done && !BatchHandoff(ran, w, t.id).stopped then Cleared else Failed)
    && (kind == Advanced ==> forall t :: t in ran ==> StatusOf(m'.st, t.id) == Cleared)
  }

  predicate SomeDenied(m: Mission, m': Mission, batch: seq<Task>) {
    exists t :: t in batch && Denied(m, m', t.id)
  }

  ghost predicate RanAmong(m: Mission, m': Mission, batch: seq<Task>, ran: seq<Task>, w: World) {
    && ran != [] && (forall t :: t in ran ==> t in batch)
    && (forall t :: t in batch && t !in ran ==> Denied(m, m', t.id) || (!w.worktrees && |ran| == 1))
    && (forall id :: (forall t :: t in ran ==> t.id != id) ==>
        StatusOf(m'.st, id) == StatusOf(m.st, id) || Denied(m, m', id))
    && Started(m, m', ran) && AttemptsKept(m, m', ran)
  }

  /** A look at the guards followed by a dispatch of what it kept is a dispatch of the whole. */
  lemma EndsAfterDenials(tasks: seq<Task>, m: Mission, seen: Mission, m': Mission, batch: seq<Task>, kept: seq<Task>,
                         ran: seq<Task>, w: World, kind: StepKind)
    requires UniqueIds(tasks)
    requires DenialsOnly(m, seen) && seen.guards <= m'.guards && batch != [] && UniqueIds(batch)
    requires forall t :: t in kept ==> t in batch
    requires forall t :: t in batch && t !in kept ==> Denied(m, seen, t.id)
    requires if kept == [] then kind == Idle && m' == seen else DispatchEnds(tasks, seen, m', kept, ran, w, kind)
    ensures DispatchEnds(tasks, m, m', batch, ran, w, kind)
  {
    hide Collected, Started, AttemptsKept;
    if kept == [] {
      assert Denied(m, m', batch[0].id);
    } else if kind == Idle {
      var t :| t in kept && Denied(seen, m', t.id);
    } else if kind != Died {
      RanAmongAfterDenials(m, seen, m', batch, kept, ran, w);
      CollectedAfterDenials(tasks, m, seen, m', ran, w, kind);
    }
  }

  lemma CollectedAfterDenials(tasks: seq<Task>, m: Mission, seen: Mission, m': Mission, ran: seq<Task>, w: World,
                              kind: StepKind)
    requires UniqueIds(tasks) && DenialsOnly(m, seen)
    ensures Collected(tasks, seen, m', ran, w, kind) ==> Collected(tasks, m, m', ran, w, kind)
  {
    hide Asked, BatchHandoff;
  }

  lemma RanAmongAfterDenials(m: Mission, seen: Mission, m': Mission, batch: seq<Task>, kept: seq<Task>, ran: seq<Task>,
                             w: World)
    requires DenialsOnly(m, seen) && seen.guards <= m'.guards && UniqueIds(batch)
    requires forall t :: t in kept ==> t in batch
    requires forall t :: t in batch && t !in kept ==> Denied(m, seen, t.id)
    requires RanAmong(seen, m', kept, ran, w)
    ensures RanAmong(m, m', batch, ran, w)
  {
    assert Started(m, m', ran) && AttemptsKept(m, m', ran) by {
      assert seen.generation == m.generation && seen.attempts == m.attempts;
    }
    hide Started, AttemptsKept;
    forall t | t in batch && t !in ran ensures Denied(m, m', t.id) || (!w.worktrees && |ran| == 1) {
      if t !in kept {
        forall r | r in ran ensures r.id != t.id {
          if r.id == t.id { SameIdSameTask(batch, r, t); }
        }
      }
    }
  }

  lemma DiedAnyhow(tasks: seq<Task>, m: Mission, m': Mission, batch: seq<Task>, ran: seq<Task>, w: World)
    requires UniqueIds(tasks)
    ensures DispatchEnds(tasks, m, m', batch, ran, w, Died)
  {
  }

  /** Running the first task alone is a dispatch of all of them when there is one, or there are no worktrees. */
  lemma FirstAlone(tasks: seq<Task>, m: Mission, m': Mission, batch: seq<Task>, w: World, kind: StepKind)
    requires UniqueIds(tasks) && batch != [] && (|batch| == 1 || !w.worktrees)
    requires DispatchEnds(tasks, m, m', [batch[0]], [batch[0]], w, kind)
    ensures DispatchEnds(tasks, m, m', batch, [batch[0]], w, kind)
  {
    hide Collected, Started, AttemptsKept;
    if |batch| == 1 {
      assert batch == [batch[0]];
    }
  }

  /** No failed work or validation holds a pending task back. */
  ghost predicate OnlyGatesBlock(tasks: seq<Task>, st: Statuses)
    requires UniqueIds(tasks)
  {
    forall t :: t in tasks && Blocker(tasks, st, t.id) ==> t.kind == Gate
  }

  lemma NotOnlyGates(tasks: seq<Task>, st: Statuses, t: Task)
    requires UniqueIds(tasks) && t in tasks && Blocker(tasks, st, t.id) && t.kind != Gate
    ensures !OnlyGatesBlock(tasks, st)
  {
  }

  /** The failed task is the first in authored order, gates aside, that holds pending work back. */
  ghost predicate FirstBlocker(tasks: seq<Task>, st: Statuses, i: nat)
    requires UniqueIds(tasks)
  {
    && i < |tasks| && tasks[i].kind != Gate && Blocker(tasks, st, tasks[i].id)
    && forall j :: 0 <= j < i ==> tasks[j].kind == Gate || !Blocker(tasks, st, tasks[j].id)
  }

  /** No readable failed handoff of its current attempt is there for the failed task. */
  predicate NoFailureRetained(m: Mission, t: Task, rejected: set<string>) {
    || t.id !in m.generation || t.id !in m.attempts || t.id in rejected
    || m.attempts[t.id].done || (t.kind == Validate && m.attempts[t.id].passed)
  }

  /** The failure's item is open, added only when it was not. */
  ghost predicate RetainedRaised(m: Mission, m': Mission, t: Task)
    requires t.id in m.generation
  {
    var item := Attention(t.id, m.generation[t.id], if t.kind == Work then NodeFailed else NodeAttention);
    && m' == m.(attention := m'.attention, phase := AttentionNeeded)
    && m'.attention == if item in m.attention then m.attention else m.attention + [item]
  }

  /** The first blocker's failure is raised again, or there is none to be raised. */
  ghost predicate RecoveryEnds(tasks: seq<Task>, m: Mission, m': Mission, rejected: set<string>, kind: StepKind)
    requires UniqueIds(tasks)
  {
    exists i ::
      && 0 <= i < |tasks| && FirstBlocker(tasks, m.st, i)
      && if NoFailureRetained(m, tasks[i], rejected) then kind == Fault && m' == m
         else kind == AttentionRaised && RetainedRaised(m, m', tasks[i])
  }

  const SYNTHETIC := Handoff(false, false, false, [], false)

  /** A decision that settles where the project goes on: all but continuing after a closure report. */
  predicate HasOutcome(d: Decision, m: Mission)
    requires d.itemId < |m.attention|
  {
    !(d.action == Continue && m.attention[d.itemId].kind == TerminalReview)
  }

  /** Of the first `n` decisions, the one at `k` is the last with an outcome. */
  predicate LastOutcome(decisions: seq<Decision>, n: nat, m: Mission, k: nat)
    requires DecisionsValid(decisions, m.attention) && n <= |decisions|
  {
    k < n && HasOutcome(decisions[k], m) && forall j :: k < j < n ==> !HasOutcome(decisions[j], m)
  }

  predicate NoOutcome(decisions: seq<Decision>, n: nat, m: Mission)
    requires DecisionsValid(decisions, m.attention) && n <= |decisions|
  {
    forall k :: 0 <= k < n ==> !HasOutcome(decisions[k], m)
  }

  predicate SendsTo(action: Action, phase: Phase) {
    || (action == Abort && phase == Aborted)
    || (action == NextMission && phase == MissionPlanning)
    || ((action == Retry || action == Continue) && phase == MissionRunning)
  }

  /** The project goes where the last decision with an outcome sends it, and runs on when there is none. */
  ghost predicate PhaseDecided(decisions: seq<Decision>, n: nat, m: Mission, phase: Phase)
    requires DecisionsValid(decisions, m.attention) && n <= |decisions|
  {
    || (NoOutcome(decisions, n, m) && phase == MissionRunning)
    || exists k: nat :: LastOutcome(decisions, n, m, k) && SendsTo(decisions[k].action, phase)
  }

  /** What a round of decisions leaves in the history: the decisions and the items they were about. */
  datatype DecisionRecord = DecisionRecord(decisions: seq<Decision>, items: seq<Attention>)

  class Coordinator {
    const tasks: seq<Task>
    var mission: Mission
    var decisionRecords: seq<DecisionRecord>
    var writesLeft: nat          // durable writes the process completes before it dies
    ghost const initial: Mission
    ghost var trail: seq<Write>

    ghost predicate Valid()
      reads this
    {
      && WellFormed(tasks) && Acyclic(DependencyGraph(tasks))
      && Fresh(tasks, initial) && Legal(tasks, initial, trail) && mission == After(initial, trail)
    }

    constructor (tasks: seq<Task>, budget: nat)
      requires WellFormed(tasks) && Acyclic(DependencyGraph(tasks))
      ensures Valid() && this.tasks == tasks && trail == [] && mission.phase == MissionRunning
    {
      this.tasks := tasks;
      mission := Mission(map t | t in tasks :: t.id := Pending, map[], map[], {}, [], MissionRunning);
      initial := Mission(map t | t in tasks :: t.id := Pending, map[], map[], {}, [], MissionRunning);
      decisionRecords := [];
      writesLeft := budget;
      trail := [];
    }

    lemma Invariant()
      requires Valid()
      ensures Inv(tasks, mission)
    {
      RunsAreSafe(tasks, initial, trail);
    }

    /** The one place that writes to disk. */
    method Save(w: Write) returns (alive: bool)
      requires Valid() && Allowed(tasks, mission, w)
      modifies this`mission, this`writesLeft, this`trail
      ensures Valid()
      ensures alive ==> mission == Apply(old(mission), w) && trail == old(trail) + [w]
      ensures !alive ==> mission == old(mission) && trail == old(trail)
      ensures old(mission.guards) <= mission.guards && (!w.Guard? ==> mission.guards == old(mission.guards))
      ensures Inv(tasks, mission) && (!w.Decide? ==> Active(tasks, mission.st) <= Active(tasks, old(mission.st)))
    {
      Invariant();
      if writesLeft == 0 { return false; }
      if !w.Decide? { ActiveAfter(tasks, mission, w); }
      WriteKeepsInv(tasks, mission, w);
      writesLeft := writesLeft - 1;
      mission := Apply(mission, w);
      trail := trail + [w];
      assert trail[..|trail| - 1] == old(trail);
      alive := true;
    }

    /** `_apply_handoff_collect` for a running task. */
    method ApplyHandoffCollect(t: Task, h: Handoff, pendingItems: seq<Attention>)
      returns (alive: bool, items: seq<Attention>)
      requires Valid() && mission.phase == MissionRunning && Raisable(tasks, mission, pendingItems)
      requires t in tasks && t.kind != Gate && StatusOf(mission.st, t.id) == Running
      modifies this`mission, this`writesLeft, this`trail
      ensures Valid() && Active(tasks, mission.st) <= Active(tasks, old(mission.st))
        && mission.guards == old(mission.guards)
      ensures alive ==>
        mission == Apply(old(mission), Finish(t.id, h.done && !h.stopped)) && Raisable(tasks, mission, items)
      ensures alive ==> pendingItems <= items && Active(tasks, mission.st) < Active(tasks, old(mission.st))
      ensures alive && !(h.done && !h.stopped) ==> items != []
      ensures alive ==>
        t.id in mission.generation
          && AsksFor(tasks, mission.st, t, mission.generation[t.id], h, items[|pendingItems|..])
    {
      Invariant();
      assert TaskSafe(mission, t);
      ActiveAfter(tasks, mission, Finish(t.id, h.done && !h.stopped));
      alive := Save(Finish(t.id, h.done && !h.stopped));
      items := pendingItems;
      if alive {
        var unreported := false;
        if h.done && !h.stopped && t.kind == Validate {
          unreported := ValidateFailureNeedsAttention(tasks, mission.st, t, h);
        }
        RaisableAfterFinish(tasks, old(mission), t, h, pendingItems, unreported);
        var own := Reported(t, mission.generation[t.id], h, unreported);
        ReportedIsAsked(tasks, mission.st, t, mission.generation[t.id], h, unreported);
        items := items + own;
        assert items[|pendingItems|..] == own;
      }
    }

    /** `_raise_attention`: the items first, the project state second. */
    method RaiseAttention(items: seq<Attention>) returns (kind: StepKind)
      requires Valid() && mission.phase == MissionRunning && Raisable(tasks, mission, items)
      modifies this`mission, this`writesLeft, this`trail
      ensures Valid() && mission == old(mission).(attention := mission.attention, phase := mission.phase)
      ensures kind == AttentionRaised || kind == Died
      ensures kind == AttentionRaised ==>
        mission.phase == AttentionNeeded && mission.attention == old(mission.attention) + items
    {
      var alive := Save(Raise(items));
      if !alive { return Died; }
      alive := Save(EnterAttention);
      kind := if alive then AttentionRaised else Died;
    }

    /** `_reconcile_provider_denials`: guarded pending tasks fail without running. */
    method ReconcileProviderDenials() returns (alive: bool)
      requires Valid()
      modifies this`mission, this`writesLeft, this`trail
      ensures Valid() && Active(tasks, mission.st) <= Active(tasks, old(mission.st))
      ensures mission == old(mission).(st := mission.st)
      ensures alive ==> forall id :: StatusOf(mission.st, id) == DeniedStatus(tasks, old(mission), id)
    {
      var nodes := set t | t in tasks && t.id in mission.guards && StatusOf(mission.st, t.id) == Pending :: t.id;
      alive := true;
      forall id ensures id in nodes <==>
        id in Ids(tasks) && id in mission.guards && StatusOf(mission.st, id) == Pending {
        if id in Ids(tasks) && id in mission.guards && StatusOf(mission.st, id) == Pending {
          var t :| t in tasks && t.id == id;
        }
      }
      if nodes != {} {
        alive := Save(Deny(nodes));
      }
    }

    /** A task found running has ended as its handoff says, and no other has moved. */
    predicate Resumed(before: Mission, after: Mission, rejected: set<string>, t: Task) {
      StatusOf(after.st, t.id) ==
        if StatusOf(before.st, t.id) == Running then Ended(ResumedWith(before, rejected, t.id))
          else StatusOf(before.st, t.id)
    }

    /** One running task found on resume: its persisted handoff, or a synthetic failure. */
    method Reconcile(t: Task, rejected: set<string>, pendingItems: seq<Attention>)
      returns (alive: bool, items: seq<Attention>)
      requires Valid() && mission.phase == MissionRunning && Raisable(tasks, mission, pendingItems)
      requires t in tasks && t.kind != Gate && StatusOf(mission.st, t.id) == Running
      modifies this`mission, this`writesLeft, this`trail
      ensures Valid() && Active(tasks, mission.st) <= Active(tasks, old(mission.st))
      ensures alive ==> Raisable(tasks, mission, items) && Active(tasks, mission.st) < Active(tasks, old(mission.st))
      ensures alive ==> mission == old(mission).(st := mission.st, attempts := mission.attempts)
      ensures alive ==> MadeUp(old(mission), mission, rejected, t.id)
      ensures alive ==>
        && pendingItems <= items && t.id in mission.generation
        && AsksFor(tasks, mission.st, t, mission.generation[t.id], ResumedWith(old(mission), rejected, t.id),
                   items[|pendingItems|..])
      ensures alive ==> forall id :: id != t.id ==> StatusOf(mission.st, id) == StatusOf(old(mission.st), id)
      ensures alive ==> StatusOf(mission.st, t.id) == Ended(ResumedWith(old(mission), rejected, t.id))
      ensures alive ==> forall id :: id != t.id ==>
        ResumedWith(mission, rejected, id) == ResumedWith(old(mission), rejected, id)
    {
      hide Valid, Acyclic, Active, AsksFor, Raisable, TaskSafe;
      items := pendingItems;
      alive := true;
      var h := SYNTHETIC;
      if t.id !in rejected {
        if t.id in mission.attempts {
          h := mission.attempts[t.id];
        } else {
          alive := Save(SaveAttempt(t.id, SYNTHETIC));
          if !alive { return; }
          RaisableStill(tasks, old(mission), SaveAttempt(t.id, SYNTHETIC), pendingItems);
        }
      }
      alive, items := ApplyHandoffCollect(t, h, pendingItems);
    }

    /**
     What resuming leaves: every task found running has ended by its persisted or made-up handoff,
     what they ask for is raised, and nothing else is changed.
     */
    ghost predicate ResumeEnds(before: Mission, after: Mission, rejected: set<string>, kind: StepKind)
      requires UniqueIds(tasks)
    {
      && after == before.(st := after.st, attempts := after.attempts, attention := after.attention,
                          phase := after.phase)
      && (forall t :: t in tasks ==> Resumed(before, after, rejected, t))
      && MadeUpFor(before, after, rejected, tasks)
      && exists items ::
           && Asked(tasks, after.st, after.generation, RunningTasks(tasks, before.st),
                    ResumedHandoffs(before, rejected), items)
           && after.attention == before.attention + items && (kind == Advanced <==> items == [])
    }

    /** How far the resumption has come after the first tasks. */
    ghost predicate ResumedUpTo(before: Mission, after: Mission, rejected: set<string>, items: seq<Attention>, i: nat)
      requires UniqueIds(tasks) && i <= |tasks|
    {
      && after == before.(st := after.st, attempts := after.attempts)
      && (forall j :: 0 <= j < i ==> Resumed(before, after, rejected, tasks[j]))
      && (forall j :: i <= j < |tasks| ==>
            && StatusOf(after.st, tasks[j].id) == StatusOf(before.st, tasks[j].id)
            && ResumedWith(after, rejected, tasks[j].id) == ResumedWith(before, rejected, tasks[j].id))
      && MadeUpFor(before, after, rejected, tasks[..i])
      && Asked(tasks, after.st, after.generation, RunningTasks(tasks[..i], before.st),
               ResumedHandoffs(before, rejected), items)
    }

    lemma NothingResumed(m: Mission, rejected: set<string>)
      requires UniqueIds(tasks)
      ensures ResumedUpTo(m, m, rejected, [], 0)
    {
      hide ResumedWith;
    }

    /** A task that was not running is passed over. */
    lemma PassedOver(before: Mission, after: Mission, rejected: set<string>, items: seq<Attention>, i: nat)
      requires UniqueIds(tasks) && i < |tasks| && ResumedUpTo(before, after, rejected, items, i)
      requires StatusOf(after.st, tasks[i].id) != Running
      ensures ResumedUpTo(before, after, rejected, items, i + 1)
    {
      hide Asked, ResumedWith, ResumedHandoffs;
      RunningOfOneMore(before.st, i);
      assert RunningTasks(tasks[..i + 1], before.st) == RunningTasks(tasks[..i], before.st);
      assert tasks[..i + 1] == tasks[..i] + [tasks[i]];
    }

    lemma RunningOfOneMore(st: Statuses, i: nat)
      requires i < |tasks|
      ensures RunningTasks(tasks[..i + 1], st) ==
        RunningTasks(tasks[..i], st) + if StatusOf(st, tasks[i].id) == Running then [tasks[i]] else []
    {
      assert tasks[..i + 1][..i] == tasks[..i];
    }

    /** One more task found running, reconciled. */
    lemma ResumedOneMore(before: Mission, mid: Mission, after: Mission, rejected: set<string>, items: seq<Attention>,
                         own: seq<Attention>, i: nat)
      requires UniqueIds(tasks) && i < |tasks| && ResumedUpTo(before, mid, rejected, items, i)
      requires StatusOf(mid.st, tasks[i].id) == Running && tasks[i].kind != Gate
      requires var id := tasks[i].id;
        && after == mid.(st := after.st, attempts := after.attempts)
        && MadeUp(mid, after, rejected, id)
        && StatusOf(after.st, id) == Ended(ResumedWith(mid, rejected, id))
        && (forall other :: other != id ==> StatusOf(after.st, other) == StatusOf(mid.st, other))
        && id in after.generation
        && AsksFor(tasks, after.st, tasks[i], after.generation[id], ResumedWith(mid, rejected, id), own)
      ensures ResumedUpTo(before, after, rejected, items + own, i + 1)
    {
      var t, ran := tasks[i], RunningTasks(tasks[..i], before.st);
      assert ResumedHandoffs(before, rejected)(t.id) == ResumedWith(mid, rejected, t.id);
      AskedOfOneMore(mid, after, ran, ResumedHandoffs(before, rejected), items, t, own);
      RunningOfOneMore(before.st, i);
      StatusesResumed(before, mid, after, rejected, items, i);
      hide Asked, AsksFor, ResumedHandoffs, Resumed, MadeUpFor, ResumedWith, Ended;
    }

    lemma StatusesResumed(before: Mission, mid: Mission, after: Mission, rejected: set<string>, items: seq<Attention>,
                          i: nat)
      requires UniqueIds(tasks) && i < |tasks| && ResumedUpTo(before, mid, rejected, items, i)
      requires StatusOf(mid.st, tasks[i].id) == Running
      requires var id := tasks[i].id;
        && after == mid.(st := after.st, attempts := after.attempts)
        && MadeUp(mid, after, rejected, id)
        && StatusOf(after.st, id) == Ended(ResumedWith(mid, rejected, id))
        && (forall other :: other != id ==> StatusOf(after.st, other) == StatusOf(mid.st, other))
      ensures forall j :: 0 <= j < i + 1 ==> Resumed(before, after, rejected, tasks[j])
      ensures forall j :: i + 1 <= j < |tasks| ==>
        && StatusOf(after.st, tasks[j].id) == StatusOf(before.st, tasks[j].id)
        && ResumedWith(after, rejected, tasks[j].id) == ResumedWith(before, rejected, tasks[j].id)
      ensures MadeUpFor(before, after, rejected, tasks[..i + 1])
    {
      hide Asked, Ended;
      assert tasks[..i + 1] == tasks[..i] + [tasks[i]];
    }

    /** `_reconcile_pending_attempts`: nothing when no task was running. */
    method ReconcilePendingAttempts(rejected: set<string>) returns (r: Option<StepKind>)
      requires Valid() && mission.phase == MissionRunning
      modifies this`mission, this`writesLeft, this`trail
      ensures Valid() && Active(tasks, mission.st) <= Active(tasks, old(mission.st))
      ensures r.None? ==> mission == old(mission) && forall t :: t in tasks ==> StatusOf(mission.st, t.id) != Running
      ensures r.Some? ==> r.value in {Advanced, AttentionRaised, Died}
      ensures r.Some? ==> exists t :: t in tasks && StatusOf(old(mission.st), t.id) == Running
      ensures r == Some(Advanced) ==>
        mission.phase == MissionRunning && Active(tasks, mission.st) < Active(tasks, old(mission.st))
      ensures r == Some(AttentionRaised) ==> mission.phase == AttentionNeeded
      ensures r == Some(Advanced) || r == Some(AttentionRaised) ==>
        ResumeEnds(old(mission), mission, rejected, r.value)
    {
      hide Valid, Acyclic, ResumedWith, Raisable, Active, ResumedUpTo, ResumeEnds, AsksFor;
      Structure();
      assert Raisable(tasks, mission, []) by { NothingRaisable(mission); }
      var items: seq<Attention> := [];
      var sawRunning := false;
      Invariant();
      NothingResumed(mission, rejected);
      for i := 0 to |tasks|
        invariant Valid() && mission.phase == MissionRunning && Raisable(tasks, mission, items)
        invariant ResumedUpTo(old(mission), mission, rejected, items, i)
        invariant !sawRunning ==> mission == old(mission) && items == []
        invariant !sawRunning ==> forall j :: 0 <= j < i ==> StatusOf(mission.st, tasks[j].id) != Running
        invariant sawRunning ==> exists t :: t in tasks && StatusOf(old(mission.st), t.id) == Running
        invariant Active(tasks, mission.st) <= Active(tasks, old(mission.st))
        invariant sawRunning ==> Active(tasks, mission.st) < Active(tasks, old(mission.st))
      {
        var t := tasks[i];
        if StatusOf(mission.st, t.id) == Running {
          Invariant();
          assert TaskSafe(mission, t);
          ghost var mid, asked := mission, items;
          NotYetResumed(old(mission), mission, rejected, items, i);
          sawRunning := true;
          var alive;
          alive, items := Reconcile(t, rejected, items);
          if !alive { return Some(Died); }
          ResumedOneMore(old(mission), mid, mission, rejected, asked, items[|asked|..], i);
          assert items == asked + items[|asked|..];
        } else {
          PassedOver(old(mission), mission, rejected, items, i);
        }
      }
      if !sawRunning { return None; }
      ghost var resumed := mission;
      var kind := Advanced;
      if items != [] {
        kind := RaiseAttention(items);
      }
      assert items == [] ==> resumed.attention + items == resumed.attention;
      if kind != Died { AllResumed(old(mission), resumed, mission, rejected, items, kind); }
      return Some(kind);
    }

    lemma NotYetResumed(before: Mission, after: Mission, rejected: set<string>, items: seq<Attention>, i: nat)
      requires UniqueIds(tasks) && i < |tasks| && ResumedUpTo(before, after, rejected, items, i)
      ensures StatusOf(after.st, tasks[i].id) == StatusOf(before.st, tasks[i].id)
    {
    }

    lemma AllResumed(before: Mission, resumed: Mission, after: Mission, rejected: set<string>, items: seq<Attention>,
                     kind: StepKind)
      requires UniqueIds(tasks) && ResumedUpTo(before, resumed, rejected, items, |tasks|)
      requires after == resumed.(attention := resumed.attention + items, phase := after.phase)
      requires kind == Advanced <==> items == []
      ensures ResumeEnds(before, after, rejected, kind)
    {
      hide Asked, ResumedWith, ResumedHandoffs;
      assert tasks[..|tasks|] == tasks;
    }

    /** `_try_evaluate_a_gate` and `_apply_gate_event`: the first ready gate in authored order. */
    method TryEvaluateAGate(rejected: set<string>) returns (r: Option<StepKind>)
      requires Valid() && mission.phase == MissionRunning
      modifies this`mission, this`writesLeft, this`trail
      ensures Valid() && Active(tasks, mission.st) <= Active(tasks, old(mission.st))
      ensures r.None? ==> mission == old(mission) && forall t :: t in tasks ==> !GateReady(mission.st, t)
      ensures r.Some? ==> r.value in {AttentionRaised, Died}
      ensures r == Some(AttentionRaised) ==>
        mission.phase == AttentionNeeded && GateDecided(tasks, old(mission), mission, rejected)
      ensures r.Some? ==> exists t :: t in tasks && GateReady(old(mission.st), t)
    {
      hide Legal, After, TargetClears, GateDecided, DepsCleared;
      for i := 0 to |tasks|
        invariant Valid() && mission == old(mission)
        invariant forall j :: 0 <= j < i ==> !GateReady(mission.st, tasks[j])
      {
        var gate := tasks[i];
        if GateReady(mission.st, gate) {
          var m := mission;
          var result := EvaluateGate(tasks, m.st, gate, id => EvidenceOf(m, rejected, id));
          Invariant();
          var alive := Save(SealGate(gate.id, result.cleared));
          if !alive { return Some(Died); }
          var item := Attention(gate.id, 0, if result.cleared then GateCheckpoint else GateFailed);
          GateItemRaisable(m, gate, result.cleared);
          var kind := RaiseAttention([item]);
          if kind != Died { GateIsDecided(m, mission, rejected, i, result.cleared); }
          return Some(kind);
        }
      }
      r := None;
    }

    lemma GateIsDecided(m: Mission, m': Mission, rejected: set<string>, i: nat, cleared: bool)
      requires UniqueIds(tasks) && i < |tasks| && GateReady(m.st, tasks[i])
      requires forall j :: 0 <= j < i ==> !GateReady(m.st, tasks[j])
      requires cleared <==> GateVerdict(tasks, m, tasks[i], rejected) == Cleared
      requires m' == Apply(m, SealGate(tasks[i].id, cleared)).(
        attention := m.attention + [Attention(tasks[i].id, 0, if cleared then GateCheckpoint else GateFailed)],
        phase := AttentionNeeded)
      ensures GateDecided(tasks, m, m', rejected)
    {
      hide TargetClears, GateReady;
      assert Sealed(m, m', tasks[i], GateVerdict(tasks, m, tasks[i], rejected));
    }

    lemma GateItemRaisable(m: Mission, gate: Task, cleared: bool)
      requires Inv(tasks, m) && m.phase == MissionRunning && gate in tasks && GateReady(m.st, gate)
      ensures Raisable(tasks, Apply(m, SealGate(gate.id, cleared)),
                       [Attention(gate.id, 0, if cleared then GateCheckpoint else GateFailed)])
    {
      if HasFailureItem(m.attention, gate.id) { SettledStatus(tasks, m, gate.id); }
    }

    /** `_recover_stranded_failure`: re-open the attention of a failed task that holds pending work back. */
    method RecoverStrandedFailure(rejected: set<string>, activeAttempts: bool) returns (r: Option<StepKind>)
      requires Valid() && mission.phase == MissionRunning
      modifies this`mission, this`writesLeft, this`trail
      ensures Valid() && mission.st == old(mission.st)
      ensures r.None? ==> mission == old(mission)
      ensures r.None? <==> (activeAttempts || OnlyGatesBlock(tasks, mission.st))
      ensures r.Some? ==> r.value in {AttentionRaised, Fault, Died}
      ensures r == Some(AttentionRaised) ==> mission.phase == AttentionNeeded
      ensures r.Some? && r != Some(Died) ==> RecoveryEnds(tasks, old(mission), mission, rejected, r.value)
    {
      hide Valid, Acyclic, Blocker, WellFormed;
      if activeAttempts { return None; }
      ghost var m := mission;
      Structure();
      var blockers := FindBlockers(tasks, mission.st);
      for i := 0 to |tasks|
        invariant mission == m
        invariant forall j :: 0 <= j < i ==> tasks[j].id !in blockers || tasks[j].kind == Gate
      {
        var t := tasks[i];
        if t.id in blockers && t.kind != Gate {
          NotOnlyGates(tasks, mission.st, t);
          assert FirstBlocker(tasks, mission.st, i);
          var kind := RaiseRetained(t, rejected);
          return Some(kind);
        }
      }
      r := None;
    }

    lemma Structure()
      requires Valid()
      ensures WellFormed(tasks) && UniqueIds(tasks) && Acyclic(DependencyGraph(tasks))
    {
    }

    /** The attention of a retained failure: added when it is not open already. */
    method RaiseRetained(t: Task, rejected: set<string>) returns (kind: StepKind)
      requires Valid() && mission.phase == MissionRunning && t in tasks && t.kind != Gate
      requires UniqueIds(tasks) && Blocker(tasks, mission.st, t.id)
      modifies this`mission, this`writesLeft, this`trail
      ensures Valid() && mission.st == old(mission.st) && kind in {AttentionRaised, Fault, Died}
      ensures kind == AttentionRaised ==> mission.phase == AttentionNeeded
      ensures kind == Fault <==> NoFailureRetained(old(mission), t, rejected)
      ensures kind == Fault ==> mission == old(mission)
      ensures kind == AttentionRaised ==> t.id in old(mission.generation) && RetainedRaised(old(mission), mission, t)
    {
      hide Valid, Acyclic, Blocker, Raisable, WellFormed;
      if t.id !in mission.generation || t.id !in mission.attempts || t.id in rejected { return Fault; }
      var h := mission.attempts[t.id];
      if h.done || (t.kind == Validate && h.passed) { return Fault; }
      var item := Attention(t.id, mission.generation[t.id], if t.kind == Work then NodeFailed else NodeAttention);
      if item in mission.attention {
        var alive := Save(EnterAttention);
        return if alive then AttentionRaised else Died;
      }
      FailedBlocker(tasks, mission.st, t.id);
      Invariant();
      RetainedRaisable(mission, t, item);
      kind := RaiseAttention([item]);
    }

    lemma FailedBlocker(tasks: seq<Task>, st: Statuses, id: string)
      requires UniqueIds(tasks) && Blocker(tasks, st, id)
      ensures StatusOf(st, id) == Failed
    {
    }

    /** An open failure item of a failed task always names its current attempt, so none is raised twice. */
    lemma RetainedRaisable(m: Mission, t: Task, item: Attention)
      requires Inv(tasks, m) && m.phase == MissionRunning && t in tasks && t.kind != Gate
      requires StatusOf(m.st, t.id) == Failed && t.id in m.generation
      requires item == Attention(t.id, m.generation[t.id], if t.kind == Work then NodeFailed else NodeAttention)
      requires item !in m.attention
      ensures Raisable(tasks, m, [item])
    {
    }

    // ---------- Dispatch ----------

    /** One attempt coming back: the handoff is persisted, then applied. */
    method Collect(t: Task, h: Handoff, pendingItems: seq<Attention>) returns (alive: bool, items: seq<Attention>)
      requires Valid() && mission.phase == MissionRunning && Raisable(tasks, mission, pendingItems)
      requires t in tasks && t.kind != Gate && StatusOf(mission.st, t.id) == Running
      modifies this`mission, this`writesLeft, this`trail
      ensures Valid() && Active(tasks, mission.st) <= Active(tasks, old(mission.st))
        && mission.guards == old(mission.guards)
      ensures alive ==> Raisable(tasks, mission, items) && Active(tasks, mission.st) < Active(tasks, old(mission.st))
      ensures alive ==> mission.phase == MissionRunning && mission.attention == old(mission.attention)
      ensures alive ==> forall id :: id != t.id ==> StatusOf(mission.st, id) == StatusOf(old(mission.st), id)
      ensures alive ==> pendingItems <= items && StatusOf(mission.st, t.id) == Ended(h)
      ensures alive ==>
        && mission == old(mission).(st := mission.st, attempts := old(mission.attempts)[t.id := h])
        && t.id in mission.generation
        && AsksFor(tasks, mission.st, t, mission.generation[t.id], h, items[|pendingItems|..])
    {
      hide Valid, Acyclic, AsksFor, Active, TaskSafe;
      items := pendingItems;
      alive := Save(SaveAttempt(t.id, h));
      if alive {
        RaisableStill(tasks, old(mission), SaveAttempt(t.id, h), pendingItems);
        alive, items := ApplyHandoffCollect(t, h, pendingItems);
      }
    }

    /** The tasks before `i` have ended as their handoffs say, the others are still running. */
    ghost predicate EndedUpTo(st: Statuses, st': Statuses, batch: seq<Task>, handoffs: string -> Handoff, i: nat)
      requires i <= |batch|
    {
      && (forall j :: 0 <= j < i ==> StatusOf(st', batch[j].id) == Ended(handoffs(batch[j].id)))
      && (forall j :: i <= j < |batch| ==> StatusOf(st', batch[j].id) == Running)
      && (forall id :: (forall j :: 0 <= j < |batch| ==> batch[j].id != id) ==> StatusOf(st', id) == StatusOf(st, id))
    }

    /** The handoffs of the tasks before `i` are persisted, and nothing else is touched. */
    ghost predicate PersistedUpTo(m: Mission, m': Mission, batch: seq<Task>, handoffs: string -> Handoff, i: nat)
      requires i <= |batch|
    {
      && (forall j :: 0 <= j < i ==>
            batch[j].id in m'.attempts && m'.attempts[batch[j].id] == handoffs(batch[j].id))
      && (forall id :: (forall j :: 0 <= j < i ==> batch[j].id != id) ==>
            (id in m'.attempts <==> id in m.attempts)
            && (id in m.attempts ==> m'.attempts[id] == m.attempts[id]))
    }

    ghost predicate CollectedUpTo(m: Mission, m': Mission, batch: seq<Task>, handoffs: string -> Handoff, i: nat)
      requires i <= |batch|
    {
      && m' == m.(st := m'.st, attempts := m'.attempts)
      && EndedUpTo(m.st, m'.st, batch, handoffs, i) && PersistedUpTo(m, m', batch, handoffs, i)
    }

    lemma EndedOneMore(st: Statuses, before: Statuses, after: Statuses, batch: seq<Task>, handoffs: string -> Handoff,
                       i: nat)
      requires i < |batch| && UniqueIds(batch) && EndedUpTo(st, before, batch, handoffs, i)
      requires StatusOf(after, batch[i].id) == Ended(handoffs(batch[i].id))
      requires forall other :: other != batch[i].id ==> StatusOf(after, other) == StatusOf(before, other)
      ensures EndedUpTo(st, after, batch, handoffs, i + 1)
    {
      hide Ended, StatusOf;
    }

    lemma PersistedOneMore(m: Mission, before: Mission, after: Mission, batch: seq<Task>, handoffs: string -> Handoff,
                           i: nat)
      requires i < |batch| && UniqueIds(batch) && PersistedUpTo(m, before, batch, handoffs, i)
      requires after.attempts == before.attempts[batch[i].id := handoffs(batch[i].id)]
      ensures PersistedUpTo(m, after, batch, handoffs, i + 1)
    {
    }

    lemma CollectedOneMore(m: Mission, before: Mission, after: Mission, batch: seq<Task>, handoffs: string -> Handoff,
                           i: nat)
      requires i < |batch| && UniqueIds(batch) && CollectedUpTo(m, before, batch, handoffs, i)
      requires var id := batch[i].id;
        && after == before.(st := after.st, attempts := before.attempts[id := handoffs(id)])
        && StatusOf(after.st, id) == Ended(handoffs(id))
        && forall other :: other != id ==> StatusOf(after.st, other) == StatusOf(before.st, other)
      ensures CollectedUpTo(m, after, batch, handoffs, i + 1)
    {
      EndedOneMore(m.st, before.st, after.st, batch, handoffs, i);
      PersistedOneMore(m, before, after, batch, handoffs, i);
      hide EndedUpTo, PersistedUpTo;
    }

    lemma GatesAside(before: Statuses, after: Statuses, t: Task)
      requires UniqueIds(tasks) && t in tasks && t.kind != Gate
      requires forall id :: id != t.id ==> StatusOf(after, id) == StatusOf(before, id)
      ensures SameGates(tasks, before, after)
    {
      forall gate | gate in tasks && gate.kind == Gate ensures StatusOf(after, gate.id) == StatusOf(before, gate.id) {
        if gate.id == t.id { SameIdSameTask(tasks, gate, t); }
      }
    }

    /** What the first tasks ask for is still that, whatever became of another task since. */
    lemma AskedOfOneMore(before: Mission, after: Mission, ran: seq<Task>, handoffs: string -> Handoff,
                         items: seq<Attention>, t: Task, own: seq<Attention>)
      requires UniqueIds(tasks) && t in tasks && t.kind != Gate
      requires after.generation == before.generation && t.id in after.generation
      requires forall id :: id != t.id ==> StatusOf(after.st, id) == StatusOf(before.st, id)
      requires Asked(tasks, before.st, before.generation, ran, handoffs, items)
      requires AsksFor(tasks, after.st, t, after.generation[t.id], handoffs(t.id), own)
      ensures Asked(tasks, after.st, after.generation, ran + [t], handoffs, items + own)
    {
      hide Asked, AsksFor;
      GatesAside(before.st, after.st, t);
      AskedStays(tasks, before.st, after.st, before.generation, ran, handoffs, items);
      AskedOneMore(tasks, after.st, after.generation, ran, handoffs, items, t, own);
    }

    method CollectAll(batch: seq<Task>, handoffs: string -> Handoff) returns (alive: bool, items: seq<Attention>)
      requires Valid() && mission.phase == MissionRunning && UniqueIds(batch) && UniqueIds(tasks)
      requires forall t :: t in batch ==> t in tasks && t.kind != Gate && StatusOf(mission.st, t.id) == Running
      modifies this`mission, this`writesLeft, this`trail
      ensures Valid() && Active(tasks, mission.st) <= Active(tasks, old(mission.st))
        && mission.guards == old(mission.guards)
      ensures alive ==> mission.phase == MissionRunning && Raisable(tasks, mission, items)
      ensures alive && batch != [] ==> Active(tasks, mission.st) < Active(tasks, old(mission.st))
      ensures alive ==> CollectedUpTo(old(mission), mission, batch, handoffs, |batch|)
      ensures alive ==> Asked(tasks, mission.st, mission.generation, batch, handoffs, items)
    {
      hide Valid, Acyclic, DepsCleared, Raisable, Active, AsksFor, Asked, CollectedUpTo;
      items := [];
      alive := true;
      assert Raisable(tasks, mission, []) by { NothingRaisable(mission); }
      NothingCollected(batch, handoffs);
      for i := 0 to |batch|
        invariant Valid() && mission.phase == MissionRunning && Raisable(tasks, mission, items)
          && mission.guards == old(mission.guards)
        invariant CollectedUpTo(old(mission), mission, batch, handoffs, i)
        invariant Active(tasks, mission.st) <= Active(tasks, old(mission.st))
        invariant i > 0 ==> Active(tasks, mission.st) < Active(tasks, old(mission.st))
        invariant Asked(tasks, mission.st, mission.generation, batch[..i], handoffs, items)
      {
        ghost var before, asked := mission, items;
        StillRunning(old(mission), mission, batch, handoffs, i);
        alive, items := Collect(batch[i], handoffs(batch[i].id), items);
        if !alive { return; }
        CollectedOneMore(old(mission), before, mission, batch, handoffs, i);
        AskedOfOneMore(before, mission, batch[..i], handoffs, asked, batch[i], items[|asked|..]);
        assert batch[..i + 1] == batch[..i] + [batch[i]] && items == asked + items[|asked|..];
      }
      assert batch[..|batch|] == batch;
    }

    lemma NothingCollected(batch: seq<Task>, handoffs: string -> Handoff)
      requires UniqueIds(tasks)
      requires forall t :: t in batch ==> StatusOf(mission.st, t.id) == Running
      ensures CollectedUpTo(mission, mission, batch, handoffs, 0)
      ensures Asked(tasks, mission.st, mission.generation, batch[..0], handoffs, [])
    {
    }

    lemma StillRunning(m: Mission, m': Mission, batch: seq<Task>, handoffs: string -> Handoff, i: nat)
      requires i < |batch| && CollectedUpTo(m, m', batch, handoffs, i)
      ensures StatusOf(m'.st, batch[i].id) == Running
    {
    }

    lemma NothingRaisable(m: Mission)
      requires m.phase == MissionRunning
      ensures Raisable(tasks, m, [])
    {
    }

    /** `_guard_dispatch`: look at the denials again and keep what may still run. */
    method GuardDispatch(batch: seq<Task>, denied: set<string>) returns (alive: bool, kept: seq<Task>)
      requires Valid() && mission.phase == MissionRunning && UniqueIds(batch)
      requires forall t :: t in batch ==> t in tasks && Runnable(mission.st, t)
      modifies this`mission, this`writesLeft, this`trail
      ensures Valid() && Active(tasks, mission.st) <= Active(tasks, old(mission.st))
        && old(mission.guards) <= mission.guards
      ensures alive ==> DenialsOnly(old(mission), mission) && UniqueIds(kept)
      ensures alive ==> forall t :: t in kept <==> t in batch && Runnable(mission.st, t) && t.id !in mission.guards
      ensures alive ==> forall t :: t in batch && t !in kept ==> Denied(old(mission), mission, t.id)
      ensures alive && kept == [] && batch != [] ==> Active(tasks, mission.st) < Active(tasks, old(mission.st))
    {
      hide Valid, Acyclic, Runnable, Active;
      kept := [];
      alive := Save(Guard(denied));
      if !alive { return; }
      alive := ReconcileProviderDenials();
      if !alive { return; }
      var wanted := set t | t in batch && Runnable(mission.st, t) && t.id !in mission.guards;
      kept := Keep(batch, wanted);
      KeepUnique(batch, wanted);
      DroppedAreDenied(tasks, old(mission), mission, batch, kept);
    }

    method MarkRunning(batch: seq<Task>) returns (alive: bool)
      requires Valid() && mission.phase == MissionRunning
      requires forall t :: t in batch ==> t in tasks && Runnable(mission.st, t)
      modifies this`mission, this`writesLeft, this`trail
      ensures Valid() && Active(tasks, mission.st) <= Active(tasks, old(mission.st))
      ensures mission.phase == old(mission.phase) && mission.guards == old(mission.guards)
      ensures alive ==> BatchStarted(old(mission), mission, batch)
    {
      hide Valid, Acyclic, Runnable, Active, BatchStarted, Apply;
      BatchIsMarked(mission, batch);
      alive := Save(Dispatch(set t | t in batch :: t.id));
    }

    lemma BatchIsMarked(m: Mission, batch: seq<Task>)
      ensures var marked := Apply(m, Dispatch(set t | t in batch :: t.id));
        BatchStarted(m, marked, batch) && marked.phase == m.phase && marked.guards == m.guards
    {
      var nodes := set t | t in batch :: t.id;
      assert forall t :: t in batch ==> t.id in nodes;
      assert forall id :: id in nodes ==> exists t :: t in batch && t.id == id;
    }

    lemma GuardedStill(m: Mission, running: Mission, batch: seq<Task>, denied: set<string>)
      requires BatchStarted(m, running, batch)
      ensures BatchStarted(m, running.(guards := running.guards + denied), batch)
    {
    }

    lemma BatchIsKept(m: Mission, running: Mission, collected: Mission, batch: seq<Task>, handoffs: string -> Handoff)
      requires BatchStarted(m, running, batch) && CollectedUpTo(running, collected, batch, handoffs, |batch|)
      ensures Started(m, collected, batch) && AttemptsKept(m, collected, batch)
      ensures collected.attention == m.attention
      ensures forall id :: (forall t :: t in batch ==> t.id != id) ==> StatusOf(collected.st, id) == StatusOf(m.st, id)
    {
      forall id | forall t :: t in batch ==> t.id != id
        ensures StatusOf(collected.st, id) == StatusOf(m.st, id)
        ensures id in collected.attempts <==> id in m.attempts
        ensures id in m.attempts ==> collected.attempts[id] == m.attempts[id]
      {
        assert forall j :: 0 <= j < |batch| ==> batch[j].id != id;
      }
    }

    lemma BatchHasEnded(running: Mission, collected: Mission, batch: seq<Task>, w: World)
      requires CollectedUpTo(running, collected, batch, BatchHandoffs(batch, w), |batch|)
      ensures forall t :: t in batch ==>
        && StatusOf(collected.st, t.id) == Ended(BatchHandoff(batch, w, t.id))
        && t.id in collected.attempts && collected.attempts[t.id] == BatchHandoff(batch, w, t.id)
    {
      hide BatchHandoff;
      forall t | t in batch
        ensures StatusOf(collected.st, t.id) == Ended(BatchHandoff(batch, w, t.id))
        ensures t.id in collected.attempts && collected.attempts[t.id] == BatchHandoff(batch, w, t.id)
      {
        var j :| 0 <= j < |batch| && batch[j] == t;
      }
    }

    /**
     From the tasks marked running to their collected results; a denial recorded in between
     stops the dispatch with an error and leaves them running.
     */
    method RunBatch(batch: seq<Task>, w: World, look: nat) returns (kind: StepKind)
      requires Valid() && mission.phase == MissionRunning && batch != [] && UniqueIds(batch)
      requires forall t :: t in batch ==> t in tasks && Runnable(mission.st, t)
      modifies this`mission, this`writesLeft, this`trail
      ensures Valid() && Active(tasks, mission.st) <= Active(tasks, old(mission.st))
      ensures kind == Advanced ==>
        mission.phase == MissionRunning && Active(tasks, mission.st) < Active(tasks, old(mission.st))
      ensures kind == AttentionRaised ==> mission.phase == AttentionNeeded
      ensures DispatchEnds(tasks, old(mission), mission, batch, batch, w, kind) && kind != Idle
        && old(mission.guards) <= mission.guards
    {
      hide Valid, Acyclic, Runnable, Raisable, Active, DispatchEnds, CollectedUpTo, Asked, Started, AttemptsKept,
        BatchHandoffs;
      Structure();
      ghost var m := mission;
      var alive := MarkRunning(batch);
      if !alive {
        DiedAnyhow(tasks, m, mission, batch, batch, w);
        return Died;
      }
      ghost var marked := mission;
      alive := Save(Guard(w.denied(look)));
      if !alive {
        DiedAnyhow(tasks, m, mission, batch, batch, w);
        return Died;
      }
      ghost var running := mission;
      GuardedStill(m, marked, batch, w.denied(look));
      if exists t :: t in batch && t.id in mission.guards {
        StoppedBatch(m, mission, batch, w);
        return Fault;
      }
      var items;
      alive, items := CollectAll(batch, BatchHandoffs(batch, w));
      if !alive {
        DiedAnyhow(tasks, m, mission, batch, batch, w);
        return Died;
      }
      ghost var collected := mission;
      kind := Advanced;
      if items != [] {
        kind := RaiseAttention(items);
      }
      CollectedBatch(m, running, collected, mission, batch, w, kind, items);
    }

    lemma CollectedBatch(m: Mission, running: Mission, collected: Mission, m': Mission, batch: seq<Task>, w: World,
                         kind: StepKind, items: seq<Attention>)
      requires UniqueIds(tasks) && batch != [] && kind in {Advanced, AttentionRaised, Died}
      requires BatchStarted(m, running, batch)
      requires CollectedUpTo(running, collected, batch, BatchHandoffs(batch, w), |batch|)
      requires Asked(tasks, collected.st, collected.generation, batch, BatchHandoffs(batch, w), items)
      requires m' == collected.(attention := m'.attention, phase := m'.phase)
      requires kind != Died ==> m'.attention == collected.attention + items && (kind == Advanced <==> items == [])
      ensures DispatchEnds(tasks, m, m', batch, batch, w, kind)
    {
      hide BatchHandoff, Asked, BatchStarted, CollectedUpTo, Started, AttemptsKept, BatchHandoffs, Collected;
      if kind != Died {
        BatchIsKept(m, running, collected, batch, BatchHandoffs(batch, w));
        BatchHasEnded(running, collected, batch, w);
        SameResults(m, collected, m', batch, w, kind, items);
      }
    }

    lemma SameResults(m: Mission, collected: Mission, m': Mission, batch: seq<Task>, w: World, kind: StepKind,
                      items: seq<Attention>)
      requires UniqueIds(tasks) && kind != Died && kind in {Advanced, AttentionRaised}
      requires Asked(tasks, collected.st, collected.generation, batch, BatchHandoffs(batch, w), items)
      requires m' == collected.(attention := collected.attention + items, phase := m'.phase)
      requires (kind == Advanced <==> items == []) && collected.attention == m.attention
      requires Started(m, collected, batch) && AttemptsKept(m, collected, batch)
      requires forall t :: t in batch ==>
        && StatusOf(collected.st, t.id) == Ended(BatchHandoff(batch, w, t.id))
        && t.id in collected.attempts && collected.attempts[t.id] == BatchHandoff(batch, w, t.id)
      ensures Started(m, m', batch) && AttemptsKept(m, m', batch) && Collected(tasks, m, m', batch, w, kind)
      ensures kind == Advanced ==> forall t :: t in batch ==> StatusOf(m'.st, t.id) == Cleared
    {
      if items == [] {
        NobodyAsks(tasks, collected.st, collected.generation, batch, BatchHandoffs(batch, w));
      }
      hide BatchHandoff, Asked;
    }

    lemma StoppedBatch(m: Mission, m': Mission, batch: seq<Task>, w: World)
      requires UniqueIds(tasks) && batch != [] && exists t :: t in batch && t.id in m'.guards
      requires BatchStarted(m, m', batch) && m'.phase == m.phase
      ensures DispatchEnds(tasks, m, m', batch, batch, w, Fault)
    {
    }

    /** The batch is marked running, each task under its next attempt, and nothing else has changed. */
    ghost predicate BatchStarted(m: Mission, running: Mission, batch: seq<Task>) {
      && Started(m, running, batch) && AttemptsKept(m, running, batch) && running.attention == m.attention
      && (forall t :: t in batch ==> StatusOf(running.st, t.id) == Running && t.id !in running.attempts)
      && forall id :: (forall t :: t in batch ==> t.id != id) ==> StatusOf(running.st, id) == StatusOf(m.st, id)
    }

    /** `_dispatch_one`. */
    method DispatchOne(t: Task, w: World, look: nat) returns (kind: StepKind)
      requires Valid() && mission.phase == MissionRunning && t in tasks && Runnable(mission.st, t)
      modifies this`mission, this`writesLeft, this`trail
      ensures Valid() && Active(tasks, mission.st) <= Active(tasks, old(mission.st))
        && old(mission.guards) <= mission.guards
      ensures kind == Advanced || kind == Idle ==>
        mission.phase == MissionRunning && Active(tasks, mission.st) < Active(tasks, old(mission.st))
      ensures kind == AttentionRaised ==> mission.phase == AttentionNeeded
      ensures DispatchEnds(tasks, old(mission), mission, [t], [t], w, kind)
    {
      hide Valid, Acyclic, DepsCleared, Active, DispatchEnds, Runnable;
      Structure();
      var alive, kept := GuardDispatch([t], w.denied(look));
      ghost var seen := mission;
      if !alive {
        kind := Died;
      } else if kept == [] {
        kind := Idle;
      } else {
        assert t in kept by { assert kept[0] in kept; }
        kind := RunBatch([t], w, look + 1);
      }
      if alive {
        EndsAfterDenials(tasks, old(mission), seen, mission, [t], if kept == [] then [] else [t], [t], w, kind);
      } else {
        DiedAnyhow(tasks, old(mission), mission, [t], [t], w);
      }
    }

    /** `_dispatch_isolated_work_batch`: without worktrees its first task runs alone. */
    method DispatchIsolatedWorkBatch(batch: seq<Task>, w: World) returns (kind: StepKind, ghost ran: seq<Task>)
      requires Valid() && mission.phase == MissionRunning && |batch| > 1 && UniqueIds(batch)
      requires forall t :: t in batch ==> t in tasks && Runnable(mission.st, t)
      modifies this`mission, this`writesLeft, this`trail
      ensures Valid() && Active(tasks, mission.st) <= Active(tasks, old(mission.st))
        && old(mission.guards) <= mission.guards
      ensures kind == Advanced || kind == Idle ==>
        mission.phase == MissionRunning && Active(tasks, mission.st) < Active(tasks, old(mission.st))
      ensures kind == AttentionRaised ==> mission.phase == AttentionNeeded
      ensures DispatchEnds(tasks, old(mission), mission, batch, ran, w, kind)
    {
      hide Valid, Acyclic, DepsCleared, Active, DispatchEnds, Runnable;
      Structure();
      var alive, kept := GuardDispatch(batch, w.denied(2));
      ghost var seen := mission;
      ran := kept;
      if !alive {
        kind := Died;
      } else if kept == [] {
        kind := Idle;
      } else if |kept| == 1 || !w.worktrees {
        ran := [kept[0]];
        kind := DispatchOne(kept[0], w, 3);
        FirstAlone(tasks, seen, mission, kept, w, kind);
      } else {
        kind := RunBatch(kept, w, 3);
      }
      if alive {
        EndsAfterDenials(tasks, old(mission), seen, mission, batch, kept, ran, w, kind);
      } else {
        DiedAnyhow(tasks, old(mission), mission, batch, ran, w);
      }
    }

    /** `_dispatch_one` for a single task, otherwise `_dispatch_batch`. */
    method DispatchBatch(batch: seq<Task>, w: World) returns (kind: StepKind, ghost ran: seq<Task>)
      requires Valid() && mission.phase == MissionRunning && batch != [] && UniqueIds(batch)
      requires forall t :: t in batch ==> t in tasks && Runnable(mission.st, t)
      modifies this`mission, this`writesLeft, this`trail
      ensures Valid() && Active(tasks, mission.st) <= Active(tasks, old(mission.st))
        && old(mission.guards) <= mission.guards
      ensures kind == Advanced || kind == Idle ==>
        mission.phase == MissionRunning && Active(tasks, mission.st) < Active(tasks, old(mission.st))
      ensures kind == AttentionRaised ==> mission.phase == AttentionNeeded
      ensures DispatchEnds(tasks, old(mission), mission, batch, ran, w, kind)
    {
      hide Valid, Acyclic, DepsCleared, Active, DispatchEnds, Runnable;
      Structure();
      if |batch| == 1 {
        ran := [batch[0]];
        assert batch == ran;
        kind := DispatchOne(batch[0], w, 1);
        return;
      }
      var alive, kept := GuardDispatch(batch, w.denied(1));
      ghost var seen := mission;
      ran := kept;
      if !alive {
        kind := Died;
      } else if kept == [] {
        kind := Idle;
      } else if |kept| == 1 {
        ran := [kept[0]];
        assert kept == ran;
        kind := DispatchOne(kept[0], w, 2);
      } else if exists t :: t in kept && t.kind == Work {
        kind, ran := DispatchIsolatedWorkBatch(kept, w);
      } else {
        kind := RunBatch(kept, w, 2);
      }
      if alive {
        EndsAfterDenials(tasks, old(mission), seen, mission, batch, kept, ran, w, kind);
      } else {
        DiedAnyhow(tasks, old(mission), mission, batch, ran, w);
      }
    }

    // ---------- step and the advance loop ----------

    /** Nothing can be done until something outside changes, and only gates hold pending tasks back. */
    ghost predicate IdleForGood(w: World)
      reads this
      requires UniqueIds(tasks)
    {
      Stuck(tasks, mission.st) && (w.activeAttempts || OnlyGatesBlock(tasks, mission.st))
    }

    /** What a step looks at: the state with the denials recorded by then, guarded pending tasks failed. */
    ghost predicate LookedAt(m: Mission, seen: Mission, w: World) {
      && seen == m.(st := seen.st, guards := m.guards + w.denied(0))
      && forall id :: StatusOf(seen.st, id) ==
           if id in Ids(tasks) && id in seen.guards && StatusOf(m.st, id) == Pending then Failed else StatusOf(m.st, id)
    }

    /** The tasks `_select_dispatch_tasks` takes from all that can run. */
    ghost predicate Selected(m: Mission, w: World, batch: seq<Task>) {
      var runnable, capacity := RunnableTasks(tasks, m.st), if w.capacity > 1 then w.capacity else 1;
      var lane := FirstLane(tasks, m.st, runnable, 0);
      if lane != [] then batch == UpTo(lane, capacity) else ChosenFrom(UpTo(runnable, capacity), w, batch)
    }

    /**
     The one thing a step does, the first that applies: it resumes what was found running, seals the
     first ready gate, dispatches what can run, raises a retained failure, or is idle.
     */
    ghost predicate StepEnds(m: Mission, m': Mission, batch: seq<Task>, ran: seq<Task>, w: World, kind: StepKind)
      requires UniqueIds(tasks)
    {
      if exists t :: t in tasks && StatusOf(m.st, t.id) == Running then ResumeEnds(m, m', w.rejected, kind)
      else if exists t :: t in tasks && GateReady(m.st, t) then
        kind == AttentionRaised && GateDecided(tasks, m, m', w.rejected)
      else if exists t :: t in tasks && Runnable(m.st, t) then
        Selected(m, w, batch) && DispatchEnds(tasks, m, m', batch, ran, w, kind)
      else if w.activeAttempts || OnlyGatesBlock(tasks, m.st) then kind == Idle && m' == m
      else RecoveryEnds(tasks, m, m', w.rejected, kind)
    }

    /** `step`: at most one externally visible transition. */
    method Step(w: World)
      returns (kind: StepKind, ghost seen: Mission, ghost batch: seq<Task>, ghost ran: seq<Task>)
      requires Valid()
      modifies this`mission, this`writesLeft, this`trail
      ensures Valid() && Active(tasks, mission.st) <= Active(tasks, old(mission.st))
      ensures kind == Advanced ==>
        mission.phase == MissionRunning && Active(tasks, mission.st) < Active(tasks, old(mission.st))
      ensures kind == AttentionRaised ==> mission.phase == AttentionNeeded
      ensures kind == Idle && mission.phase == MissionRunning ==>
        IdleForGood(w) || exists t :: t in tasks && Denied(old(mission), mission, t.id)
      ensures kind == Idle ==> mission.phase == MissionRunning || mission.phase == MissionPlanning
      ensures kind == Terminal ==> mission.phase == Aborted
      ensures match old(mission).phase
        case MissionPlanning => kind == Idle && mission == old(mission)
        case AttentionNeeded => kind == AttentionRaised && mission == old(mission)
        case Aborted => kind == Terminal && mission == old(mission)
        case MissionRunning =>
          kind != Died ==> LookedAt(old(mission), seen, w) && StepEnds(seen, mission, batch, ran, w, kind)
    {
      hide Valid, Acyclic, Blocker, GateDecided, Runnable, GateReady, StepEnds;
      Structure();
      seen, batch, ran := mission, [], [];
      match mission.phase {
        case MissionPlanning => kind := Idle; return;
        case AttentionNeeded => kind := AttentionRaised; return;
        case Aborted => kind := Terminal; return;
        case MissionRunning =>
      }
      var alive := Save(Guard(w.denied(0)));
      if !alive { kind := Died; return; }
      alive := ReconcileProviderDenials();
      if !alive { kind := Died; return; }
      seen := mission;
      kind, batch, ran := StepMission(w);
    }

    /** What follows the look at the denials. */
    method StepMission(w: World) returns (kind: StepKind, ghost batch: seq<Task>, ghost ran: seq<Task>)
      requires Valid() && UniqueIds(tasks) && mission.phase == MissionRunning
      modifies this`mission, this`writesLeft, this`trail
      ensures Valid() && Active(tasks, mission.st) <= Active(tasks, old(mission.st))
      ensures kind == Advanced ==>
        mission.phase == MissionRunning && Active(tasks, mission.st) < Active(tasks, old(mission.st))
      ensures kind == AttentionRaised ==> mission.phase == AttentionNeeded
      ensures kind == Idle ==>
        && mission.phase == MissionRunning
        && (IdleForGood(w) || exists t :: t in tasks && Denied(old(mission), mission, t.id))
      ensures kind != Terminal
      ensures kind != Died ==> StepEnds(old(mission), mission, batch, ran, w, kind)
    {
      hide Valid, Acyclic, Blocker, GateDecided, Runnable, GateReady, ResumeEnds, DispatchEnds, RecoveryEnds, Selected,
        OnlyGatesBlock, Active;
      batch, ran := [], [];
      var resumed := ReconcilePendingAttempts(w.rejected);
      if resumed.Some? { kind := resumed.value; return; }
      var gate := TryEvaluateAGate(w.rejected);
      if gate.Some? { kind := gate.value; return; }
      var runnable := RunnableTasks(tasks, mission.st);
      if runnable == [] {
        forall t | t in tasks ensures !Runnable(mission.st, t) { assert t !in runnable; }
        var recovered := RecoverStrandedFailure(w.rejected, w.activeAttempts);
        kind := if recovered.Some? then recovered.value else Idle;
        return;
      }
      assert exists t :: t in tasks && Runnable(mission.st, t) by { assert runnable[0] in runnable; }
      var selected := SelectRunnable(runnable, w);
      batch := selected;
      kind, ran := DispatchBatch(selected, w);
      DispatchTold(old(mission), mission, selected, ran, w, kind);
    }

    lemma DispatchTold(m: Mission, m': Mission, batch: seq<Task>, ran: seq<Task>, w: World, kind: StepKind)
      requires UniqueIds(tasks) && DispatchEnds(tasks, m, m', batch, ran, w, kind)
      requires forall t :: t in batch ==> t in tasks
      ensures kind != Terminal
      ensures kind == Idle ==> exists t :: t in tasks && Denied(m, m', t.id)
    {
      hide RanAmong, Collected;
    }

    method SelectRunnable(runnable: seq<Task>, w: World) returns (batch: seq<Task>)
      requires UniqueIds(tasks) && runnable == RunnableTasks(tasks, mission.st) && runnable != []
      ensures batch != [] && UniqueIds(batch) && BatchAllowed(w, batch) && Selected(mission, w, batch)
      ensures forall t :: t in batch ==> t in tasks && Runnable(mission.st, t)
    {
      KeepUnique(tasks, set t | t in tasks && Runnable(mission.st, t));
      batch := SelectDispatchTasks(tasks, mission.st, runnable, w);
    }

    /**
     `_advance_project`: after a look at the denials, loop `step` until it reports something, or the
     step limit is reached.
     */
    method AdvanceProject(denied: set<string>, worlds: nat -> World, maxSteps: Option<nat>)
      returns (calls: nat, kind: StepKind)
      requires Valid()
      modifies this`mission, this`writesLeft, this`trail
      ensures Valid()
      ensures calls <= |Active(tasks, old(mission.st))| + 1 && (kind != Died ==> 1 <= calls)
      ensures maxSteps.Some? ==> calls <= (if maxSteps.value > 1 then maxSteps.value else 1)
      ensures kind == Advanced ==> maxSteps.Some? && calls >= maxSteps.value
      ensures kind == AttentionRaised ==> mission.phase == AttentionNeeded
      ensures kind == Terminal ==> mission.phase == Aborted
      ensures kind == Idle ==> mission.phase == MissionRunning || mission.phase == MissionPlanning
    {
      hide Valid, StepEnds, LookedAt, IdleForGood, Active;
      calls := 0;
      if mission.phase == MissionRunning {
        var alive := Save(Guard(denied));
        if alive { alive := ReconcileProviderDenials(); }
        if !alive { return 0, Died; }
      }
      SubsetSizeLe(Active(tasks, mission.st), Active(tasks, old(mission.st)));
      var steps := 0;
      while true
        invariant Valid() && steps == calls
        invariant |Active(tasks, mission.st)| + calls <= |Active(tasks, old(mission.st))|
        invariant maxSteps.Some? ==> calls == 0 || calls < maxSteps.value
        decreases |Active(tasks, mission.st)|
      {
        ghost var before := Active(tasks, mission.st);
        ghost var seen, batch, ran;
        kind, seen, batch, ran := Step(worlds(calls));
        calls := calls + 1;
        if kind == Advanced { SubsetSize(Active(tasks, mission.st), before); }
        if kind != Advanced { return; }
        steps := steps + 1;
        if maxSteps.Some? && steps >= maxSteps.value { return; }
      }
    }

    // ---------- Decisions ----------

    /**
     `_decide_attention` without patches.  Interrupted or not, the run stays legal; decided
     to the end, exactly the decided failures move, the round is on record, and from a settled
     list no cleared task is ever reset.
     */
    method DecideAttention(decisions: seq<Decision>) returns (r: DecideResult)
      requires Valid()
      modifies this`mission, this`writesLeft, this`trail, this`decisionRecords
      ensures Valid()
      ensures var recorded := old(decisionRecords) + [DecisionRecord(decisions, old(mission.attention))];
        match r
        case Decided => decisionRecords == recorded
        case Interrupted => decisionRecords == old(decisionRecords) || decisionRecords == recorded
        case _ => decisionRecords == old(decisionRecords)
      ensures r.WrongState? <==> old(mission).phase != AttentionNeeded
      ensures r.WrongState? || r.InvalidDecisions? || r.ProviderRefused? ==> mission == old(mission)
      ensures r.Decided? || r.Interrupted? ==>
        DecisionsValid(decisions, old(mission.attention)) && ProviderAdmits(decisions, old(mission))
      ensures r.Decided? ==>
        mission == old(mission).(st := mission.st, attention := [], phase := mission.phase)
      ensures r.Decided? ==> PhaseDecided(decisions, |decisions|, old(mission), mission.phase)
      ensures r.Decided? ==> DecidedStatuses(decisions, |decisions|, old(mission), mission)
      ensures r.Decided? && Settled(old(mission)) ==>
        forall id :: StatusOf(old(mission).st, id) == Cleared ==> StatusOf(mission.st, id) == Cleared
    {
      if mission.phase != AttentionNeeded { return WrongState; }
      var errors := ValidateDecisions(decisions, mission.attention);
      if errors != [] { return InvalidDecisions(errors); }
      if !ProviderAdmits(decisions, mission) { return ProviderRefused; }
      Invariant();
      var alive, next := ApplyDecisions(decisions);
      if !alive { return Interrupted; }
      alive := AppendDecisionRecord(decisions);
      if !alive { return Interrupted; }
      alive := Save(ClearAttention);
      if !alive { return Interrupted; }
      alive := Save(Resume(next));
      r := if alive then Decided else Interrupted;
      if Settled(old(mission)) { SettledKeepsCleared(decisions, old(mission), mission); }
    }

    /** `append_decision_record`: after the decisions took effect, before the list is emptied. */
    method AppendDecisionRecord(decisions: seq<Decision>) returns (alive: bool)
      requires Valid()
      modifies this`writesLeft, this`decisionRecords
      ensures Valid()
      ensures decisionRecords ==
        old(decisionRecords) + (if alive then [DecisionRecord(decisions, mission.attention)] else [])
    {
      alive := writesLeft > 0;
      if alive {
        writesLeft := writesLeft - 1;
        decisionRecords := decisionRecords + [DecisionRecord(decisions, mission.attention)];
      }
    }

    lemma SettledKeepsCleared(decisions: seq<Decision>, m: Mission, m': Mission)
      requires DecisionsValid(decisions, m.attention) && Settled(m)
      requires DecidedStatuses(decisions, |decisions|, m, m')
      ensures forall id :: StatusOf(m.st, id) == Cleared ==> StatusOf(m'.st, id) == Cleared
    {
      forall id | StatusOf(m.st, id) == Cleared ensures StatusOf(m'.st, id) == Cleared {
        assert forall k :: 0 <= k < |decisions| && Moves(decisions[k], m) ==>
          m.attention[decisions[k].itemId].node != id;
      }
    }

    lemma DecidePhase(decisions: seq<Decision>, k: nat, m: Mission, before: Phase, after: Phase)
      requires DecisionsValid(decisions, m.attention) && k < |decisions|
      requires PhaseDecided(decisions, k, m, before)
      requires var d, kind := decisions[k], m.attention[decisions[k].itemId].kind;
        after == match d.action
          case Abort => Aborted
          case NextMission => MissionPlanning
          case Retry => MissionRunning
          case Continue => if kind == TerminalReview then before else MissionRunning
      ensures PhaseDecided(decisions, k + 1, m, after)
    {
      hide AllDecided, DistinctDecisions;
      assert DecisionFits(decisions[k], m.attention);
      if HasOutcome(decisions[k], m) {
        hide HasOutcome;
        assert LastOutcome(decisions, k + 1, m, k);
      } else if NoOutcome(decisions, k, m) {
        hide HasOutcome;
        assert NoOutcome(decisions, k + 1, m);
      } else {
        var j: nat :| LastOutcome(decisions, k, m, j) && SendsTo(decisions[j].action, before);
        hide HasOutcome;
        assert LastOutcome(decisions, k + 1, m, j);
      }
    }

    lemma DecisionAllowed(decisions: seq<Decision>, k: nat, m: Mission, m': Mission)
      requires m.phase == AttentionNeeded && DecisionsValid(decisions, m.attention) && k < |decisions|
        && ProviderAdmits(decisions, m)
      requires m' == m.(st := m'.st) && Moves(decisions[k], m)
      ensures Allowed(tasks, m', Decide(m.attention[decisions[k].itemId], decisions[k].action == Continue))
    {
      assert ProviderAdmitsOne(decisions[k], m) && DecisionFits(decisions[k], m.attention);
    }

    /** `_apply_one` without patches: the project state a decision sends to, if any. */
    method ApplyOne(d: Decision, item: Attention) returns (alive: bool, outcome: Option<Phase>)
      requires Valid() && d.itemId < |mission.attention| && mission.attention[d.itemId] == item
      requires Moves(d, mission) ==> Allowed(tasks, mission, Decide(item, d.action == Continue))
      requires ActionFits(d.action, item)
      modifies this`mission, this`writesLeft, this`trail
      ensures Valid() && mission == old(mission).(st := mission.st)
      ensures alive && Moves(d, old(mission)) ==>
        mission == Apply(old(mission), Decide(item, d.action == Continue))
      ensures alive && !Moves(d, old(mission)) ==> mission == old(mission)
      ensures alive ==> outcome == match d.action
        case Abort => Some(Aborted)
        case NextMission => Some(MissionPlanning)
        case Retry => Some(MissionRunning)
        case Continue => if item.kind == TerminalReview then None else Some(MissionRunning)
    {
      hide Valid;
      alive := true;
      if Moves(d, mission) {
        alive := Save(Decide(item, d.action == Continue));
        outcome := Some(MissionRunning);
      } else {
        match d.action {
          case Continue => outcome := if item.kind == TerminalReview then None else Some(MissionRunning);
          case Abort => outcome := Some(Aborted);
          case NextMission => outcome := Some(MissionPlanning);
          case Retry => outcome := None;
        }
      }
    }

    /** The loop of `_apply_decisions` over `_apply_one`, with the project state it returns. */
    method ApplyDecisions(decisions: seq<Decision>) returns (alive: bool, next: Phase)
      requires Valid() && mission.phase == AttentionNeeded && DecisionsValid(decisions, mission.attention)
      requires ProviderAdmits(decisions, mission) && DistinctFailures(mission.attention)
      modifies this`mission, this`writesLeft, this`trail
      ensures Valid() && next != AttentionNeeded && mission == old(mission).(st := mission.st)
      ensures alive ==>
        DecidedStatuses(decisions, |decisions|, old(mission), mission)
        && PhaseDecided(decisions, |decisions|, old(mission), next)
    {
      assert DecidedStatuses(decisions, 0, mission, mission) && PhaseDecided(decisions, 0, mission, MissionRunning);
      hide Valid, Acyclic, WellFormed, DecidedStatuses, PhaseDecided, ProviderAdmitsOne, AllDecided, DistinctDecisions,
        Allowed, Apply;
      next := MissionRunning;
      alive := true;
      for k := 0 to |decisions|
        invariant Valid() && mission == old(mission).(st := mission.st)
        invariant DecidedStatuses(decisions, k, old(mission), mission)
        invariant next != AttentionNeeded && PhaseDecided(decisions, k, old(mission), next)
      {
        var d := decisions[k];
        assert DecisionFits(d, old(mission).attention);
        DecideStep(decisions, k, old(mission), mission);
        if Moves(d, mission) { DecisionAllowed(decisions, k, old(mission), mission); }
        var outcome;
        alive, outcome := ApplyOne(d, mission.attention[d.itemId]);
        if !alive { return; }
        ghost var before := next;
        if outcome.Some? { next := outcome.value; }
        DecidePhase(decisions, k, old(mission), before, next);
      }
    }
  }
}
