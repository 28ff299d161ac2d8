/** Which attention items finished attempts ask for, one attempt after another. */
module AttentionItems {
  import opened Graphs
  import opened Tasks
  import opened MissionRuns
  import opened Coordination

  /** How a running task ends on a handoff. */
  function Ended(h: Handoff): (s: Status)
    ensures s == Cleared || s == Failed
    ensures s == Cleared <==> h.done && !h.stopped
  {
    if h.done && !h.stopped then Cleared else Failed
  }

  /** The attention a finished attempt asks for. */
  function Reported(task: Task, attempt: nat, h: Handoff, unreported: bool): (items: seq<Attention>)
    ensures forall i :: 0 <= i < |items| ==> items[i].node == task.id && items[i].attempt == attempt
    ensures forall i :: 0 <= i < |items| && IsFailure(items[i]) ==>
      |items| == 1 && items[i].kind == NodeFailed && task.kind != Validate
    ensures !h.done ==> items != []
    ensures (exists i :: 0 <= i < |items| && IsFailure(items[i])) ==> !h.done && !h.stopped
  {
    if h.stopped then [Attention(task.id, attempt, NodeAttention)]
    else if !h.done then [Attention(task.id, attempt, if task.kind == Work then NodeFailed else NodeAttention)]
    else
      (if task.kind == Validate && unreported then [Attention(task.id, attempt, NodeAttention)] else [])
      + (if h.requestAttention then [Attention(task.id, attempt, NodeAttention)] else [])
  }

  /** The validator leaves some target open that no pending gate will report. */
  ghost predicate Unreported(tasks: seq<Task>, st: Statuses, t: Task, h: Handoff)
    requires UniqueIds(tasks)
  {
    t.kind == Validate && exists target :: LeavesOpen(t, h, target) && !GateWillReport(tasks, st, t.id, target)
  }

  /**
   The items of one finished attempt.  A failure asks once, and failed work so that it may be
   retried; a success asks when it requests attention, and once more when it is a validator that
   leaves a target unreported.
   */
  ghost predicate AsksFor(tasks: seq<Task>, st: Statuses, t: Task, attempt: nat, h: Handoff, own: seq<Attention>)
    requires UniqueIds(tasks)
  {
    && (forall i :: 0 <= i < |own| ==> own[i].node == t.id && own[i].attempt == attempt)
    && (if !h.done || h.stopped then
          |own| == 1 && own[0].kind == if t.kind == Work && !h.done && !h.stopped then NodeFailed else NodeAttention
        else
          && |own| == (if Unreported(tasks, st, t, h) then 1 else 0) + (if h.requestAttention then 1 else 0)
          && forall i :: 0 <= i < |own| ==> own[i].kind == NodeAttention)
  }

  lemma ReportedIsAsked(tasks: seq<Task>, st: Statuses, t: Task, attempt: nat, h: Handoff, unreported: bool)
    requires UniqueIds(tasks) && t.kind != Gate
    requires h.done && !h.stopped ==> (t.kind == Validate && unreported <==> Unreported(tasks, st, t, h))
    ensures AsksFor(tasks, st, t, attempt, h, Reported(t, attempt, h, unreported))
  {
    hide Unreported;
  }

  // ---------- One attempt after another ----------

  /** The items of these attempts, in their order, each for its own attempt number and handoff. */
  ghost predicate Asked(tasks: seq<Task>, st: Statuses, generation: map<string, nat>, ran: seq<Task>,
                        handoffs: string -> Handoff, items: seq<Attention>)
    requires UniqueIds(tasks)
    decreases |ran|
  {
    if ran == [] then items == []
    else
      var t := ran[|ran| - 1];
      && t.id in generation
      && exists k ::
           && 0 <= k <= |items|
           && Asked(tasks, st, generation, ran[..|ran| - 1], handoffs, items[..k])
           && AsksFor(tasks, st, t, generation[t.id], handoffs(t.id), items[k..])
  }

  predicate SameGates(tasks: seq<Task>, st: Statuses, st': Statuses) {
    forall t :: t in tasks && t.kind == Gate ==> StatusOf(st', t.id) == StatusOf(st, t.id)
  }

  /** Whether a target goes unreported is a matter of the pending gates. */
  lemma AsksForStays(tasks: seq<Task>, st: Statuses, st': Statuses, t: Task, attempt: nat, h: Handoff,
                     own: seq<Attention>)
    requires UniqueIds(tasks) && SameGates(tasks, st, st')
    ensures AsksFor(tasks, st, t, attempt, h, own) <==> AsksFor(tasks, st', t, attempt, h, own)
  {
    hide LeavesOpen, ReachesPlus;
    assert forall target :: GateWillReport(tasks, st, t.id, target) <==> GateWillReport(tasks, st', t.id, target);
    hide GateWillReport;
  }

  lemma {:induction false} AskedStays(tasks: seq<Task>, st: Statuses, st': Statuses, generation: map<string, nat>,
                                      ran: seq<Task>, handoffs: string -> Handoff, items: seq<Attention>)
    requires UniqueIds(tasks) && SameGates(tasks, st, st') && Asked(tasks, st, generation, ran, handoffs, items)
    ensures Asked(tasks, st', generation, ran, handoffs, items)
    decreases |ran|
  {
    hide AsksFor, SameGates;
    if ran == [] {
    } else {
      var t := ran[|ran| - 1];
      var k :| 0 <= k <= |items|
        && Asked(tasks, st, generation, ran[..|ran| - 1], handoffs, items[..k])
        && AsksFor(tasks, st, t, generation[t.id], handoffs(t.id), items[k..]);
      AskedStays(tasks, st, st', generation, ran[..|ran| - 1], handoffs, items[..k]);
      AsksForStays(tasks, st, st', t, generation[t.id], handoffs(t.id), items[k..]);
    }
  }

  lemma AskedOneMore(tasks: seq<Task>, st: Statuses, generation: map<string, nat>, ran: seq<Task>,
                     handoffs: string -> Handoff, items: seq<Attention>, t: Task, own: seq<Attention>)
    requires UniqueIds(tasks) && Asked(tasks, st, generation, ran, handoffs, items) && t.id in generation
    requires AsksFor(tasks, st, t, generation[t.id], handoffs(t.id), own)
    ensures Asked(tasks, st, generation, ran + [t], handoffs, items + own)
  {
    hide AsksFor;
    var all, more := items + own, ran + [t];
    assert all[..|items|] == items && all[|items|..] == own && more[..|more| - 1] == ran && more[|more| - 1] == t;
  }

  /** Nobody asks exactly when everybody cleared without asking. */
  lemma {:induction false} NobodyAsks(tasks: seq<Task>, st: Statuses, generation: map<string, nat>, ran: seq<Task>,
                                      handoffs: string -> Handoff)
    requires UniqueIds(tasks) && Asked(tasks, st, generation, ran, handoffs, [])
    ensures forall t :: t in ran ==> Ended(handoffs(t.id)) == Cleared && !handoffs(t.id).requestAttention
    decreases |ran|
  {
    if ran == [] {
    } else {
      var n := |ran| - 1;
      var none: seq<Attention> := [];
      assert none[..0] == none && none[0..] == none && ran == ran[..n] + [ran[n]];
      NobodyAsks(tasks, st, generation, ran[..n], handoffs);
    }
  }

  /** The tasks found running, in their order. */
  function RunningTasks(tasks: seq<Task>, st: Statuses): (r: seq<Task>)
    ensures forall t :: t in r <==> t in tasks && StatusOf(st, t.id) == Running
  {
    if tasks == [] then []
    else
      var n := |tasks| - 1;
      assert tasks == tasks[..n] + [tasks[n]];
      RunningTasks(tasks[..n], st) + (if StatusOf(st, tasks[n].id) == Running then [tasks[n]] else [])
  }
}
