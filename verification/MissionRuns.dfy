/**
 The durable state of a running mission and the writes the coordinator and the decision
 handler make to it (`coordinator.py`, `controller.py`).  A run is any sequence of such
 writes, so a crash between two writes is a run that simply continues from there.
 */
module MissionRuns {
  import opened Tasks

  datatype Handoff = Handoff(done: bool, requestAttention: bool, stopped: bool, items: seq<Item>, passed: bool)

  datatype AttentionKind = NodeFailed | NodeAttention | GateFailed | GateCheckpoint | TerminalReview

  datatype Attention = Attention(node: string, attempt: nat, kind: AttentionKind)

  datatype Phase = MissionRunning | AttentionNeeded | MissionPlanning | Aborted

  /**
   `generation` is the last attempt number of a task, `attempts` the handoff persisted for
   that attempt, `guards` the nodes a provider denial protects from replay.
   */
  datatype Mission = Mission(
    st: Statuses,
    generation: map<string, nat>,
    attempts: map<string, Handoff>,
    guards: set<string>,
    attention: seq<Attention>,
    phase: Phase)

  datatype Write =
    | Guard(nodes: set<string>)                      // the provider records denials
    | Deny(nodes: set<string>)                       // guarded pending tasks fail
    | Dispatch(nodes: set<string>)                   // runnable tasks start a new attempt
    | SaveAttempt(node: string, handoff: Handoff)
    | Finish(node: string, cleared: bool)            // a running task ends
    | SealGate(node: string, cleared: bool)          // a ready gate is evaluated
    | Raise(items: seq<Attention>)
    | EnterAttention
    | Decide(item: Attention, cleared: bool)         // `continue` clears, `retry` resets to pending
    | ClearAttention
    | Resume(phase: Phase)

  predicate IsFailure(item: Attention) {
    item.kind == NodeFailed || item.kind == GateFailed
  }

  /** All dependencies of `t` are cleared. */
  predicate DepsCleared(st: Statuses, t: Task) {
    forall d :: d in t.dependsOn ==> StatusOf(st, d) == Cleared
  }

  predicate Runnable(st: Statuses, t: Task): (r: bool)
    ensures r ==> forall d :: d in t.dependsOn ==> StatusOf(st, d) == Cleared
    ensures t.kind != Gate && StatusOf(st, t.id) == Pending && !r ==>
      exists d :: d in t.dependsOn && StatusOf(st, d) != Cleared
    ensures t.kind == Gate || StatusOf(st, t.id) != Pending ==> !r
  {
    t.kind != Gate && StatusOf(st, t.id) == Pending && DepsCleared(st, t)
  }

  predicate GateReady(st: Statuses, t: Task): (r: bool)
    ensures r ==> forall d :: d in t.dependsOn ==> StatusOf(st, d) == Cleared
    ensures t.kind == Gate && StatusOf(st, t.id) == Pending && !r ==>
      exists d :: d in t.dependsOn && StatusOf(st, d) != Cleared
    ensures t.kind != Gate || StatusOf(st, t.id) != Pending ==> !r
  {
    t.kind == Gate && StatusOf(st, t.id) == Pending && DepsCleared(st, t)
  }

  predicate HasFailureItem(attention: seq<Attention>, node: string) {
    exists i :: 0 <= i < |attention| && IsFailure(attention[i]) && attention[i].node == node
  }

  /** A failure item names a gate, or the current attempt of another task. */
  predicate Names(tasks: seq<Task>, m: Mission, item: Attention) {
    exists t :: t in tasks && t.id == item.node && (item.kind == GateFailed <==> t.kind == Gate)
      && (item.kind == NodeFailed ==> t.id in m.generation && m.generation[t.id] == item.attempt)
  }

  // ---------- One write ----------

  predicate Allowed(tasks: seq<Task>, m: Mission, w: Write) {
    match w
    case Guard(_) => true
    case Deny(nodes) => forall n :: n in nodes ==> n in m.guards && StatusOf(m.st, n) == Pending
    case Dispatch(nodes) => m.phase == MissionRunning &&
      forall n :: n in nodes ==> exists t :: t in tasks && t.id == n && Runnable(m.st, t)
    case SaveAttempt(n, _) => m.phase == MissionRunning && StatusOf(m.st, n) == Running
    case Finish(n, _) => m.phase == MissionRunning && StatusOf(m.st, n) == Running
    case SealGate(n, _) => m.phase == MissionRunning && exists t :: t in tasks && t.id == n && GateReady(m.st, t)
    case Raise(items) => m.phase == MissionRunning && forall i :: 0 <= i < |items| && IsFailure(items[i]) ==>
      && Names(tasks, m, items[i]) && StatusOf(m.st, items[i].node) == Failed
      && !HasFailureItem(m.attention, items[i].node)
      && forall j :: 0 <= j < i ==> !(IsFailure(items[j]) && items[j].node == items[i].node)
    case EnterAttention => m.phase == MissionRunning
    case Decide(item, cleared) => m.phase == AttentionNeeded && item in m.attention && IsFailure(item)
      && item.node !in m.guards && (!cleared ==> item.kind == NodeFailed)
    case ClearAttention => m.phase == AttentionNeeded
    case Resume(p) => m.phase == AttentionNeeded && m.attention == [] && p != AttentionNeeded
  }

  function SetAll(st: Statuses, nodes: set<string>, s: Status): (r: Statuses)
    ensures forall n :: StatusOf(r, n) == if n in nodes then s else StatusOf(st, n)
  {
    st + map n | n in nodes :: s
  }

  function NextGeneration(generation: map<string, nat>, n: string): nat {
    if n in generation then generation[n] + 1 else 0
  }

  function Apply(m: Mission, w: Write): Mission {
    match w
    case Guard(nodes) => m.(guards := m.guards + nodes)
    case Deny(nodes) => m.(st := SetAll(m.st, nodes, Failed))
    case Dispatch(nodes) => m.(
      st := SetAll(m.st, nodes, Running),
      generation := m.generation + map n | n in nodes :: NextGeneration(m.generation, n),
      attempts := m.attempts - nodes)
    case SaveAttempt(n, h) => m.(attempts := m.attempts[n := h])
    case Finish(n, cleared) => m.(st := SetAll(m.st, {n}, if cleared then Cleared else Failed))
    case SealGate(n, cleared) => m.(st := SetAll(m.st, {n}, if cleared then Cleared else Failed))
    case Raise(items) => m.(attention := m.attention + items)
    case EnterAttention => m.(phase := AttentionNeeded)
    case Decide(item, cleared) => m.(st := SetAll(m.st, {item.node}, if cleared then Cleared else Pending))
    case ClearAttention => m.(attention := [])
    case Resume(p) => m.(phase := p)
  }

  // ---------- The invariant ----------

  /** What dependency safety says about one task. */
  predicate TaskSafe(m: Mission, t: Task) {
    && (StatusOf(m.st, t.id) in {Running, Cleared} ==> DepsCleared(m.st, t))
    && (StatusOf(m.st, t.id) == Failed && t.id !in m.guards ==> DepsCleared(m.st, t))
    && (t.kind == Gate ==> StatusOf(m.st, t.id) != Running)
    && (StatusOf(m.st, t.id) == Running ==> t.id in m.generation)
  }

  ghost predicate Safe(tasks: seq<Task>, m: Mission) {
    forall t :: t in tasks ==> TaskSafe(m, t)
  }

  /** A failure item is settled while its task is still failed: no decision on it was torn by a crash. */
  predicate Settled(m: Mission) {
    forall i :: 0 <= i < |m.attention| && IsFailure(m.attention[i]) ==> StatusOf(m.st, m.attention[i].node) == Failed
  }

  predicate DistinctFailures(attention: seq<Attention>) {
    forall i, j :: 0 <= i < j < |attention| && IsFailure(attention[i]) && IsFailure(attention[j])
      ==> attention[i].node != attention[j].node
  }

  /** A dependent of a task with an open failure item has not moved. */
  predicate Waiting(m: Mission, s: Task) {
    && StatusOf(m.st, s.id) !in {Running, Cleared}
    && (s.id in m.guards || (StatusOf(m.st, s.id) != Failed && !HasFailureItem(m.attention, s.id)))
  }

  /** What an open failure item for `t` guarantees until it is decided. */
  ghost predicate ItemSafe(tasks: seq<Task>, m: Mission, t: Task) {
    && StatusOf(m.st, t.id) in {Failed, Pending, Cleared}
    && (t.id !in m.guards ==> DepsCleared(m.st, t))
    && (forall s :: s in tasks && t.id in s.dependsOn ==> Waiting(m, s))
  }

  ghost predicate ItemsSafe(tasks: seq<Task>, m: Mission) {
    && (forall i :: 0 <= i < |m.attention| && IsFailure(m.attention[i]) ==> Names(tasks, m, m.attention[i]))
    && (forall t :: t in tasks && HasFailureItem(m.attention, t.id) ==> ItemSafe(tasks, m, t))
  }

  ghost predicate Inv(tasks: seq<Task>, m: Mission) {
    && UniqueIds(tasks)
    && Safe(tasks, m) && ItemsSafe(tasks, m) && DistinctFailures(m.attention)
    && (m.phase == MissionRunning ==> Settled(m))
    && (m.phase !in {MissionRunning, AttentionNeeded} ==> m.attention == [])
  }

  lemma SafeAfter(tasks: seq<Task>, m: Mission, w: Write)
    requires Inv(tasks, m) && Allowed(tasks, m, w)
    ensures Safe(tasks, Apply(m, w))
  {
    var m' := Apply(m, w);
    forall t | t in tasks ensures TaskSafe(m', t) {
      assert TaskSafe(m, t);
      match w
      case Dispatch(nodes) =>
        if t.id in nodes {
          var s :| s in tasks && s.id == t.id && Runnable(m.st, s);
          SameIdSameTask(tasks, s, t);
        }
        forall d | d in t.dependsOn && StatusOf(m.st, d) == Cleared ensures d !in nodes {}
      case SealGate(n, cleared) =>
        if t.id == n {
          var s :| s in tasks && s.id == n && GateReady(m.st, s);
          SameIdSameTask(tasks, s, t);
        }
      case Decide(item, cleared) =>
        DecideSafe(tasks, m, item, cleared, t);
      case _ =>
    }
  }

  lemma DecideSafe(tasks: seq<Task>, m: Mission, item: Attention, cleared: bool, t: Task)
    requires Inv(tasks, m) && Allowed(tasks, m, Decide(item, cleared)) && t in tasks
    ensures TaskSafe(Apply(m, Decide(item, cleared)), t)
  {
    var m' := Apply(m, Decide(item, cleared));
    var i :| 0 <= i < |m.attention| && m.attention[i] == item;
    var n :| n in tasks && n.id == item.node;
    assert HasFailureItem(m.attention, n.id);
    assert ItemSafe(tasks, m, n) && TaskSafe(m, t);
    assert n.id in t.dependsOn ==> Waiting(m, t);
    if t.id == n.id {
      SameIdSameTask(tasks, t, n);
    }
  }

  /** While the mission runs, a failure item's task is failed, so its dependents cannot have moved. */
  lemma FailedHoldsDependents(tasks: seq<Task>, m: Mission, t: Task)
    requires UniqueIds(tasks) && Safe(tasks, m) && t in tasks
    requires StatusOf(m.st, t.id) == Failed
    requires forall s :: s in tasks && HasFailureItem(m.attention, s.id) ==> StatusOf(m.st, s.id) == Failed
    ensures ItemSafe(tasks, m, t)
  {
    assert TaskSafe(m, t);
    forall s | s in tasks && t.id in s.dependsOn ensures Waiting(m, s) {
      assert TaskSafe(m, s);
    }
  }

  lemma SettledStatus(tasks: seq<Task>, m: Mission, id: string)
    requires Settled(m) && HasFailureItem(m.attention, id)
    ensures StatusOf(m.st, id) == Failed
  {
  }

  lemma ItemsSafeAfter(tasks: seq<Task>, m: Mission, w: Write)
    requires Inv(tasks, m) && Allowed(tasks, m, w)
    ensures ItemsSafe(tasks, Apply(m, w))
    ensures Apply(m, w).phase == MissionRunning ==> Settled(Apply(m, w))
    ensures DistinctFailures(Apply(m, w).attention)
  {
    if w.ClearAttention? || w.Resume? {
    } else if m.phase == MissionRunning {
      RunningItemsSafe(tasks, m, w);
    } else {
      WaitingItemsSafe(tasks, m, w);
    }
  }

  lemma RunningItemsSafe(tasks: seq<Task>, m: Mission, w: Write)
    requires Inv(tasks, m) && Allowed(tasks, m, w) && m.phase == MissionRunning
    ensures ItemsSafe(tasks, Apply(m, w)) && Settled(Apply(m, w)) && DistinctFailures(Apply(m, w).attention)
  {
    var m' := Apply(m, w);
    SafeAfter(tasks, m, w);
    forall i | 0 <= i < |m'.attention| && IsFailure(m'.attention[i])
      ensures Names(tasks, m', m'.attention[i]) && StatusOf(m'.st, m'.attention[i].node) == Failed
    {
      RunningItemStands(tasks, m, w, i);
    }
    if w.Raise? { RaiseDistinct(tasks, m, w.items); }
    hide Allowed, ItemSafe, Names, Apply, Safe;
    forall t | t in tasks && HasFailureItem(m'.attention, t.id) ensures ItemSafe(tasks, m', t) {
      FailedHoldsDependents(tasks, m', t);
    }
  }

  /** While the mission runs, an item on the list names a task that is failed and stays so. */
  lemma RunningItemStands(tasks: seq<Task>, m: Mission, w: Write, i: nat)
    requires Inv(tasks, m) && Allowed(tasks, m, w) && m.phase == MissionRunning
    requires i < |Apply(m, w).attention| && IsFailure(Apply(m, w).attention[i])
    ensures var m' := Apply(m, w); Names(tasks, m', m'.attention[i]) && StatusOf(m'.st, m'.attention[i].node) == Failed
  {
    var m' := Apply(m, w);
    if i < |m.attention| { assert m'.attention[i] == m.attention[i]; }
    assert Names(tasks, m, m'.attention[i]);
  }

  lemma WaitingItemsSafe(tasks: seq<Task>, m: Mission, w: Write)
    requires Inv(tasks, m) && Allowed(tasks, m, w) && m.phase != MissionRunning && !w.ClearAttention? && !w.Resume?
    ensures ItemsSafe(tasks, Apply(m, w)) && DistinctFailures(Apply(m, w).attention)
    ensures Apply(m, w).phase != MissionRunning
  {
    var m' := Apply(m, w);
    forall t | t in tasks && HasFailureItem(m'.attention, t.id) ensures ItemSafe(tasks, m', t) {
      assert ItemSafe(tasks, m, t);
      if w.Decide? { DecideItemSafe(tasks, m, w.item, w.cleared, t); }
      forall s | s in tasks && t.id in s.dependsOn ensures Waiting(m', s) {
        assert Waiting(m, s);
        assert w.Decide? ==> HasFailureItem(m.attention, w.item.node);
      }
    }
  }

  lemma RaiseDistinct(tasks: seq<Task>, m: Mission, items: seq<Attention>)
    requires DistinctFailures(m.attention) && Allowed(tasks, m, Raise(items))
    ensures DistinctFailures(m.attention + items)
  {
    var a := m.attention + items;
    forall i, j | 0 <= i < j < |a| && IsFailure(a[i]) && IsFailure(a[j]) ensures a[i].node != a[j].node {
      if j >= |m.attention| {
        assert a[j] == items[j - |m.attention|];
        if i < |m.attention| {
          assert a[i] == m.attention[i];
        } else {
          assert a[i] == items[i - |m.attention|];
        }
      }
    }
  }

  lemma DecideItemSafe(tasks: seq<Task>, m: Mission, item: Attention, cleared: bool, t: Task)
    requires Inv(tasks, m) && Allowed(tasks, m, Decide(item, cleared))
    requires t in tasks && HasFailureItem(m.attention, t.id)
    ensures var m' := Apply(m, Decide(item, cleared));
      StatusOf(m'.st, t.id) in {Failed, Pending, Cleared} && (t.id !in m'.guards ==> DepsCleared(m'.st, t))
  {
    var i :| 0 <= i < |m.attention| && m.attention[i] == item;
    var n :| n in tasks && n.id == item.node;
    assert HasFailureItem(m.attention, n.id);
    assert ItemSafe(tasks, m, n) && ItemSafe(tasks, m, t);
    assert n.id in t.dependsOn ==> Waiting(m, t);
  }

  /** Every write keeps the invariant. */
  lemma WriteKeepsInv(tasks: seq<Task>, m: Mission, w: Write)
    requires Inv(tasks, m) && Allowed(tasks, m, w)
    ensures Inv(tasks, Apply(m, w))
  {
    SafeAfter(tasks, m, w);
    ItemsSafeAfter(tasks, m, w);
  }

  // ---------- Runs ----------

  function After(m: Mission, trail: seq<Write>): Mission {
    if trail == [] then m else Apply(After(m, trail[..|trail| - 1]), trail[|trail| - 1])
  }

  predicate Legal(tasks: seq<Task>, m: Mission, trail: seq<Write>) {
    trail == [] ||
    (Legal(tasks, m, trail[..|trail| - 1]) && Allowed(tasks, After(m, trail[..|trail| - 1]), trail[|trail| - 1]))
  }

  /** What submitting a plan leaves behind. */
  ghost predicate Fresh(tasks: seq<Task>, m: Mission) {
    && UniqueIds(tasks) && m.attention == [] && m.phase == MissionRunning
    && forall t :: t in tasks ==> StatusOf(m.st, t.id) == Pending
  }

  /**
   Dependency safety over every run: a running or cleared task has all dependencies
   cleared, an unguarded failed one too, and gates never run.
   */
  lemma {:induction false} RunsAreSafe(tasks: seq<Task>, m: Mission, trail: seq<Write>)
    requires Fresh(tasks, m) && Legal(tasks, m, trail)
    ensures Inv(tasks, After(m, trail)) && Safe(tasks, After(m, trail))
    ensures var now := After(m, trail);
      && (forall t, d :: t in tasks && d in t.dependsOn && StatusOf(now.st, t.id) in {Running, Cleared} ==>
            StatusOf(now.st, d) == Cleared)
      && (forall t, d :: t in tasks && d in t.dependsOn && StatusOf(now.st, t.id) == Failed && t.id !in now.guards ==>
            StatusOf(now.st, d) == Cleared)
      && (forall t :: t in tasks && t.kind == Gate ==> StatusOf(now.st, t.id) != Running)
  {
    if trail == [] {
    } else {
      var before := trail[..|trail| - 1];
      RunsAreSafe(tasks, m, before);
      WriteKeepsInv(tasks, After(m, before), trail[|trail| - 1]);
    }
  }

  /**
   A cleared task leaves `cleared` in one way only: a `retry` applied to its own failure
   item, which can be open only because an earlier decision round was torn by a crash.
   */
  lemma ClearedReverts(tasks: seq<Task>, m: Mission, w: Write, id: string)
    requires Inv(tasks, m) && Allowed(tasks, m, w)
    requires StatusOf(m.st, id) == Cleared && StatusOf(Apply(m, w).st, id) != Cleared
    ensures w.Decide? && !w.cleared && w.item.node == id && HasFailureItem(m.attention, id)
    ensures m.phase == AttentionNeeded && !Settled(m)
  {
    assert w.Decide? ==> HasFailureItem(m.attention, w.item.node);
  }

  /** The converse of a torn round: a decision on a settled list never touches a cleared task. */
  lemma {:induction false} ClearedPersists(tasks: seq<Task>, m: Mission, trail: seq<Write>, id: string)
    requires Fresh(tasks, m) && Legal(tasks, m, trail)
    requires forall k :: 0 <= k <= |trail| ==>
      !(HasFailureItem(After(m, trail[..k]).attention, id) && StatusOf(After(m, trail[..k]).st, id) == Cleared)
    ensures forall j, k :: 0 <= j <= k <= |trail| && StatusOf(After(m, trail[..j]).st, id) == Cleared
                           ==> StatusOf(After(m, trail[..k]).st, id) == Cleared
  {
    if trail == [] {
    } else {
      var n := |trail|;
      var before := trail[..n - 1];
      forall k | 0 <= k <= n - 1 ensures before[..k] == trail[..k] {}
      ClearedPersists(tasks, m, before, id);
      RunsAreSafe(tasks, m, before);
      assert trail[..n] == trail && before[..n - 1] == before;
      if StatusOf(After(m, before).st, id) == Cleared && StatusOf(After(m, trail).st, id) != Cleared {
        ClearedReverts(tasks, After(m, before), trail[n - 1], id);
      }
    }
  }

  /** A list of states that the writes of a trail lead through, each write allowed. */
  predicate Leads(tasks: seq<Task>, states: seq<Mission>, trail: seq<Write>) {
    && |states| == |trail| + 1
    && forall k :: 0 <= k < |trail| ==>
      Allowed(tasks, states[k], trail[k]) && Apply(states[k], trail[k]) == states[k + 1]
  }

  lemma {:induction false} RunThrough(tasks: seq<Task>, states: seq<Mission>, trail: seq<Write>)
    requires Leads(tasks, states, trail)
    ensures Legal(tasks, states[0], trail) && After(states[0], trail) == states[|trail|]
  {
    hide Allowed, Apply;
    if trail == [] {
    } else {
      var n := |trail| - 1;
      RunThrough(tasks, states[..n + 1], trail[..n]);
    }
  }

  predicate OpenRetry(m: Mission, id: string) {
    exists i :: 0 <= i < |m.attention| && m.attention[i] == Attention(id, m.attention[i].attempt, NodeFailed)
  }

  predicate Undoes(tasks: seq<Task>, m: Mission, w: Write, id: string) {
    Allowed(tasks, m, w) && StatusOf(Apply(m, w).st, id) != Cleared
  }

  /**
   The exact condition under which a cleared task can be taken back: its own failure item is
   still on the open list and no provider guards it.
   */
  lemma RevertsExactlyWhenListed(tasks: seq<Task>, m: Mission, id: string)
    requires Inv(tasks, m) && StatusOf(m.st, id) == Cleared
    ensures (exists w :: Undoes(tasks, m, w, id)) <==> m.phase == AttentionNeeded && id !in m.guards && OpenRetry(m, id)
  {
    if w :| Undoes(tasks, m, w, id) {
      ClearedReverts(tasks, m, w, id);
      var i :| 0 <= i < |m.attention| && m.attention[i] == w.item;
      assert m.attention[i] == Attention(id, m.attention[i].attempt, NodeFailed);
    }
    if m.phase == AttentionNeeded && id !in m.guards && OpenRetry(m, id) {
      var i :| 0 <= i < |m.attention| && m.attention[i] == Attention(id, m.attention[i].attempt, NodeFailed);
      assert Undoes(tasks, m, Decide(m.attention[i], false), id);
    }
  }

  const ONLY := Task("a", Work, [], [])

  const FAILED_A := Attention("a", 0, NodeFailed)

  /** A failure continued, a crash before the list is emptied, and the same item retried. */
  const TORN_ROUND := [
    Dispatch({"a"}), SaveAttempt("a", Handoff(false, false, false, [], false)), Finish("a", false),
    Raise([FAILED_A]), EnterAttention, Decide(FAILED_A, true), Decide(FAILED_A, false)]

  const AT_START := Mission(map[], map[], map[], {}, [], MissionRunning)

  const TORN_1 := Mission(map["a" := Running], map["a" := 0], map[], {}, [], MissionRunning)
  const TORN_2 := TORN_1.(attempts := map["a" := Handoff(false, false, false, [], false)])
  const TORN_3 := TORN_2.(st := map["a" := Failed])
  const TORN_4 := TORN_3.(attention := [FAILED_A])
  const TORN_5 := TORN_4.(phase := AttentionNeeded)
  const TORN_6 := TORN_5.(st := map["a" := Cleared])

  const TORN_7 := TORN_6.(st := map["a" := Pending])

  lemma TornBegins()
    ensures Apply(AT_START, TORN_ROUND[0]) == TORN_1 && Apply(TORN_1, TORN_ROUND[1]) == TORN_2
  {
    assert AT_START.st + map["a" := Running] == map["a" := Running];
  }

  lemma TornFails()
    ensures Apply(TORN_2, TORN_ROUND[2]) == TORN_3 && Apply(TORN_3, TORN_ROUND[3]) == TORN_4
      && Apply(TORN_4, TORN_ROUND[4]) == TORN_5
  {
  }

  lemma TornDecides()
    ensures Apply(TORN_5, TORN_ROUND[5]) == TORN_6 && Apply(TORN_6, TORN_ROUND[6]) == TORN_7
  {
  }

  lemma TornAllowed()
    ensures Allowed([ONLY], AT_START, TORN_ROUND[0]) && Allowed([ONLY], TORN_1, TORN_ROUND[1])
      && Allowed([ONLY], TORN_2, TORN_ROUND[2])
    ensures Allowed([ONLY], TORN_3, TORN_ROUND[3]) && Allowed([ONLY], TORN_4, TORN_ROUND[4])
    ensures Allowed([ONLY], TORN_5, TORN_ROUND[5]) && Allowed([ONLY], TORN_6, TORN_ROUND[6])
  {
    AttemptAllowed();
    RaiseAllowed();
    DecisionsAllowed();
    hide Allowed;
  }

  lemma AttemptAllowed()
    ensures Allowed([ONLY], AT_START, TORN_ROUND[0]) && Allowed([ONLY], TORN_1, TORN_ROUND[1])
      && Allowed([ONLY], TORN_2, TORN_ROUND[2])
  {
    assert ONLY in [ONLY] && Runnable(AT_START.st, ONLY);
  }

  lemma RaiseAllowed()
    ensures Allowed([ONLY], TORN_3, TORN_ROUND[3]) && Allowed([ONLY], TORN_4, TORN_ROUND[4])
  {
    assert ONLY in [ONLY];
    assert Names([ONLY], TORN_3, FAILED_A);
  }

  lemma DecisionsAllowed()
    ensures Allowed([ONLY], TORN_5, TORN_ROUND[5]) && Allowed([ONLY], TORN_6, TORN_ROUND[6])
  {
    assert FAILED_A in TORN_5.attention && FAILED_A in TORN_6.attention;
  }

  /** Concretely: in this legal run a task is cleared and then pending again. */
  lemma TornRoundTakesBack()
    ensures Fresh([ONLY], AT_START) && Legal([ONLY], AT_START, TORN_ROUND)
    ensures StatusOf(After(AT_START, TORN_ROUND[..6]).st, "a") == Cleared
    ensures StatusOf(After(AT_START, TORN_ROUND).st, "a") == Pending
  {
    TornBegins();
    TornFails();
    TornDecides();
    TornAllowed();
    hide Apply, Allowed, After, Legal;
    var states := [AT_START, TORN_1, TORN_2, TORN_3, TORN_4, TORN_5, TORN_6, TORN_7];
    assert Leads([ONLY], states, TORN_ROUND);
    RunThrough([ONLY], states, TORN_ROUND);
    RunThrough([ONLY], states[..7], TORN_ROUND[..6]);
  }
}
