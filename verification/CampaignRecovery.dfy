/**
 What a crash costs a promotion.  An attempt is five steps; it may die after any of them, or
 between the two appends of the last.  A retry with the same grant and fingerprint, before
 anything else happens, completes with the revision the first attempt had settled on, exactly
 unless the process died between moving HEAD and marking the lease.  What other operations can
 do in between is told in `CampaignLoss`, and what is lost for good in `CampaignFate`.
 */
module CampaignRecovery {
  import opened Wrappers
  import opened Campaign
  import opened CampaignLog
  import opened CampaignSystem
  import opened CampaignRuns

  /** One call of `promote_candidate` with what it makes up along the way. */
  datatype Attempt = Attempt(g: PromotionGrant, f: string, newId: string, commit: string, integrationReceipt: string,
                             receipt: string)

  function Steps(a: Attempt): (r: seq<Action>)
    ensures |r| == 5
  {
    [BeginPromotion(a.g, a.f, a.newId), Reconcile(a.commit), MoveHead, MarkLease(a.integrationReceipt),
     FinishPromotion(a.receipt, false)]
  }

  /** The grant's evidence still stands in an open campaign. */
  ghost predicate Granted(cfg: Config, log: seq<Event>, g: PromotionGrant) {
    PromotionInputs(cfg, Inspect(cfg, log), g, false).Some?
  }

  /** The lease side of an attempt can go through: it is this very request's integration, or can become it. */
  ghost predicate LeaseReady(s: System, a: Attempt)
    requires s.trail != []
  {
    && a.g.lease in s.leases
    && var lease := s.leases[a.g.lease];
      if lease.state == LeaseIntegrated && lease.integration.Some? then
        lease.integration.value.grant == a.g.id && lease.integration.value.fingerprint == a.f
      else
        && Head(s) == a.g.predecessor && lease.state == LeaseReturned && lease.patch == Some(a.g.patch)
        && lease.base == a.g.predecessor
        && (if a.f in s.integrations then (s.integrations[a.f].0, s.integrations[a.f].1) == (a.g.lease, a.g.id)
            else a.commit != Head(s))
  }

  /** The revision the attempt will have accepted. */
  function Target(s: System, a: Attempt): string {
    if Marked(s.leases, a.g.lease) then s.leases[a.g.lease].integration.value.accepted
    else if a.f in s.integrations then s.integrations[a.f].2
    else a.commit
  }

  // ---------- What each step of an attempt leaves ----------

  /** How far an attempt has come: the state it started from, except for what its steps changed. */
  ghost predicate Reached(cfg: Config, s: System, a: Attempt, k: nat, r: System)
    requires s.trail != []
  {
    && (r.log == s.log || exists id :: r.log == s.log + [PromotionPrepared(a.g.candidate, a.g.id, id, a.g.predecessor)])
    && r.flights == s.flights && r.rollbackLog == s.rollbackLog && Granted(cfg, r.log, a.g)
    && (if Marked(s.leases, a.g.lease) then
          && r.trail == s.trail && r.leases == s.leases && r.integrations == s.integrations
          && (if k == 1 then r.stage.Promoting? && r.stage.g == a.g && r.stage.f == a.f
              else
                && r.stage.Merged? && r.stage.g == a.g && r.stage.f == a.f
                && r.stage.i == s.leases[a.g.lease].integration.value)
        else
          && r.integrations ==
            (if k == 1 then s.integrations else s.integrations[a.f := (a.g.lease, a.g.id, Target(s, a))])
          && r.trail == (if k <= 2 then s.trail else s.trail + [Target(s, a)])
          && (if k <= 3 then r.leases == s.leases
              else
                a.g.lease in s.leases &&
                var i := Integration(a.g.id, a.f, a.integrationReceipt, Target(s, a));
                var marked := s.leases[a.g.lease].(state := LeaseIntegrated, integration := Some(i));
                r.leases == s.leases[a.g.lease := marked])
          && (match k
              case 1 => r.stage.Promoting? && r.stage.g == a.g && r.stage.f == a.f
              case 2 => r.stage.Committed? && r.stage.g == a.g && r.stage.f == a.f && r.stage.commit == Target(s, a)
              case 3 => r.stage.HeadMoved? && r.stage.g == a.g && r.stage.f == a.f && r.stage.commit == Target(s, a)
              case _ => r.stage.Merged? && r.stage.g == a.g && r.stage.f == a.f
                        && r.stage.i == Integration(a.g.id, a.f, a.integrationReceipt, Target(s, a))))
  }

  /** A quiet log entry that no record is made of leaves the snapshot alone. */
  lemma PreparedIsInvisible(cfg: Config, log: seq<Event>, e: Event)
    requires e.PromotionPrepared?
    ensures Inspect(cfg, log + [e]) == Inspect(cfg, log)
  {
    assert (log + [e])[..|log|] == log;
  }

  /** In an open campaign under a valid grant, a marked lease means HEAD has moved, and nothing else has. */
  lemma GrantedState(cfg: Config, s: System, g: PromotionGrant)
    requires Inv(cfg, s) && Granted(cfg, s.log, g)
    ensures g.predecessor == cfg.accepted && !HasPromotion(s.log) && |s.trail| <= 2
    ensures StateOf(Inspect(cfg, s.log)) == Open
  {
    StateOfLog(cfg, s.log);
    hide AllBacked, FlightsOk, EventsOk, LeasesOk, Inspect;
  }

  lemma NoCompletedRecord(cfg: Config, s: System, g: PromotionGrant)
    requires Inv(cfg, s) && Granted(cfg, s.log, g)
    ensures var existing := PromotionByGrant(Inspect(cfg, s.log).promotions, g.id);
      existing.Some? ==> existing.value.receipt.None?
  {
    GrantedState(cfg, s, g);
    hide Inv, Granted, Inspect;
  }

  lemma AfterBegin(cfg: Config, s: System, a: Attempt)
    requires Inv(cfg, s) && s.stage == Free && Granted(cfg, s.log, a.g)
    ensures Reached(cfg, s, a, 1, Do(cfg, s, Steps(a)[0]))
  {
    hide Inspect, PromotionInputs, StateOf, Inv;
    NoCompletedRecord(cfg, s, a.g);
    PreparedIsInvisible(cfg, s.log, PromotionPrepared(a.g.candidate, a.g.id, a.newId, a.g.predecessor));
  }

  /** Under a valid grant an unmarked lease means HEAD is where its trail says. */
  lemma MarkedMeansMoved(cfg: Config, s: System, g: PromotionGrant)
    requires Inv(cfg, s) && Granted(cfg, s.log, g)
    ensures s.trail != [] && g.predecessor == cfg.accepted && (Head(s) == cfg.accepted <==> |s.trail| == 1)
    ensures forall id :: Marked(s.leases, id) ==>
      |s.trail| == 2 && s.leases[id].integration.value.accepted == Head(s) != g.predecessor
    ensures forall id :: id in s.leases && s.leases[id].state == LeaseIntegrated ==> Marked(s.leases, id)
  {
    GrantedState(cfg, s, g);
    hide AllBacked, FlightsOk, EventsOk, Granted, HasPromotion;
  }

  lemma AfterReconcile(cfg: Config, s: System, a: Attempt, r: System)
    requires Inv(cfg, s) && Granted(cfg, s.log, a.g) && s.trail != [] && Reached(cfg, s, a, 1, r)
    ensures LeaseReady(s, a) ==> Reached(cfg, s, a, 2, Do(cfg, r, Steps(a)[1]))
    ensures !LeaseReady(s, a) ==> Do(cfg, r, Steps(a)[1]) == r.(stage := Free)
  {
    hide Inv, Granted, LeaseReady, Reached, DoReconcile;
    MarkedMeansMoved(cfg, s, a.g);
    BegunTrail(cfg, s, a, r);
    assert Do(cfg, r, Steps(a)[1]) == DoReconcile(r, a.commit);
    if Marked(s.leases, a.g.lease) {
      ReconcileMarked(cfg, s, a, r);
    } else {
      ReconcileUnmarked(cfg, s, a, r);
    }
  }

  lemma BegunTrail(cfg: Config, s: System, a: Attempt, r: System)
    requires s.trail != [] && Reached(cfg, s, a, 1, r)
    ensures r.trail != []
  {
    hide Granted;
  }

  lemma ReconcileMarked(cfg: Config, s: System, a: Attempt, r: System)
    requires s.trail != [] && Reached(cfg, s, a, 1, r) && Marked(s.leases, a.g.lease)
    requires s.leases[a.g.lease].integration.value.accepted == Head(s) != a.g.predecessor
    ensures LeaseReady(s, a) ==> Reached(cfg, s, a, 2, DoReconcile(r, a.commit))
    ensures !LeaseReady(s, a) ==> DoReconcile(r, a.commit) == r.(stage := Free)
  {
    hide Granted;
  }

  lemma ReconcileUnmarked(cfg: Config, s: System, a: Attempt, r: System)
    requires s.trail != [] && Reached(cfg, s, a, 1, r) && !Marked(s.leases, a.g.lease)
    ensures LeaseReady(s, a) ==> Reached(cfg, s, a, 2, DoReconcile(r, a.commit))
    ensures !LeaseReady(s, a) ==> DoReconcile(r, a.commit) == r.(stage := Free)
  {
    hide Granted;
  }

  lemma AfterMove(cfg: Config, s: System, a: Attempt, r: System)
    requires Inv(cfg, s) && Granted(cfg, s.log, a.g) && LeaseReady(s, a) && Reached(cfg, s, a, 2, r)
    ensures Reached(cfg, s, a, 3, Do(cfg, r, Steps(a)[2]))
  {
    hide AllBacked, FlightsOk, EventsOk, Granted, HasPromotion;
  }

  lemma AfterMark(cfg: Config, s: System, a: Attempt, r: System)
    requires Inv(cfg, s) && Granted(cfg, s.log, a.g) && LeaseReady(s, a) && Reached(cfg, s, a, 3, r)
    ensures Reached(cfg, s, a, 4, Do(cfg, r, Steps(a)[3]))
  {
    hide AllBacked, FlightsOk, EventsOk, Granted, HasPromotion;
  }

  /** The log ends with the completion of this grant, naming the revision HEAD moved to. */
  ghost predicate Completes(r: System, a: Attempt, accepted: string) {
    && r.log != [] && r.stage == Free
    && var e := r.log[|r.log| - 1];
      e.PromotionCompleted? && e.p.grant == a.g.id && e.p.candidate == a.g.candidate && e.p.accepted == accepted
      && e.p.predecessor == a.g.predecessor
  }

  /** What the last section appends, given evidence and at most its own effect on record. */
  lemma FinishCompletes(cfg: Config, a: Attempt, r: System)
    requires r.stage.Merged? && r.stage.g == a.g && Granted(cfg, r.log, a.g)
    requires var current := PromotionByGrant(Inspect(cfg, r.log).promotions, a.g.id);
      current.Some? ==>
        current.value.receipt.None? && current.value.accepted == r.stage.i.accepted
          && current.value.predecessor == a.g.predecessor
    ensures var t := DoFinishPromotion(cfg, r, a.receipt, false);
      Completes(t, a, r.stage.i.accepted) && t.trail == r.trail
    ensures var t := DoFinishPromotion(cfg, r, a.receipt, true);
      t == r.(stage := Free)
        || exists p: Promotion :: p.receipt.None? && t == Append(r.(stage := Free), PromotionEffectApplied(p))
  {
    var snap := Inspect(cfg, r.log);
    assert PromotionInputs(cfg, snap, a.g, true) == PromotionInputs(cfg, snap, a.g, false);
    assert PromotionInputs(cfg, snap, a.g, true).value.c.id == a.g.candidate;
    hide Inspect, PromotionInputs, StateOf, PromotionByGrant;
  }

  /** At the last section the only promotion on record is the grant's own unfinished one. */
  lemma OwnRecordOnly(cfg: Config, r: System)
    requires Inv(cfg, r) && r.stage.Merged?
    ensures var current := PromotionByGrant(Inspect(cfg, r.log).promotions, r.stage.g.id);
      current.Some? ==>
        current.value.receipt.None? && current.value.accepted == r.stage.i.accepted
          && current.value.predecessor == r.stage.g.predecessor
  {
    InspectPromotions(cfg, r.log);
    NoneOrItsOwn(cfg, r, Inspect(cfg, r.log).promotions);
    var current := PromotionByGrant(Inspect(cfg, r.log).promotions, r.stage.g.id);
    if current.Some? {
      assert EventOk(cfg, r.trail, r.leases, PromotionEffectApplied(current.value));
    }
    hide AllBacked, FlightsOk, Inspect, PromotionsAgree, PromotionByGrant;
  }

  lemma AfterFinish(cfg: Config, s: System, a: Attempt, r: System)
    requires Inv(cfg, r) && s.trail != [] && LeaseReady(s, a) && Reached(cfg, s, a, 4, r)
    ensures var t := DoFinishPromotion(cfg, r, a.receipt, false); Completes(t, a, Target(s, a)) && t.trail == r.trail
  {
    assert r.stage.Merged? && r.stage.g == a.g && r.stage.i.accepted == Target(s, a) && Granted(cfg, r.log, a.g);
    hide Reached, LeaseReady, Granted, Target, Inv, Completes;
    OwnRecordOnly(cfg, r);
    FinishCompletes(cfg, a, r);
  }

  // ---------- Whether an attempt completes ----------

  lemma ReachedBy(cfg: Config, s: System, a: Attempt, k: nat)
    requires Inv(cfg, s) && s.stage == Free && Granted(cfg, s.log, a.g) && 1 <= k <= 4 && (k > 1 ==> LeaseReady(s, a))
    ensures Reached(cfg, s, a, k, Run(cfg, s, Steps(a)[..k]))
  {
    assert s.trail != [];
    hide Inv, Reached, LeaseReady, Granted, Do;
    if k == 1 {
      assert Steps(a)[..0] == [];
      RunOneMore(cfg, s, Steps(a), 0);
      AfterBegin(cfg, s, a);
    } else {
      ReachedBy(cfg, s, a, k - 1);
      RunOneMore(cfg, s, Steps(a), k - 1);
      var r := Run(cfg, s, Steps(a)[..k - 1]);
      if k == 2 { AfterReconcile(cfg, s, a, r); }
      if k == 3 { AfterMove(cfg, s, a, r); }
      if k == 4 { AfterMark(cfg, s, a, r); }
    }
  }

  lemma FreeStepsDoNothing(cfg: Config, s: System, a: Attempt)
    requires s.trail != [] && s.stage == Free
    ensures Do(cfg, s, Steps(a)[1]) == s && Do(cfg, s, Steps(a)[2]) == s && Do(cfg, s, Steps(a)[3]) == s
      && Do(cfg, s, Steps(a)[4]) == s
  {
  }

  lemma BegunOnly(cfg: Config, s: System, a: Attempt, r: System)
    requires Inv(cfg, s) && Reached(cfg, s, a, 1, r)
    ensures s.trail != [] && r.trail == s.trail && r.leases == s.leases && r.stage.Promoting?
  {
    hide AllBacked, EventsOk, FlightsOk, LeasesOk, Granted;
  }

  lemma OnceMerged(cfg: Config, s: System, a: Attempt, r: System)
    requires Inv(cfg, s) && Inv(cfg, r) && s.stage == Free && LeaseReady(s, a) && Reached(cfg, s, a, 4, r)
    ensures s.trail != [] && r.stage.Merged? && |r.trail| == 2 && r.trail[1] == Target(s, a)
  {
    hide AllBacked, EventsOk, FlightsOk, Granted, HasPromotion;
  }

  /** An attempt that finds its lease not ready ends where it began, but for a prepared entry in the log. */
  lemma AttemptRefused(cfg: Config, s: System, a: Attempt)
    requires s.trail != [] && Inv(cfg, s) && s.stage == Free && Granted(cfg, s.log, a.g) && !LeaseReady(s, a)
    ensures var r := Run(cfg, s, Steps(a));
      r.trail == s.trail && r.leases == s.leases && r.stage == Free && !HasPromotion(r.log)
  {
    hide *;
    ReachedBy(cfg, s, a, 1);
    var begun := Run(cfg, s, Steps(a)[..1]);
    AfterReconcile(cfg, s, a, begun);
    RunKeepsInv(cfg, s, Steps(a)[..1]);
    BegunOnly(cfg, s, a, begun);
    NotYetPromoted(cfg, begun);
    FreeStepsDoNothing(cfg, begun.(stage := Free), a);
    RunOneMore(cfg, s, Steps(a), 1);
    RunOneMore(cfg, s, Steps(a), 2);
    RunOneMore(cfg, s, Steps(a), 3);
    RunOneMore(cfg, s, Steps(a), 4);
    assert Steps(a)[..5] == Steps(a);
  }

  lemma NotYetPromoted(cfg: Config, s: System)
    requires Inv(cfg, s) && s.stage.Promoting?
    ensures !HasPromotion(s.log)
  {
  }

  lemma AttemptGoesThrough(cfg: Config, s: System, a: Attempt)
    requires s.trail != [] && Inv(cfg, s) && s.stage == Free && Granted(cfg, s.log, a.g) && LeaseReady(s, a)
    ensures var r := Run(cfg, s, Steps(a)); Completes(r, a, Target(s, a)) && Head(r) == Target(s, a) && |r.trail| == 2
  {
    hide Inv, Granted, LeaseReady, Reached, Run, Completes, Target, DoFinishPromotion;
    ReachedBy(cfg, s, a, 4);
    var merged := Run(cfg, s, Steps(a)[..4]);
    RunKeepsInv(cfg, s, Steps(a)[..4]);
    OnceMerged(cfg, s, a, merged);
    AfterFinish(cfg, s, a, merged);
    RunOneMore(cfg, s, Steps(a), 4);
    assert Steps(a)[..5] == Steps(a);
  }

  /** The attempt reaches its last step exactly when its lease is ready; otherwise it has let go by then. */
  lemma MergedExactlyWhenReady(cfg: Config, s: System, a: Attempt)
    requires s.trail != [] && Inv(cfg, s) && s.stage == Free && Granted(cfg, s.log, a.g)
    ensures var r := Run(cfg, s, Steps(a)[..4]);
      Inv(cfg, r) && !HasPromotion(r.log) && if LeaseReady(s, a) then r.stage.Merged? else r.stage == Free
  {
    hide *;
    RunKeepsInv(cfg, s, Steps(a)[..4]);
    if LeaseReady(s, a) {
      ReachedBy(cfg, s, a, 4);
      var r := Run(cfg, s, Steps(a)[..4]);
      OnceMerged(cfg, s, a, r);
      MergedNotPromoted(cfg, r);
    } else {
      ReachedBy(cfg, s, a, 1);
      var begun := Run(cfg, s, Steps(a)[..1]);
      RunKeepsInv(cfg, s, Steps(a)[..1]);
      AfterReconcile(cfg, s, a, begun);
      BegunOnly(cfg, s, a, begun);
      NotYetPromoted(cfg, begun);
      FreeStepsDoNothing(cfg, begun.(stage := Free), a);
      RunOneMore(cfg, s, Steps(a), 1);
      RunOneMore(cfg, s, Steps(a), 2);
      RunOneMore(cfg, s, Steps(a), 3);
    }
  }

  lemma MergedNotPromoted(cfg: Config, s: System)
    requires Inv(cfg, s) && s.stage.Merged?
    ensures !HasPromotion(s.log)
  {
  }

  /** An attempt completes exactly when its lease is ready, and accepts the revision settled on. */
  lemma AttemptCompletes(cfg: Config, s: System, a: Attempt)
    requires Inv(cfg, s) && s.stage == Free && Granted(cfg, s.log, a.g)
    ensures var r := Run(cfg, s, Steps(a));
      && (HasPromotion(r.log) <==> LeaseReady(s, a))
      && (LeaseReady(s, a) ==> Completes(r, a, Target(s, a)) && Head(r) == Target(s, a) && |r.trail| == 2)
  {
    if LeaseReady(s, a) {
      AttemptGoesThrough(cfg, s, a);
      hide Inv, Granted, LeaseReady, Run, Target;
      var r := Run(cfg, s, Steps(a));
      assert r.log[|r.log| - 1] in r.log;
    } else {
      AttemptRefused(cfg, s, a);
    }
  }

  /** A promotion never touches the transaction log of rollbacks. */
  lemma RollbackLogUntouched(cfg: Config, s: System, a: Attempt)
    requires s.trail != []
    ensures Run(cfg, s, Steps(a)).rollbackLog == s.rollbackLog
  {
    hide Do, Run;
    RunFive(cfg, s, Steps(a));
    var steps := Steps(a);
    var s1 := Do(cfg, s, steps[0]);
    var s2 := Do(cfg, s1, steps[1]);
    var s3 := Do(cfg, s2, steps[2]);
    PromotionStepSparesRollbacks(cfg, s, steps[0]);
    PromotionStepSparesRollbacks(cfg, s1, steps[1]);
    PromotionStepSparesRollbacks(cfg, s2, steps[2]);
    PromotionStepSparesRollbacks(cfg, s3, steps[3]);
    PromotionStepSparesRollbacks(cfg, Do(cfg, s3, steps[3]), steps[4]);
  }

  lemma PromotionStepSparesRollbacks(cfg: Config, s: System, action: Action)
    requires s.trail != []
    requires action.BeginPromotion? || action.Reconcile? || action.MoveHead? || action.MarkLease?
      || action.FinishPromotion?
    ensures Do(cfg, s, action).rollbackLog == s.rollbackLog
  {
    hide Inspect, PromotionInputs, PromotionByGrant, DoFinishPromotion;
    if action.FinishPromotion? {
      FinishSparesRollbacks(cfg, s, action.receipt, action.dies);
    }
  }

  lemma FinishSparesRollbacks(cfg: Config, s: System, receipt: string, dies: bool)
    ensures DoFinishPromotion(cfg, s, receipt, dies).rollbackLog == s.rollbackLog
  {
    hide Inspect, PromotionInputs, PromotionByGrant;
  }

  /** Without evidence an attempt does nothing at all. */
  lemma AttemptUngranted(cfg: Config, s: System, a: Attempt)
    requires s.trail != [] && s.stage == Free && !Granted(cfg, s.log, a.g)
    ensures Run(cfg, s, Steps(a)) == s
  {
    hide Inspect, PromotionInputs, PromotionByGrant, Run;
    RunFive(cfg, s, Steps(a));
    FreeStepsDoNothing(cfg, s, a);
    assert Do(cfg, s, Steps(a)[0]) == s;
  }

  /**
   Whatever happened before, an attempt that finds nothing promoted completes exactly when its
   evidence stands and its lease is ready.
   */
  lemma AttemptExactly(cfg: Config, s: System, a: Attempt)
    requires Inv(cfg, s) && s.stage == Free && !HasPromotion(s.log)
    ensures s.trail != [] && (HasPromotion(Run(cfg, s, Steps(a)).log) <==> Granted(cfg, s.log, a.g) && LeaseReady(s, a))
  {
    assert s.trail != [];
    hide Inv, Granted, LeaseReady, Run, HasPromotion;
    if Granted(cfg, s.log, a.g) {
      AttemptCompletes(cfg, s, a);
    } else {
      AttemptUngranted(cfg, s, a);
    }
  }

  // ---------- Crashes ----------

  /** A crash after `k` steps, or with `k == 5` between the two appends of the last step. */
  function Crashed(cfg: Config, s: System, a: Attempt, k: nat): (r: System)
    requires s.trail != [] && k <= 5
    ensures r.trail != []
  {
    if k <= 4 then Run(cfg, s, Steps(a)[..k]).(stage := Free)
    else DoFinishPromotion(cfg, Run(cfg, s, Steps(a)[..4]), a.receipt, true).(stage := Free)
  }

  lemma CrashedHasInv(cfg: Config, s: System, a: Attempt, k: nat)
    requires Inv(cfg, s) && k <= 5
    ensures s.trail != [] && Inv(cfg, Crashed(cfg, s, a, k))
  {
    assert s.trail != [];
    hide Inv, Run, DoFinishPromotion;
    if k <= 4 {
      RunKeepsInv(cfg, s, Steps(a)[..k]);
      ReleaseKeepsInv(cfg, Run(cfg, s, Steps(a)[..k]));
    } else {
      RunKeepsInv(cfg, s, Steps(a)[..4]);
      FinishPromotionKeepsInv(cfg, Run(cfg, s, Steps(a)[..4]), a.receipt, true);
      ReleaseKeepsInv(cfg, DoFinishPromotion(cfg, Run(cfg, s, Steps(a)[..4]), a.receipt, true));
    }
  }

  /** An applied effect is no completion: the evidence stands as it did. */
  lemma EffectKeepsGranted(cfg: Config, log: seq<Event>, after: seq<Event>, p: Promotion, g: PromotionGrant)
    requires after == log + [PromotionEffectApplied(p)]
    requires AllBacked(after) && AllBacked(log) && Granted(cfg, log, g)
    ensures Granted(cfg, after, g)
  {
    assert after[..|log|] == log;
    StateOfLog(cfg, log);
    StateOfLog(cfg, after);
    Grows(log, PromotionEffectApplied(p));
    var s, t := Inspect(cfg, log), Inspect(cfg, after);
    assert t == ApplyEvent(cfg, s, PromotionEffectApplied(p));
    assert StateOf(t) == Open by {
      hide StateOf, Inspect, AllBacked, ApplyEvent, HasPromotion;
      RollbackNeedsOne(log, after, p);
    }
    hide StateOf, Inspect, AllBacked;
  }

  lemma RollbackNeedsOne(log: seq<Event>, after: seq<Event>, p: Promotion)
    requires after == log + [PromotionEffectApplied(p)]
    ensures HasRollback(after) ==> HasRollback(log)
  {
    if HasRollback(after) {
      var e :| e in after && e.RollbackCompleted?;
      assert e in log;
    }
  }

  lemma CrashKeepsGranted(cfg: Config, s: System, a: Attempt, k: nat)
    requires Inv(cfg, s) && s.stage == Free && Granted(cfg, s.log, a.g) && LeaseReady(s, a) && k <= 5
    ensures s.trail != [] && Granted(cfg, Crashed(cfg, s, a, k).log, a.g)
  {
    assert s.trail != [];
    if k == 0 {
      assert Steps(a)[..0] == [];
    } else if k <= 4 {
      ReachedBy(cfg, s, a, k);
      hide Inv, Run, Granted, LeaseReady;
    } else {
      var merged := Run(cfg, s, Steps(a)[..4]);
      ReachedBy(cfg, s, a, 4);
      RunKeepsInv(cfg, s, Steps(a)[..4]);
      CrashedHasInv(cfg, s, a, 5);
      hide Run, LeaseReady, DoFinishPromotion, Granted;
      EvidenceOutlivesEffect(cfg, merged, a);
    }
  }

  lemma EvidenceOutlivesEffect(cfg: Config, r: System, a: Attempt)
    requires Inv(cfg, r) && r.stage.Merged? && r.stage.g == a.g && Granted(cfg, r.log, a.g)
    ensures Granted(cfg, DoFinishPromotion(cfg, r, a.receipt, true).log, a.g)
    ensures var t := DoFinishPromotion(cfg, r, a.receipt, true);
      t.leases == r.leases && t.integrations == r.integrations && t.trail == r.trail
  {
    var t := DoFinishPromotion(cfg, r, a.receipt, true);
    hide Inv, Granted, DoFinishPromotion;
    OwnRecordOnly(cfg, r);
    FinishCompletes(cfg, a, r);
    FinishPromotionKeepsInv(cfg, r, a.receipt, true);
    BothBacked(cfg, r, t);
    hide AllBacked;
    if t.log != r.log {
      var p :| t.log == r.log + [PromotionEffectApplied(p)];
      EffectKeepsGranted(cfg, r.log, t.log, p, a.g);
    }
  }

  lemma BothBacked(cfg: Config, r: System, t: System)
    requires Inv(cfg, r) && Inv(cfg, t)
    ensures AllBacked(r.log) && AllBacked(t.log)
  {
  }

  /** What a crash before the last step leaves of HEAD, the leases and the recorded integrations. */
  lemma EarlyCrashLeaves(cfg: Config, s: System, a: Attempt, k: nat, b: Attempt, t: System)
    requires Inv(cfg, s) && Granted(cfg, s.log, a.g) && LeaseReady(s, a) && 1 <= k <= 4
    requires b.g == a.g && b.f == a.f && b.commit != cfg.accepted
    requires t.trail != [] && Reached(cfg, s, a, k, t)
    ensures LeaseReady(t, b) <==> !(k == 3 && |s.trail| == 1)
    ensures 2 <= k && LeaseReady(t, b) ==> Target(t, b) == Target(s, a)
  {
    GrantedState(cfg, s, a.g);
    hide AllBacked, FlightsOk, EventsOk, Granted, HasPromotion;
    if k == 1 {
    } else if k == 2 {
    } else if k == 3 {
    } else {
    }
  }

  lemma SameWorldSameReadiness(s: System, t: System, b: Attempt)
    requires s.trail != [] && t.trail == s.trail && t.leases == s.leases && t.integrations == s.integrations
    ensures LeaseReady(s, b) <==> LeaseReady(t, b)
    ensures Target(s, b) == Target(t, b)
  {
  }

  /** What the crash leaves of HEAD, the leases and the recorded integrations. */
  lemma CrashLeaves(cfg: Config, s: System, a: Attempt, k: nat, b: Attempt)
    requires Inv(cfg, s) && s.stage == Free && Granted(cfg, s.log, a.g) && LeaseReady(s, a) && k <= 5
    requires b.g == a.g && b.f == a.f && b.commit != cfg.accepted
    ensures s.trail != []
    ensures LeaseReady(Crashed(cfg, s, a, k), b) <==> !(k == 3 && |s.trail| == 1)
    ensures 2 <= k && LeaseReady(Crashed(cfg, s, a, k), b) ==> Target(Crashed(cfg, s, a, k), b) == Target(s, a)
  {
    GrantedState(cfg, s, a.g);
    if k == 0 {
      assert Steps(a)[..0] == [];
      assert LeaseReady(s, b) by { hide AllBacked, FlightsOk, EventsOk, Granted, HasPromotion; }
    } else {
      var n := if k <= 4 then k else 4;
      var r := Run(cfg, s, Steps(a)[..n]);
      ReachedBy(cfg, s, a, n);
      RunKeepsInv(cfg, s, Steps(a)[..n]);
      EarlyCrashLeaves(cfg, s, a, n, b, r);
      assert k == 5 ==> r.stage.Merged? && r.stage.g == a.g && Granted(cfg, r.log, a.g);
      hide Inv, LeaseReady, Granted, Reached, Run, DoFinishPromotion, Target;
      if k == 5 {
        EvidenceOutlivesEffect(cfg, r, a);
      }
      SameWorldSameReadiness(r, Crashed(cfg, s, a, k), b);
    }
  }

  /**
   The exact condition.  A promotion whose process died after `k` steps, retried with the same
   grant and fingerprint and nothing else in between, completes if and only if the process did
   not die between moving HEAD and marking the lease; and once the first attempt had recorded
   its integration, the retry accepts that same revision, whatever it would have built itself.
   */
  lemma RetryAfterCrash(cfg: Config, s: System, a: Attempt, k: nat, b: Attempt)
    requires Inv(cfg, s) && s.stage == Free && Granted(cfg, s.log, a.g) && LeaseReady(s, a) && k <= 5
    requires b.g == a.g && b.f == a.f && b.commit != cfg.accepted
    ensures s.trail != []
    ensures var r := Run(cfg, Crashed(cfg, s, a, k), Steps(b));
      && (HasPromotion(r.log) <==> !(k == 3 && |s.trail| == 1))
      && (HasPromotion(r.log) ==> exists accepted :: Completes(r, b, accepted) && Head(r) == accepted && |r.trail| == 2
                                                  && (2 <= k ==> accepted == Target(s, a)))
  {
    CrashedHasInv(cfg, s, a, k);
    CrashKeepsGranted(cfg, s, a, k);
    CrashLeaves(cfg, s, a, k, b);
    hide Inv, Granted, LeaseReady, Run, Completes;
    var t := Crashed(cfg, s, a, k);
    AttemptCompletes(cfg, t, b);
    if LeaseReady(t, b) {
      assert Completes(Run(cfg, t, Steps(b)), b, Target(t, b));
    }
  }
}
