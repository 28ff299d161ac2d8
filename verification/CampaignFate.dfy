/**
 Which campaigns can still complete a promotion, and what loses it.  Until HEAD moves a promotion
 can always be started over, under a new grant.  Once HEAD has moved it hangs on the one grant the
 lease was integrated under: a lease no longer in its integrated state, a candidate event, or a
 further evaluation or review of the candidate while nobody is at work ends it for good.
 */
module CampaignFate {
  import opened Wrappers
  import opened Campaign
  import opened CampaignLog
  import opened CampaignSystem
  import opened CampaignRuns
  import opened CampaignRecovery
  import opened CampaignLoss
  import opened CampaignRenewal
  import opened CampaignAuthority

  /** Some run of requests completes a promotion. */
  ghost predicate CanComplete(cfg: Config, a: Authority)
    requires a.base.trail != []
  {
    exists more: seq<Request> :: HasPromotion(After(cfg, a, more).base.log)
  }

  // ---------- The condition ----------

  /** Past the check of its scope, and not yet past the lease. */
  predicate UnderWay(a: Authority, g: PromotionGrant) {
    (a.admitted.Some? && a.admitted.value.g == g) || (a.base.stage.Promoting? && a.base.stage.g == g)
  }

  /** The grant's evidence stands, and its scope is the current one or need not be looked at again. */
  ghost predicate Alive(cfg: Config, a: Authority, g: PromotionGrant) {
    Granted(cfg, a.base.log, g) && (Scoped(cfg, a.base.log, g) || UnderWay(a, g))
  }

  predicate IntegratedFor(leases: map<string, Lease>, id: string, grant: string) {
    id in leases && leases[id].state == LeaseIntegrated && leases[id].integration.Some?
    && leases[id].integration.value.grant == grant
  }

  /** The lease is still integrated, under a grant that is still alive. */
  ghost predicate Redeemable(cfg: Config, a: Authority, id: string, grant: string) {
    IntegratedFor(a.base.leases, id, grant) && grant in a.grants && Alive(cfg, a, a.grants[grant])
  }

  /** HEAD has been moved by the promotion under way. */
  predicate PastHead(stage: Stage) {
    stage.HeadMoved? || stage.Merged?
  }

  ghost predicate SomeRedeemable(cfg: Config, a: Authority) {
    exists id, grant :: Redeemable(cfg, a, id, grant)
  }

  /** What is left once HEAD has moved: the promotion under way, or the integrated lease. */
  ghost predicate InReach(cfg: Config, a: Authority) {
    (PastHead(a.base.stage) && Granted(cfg, a.base.log, a.base.stage.g)) || SomeRedeemable(cfg, a)
  }

  /** The author is neither the evaluator nor the reviewer: otherwise every candidate is rejected. */
  predicate MayAdmit(cfg: Config) {
    cfg.author != cfg.evaluator && cfg.author != cfg.reviewer
  }

  ghost predicate Completable(cfg: Config, a: Authority) {
    if |a.base.trail| == 1 then MayAdmit(cfg) else InReach(cfg, a)
  }

  /** HEAD has moved, nothing was completed, and nothing is left to complete it with. */
  ghost predicate Doomed(cfg: Config, a: Authority) {
    |a.base.trail| == 2 && !HasPromotion(a.base.log) && !InReach(cfg, a)
  }

  // ---------- Nothing comes back within reach ----------

  /** The promotion under way has its lease integrated already. */
  ghost predicate Redeeming(a: Authority, g: PromotionGrant) {
    UnderWay(a, g) && g.id in a.grants && a.grants[g.id] == g && exists id :: IntegratedFor(a.base.leases, id, g.id)
  }

  /** Whatever `b` has left, `a` had before. */
  ghost predicate Fades(cfg: Config, a: Authority, b: Authority) {
    && b.base.trail == a.base.trail && a.base.log <= b.base.log && !HasPromotion(b.base.log)
    && KeepsGrants(a, b)
    && (forall g :: UnderWay(b, g) ==> UnderWay(a, g) || Scoped(cfg, a.base.log, g))
    && (PastHead(b.base.stage) ==>
          || (PastHead(a.base.stage) && b.base.stage.g == a.base.stage.g)
          || Redeeming(a, b.base.stage.g))
    && (forall id, grant :: IntegratedFor(b.base.leases, id, grant) ==>
          || IntegratedFor(a.base.leases, id, grant)
          || (a.base.stage.HeadMoved? && grant == a.base.stage.g.id))
  }

  lemma StillGranted(cfg: Config, a: Authority, b: Authority, g: PromotionGrant)
    requires Sound(cfg, a) && Sound(cfg, b) && a.base.log <= b.base.log
    requires !HasPromotion(a.base.log) && !HasPromotion(b.base.log)
    requires OnceGranted(cfg, a.base.log, g) && Granted(cfg, b.base.log, g)
    ensures Granted(cfg, a.base.log, g)
  {
    hide Sound, Granted, OnceGranted, HasPromotion, AllBacked, Inv;
    SoundParts(cfg, a);
    SoundParts(cfg, b);
    BothBacked(cfg, a.base, b.base);
    if !Granted(cfg, a.base.log, g) {
      StaysStale(cfg, a.base.log, b.base.log, g);
    }
  }

  lemma StillScoped(cfg: Config, a: Authority, b: Authority, g: PromotionGrant)
    requires Sound(cfg, b) && a.base.log <= b.base.log
    requires OnceScoped(cfg, a.base.log, g) && Scoped(cfg, b.base.log, g)
    ensures Scoped(cfg, a.base.log, g)
  {
    hide Sound, Scoped, OnceScoped, DistinctReceipts, Inv, Custody, Inspect;
    SoundParts(cfg, b);
    if !Scoped(cfg, a.base.log, g) {
      ScopeStaysLost(cfg, a.base.log, b.base.log, g);
    }
  }

  /** What is known of the grant an integrated lease names. */
  lemma IntegratedIsHeld(cfg: Config, a: Authority, id: string, grant: string)
    requires Sound(cfg, a) && IntegratedFor(a.base.leases, id, grant)
    ensures Marked(a.base.leases, id) && grant in a.grants && a.grants[grant].id == grant && a.grants[grant].lease == id
    ensures Held(a, a.grants[grant], a.base.leases[id].integration.value.fingerprint)
    ensures OnceGranted(cfg, a.base.log, a.grants[grant]) && OnceScoped(cfg, a.base.log, a.grants[grant])
  {
    hide Inv, Custody, OnceGranted, OnceScoped, DistinctReceipts, Inspect, Held;
    assert Marked(a.base.leases, id);
    assert MarkHeld(cfg, a, id, a.base.leases[id].integration.value);
  }

  /** And of the grant of a promotion under way. */
  lemma StageIsHeld(cfg: Config, a: Authority)
    requires Sound(cfg, a) && (AboutToMark(a.base.stage) || a.base.stage.Merged?)
    ensures Held(a, a.base.stage.g, a.base.stage.f)
    ensures OnceGranted(cfg, a.base.log, a.base.stage.g)
  {
    hide Inv, OnceGranted, OnceScoped, DistinctReceipts, Inspect, Held, Found, LeaseBacked;
  }

  /** What is within reach after a step that fades was so before it. */
  lemma InReachBefore(cfg: Config, a: Authority, b: Authority)
    requires Sound(cfg, a) && Sound(cfg, b) && !HasPromotion(a.base.log) && Fades(cfg, a, b) && InReach(cfg, b)
    ensures InReach(cfg, a)
  {
    hide Sound, Granted, Scoped, HasPromotion, OnceGranted, OnceScoped, UnderWay, Redeemable, Held;
    if PastHead(b.base.stage) && Granted(cfg, b.base.log, b.base.stage.g) {
      PastHeadBefore(cfg, a, b);
    } else {
      var id, grant :| Redeemable(cfg, b, id, grant);
      RedeemableBefore(cfg, a, b, id, grant);
    }
  }

  lemma PastHeadBefore(cfg: Config, a: Authority, b: Authority)
    requires Sound(cfg, a) && Sound(cfg, b) && !HasPromotion(a.base.log) && Fades(cfg, a, b)
    requires PastHead(b.base.stage) && Granted(cfg, b.base.log, b.base.stage.g)
    ensures InReach(cfg, a)
  {
    hide Sound, Granted, Scoped, HasPromotion, OnceGranted, OnceScoped, UnderWay, Held, KeepsGrants;
    var g := b.base.stage.g;
    if PastHead(a.base.stage) && g == a.base.stage.g {
      StageIsHeld(cfg, a);
      StillGranted(cfg, a, b, g);
    } else {
      var id :| IntegratedFor(a.base.leases, id, g.id);
      IntegratedIsHeld(cfg, a, id, g.id);
      StillGranted(cfg, a, b, g);
      assert Redeemable(cfg, a, id, g.id);
    }
  }

  lemma RedeemableBefore(cfg: Config, a: Authority, b: Authority, id: string, grant: string)
    requires Sound(cfg, a) && Sound(cfg, b) && !HasPromotion(a.base.log) && Fades(cfg, a, b)
    requires Redeemable(cfg, b, id, grant)
    ensures InReach(cfg, a)
  {
    hide Sound, Granted, Scoped, HasPromotion, OnceGranted, OnceScoped, UnderWay, IntegratedFor, KeepsGrants;
    if IntegratedFor(a.base.leases, id, grant) {
      IntegratedIsHeld(cfg, a, id, grant);
      SameGrant(a, b, grant);
      var g := a.grants[grant];
      StillGranted(cfg, a, b, g);
      if Scoped(cfg, b.base.log, g) {
        StillScoped(cfg, a, b, g);
      }
      assert Redeemable(cfg, a, id, grant);
    } else {
      StageIsHeld(cfg, a);
      SameGrant(a, b, grant);
      StillGranted(cfg, a, b, a.base.stage.g);
    }
  }

  // ---------- Every step of a doomed campaign fades ----------

  /** With HEAD moved and nothing promoted nobody is rolling back, and no integration is about to move HEAD. */
  lemma MovedStages(cfg: Config, s: System)
    requires Inv(cfg, s) && |s.trail| == 2 && !HasPromotion(s.log)
    ensures Head(s) != cfg.accepted && NotRollingBack(s.stage) && !s.stage.Committed?
    ensures s.stage.Promoting? || PastHead(s.stage) ==> s.stage.g.predecessor == cfg.accepted
    ensures s.stage.HeadMoved? ==> s.stage.g.lease in s.leases && forall id :: !Marked(s.leases, id)
  {
    hide AllBacked, FlightsOk, EventsOk, LeasesOk;
    if !NotRollingBack(s.stage) {
      CompletionPromotes(s.log, s.stage.p);
    }
  }

  lemma CompletionPromotes(log: seq<Event>, p: Promotion)
    requires PromotionCompleted(p) in log
    ensures HasPromotion(log)
  {
    assert PromotionCompleted(p).PromotionCompleted?;
  }

  /** What a step of the campaign does that leaves the log's promises alone. */
  ghost predicate FadesBelow(s: System, t: System) {
    && t.trail == s.trail && CompletesNothing(s.log, t.log)
    && (t.stage == s.stage || t.stage == Free || t.stage.RollingBack?)
    && (forall id, grant :: IntegratedFor(t.leases, id, grant) ==> IntegratedFor(s.leases, id, grant))
  }

  lemma EvidenceStepFades(cfg: Config, s: System, action: Action)
    requires s.trail != []
    requires action.AddCandidate? || action.BeginEvaluation? || action.FinishEvaluation? || action.BeginReview?
      || action.FinishReview?
    ensures FadesBelow(s, Do(cfg, s, action))
  {
    hide Do;
    EvidenceStepCompletesNothing(cfg, s, action);
  }

  lemma LeaseStepFades(cfg: Config, s: System, action: Action)
    requires s.trail != [] && (action.SetLease? || action.CleanUp? || action.Crash?)
    ensures FadesBelow(s, Do(cfg, s, action))
  {
  }

  lemma RollbackStepFades(cfg: Config, s: System, action: Action)
    requires s.trail != [] && NotRollingBack(s.stage)
    requires action.BeginRollback? || action.LogRollback? || action.MoveBack? || action.LogRestored?
      || action.FinishRollback?
    ensures FadesBelow(s, Do(cfg, s, action))
  {
    hide Do;
    if action.BeginRollback? {
      BeginRollbackStays(cfg, s, action.b, action.fingerprint, action.newId);
    } else {
      NothingToRestore(cfg, s, action);
    }
  }

  /** The last section of a promotion whose evidence is gone lets go. */
  lemma StaleFinishFades(cfg: Config, s: System, receipt: string, dies: bool)
    requires s.trail != [] && (s.stage.Merged? ==> PromotionInputs(cfg, Inspect(cfg, s.log), s.stage.g, true).None?)
    ensures FadesBelow(s, Do(cfg, s, FinishPromotion(receipt, dies)))
  {
    hide Inspect, PromotionInputs, PromotionByGrant;
  }

  lemma FadesByStep(cfg: Config, a: Authority, action: Action)
    requires a.base.trail != [] && !HasPromotion(a.base.log) && !Barred(cfg, a, action)
    requires FadesBelow(a.base, Do(cfg, a.base, action))
    ensures Fades(cfg, a, Perform(cfg, a, Other(action)))
  {
    hide Do, Barred, Scoped, IntegratedFor, HasPromotion, KeepsGrants, CompletesNothing, Redeeming;
    PerformKeepsGrants(cfg, a, Other(action));
    StillNotPromoted(a.base.log, Do(cfg, a.base, action).log);
  }

  lemma ReconcileFades(cfg: Config, a: Authority, commit: string)
    requires a.base.trail != [] && Sound(cfg, a) && |a.base.trail| == 2 && !HasPromotion(a.base.log)
    ensures Fades(cfg, a, Perform(cfg, a, Other(Reconcile(commit))))
  {
    hide Sound, Inv, HasPromotion, KeepsGrants, Scoped, Held;
    SoundParts(cfg, a);
    MovedStages(cfg, a.base);
    PerformKeepsGrants(cfg, a, Other(Reconcile(commit)));
    PlainPerforms(cfg, a, Reconcile(commit));
    if a.base.stage.Promoting? {
      StageIsHeld(cfg, a);
      HeldGrant(a, a.base.stage.g, a.base.stage.f);
      ReconcileMerges(cfg, a.base, commit);
      if Do(cfg, a.base, Reconcile(commit)).stage.Merged? {
        assert IntegratedFor(a.base.leases, a.base.stage.g.lease, a.base.stage.g.id);
      }
    }
    hide DoReconcile;
  }

  lemma HeldGrant(a: Authority, g: PromotionGrant, f: string)
    requires Held(a, g, f)
    ensures g.id in a.grants && a.grants[g.id] == g && g.id in a.consumed && a.consumed[g.id] == f
  {
  }

  /** With HEAD moved, reconciling finds the lease integrated for this very request or refuses. */
  lemma ReconcileMerges(cfg: Config, s: System, commit: string)
    requires s.trail != [] && s.stage.Promoting? && Head(s) != cfg.accepted && s.stage.g.predecessor == cfg.accepted
    ensures var t := Do(cfg, s, Reconcile(commit));
      && t == s.(stage := t.stage) && (t.stage == Free || (t.stage.Merged? && t.stage.g == s.stage.g))
      && (t.stage.Merged? ==> IntegratedFor(s.leases, s.stage.g.lease, s.stage.g.id))
  {
  }

  lemma MarkFades(cfg: Config, a: Authority, receipt: string)
    requires a.base.trail != [] && !HasPromotion(a.base.log)
    ensures Fades(cfg, a, Perform(cfg, a, Other(MarkLease(receipt))))
  {
    hide HasPromotion, KeepsGrants, Scoped, Redeeming;
    PerformKeepsGrants(cfg, a, Other(MarkLease(receipt)));
    PlainPerforms(cfg, a, MarkLease(receipt));
    hide Perform;
  }

  lemma MoveFades(cfg: Config, a: Authority)
    requires a.base.trail != [] && !HasPromotion(a.base.log) && !a.base.stage.Committed?
    ensures Fades(cfg, a, Perform(cfg, a, Other(MoveHead)))
  {
    hide HasPromotion, KeepsGrants, Scoped, Redeeming;
    PerformKeepsGrants(cfg, a, Other(MoveHead));
    PlainPerforms(cfg, a, MoveHead);
    hide Perform;
  }

  lemma OtherFades(cfg: Config, a: Authority, action: Action)
    requires a.base.trail != [] && Sound(cfg, a) && Doomed(cfg, a) && !Barred(cfg, a, action)
    ensures Fades(cfg, a, Perform(cfg, a, Other(action)))
  {
    hide Sound, Inv, HasPromotion, Perform, Do, Fades, FadesBelow, Barred, Granted, Inspect, PromotionInputs, StateOf,
      SomeRedeemable;
    SoundParts(cfg, a);
    MovedStages(cfg, a.base);
    if action.Reconcile? {
      ReconcileFades(cfg, a, action.commit);
    } else if action.MarkLease? {
      MarkFades(cfg, a, action.receipt);
    } else if action.MoveHead? {
      MoveFades(cfg, a);
    } else {
      if action.FinishPromotion? {
        StaleInputs(cfg, a.base);
        StaleFinishFades(cfg, a.base, action.receipt, action.dies);
      } else if action.SetLease? || action.CleanUp? || action.Crash? {
        LeaseStepFades(cfg, a.base, action);
      } else if action.AddCandidate? || action.BeginEvaluation? || action.FinishEvaluation? || action.BeginReview?
        || action.FinishReview? {
        EvidenceStepFades(cfg, a.base, action);
      } else {
        NotBeginning(cfg, a, action);
        RollbackStepFades(cfg, a.base, action);
      }
      FadesByStep(cfg, a, action);
    }
  }

  lemma NotBeginning(cfg: Config, a: Authority, action: Action)
    requires !Barred(cfg, a, action)
    ensures !action.BeginPromotion?
  {
  }

  /** In an open campaign the check for a promotion already on record asks for the same evidence. */
  lemma StaleInputs(cfg: Config, s: System)
    requires Inv(cfg, s) && !HasPromotion(s.log)
    ensures s.stage.Merged? && !Granted(cfg, s.log, s.stage.g) ==>
      PromotionInputs(cfg, Inspect(cfg, s.log), s.stage.g, true).None?
  {
    hide Inv, Inspect, StateOf, HasPromotion;
    OpenCampaign(cfg, s);
  }

  lemma PromoteFades(cfg: Config, a: Authority, newId: string)
    requires a.base.trail != [] && !HasPromotion(a.base.log)
    ensures Fades(cfg, a, Perform(cfg, a, Promote(newId)))
  {
    hide HasPromotion, KeepsGrants, Scoped, Redeeming, DoBeginPromotion, CompletesNothing;
    PerformKeepsGrants(cfg, a, Promote(newId));
    if a.admitted.Some? {
      BeginningCompletesNothing(cfg, a.base, a.admitted.value.g, a.admitted.value.f, newId);
      StillNotPromoted(a.base.log, Perform(cfg, a, Promote(newId)).base.log);
    }
  }

  lemma BeginningCompletesNothing(cfg: Config, s: System, g: PromotionGrant, f: string, newId: string)
    ensures var t := DoBeginPromotion(cfg, s, g, f, newId);
      && CompletesNothing(s.log, t.log) && t.trail == s.trail && t.leases == s.leases
      && (t.stage == s.stage || (t.stage.Promoting? && t.stage.g == g))
  {
    hide Inspect, PromotionByGrant, PromotionInputs;
  }

  lemma PaperFades(cfg: Config, a: Authority, r: Request)
    requires a.base.trail != [] && !HasPromotion(a.base.log) && (r.Retain? || r.Consume? || r.Admit?)
    ensures Fades(cfg, a, Perform(cfg, a, r))
  {
    hide HasPromotion, KeepsGrants, Scoped, Redeeming;
    PerformKeepsGrants(cfg, a, r);
  }

  lemma BarredFades(cfg: Config, a: Authority, action: Action)
    requires a.base.trail != [] && !HasPromotion(a.base.log) && Barred(cfg, a, action)
    ensures Fades(cfg, a, Perform(cfg, a, Other(action)))
  {
    hide HasPromotion, KeepsGrants, Scoped, Redeeming, Barred;
    PerformKeepsGrants(cfg, a, Other(action));
  }

  lemma DoomedStep(cfg: Config, a: Authority, r: Request)
    requires a.base.trail != [] && Sound(cfg, a) && Doomed(cfg, a)
    ensures var b := Perform(cfg, a, r); Doomed(cfg, b) && b.base.trail == a.base.trail
  {
    hide Sound, HasPromotion, Perform, InReach, Barred;
    PerformKeepsSound(cfg, a, r);
    if r.Promote? {
      PromoteFades(cfg, a, r.newId);
    } else if !r.Other? {
      PaperFades(cfg, a, r);
    } else if Barred(cfg, a, r.action) {
      BarredFades(cfg, a, r.action);
    } else {
      OtherFades(cfg, a, r.action);
    }
    if InReach(cfg, Perform(cfg, a, r)) {
      InReachBefore(cfg, a, Perform(cfg, a, r));
    }
  }

  /** From a doomed campaign no request, under any grant, ever completes a promotion, and HEAD never moves again. */
  lemma {:induction false} DoomedForever(cfg: Config, a: Authority, more: seq<Request>)
    requires a.base.trail != [] && Sound(cfg, a) && Doomed(cfg, a)
    ensures var b := After(cfg, a, more); Doomed(cfg, b) && b.base.trail == a.base.trail && !HasPromotion(b.base.log)
  {
    hide Sound, InReach, HasPromotion, Perform;
    if more == [] {
    } else {
      var before := more[..|more| - 1];
      DoomedForever(cfg, a, before);
      AfterKeepsSound(cfg, a, before);
      DoomedStep(cfg, After(cfg, a, before), more[|more| - 1]);
    }
  }

  // ---------- What is within reach can be completed ----------

  lemma CompletesAfter(cfg: Config, a: Authority, first: seq<Request>)
    requires a.base.trail != [] && CanComplete(cfg, After(cfg, a, first))
    ensures CanComplete(cfg, a)
  {
    hide Perform, HasPromotion, After;
    var second :| HasPromotion(After(cfg, After(cfg, a, first), second).base.log);
    AfterComposes(cfg, a, first, second);
    assert HasPromotion(After(cfg, a, first + second).base.log);
  }

  lemma CompletesOneLater(cfg: Config, a: Authority, r: Request)
    requires a.base.trail != [] && CanComplete(cfg, Perform(cfg, a, r))
    ensures CanComplete(cfg, a)
  {
    hide Perform, CanComplete, After;
    AfterOne(cfg, a, r);
    CompletesAfter(cfg, a, [r]);
  }

  lemma CompletesNow(cfg: Config, a: Authority)
    requires a.base.trail != [] && HasPromotion(a.base.log)
    ensures CanComplete(cfg, a)
  {
    hide HasPromotion;
    AfterNothing(cfg, a);
  }

  /** The last section, on evidence that stands. */
  lemma MergedCompletes(cfg: Config, a: Authority)
    requires a.base.trail != [] && a.base.stage.Merged? && Inv(cfg, a.base) && Granted(cfg, a.base.log, a.base.stage.g)
    ensures CanComplete(cfg, a)
  {
    hide Inv, Granted, HasPromotion, CanComplete, Perform, Do;
    MergedFinishes(cfg, a.base);
    PlainPerforms(cfg, a, FinishPromotion("", false));
    CompletesNow(cfg, Perform(cfg, a, Other(FinishPromotion("", false))));
    CompletesOneLater(cfg, a, Other(FinishPromotion("", false)));
  }

  lemma MergedFinishes(cfg: Config, s: System)
    requires s.trail != [] && s.stage.Merged? && Inv(cfg, s) && Granted(cfg, s.log, s.stage.g)
    ensures HasPromotion(Do(cfg, s, FinishPromotion("", false)).log)
  {
    hide Inv, Granted, DoFinishPromotion, Inspect, PromotionByGrant, Completes, HasPromotion, PromotionInputs, Do;
    OwnRecordOnly(cfg, s);
    var a := CampaignRecovery.Attempt(s.stage.g, s.stage.f, "", "", "", "");
    FinishCompletes(cfg, a, s);
    FinishingIs(cfg, s, "", false);
    CompletedIsPromoted(DoFinishPromotion(cfg, s, "", false), a, s.stage.i.accepted);
  }

  lemma CompletedIsPromoted(s: System, a: Attempt, accepted: string)
    requires Completes(s, a, accepted)
    ensures HasPromotion(s.log)
  {
    assert s.log[|s.log| - 1] in s.log;
  }

  lemma HeadMovedMerges(cfg: Config, s: System)
    requires s.trail != [] && s.stage.HeadMoved? && Inv(cfg, s)
    ensures var t := Do(cfg, s, MarkLease("")); t.stage.Merged? && t.stage.g == s.stage.g && t.log == s.log
  {
    hide AllBacked, FlightsOk, EventsOk, LeasesOk, HasPromotion;
  }

  lemma HeadMovedCompletes(cfg: Config, a: Authority)
    requires a.base.trail != [] && a.base.stage.HeadMoved? && Inv(cfg, a.base)
    requires Granted(cfg, a.base.log, a.base.stage.g)
    ensures CanComplete(cfg, a)
  {
    hide Inv, Granted, HasPromotion, CanComplete, Perform, Do;
    HeadMovedMerges(cfg, a.base);
    StepKeepsInv(cfg, a.base, MarkLease(""));
    PlainPerforms(cfg, a, MarkLease(""));
    MergedCompletes(cfg, Perform(cfg, a, Other(MarkLease(""))));
    CompletesOneLater(cfg, a, Other(MarkLease("")));
  }

  /** The request that a held grant was consumed for, made again. */
  function Again(a: Authority, g: PromotionGrant, f: string): Attempt {
    CampaignRecovery.Attempt(g, f, "", "", "", "")
  }

  lemma IntegratedIsReady(cfg: Config, s: System, id: string, a: Attempt)
    requires s.trail != [] && IntegratedFor(s.leases, id, a.g.id) && a.g.lease == id
    requires a.f == s.leases[id].integration.value.fingerprint
    ensures LeaseReady(s, a)
  {
  }

  lemma CrashedSame(cfg: Config, a: Authority)
    requires a.base.trail != []
    ensures var b := Perform(cfg, a, Other(Crash));
      && NobodyAtWork(b) && b.base.log == a.base.log && b.base.leases == a.base.leases && b.base.trail == a.base.trail
      && b.base.integrations == a.base.integrations && b.grants == a.grants && b.consumed == a.consumed
  {
    hide Perform;
    CrashPerforms(cfg, a);
  }

  /**
   Nobody at work, the lease integrated, its grant's evidence and scope standing: the request made
   again completes.
   */
  lemma ScopedCompletes(cfg: Config, a: Authority, id: string, grant: string)
    requires a.base.trail != [] && Sound(cfg, a) && NobodyAtWork(a) && !HasPromotion(a.base.log)
    requires IntegratedFor(a.base.leases, id, grant) && grant in a.grants
    requires Granted(cfg, a.base.log, a.grants[grant]) && Scoped(cfg, a.base.log, a.grants[grant])
    ensures CanComplete(cfg, a)
  {
    hide Sound, Inv, HasPromotion, Granted, Scoped, CanComplete, LeaseReady, EntrySteps, EntryOpen, Held;
    IntegratedIsHeld(cfg, a, id, grant);
    var x := Again(a, a.grants[grant], a.base.leases[id].integration.value.fingerprint);
    OpenOrOvertaken(cfg, a, x);
    IntegratedIsReady(cfg, a.base, id, x);
    SoundParts(cfg, a);
    EntryExactly(cfg, a, x);
    CompletesNow(cfg, After(cfg, a, EntrySteps(x)));
    CompletesAfter(cfg, a, EntrySteps(x));
  }

  /** A request that was let through before its scope was overtaken still completes. */
  lemma AdmittedCompletes(cfg: Config, a: Authority, id: string, grant: string)
    requires a.base.trail != [] && Sound(cfg, a) && !HasPromotion(a.base.log)
    requires IntegratedFor(a.base.leases, id, grant) && grant in a.grants && Granted(cfg, a.base.log, a.grants[grant])
    requires a.admitted.Some? && a.admitted.value.g == a.grants[grant]
    ensures CanComplete(cfg, a)
  {
    hide Sound, Inv, HasPromotion, Granted, CanComplete, LeaseReady, Held, After, Run, Do;
    SoundParts(cfg, a);
    IntegratedIsHeld(cfg, a, id, grant);
    var g, f := a.grants[grant], a.admitted.value.f;
    SameFingerprint(cfg, a, g, f, a.base.leases[id].integration.value.fingerprint);
    var x := Again(a, g, f);
    IntegratedIsReady(cfg, a.base, id, x);
    AttemptExactly(cfg, a.base, x);
    FirstThenRest(cfg, a.base, Steps(x));
    PromotePerforms(cfg, a, "");
    var b := Perform(cfg, a, Promote(""));
    OthersRun(cfg, b, Steps(x)[1..]);
    CompletesNow(cfg, After(cfg, b, OtherAll(Steps(x)[1..])));
    CompletesAfter(cfg, b, OtherAll(Steps(x)[1..]));
    CompletesOneLater(cfg, a, Promote(""));
  }

  lemma SameFingerprint(cfg: Config, a: Authority, g: PromotionGrant, f: string, e: string)
    requires AdmissionOk(cfg, a) && a.admitted == Some(Admission(g, f)) && Held(a, g, e)
    ensures f == e && a.base.stage == Free
  {
    hide OnceScoped;
  }

  lemma PromotePerforms(cfg: Config, a: Authority, newId: string)
    requires a.base.trail != [] && a.admitted.Some?
    ensures var g, f := a.admitted.value.g, a.admitted.value.f;
      Perform(cfg, a, Promote(newId)) == a.(base := Do(cfg, a.base, BeginPromotion(g, f, newId)), admitted := None)
  {
    hide DoBeginPromotion;
  }

  /** So does one that has begun: it finds the lease integrated for it. */
  lemma PromotingCompletes(cfg: Config, a: Authority, id: string, grant: string)
    requires a.base.trail != [] && Sound(cfg, a) && !HasPromotion(a.base.log) && |a.base.trail| == 2
    requires IntegratedFor(a.base.leases, id, grant) && grant in a.grants && Granted(cfg, a.base.log, a.grants[grant])
    requires a.base.stage.Promoting? && a.base.stage.g == a.grants[grant]
    ensures CanComplete(cfg, a)
  {
    hide Sound, Inv, HasPromotion, Granted, CanComplete, Held, Perform, Do;
    SoundParts(cfg, a);
    IntegratedIsHeld(cfg, a, id, grant);
    StageIsHeld(cfg, a);
    OneFingerprint(a, a.grants[grant], a.base.stage.f, a.base.leases[id].integration.value.fingerprint);
    PromotingMerges(cfg, a.base, id);
    StepKeepsInv(cfg, a.base, Reconcile(""));
    PlainPerforms(cfg, a, Reconcile(""));
    MergedCompletes(cfg, Perform(cfg, a, Other(Reconcile(""))));
    CompletesOneLater(cfg, a, Other(Reconcile("")));
  }

  lemma OneFingerprint(a: Authority, g: PromotionGrant, f: string, e: string)
    requires Held(a, g, f) && Held(a, g, e)
    ensures f == e
  {
  }

  lemma PromotingMerges(cfg: Config, s: System, id: string)
    requires Inv(cfg, s) && |s.trail| == 2 && s.stage.Promoting?
    requires IntegratedFor(s.leases, id, s.stage.g.id) && s.stage.g.lease == id
    requires s.stage.f == s.leases[id].integration.value.fingerprint
    ensures var t := Do(cfg, s, Reconcile("")); t.stage.Merged? && t.stage.g == s.stage.g && t.log == s.log
  {
    assert Marked(s.leases, id);
    hide AllBacked, FlightsOk, EventsOk, HasPromotion;
  }

  lemma RedeemableCompletes(cfg: Config, a: Authority, id: string, grant: string)
    requires a.base.trail != [] && Sound(cfg, a) && !HasPromotion(a.base.log) && |a.base.trail| == 2
    requires Redeemable(cfg, a, id, grant)
    ensures CanComplete(cfg, a)
  {
    hide Sound, HasPromotion, Granted, Scoped, CanComplete, Perform, IntegratedFor;
    if Scoped(cfg, a.base.log, a.grants[grant]) {
      var b := Perform(cfg, a, Other(Crash));
      CrashedSame(cfg, a);
      PerformKeepsSound(cfg, a, Other(Crash));
      ScopedCompletes(cfg, b, id, grant);
      CompletesOneLater(cfg, a, Other(Crash));
    } else if a.admitted.Some? && a.admitted.value.g == a.grants[grant] {
      AdmittedCompletes(cfg, a, id, grant);
    } else {
      PromotingCompletes(cfg, a, id, grant);
    }
  }

  lemma InReachCompletes(cfg: Config, a: Authority)
    requires a.base.trail != [] && Sound(cfg, a) && !HasPromotion(a.base.log) && |a.base.trail| == 2 && InReach(cfg, a)
    ensures CanComplete(cfg, a)
  {
    hide Sound, HasPromotion, Granted, CanComplete, Redeemable, Inv;
    SoundParts(cfg, a);
    if a.base.stage.HeadMoved? && Granted(cfg, a.base.log, a.base.stage.g) {
      HeadMovedCompletes(cfg, a);
    } else if a.base.stage.Merged? && Granted(cfg, a.base.log, a.base.stage.g) {
      MergedCompletes(cfg, a);
    } else {
      var id, grant :| Redeemable(cfg, a, id, grant);
      RedeemableCompletes(cfg, a, id, grant);
    }
  }

  // ---------- Before HEAD moves ----------

  /** The renewal goes through: its receipts are new. */
  lemma RenewalPerforms(cfg: Config, a: Authority, snap: Snapshot, c: Candidate)
    requires a.base.trail != [] && Inspect(cfg, a.base.log) == snap && StateOf(snap) == Open
    requires FindCandidate(snap.candidates, c.id) == Some(c) && c.outcome == Admitted
    ensures After(cfg, a, OtherAll(Renewal(cfg, snap, c))) == a.(base := Run(cfg, a.base, Renewal(cfg, snap, c)))
  {
    hide Perform, Do, Inspect, StateOf, FindCandidate, Renewal, Plain, After, Run;
    var steps := Renewal(cfg, snap, c);
    var s1 := Do(cfg, a.base, steps[0]);
    var s2 := Do(cfg, s1, steps[1]);
    var s3 := Do(cfg, s2, steps[2]);
    FourSteps(cfg, a.base, steps);
    FourRequests(cfg, a, OtherAll(steps));
    RenewalKinds(cfg, snap, c);
    PlainPerforms(cfg, a, steps[0]);
    PlainAddsNoEvidence(cfg, a.base, steps[0]);
    EvaluationPerforms(cfg, a.(base := s1), snap, c);
    EvaluationSparesReviews(cfg, s1, steps[1]);
    PlainPerforms(cfg, a.(base := s2), steps[2]);
    PlainAddsNoEvidence(cfg, s2, steps[2]);
    ReviewPerforms(cfg, a.(base := s3), snap, c);
  }

  lemma RenewalKinds(cfg: Config, snap: Snapshot, c: Candidate)
    ensures var steps := Renewal(cfg, snap, c); Plain(steps[0]) && steps[1].FinishEvaluation? && Plain(steps[2])
  {
    hide CleanPass, CleanApproval;
  }

  lemma PlainAddsNoEvidence(cfg: Config, s: System, action: Action)
    requires s.trail != [] && Plain(action)
    ensures var before, after := Inspect(cfg, s.log), Inspect(cfg, Do(cfg, s, action).log);
      after.evaluations == before.evaluations && after.reviews == before.reviews
  {
    hide Do, Inspect;
    StepAddsNoEvidence(cfg, s, action);
    SameEvidence(cfg, s.log, Do(cfg, s, action).log);
  }

  lemma FourRequests(cfg: Config, a: Authority, requests: seq<Request>)
    requires a.base.trail != [] && |requests| == 4
    ensures After(cfg, a, requests) ==
      Perform(cfg, Perform(cfg, Perform(cfg, Perform(cfg, a, requests[0]), requests[1]), requests[2]), requests[3])
  {
    hide Perform;
    assert requests[..4] == requests && requests[..0] == [];
    AfterOneMore(cfg, a, requests, 0);
    AfterOneMore(cfg, a, requests, 1);
    AfterOneMore(cfg, a, requests, 2);
    AfterOneMore(cfg, a, requests, 3);
  }

  lemma EvaluationSparesReviews(cfg: Config, s: System, action: Action)
    requires s.trail != [] && action.FinishEvaluation?
    ensures Inspect(cfg, Do(cfg, s, action).log).reviews == Inspect(cfg, s.log).reviews
  {
    hide Do, Inspect;
    EvaluationLands(cfg, s, action);
    var t := Do(cfg, s, action);
    if t.log != s.log {
      LandedEvaluation(cfg, s.log, t.log, action.flight.c.id, action.receipt);
    }
  }

  lemma {:induction false} NewNameOfEvaluations(es: seq<Evaluation>)
    ensures forall e :: e in es ==> e.receipt != NewName(EvaluationNames(es))
  {
    forall e | e in es ensures e.receipt != NewName(EvaluationNames(es)) {
      EvaluationIsNamed(es, e);
      assert e.receipt in EvaluationNames(es);
    }
  }

  lemma {:induction false} EvaluationIsNamed(es: seq<Evaluation>, e: Evaluation)
    requires e in es
    ensures e.receipt in EvaluationNames(es)
  {
    if es[0] == e {
    } else {
      EvaluationIsNamed(es[1..], e);
    }
  }

  lemma {:induction false} ReviewIsNamed(rs: seq<Review>, r: Review)
    requires r in rs
    ensures r.receipt in ReviewNames(rs)
  {
    if rs[0] == r {
    } else {
      ReviewIsNamed(rs[1..], r);
    }
  }

  lemma NewNameOfReviews(rs: seq<Review>)
    ensures forall r :: r in rs ==> r.receipt != NewName(ReviewNames(rs))
  {
    forall r | r in rs ensures r.receipt != NewName(ReviewNames(rs)) {
      ReviewIsNamed(rs, r);
      assert r.receipt in ReviewNames(rs);
    }
  }

  lemma EvaluationPerforms(cfg: Config, a: Authority, snap: Snapshot, c: Candidate)
    requires a.base.trail != [] && Inspect(cfg, a.base.log).evaluations == snap.evaluations
    ensures var action := Renewal(cfg, snap, c)[1];
      Perform(cfg, a, Other(action)) == a.(base := Do(cfg, a.base, action))
  {
    hide Do, Inspect, NewName, EvaluationNames, ReviewNames;
    NewNameOfEvaluations(snap.evaluations);
  }

  lemma ReviewPerforms(cfg: Config, a: Authority, snap: Snapshot, c: Candidate)
    requires a.base.trail != [] && Inspect(cfg, a.base.log).reviews == snap.reviews
    ensures var action := Renewal(cfg, snap, c)[3];
      Perform(cfg, a, Other(action)) == a.(base := Do(cfg, a.base, action))
  {
    hide Do, Inspect, NewName, EvaluationNames, ReviewNames;
    NewNameOfReviews(snap.reviews);
  }

  lemma RenewedIsScoped(cfg: Config, log: seq<Event>, snap: Snapshot, c: Candidate, id: string)
    requires Inspect(cfg, log) == Renewed(cfg, snap, c) && FindCandidate(snap.candidates, c.id) == Some(c)
    ensures Scoped(cfg, log, RenewedGrant(cfg, snap, c, id))
  {
    hide Inspect, FindCandidate, NewName;
    LastIsLast(snap.evaluations, CleanPass(snap, c));
    LastReviewIsLast(snap.reviews, CleanApproval(cfg, snap, c));
  }

  lemma LastIsLast(es: seq<Evaluation>, e: Evaluation)
    ensures LastEvaluation(es + [e], e.candidate) == Some(e)
  {
  }

  lemma LastReviewIsLast(rs: seq<Review>, r: Review)
    ensures LastReview(rs + [r], r.candidate) == Some(r)
  {
  }

  /** An admitted candidate whose lease can be integrated is promoted under a new grant. */
  lemma CandidateCompletes(cfg: Config, a: Authority, c: Candidate, fingerprint: string, commit: string)
    requires a.base.trail != [] && Inv(cfg, a.base) && NobodyAtWork(a) && !HasPromotion(a.base.log)
    requires FindCandidate(Inspect(cfg, a.base.log).candidates, c.id) == Some(c) && c.outcome == Admitted
    requires forall grant, e, v :: LeaseReady(a.base, AttemptFor(cfg, c, grant, fingerprint, commit, e, v))
    ensures CanComplete(cfg, a)
  {
    hide Inv, Run, Inspect, StateOf, Granted, Renewal, CleanPass, CleanApproval, FindCandidate, Renewed, HasPromotion,
      After, Scoped, LeaseReady, CanComplete, Perform, EntryOpen, EntrySteps;
    OpenCampaign(cfg, a.base);
    var snap := Inspect(cfg, a.base.log);
    var first := Renewal(cfg, snap, c);
    RenewalRuns(cfg, a.base, snap, c);
    RenewalPerforms(cfg, a, snap, c);
    RunKeepsInv(cfg, a.base, first);
    var b := After(cfg, a, OtherAll(first));
    var grant := NewKey(a.grants.Keys + a.consumed.Keys);
    var g := RenewedGrant(cfg, snap, c, grant);
    RenewalGrants(cfg, b.base.log, snap, c, grant);
    RenewedIsScoped(cfg, b.base.log, snap, c, grant);
    var x := AttemptFor(cfg, c, grant, fingerprint, commit, g.evaluationReceipt, g.reviewReceipt);
    assert x.g == g by { GrantFor(cfg, snap, c, grant, fingerprint, commit); }
    SameWorldSameReadiness(a.base, b.base, x);
    RetainPerforms(cfg, b, g);
    var d := Perform(cfg, b, Retain(g));
    NewGrantOpens(cfg, d, x);
    if !HasPromotion(b.base.log) {
      EntryExactly(cfg, d, x);
      CompletesNow(cfg, After(cfg, d, EntrySteps(x)));
      CompletesAfter(cfg, d, EntrySteps(x));
      CompletesOneLater(cfg, b, Retain(g));
    } else {
      CompletesNow(cfg, b);
    }
    CompletesAfter(cfg, a, OtherAll(first));
  }

  lemma GrantFor(cfg: Config, snap: Snapshot, c: Candidate, grant: string, fingerprint: string, commit: string)
    ensures var g := RenewedGrant(cfg, snap, c, grant);
      AttemptFor(cfg, c, grant, fingerprint, commit, g.evaluationReceipt, g.reviewReceipt).g == g
  {
    hide CleanPass, CleanApproval;
  }

  lemma RetainPerforms(cfg: Config, a: Authority, g: PromotionGrant)
    requires a.base.trail != [] && g.id !in a.grants
    ensures Perform(cfg, a, Retain(g)) == a.(grants := a.grants[g.id := g])
  {
  }

  lemma NewGrantOpens(cfg: Config, a: Authority, x: Attempt)
    requires x.g.id in a.grants && a.grants[x.g.id] == x.g && x.g.id !in a.consumed && Scoped(cfg, a.base.log, x.g)
    ensures EntryOpen(cfg, a, x)
  {
    hide Scoped;
  }

  lemma NewLeaseIsReady(cfg: Config, s: System, c: Candidate, a: Attempt)
    requires s.trail != [] && Head(s) == cfg.accepted && c.lease in s.leases && s.leases[c.lease] == NewLease(cfg)
      && c.patch == "patch"
    requires a.g.lease == c.lease && a.g.patch == c.patch && a.g.predecessor == cfg.accepted && a.f !in s.integrations
      && a.commit != cfg.accepted
    ensures LeaseReady(s, a)
  {
  }

  lemma NotMovedYet(cfg: Config, s: System)
    requires Inv(cfg, s) && |s.trail| == 1
    ensures Head(s) == cfg.accepted
  {
  }

  lemma FoundAlone(c: Candidate)
    ensures FindCandidate([c], c.id) == Some(c)
  {
  }

  /** Before HEAD moves a promotion can always be completed, if need be of a candidate still to come. */
  lemma UnmovedCompletes(cfg: Config, a: Authority)
    requires |a.base.trail| == 1 && Inv(cfg, a.base) && NobodyAtWork(a) && !HasPromotion(a.base.log) && MayAdmit(cfg)
    ensures CanComplete(cfg, a)
  {
    hide Inv, HasPromotion, Inspect, FindCandidate, LeaseReady, CanComplete, StateOf, Run, After;
    var s := a.base;
    OpenCampaign(cfg, s);
    NotMovedYet(cfg, s);
    var snap := Inspect(cfg, s.log);
    var id := NewKey(set c | c in snap.candidates :: c.id);
    var lease := NewKey(s.leases.Keys);
    var fingerprint := NewKey(s.integrations.Keys);
    var commit := NewKey({cfg.accepted});
    var steps, c := Beginning(cfg, id, lease), NewCandidate(cfg, id, lease);
    assert FindCandidate(snap.candidates, id).None?;
    BeginningRuns(cfg, s, snap, id, lease);
    var t := Run(cfg, s, steps);
    RunKeepsInv(cfg, s, steps);
    BeginningPerforms(cfg, a, steps);
    Grows(s.log, CandidateAdded(c));
    FoundFirst(snap.candidates, [c], id);
    FoundAlone(c);
    forall grant, e, v ensures LeaseReady(t, AttemptFor(cfg, c, grant, fingerprint, commit, e, v)) {
      NewLeaseIsReady(cfg, t, c, AttemptFor(cfg, c, grant, fingerprint, commit, e, v));
    }
    CandidateCompletes(cfg, After(cfg, a, OtherAll(steps)), c, fingerprint, commit);
    CompletesAfter(cfg, a, OtherAll(steps));
  }

  /** Letting go of a lock nobody holds, and two plain steps. */
  lemma BeginningPerforms(cfg: Config, a: Authority, steps: seq<Action>)
    requires a.base.trail != [] && NobodyAtWork(a) && |steps| == 3
    requires steps[0].Crash? && Plain(steps[1]) && Plain(steps[2])
    ensures After(cfg, a, OtherAll(steps)) == a.(base := Run(cfg, a.base, steps))
  {
    hide Perform, Do, Run, After, Plain;
    var requests := OtherAll(steps);
    assert requests == [Other(Crash)] + OtherAll(steps[1..]);
    AfterComposes(cfg, a, [Other(Crash)], OtherAll(steps[1..]));
    AfterOne(cfg, a, Other(Crash));
    CrashPerforms(cfg, a);
    OthersRun(cfg, Perform(cfg, a, Other(Crash)), steps[1..]);
    FirstThenRest(cfg, a.base, steps);
    CrashIs(cfg, a.base);
  }

  lemma CrashIs(cfg: Config, s: System)
    requires s.trail != []
    ensures Do(cfg, s, Crash) == s.(stage := Free)
  {
  }

  // ---------- Where the roles collide ----------

  predicate NoCandidates(log: seq<Event>) {
    forall k :: 0 <= k < |log| ==> !log[k].CandidateAdded?
  }

  /** Where the roles collide no candidate is ever admitted. */
  lemma NobodyIsAdmitted(cfg: Config, s: System, action: Action)
    requires s.trail != [] && !MayAdmit(cfg) && NoCandidates(s.log)
    ensures NoCandidates(Do(cfg, s, action).log)
  {
    if action.AddCandidate? {
      hide Inspect, StateOf, FindCandidate;
    } else if action.BeginPromotion? {
      BeginPromotionNeedsEvidence(cfg, s, action.g, action.fingerprint, action.newId);
    } else {
      OtherStepFollows(cfg, s, action);
    }
    hide Do;
  }

  lemma {:induction false} NobodyIsEverAdmitted(cfg: Config, s: System, actions: seq<Action>)
    requires s.trail != [] && !MayAdmit(cfg) && NoCandidates(s.log)
    ensures NoCandidates(Run(cfg, s, actions).log)
  {
    hide Do;
    if actions == [] {
    } else {
      var before := actions[..|actions| - 1];
      NobodyIsEverAdmitted(cfg, s, before);
      NobodyIsAdmitted(cfg, Run(cfg, s, before), actions[|actions| - 1]);
    }
  }

  /** What is promoted was admitted before. */
  lemma PromotedWasAdmitted(log: seq<Event>)
    requires AllBacked(log) && HasPromotion(log)
    ensures !NoCandidates(log)
  {
    hide AllBacked, Approval, NoCandidates;
    var e :| e in log && e.PromotionCompleted?;
    var k :| 0 <= k < |log| && log[k] == e;
    NoCandidateSinceApproval(log, k);
    var i: nat, j: nat :| Approval(log[..k], i, j, log[k].p.candidate);
    var n := ApprovedWasAdmitted(log[..k], i, j, log[k].p.candidate);
    OneCandidate(log, n);
  }

  lemma ApprovedWasAdmitted(log: seq<Event>, i: nat, j: nat, candidate: string) returns (n: nat)
    requires Approval(log, i, j, candidate)
    ensures n < |log| && log[n].CandidateAdded?
  {
    hide CandidateEvents;
    var c :| CandidateAdded(c) in log[..i];
    n :| 0 <= n < i && log[n] == CandidateAdded(c);
  }

  lemma OneCandidate(log: seq<Event>, n: nat)
    requires n < |log| && log[n].CandidateAdded?
    ensures !NoCandidates(log)
  {
  }

  lemma CollidingRolesNeverComplete(cfg: Config, a: Authority, requests: seq<Request>)
    requires OpenedAuthority(cfg, a) && !MayAdmit(cfg)
    ensures !HasPromotion(After(cfg, a, requests).base.log)
  {
    hide HasPromotion, AllBacked, Inv, Sound, After;
    ReachableIsSound(cfg, a, requests);
    var b := After(cfg, a, requests);
    SoundParts(cfg, b);
    var actions := EveryEntryRunIsARun(cfg, a, requests);
    NobodyIsEverAdmitted(cfg, a.base, actions);
    BothBacked(cfg, b.base, b.base);
    if HasPromotion(b.base.log) {
      PromotedWasAdmitted(b.base.log);
    }
  }

  // ---------- The exact condition ----------

  /**
   The exact condition.  In every reachable state, crashes and clean-ups included, in which
   nothing has been promoted, some run of requests completes a promotion if and only if HEAD has
   not moved and the roles are apart, or HEAD has moved and either the promotion under way still
   has its evidence, or some lease is in its integrated state under a grant whose evidence stands
   and whose scope is the current one or has been checked already.
   */
  lemma CanCompleteExactly(cfg: Config, a: Authority, requests: seq<Request>)
    requires OpenedAuthority(cfg, a)
    requires !HasPromotion(After(cfg, a, requests).base.log)
    ensures var b := After(cfg, a, requests); CanComplete(cfg, b) <==> Completable(cfg, b)
  {
    hide Sound, Inv, Custody, HasPromotion, After, InReach, TrailOk;
    var b := After(cfg, a, requests);
    ReachableIsSound(cfg, a, requests);
    TrailsAre(cfg, b);
    if |b.base.trail| == 1 {
      if MayAdmit(cfg) {
        FreedCompletes(cfg, b);
      } else {
        CollidingNever(cfg, a, requests);
      }
    } else if InReach(cfg, b) {
      InReachCompletes(cfg, b);
    } else {
      DoomedNever(cfg, b);
    }
  }

  lemma TrailsAre(cfg: Config, a: Authority)
    requires Sound(cfg, a) && !HasPromotion(a.base.log)
    ensures a.base.trail != [] && |a.base.trail| <= 2 && Inv(cfg, a.base)
  {
    hide AllBacked, FlightsOk, EventsOk, LeasesOk, StageOk, HasPromotion, Custody;
  }

  lemma FreedCompletes(cfg: Config, a: Authority)
    requires |a.base.trail| == 1 && Sound(cfg, a) && !HasPromotion(a.base.log) && MayAdmit(cfg)
    ensures CanComplete(cfg, a)
  {
    hide Sound, Inv, HasPromotion, CanComplete, Perform;
    var b := Perform(cfg, a, Other(Crash));
    CrashedSame(cfg, a);
    PerformKeepsSound(cfg, a, Other(Crash));
    SoundParts(cfg, b);
    UnmovedCompletes(cfg, b);
    CompletesOneLater(cfg, a, Other(Crash));
  }

  lemma CollidingNever(cfg: Config, a: Authority, requests: seq<Request>)
    requires OpenedAuthority(cfg, a) && !MayAdmit(cfg)
    ensures !CanComplete(cfg, After(cfg, a, requests))
  {
    hide HasPromotion, After, OpenedAuthority;
    TrailStarted(cfg, a);
    var b := After(cfg, a, requests);
    forall more: seq<Request> ensures !HasPromotion(After(cfg, b, more).base.log) {
      AfterComposes(cfg, a, requests, more);
      CollidingRolesNeverComplete(cfg, a, requests + more);
    }
  }

  lemma TrailStarted(cfg: Config, a: Authority)
    requires OpenedAuthority(cfg, a)
    ensures a.base.trail != []
  {
  }

  lemma DoomedNever(cfg: Config, a: Authority)
    requires a.base.trail != [] && Sound(cfg, a) && Doomed(cfg, a)
    ensures !CanComplete(cfg, a)
  {
    hide HasPromotion, After, Sound, Doomed;
    forall more: seq<Request> ensures !HasPromotion(After(cfg, a, more).base.log) {
      DoomedForever(cfg, a, more);
    }
  }

  /** The grant is on record, its evidence stands and its scope is the current one. */
  ghost predicate StandsNow(cfg: Config, a: Authority, grant: string) {
    grant in a.grants && Granted(cfg, a.base.log, a.grants[grant]) && Scoped(cfg, a.base.log, a.grants[grant])
  }

  /**
   With HEAD moved, nobody at work and nothing promoted, all hangs on one grant: some run completes
   a promotion if and only if some lease is in its integrated state under a grant whose evidence
   stands and whose scope is the current one.
   */
  lemma AllHangsOnTheGrant(cfg: Config, a: Authority, requests: seq<Request>)
    requires OpenedAuthority(cfg, a)
    requires var b := After(cfg, a, requests); |b.base.trail| == 2 && NobodyAtWork(b) && !HasPromotion(b.base.log)
    ensures var b := After(cfg, a, requests);
      CanComplete(cfg, b) <==>
        exists id, grant :: IntegratedFor(b.base.leases, id, grant) && StandsNow(cfg, b, grant)
  {
    hide After, CanComplete, IntegratedFor, HasPromotion, Granted, Scoped, OpenedAuthority;
    TrailStarted(cfg, a);
    CanCompleteExactly(cfg, a, requests);
    var b := After(cfg, a, requests);
    if id, grant :| Redeemable(cfg, b, id, grant) {
      assert IntegratedFor(b.base.leases, id, grant) && StandsNow(cfg, b, grant);
    }
    if id, grant :| IntegratedFor(b.base.leases, id, grant) && StandsNow(cfg, b, grant) {
      assert Redeemable(cfg, b, id, grant);
    }
  }
}
