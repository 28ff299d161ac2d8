/**
 What becomes of a promotion whose process dies or is overtaken.  HEAD has moved, nothing was
 completed, and no lease is in its integrated state: from there no run completes a promotion,
 under any grant.  Dying between moving HEAD and marking the lease leads there, and so does
 cleaning up the marked lease's workspace.  These are not the only ways to lose a promotion:
 with the grants as the program hands them out, `CampaignFate` has the exact condition.
 */
module CampaignLoss {
  import opened Wrappers
  import opened Campaign
  import opened CampaignLog
  import opened CampaignSystem
  import opened CampaignRuns
  import opened CampaignRecovery

  // ---------- Where an integrated lease comes from ----------

  /** The first candidate found under an admitted id is the one admitted. */
  ghost predicate Found(cfg: Config, log: seq<Event>) {
    forall c :: CandidateAdded(c) in log ==> FindCandidate(Inspect(cfg, log).candidates, c.id) == Some(c)
  }

  ghost predicate LeaseBacked(log: seq<Event>, id: string) {
    exists c :: CandidateAdded(c) in log && c.lease == id && c.outcome == Admitted
  }

  /** The stages that lead to a lease being marked. */
  predicate AboutToMark(stage: Stage) {
    stage.Promoting? || stage.Committed? || stage.HeadMoved?
  }

  /** The grant's evidence stood at some point of the log. */
  ghost predicate OnceGranted(cfg: Config, log: seq<Event>, g: PromotionGrant) {
    exists k :: 0 <= k <= |log| && Granted(cfg, log[..k], g)
  }

  /**
   Every lease that is marked, or about to be, is an admitted candidate's; a promotion under way
   once had its evidence.
   */
  ghost predicate Custody(cfg: Config, s: System) {
    && Found(cfg, s.log)
    && (forall id :: Marked(s.leases, id) ==> LeaseBacked(s.log, id))
    && (AboutToMark(s.stage) ==> LeaseBacked(s.log, s.stage.g.lease))
    && (AboutToMark(s.stage) || s.stage.Merged? ==> OnceGranted(cfg, s.log, s.stage.g))
  }

  predicate AdmitsNothing(before: seq<Event>, after: seq<Event>) {
    before <= after && forall k :: |before| <= k < |after| ==> !after[k].CandidateAdded?
  }

  lemma {:induction false} FoundFirst(cs: seq<Candidate>, more: seq<Candidate>, id: string)
    ensures FindCandidate(cs, id).Some? ==> FindCandidate(cs + more, id) == FindCandidate(cs, id)
    ensures FindCandidate(cs, id).None? ==> FindCandidate(cs + more, id) == FindCandidate(more, id)
  {
    if cs == [] {
      assert cs + more == more;
    } else {
      assert (cs + more)[1..] == cs[1..] + more;
      FoundFirst(cs[1..], more, id);
    }
  }

  lemma {:induction false} NothingNewIsFound(cfg: Config, before: seq<Event>, after: seq<Event>)
    requires Found(cfg, before) && AdmitsNothing(before, after)
    ensures Found(cfg, after)
    decreases |after|
  {
    if before != after {
      var shorter, e := after[..|after| - 1], after[|after| - 1];
      NothingNewIsFound(cfg, before, shorter);
      assert after == shorter + [e] && Inspect(cfg, after) == ApplyEvent(cfg, Inspect(cfg, shorter), e);
      var cs := Inspect(cfg, shorter).candidates;
      forall c | CandidateAdded(c) in after ensures FindCandidate(Inspect(cfg, after).candidates, c.id) == Some(c) {
        assert CandidateAdded(c) in shorter;
        hide Inspect;
        if e.CandidateRejected? {
          FoundFirst(cs, [RejectedCandidate(cfg, e.attempt, e.cost, e.reason)], c.id);
        }
      }
    } else {
      assert after == before;
    }
  }

  /** A candidate is admitted only under an id that no lookup finds. */
  lemma AdmittedIsFound(cfg: Config, log: seq<Event>, args: CandidateArgs, lease: Lease)
    requires Found(cfg, log)
    ensures Found(cfg, log + [CandidateEvent(cfg, Inspect(cfg, log), args, lease)])
  {
    var e := CandidateEvent(cfg, Inspect(cfg, log), args, lease);
    var after := log + [e];
    assert after[..|log|] == log;
    if e.CandidateAdded? {
      var cs := Inspect(cfg, log).candidates;
      assert FindCandidate(cs, e.c.id).None?;
      assert Inspect(cfg, after).candidates == cs + [e.c];
      hide Inspect, CandidateEvent;
      forall c | CandidateAdded(c) in after ensures FindCandidate(cs + [e.c], c.id) == Some(c) {
        FoundFirst(cs, [e.c], c.id);
        assert CandidateAdded(c) in log || c == e.c;
      }
    } else {
      hide Inspect, CandidateEvent;
      NothingNewIsFound(cfg, log, after);
    }
  }

  /** What the evidence check accepts names the lease of an admitted candidate. */
  lemma GrantedLeaseIsBacked(cfg: Config, log: seq<Event>, g: PromotionGrant)
    requires AllBacked(log) && Found(cfg, log) && Granted(cfg, log, g)
    ensures LeaseBacked(log, g.lease)
  {
    InspectEvidence(cfg, log);
    var Inputs(c, e, r) := PromotionInputs(cfg, Inspect(cfg, log), g, false).value;
    assert EvaluationCompleted(e) in log && e.candidate == c.id && g.lease == c.lease
      && FindCandidate(Inspect(cfg, log).candidates, c.id) == Some(c);
    hide Inspect, PromotionInputs, StateOf;
    var k :| 0 <= k < |log| && log[k] == EvaluationCompleted(e);
    assert Backed(log[..k], log[k]);
    var admitted :| CandidateAdded(admitted) in log[..k] && admitted.id == c.id && admitted.outcome == Admitted;
    assert CandidateAdded(admitted) in log;
  }

  /** Where the marks and the stage of a step come from. */
  ghost predicate Follows(s: System, t: System) {
    && AdmitsNothing(s.log, t.log)
    && (forall id :: Marked(t.leases, id) ==> Marked(s.leases, id) || (s.stage.HeadMoved? && id == s.stage.g.lease))
    && (AboutToMark(t.stage) ==> AboutToMark(s.stage) && t.stage.g == s.stage.g && t.stage.f == s.stage.f)
    && (t.stage.Merged? ==>
          (AboutToMark(s.stage) || s.stage.Merged?) && t.stage.g == s.stage.g && t.stage.f == s.stage.f)
  }

  /** At most one event of an evaluation or a review, at the end. */
  predicate Notes(before: seq<Event>, after: seq<Event>) {
    || after == before
    || (|after| == |before| + 1 && before <= after
        && (after[|before|].EvaluationStarted? || after[|before|].EvaluationCompleted? || after[|before|].ReviewStarted?
            || after[|before|].ReviewCompleted?))
  }

  lemma EvaluationStepNotes(cfg: Config, s: System, action: Action)
    requires s.trail != [] && (action.BeginEvaluation? || action.FinishEvaluation?)
    ensures var t := Do(cfg, s, action);
      Notes(s.log, t.log) && t.trail == s.trail && t.leases == s.leases && t.stage == s.stage
  {
    hide Inspect, StateOf, EvaluationResult, FindCandidate, FindEvaluation;
  }

  lemma ReviewStepNotes(cfg: Config, s: System, action: Action)
    requires s.trail != [] && (action.BeginReview? || action.FinishReview?)
    ensures var t := Do(cfg, s, action);
      Notes(s.log, t.log) && t.trail == s.trail && t.leases == s.leases && t.stage == s.stage
  {
    hide Inspect, StateOf, ReviewResult, FindCandidate, FindEvaluation, FindReview;
  }

  lemma EvidenceStepFollows(cfg: Config, s: System, action: Action)
    requires s.trail != []
    requires action.BeginEvaluation? || action.FinishEvaluation? || action.BeginReview? || action.FinishReview?
    ensures Follows(s, Do(cfg, s, action))
  {
    hide Do;
    if action.BeginEvaluation? || action.FinishEvaluation? {
      EvaluationStepNotes(cfg, s, action);
    } else {
      ReviewStepNotes(cfg, s, action);
    }
  }

  lemma LeaseStepFollows(cfg: Config, s: System, action: Action)
    requires s.trail != []
    requires action.SetLease? || action.CleanUp? || action.MarkLease? || action.Crash?
    ensures Follows(s, Do(cfg, s, action))
  {
  }

  lemma PromotionStepFollows(cfg: Config, s: System, action: Action)
    requires s.trail != []
    requires action.Reconcile? || action.MoveHead?
    ensures Follows(s, Do(cfg, s, action))
  {
  }

  lemma FinishPromotionFollows(cfg: Config, s: System, receipt: string, dies: bool)
    requires s.trail != []
    ensures Follows(s, Do(cfg, s, FinishPromotion(receipt, dies)))
  {
    hide Inspect, StateOf, PromotionInputs, PromotionByGrant;
  }

  lemma RollbackStepFollows(cfg: Config, s: System, action: Action)
    requires s.trail != []
    requires action.BeginRollback? || action.LogRollback? || action.MoveBack? || action.LogRestored?
      || action.FinishRollback?
    ensures Follows(s, Do(cfg, s, action))
  {
    hide Do, Follows;
    if action.FinishRollback? {
      FinishRollbackStays(cfg, s, action.receipt, action.diesAfter);
    } else if action.BeginRollback? {
      BeginRollbackStays(cfg, s, action.b, action.fingerprint, action.newId);
    } else {
      MoveBackStays(cfg, s, action);
    }
    SameLeasesFollow(s, Do(cfg, s, action));
  }

  lemma FinishRollbackStays(cfg: Config, s: System, receipt: string, diesAfter: nat)
    requires s.trail != []
    ensures var t := Do(cfg, s, FinishRollback(receipt, diesAfter));
      AdmitsNothing(s.log, t.log) && t.leases == s.leases && (t.stage == s.stage || t.stage == Free)
  {
    hide Inspect, PromotionById, RollbackByGrant;
  }

  lemma BeginRollbackStays(cfg: Config, s: System, b: RollbackGrant, f: string, newId: string)
    requires s.trail != []
    ensures var t := Do(cfg, s, BeginRollback(b, f, newId));
      && (t.log == s.log || (|t.log| == |s.log| + 1 && s.log <= t.log && t.log[|s.log|].RollbackPrepared?))
      && t.trail == s.trail && t.leases == s.leases
      && (t.stage.RollingBack? || (t.stage == s.stage && (t.stage != Free ==> t.log == s.log)))
      && (t.stage == s.stage || s.stage == Free)
  {
    hide Inspect, PromotionById, RollbackByGrant, LastTx;
  }

  lemma MoveBackStays(cfg: Config, s: System, action: Action)
    requires s.trail != [] && (action.LogRollback? || action.MoveBack? || action.LogRestored?)
    ensures var t := Do(cfg, s, action);
      t.log == s.log && t.leases == s.leases && (t.stage == s.stage || (!AboutToMark(t.stage) && !t.stage.Merged?))
  {
    hide LastTx, TxMatches, DoLogRollback;
    if action.LogRollback? {
      LogRollbackStays(s, action.valid);
    }
  }

  lemma LogRollbackStays(s: System, valid: bool)
    requires s.trail != []
    ensures var t := DoLogRollback(s, valid);
      t.log == s.log && t.leases == s.leases && (t.stage == s.stage || (!AboutToMark(t.stage) && !t.stage.Merged?))
  {
    hide LastTx, TxMatches;
  }

  lemma SameLeasesFollow(s: System, t: System)
    requires AdmitsNothing(s.log, t.log) && t.leases == s.leases
    requires t.stage == s.stage || (!AboutToMark(t.stage) && !t.stage.Merged?)
    ensures Follows(s, t)
  {
  }

  lemma FollowersKeepCustody(cfg: Config, s: System, t: System)
    requires Custody(cfg, s) && Follows(s, t)
    ensures Custody(cfg, t)
  {
    NothingNewIsFound(cfg, s.log, t.log);
    BackingStays(s.log, t.log);
    GrantStays(cfg, s.log, t.log);
    hide Found, LeaseBacked, OnceGranted;
  }

  lemma GrantStays(cfg: Config, before: seq<Event>, after: seq<Event>)
    requires before <= after
    ensures forall g :: OnceGranted(cfg, before, g) ==> OnceGranted(cfg, after, g)
  {
    hide Granted;
    forall g | OnceGranted(cfg, before, g) ensures OnceGranted(cfg, after, g) {
      var k :| 0 <= k <= |before| && Granted(cfg, before[..k], g);
      assert after[..k] == before[..k];
    }
  }

  lemma BackingStays(before: seq<Event>, after: seq<Event>)
    requires before <= after
    ensures forall id :: LeaseBacked(before, id) ==> LeaseBacked(after, id)
  {
    forall id | LeaseBacked(before, id) ensures LeaseBacked(after, id) {
      var c :| CandidateAdded(c) in before && c.lease == id && c.outcome == Admitted;
      assert CandidateAdded(c) in after;
    }
  }

  lemma AddCandidateKeepsCustody(cfg: Config, s: System, args: CandidateArgs)
    requires s.trail != [] && Custody(cfg, s)
    ensures Custody(cfg, Do(cfg, s, AddCandidate(args)))
  {
    if args.lease in s.leases {
      AdmittedIsFound(cfg, s.log, args, s.leases[args.lease]);
      hide Inspect, CandidateEvent, Found;
      BackingStays(s.log, Do(cfg, s, AddCandidate(args)).log);
      GrantStays(cfg, s.log, Do(cfg, s, AddCandidate(args)).log);
      hide LeaseBacked, OnceGranted;
    }
  }

  lemma BeginPromotionNeedsEvidence(cfg: Config, s: System, g: PromotionGrant, f: string, newId: string)
    ensures var t := DoBeginPromotion(cfg, s, g, f, newId);
      && AdmitsNothing(s.log, t.log) && t.leases == s.leases
      && (t.stage == s.stage || (Granted(cfg, s.log, g) && t.stage.Promoting? && t.stage.g == g && t.stage.f == f))
  {
    hide Inspect, PromotionByGrant, StateOf, PromotionInputs;
  }

  lemma BeginPromotionKeepsCustody(cfg: Config, s: System, g: PromotionGrant, f: string, newId: string)
    requires Inv(cfg, s) && Custody(cfg, s)
    ensures Custody(cfg, DoBeginPromotion(cfg, s, g, f, newId))
  {
    hide Granted, DoBeginPromotion, Found, LeaseBacked, FlightsOk, AllBacked, EventsOk, StageOk, LeasesOk, TrailOk,
      HasPromotion, AdmitsNothing;
    var t := DoBeginPromotion(cfg, s, g, f, newId);
    BeginPromotionNeedsEvidence(cfg, s, g, f, newId);
    if Granted(cfg, s.log, g) {
      GrantedLeaseIsBacked(cfg, s.log, g);
      assert s.log[..|s.log|] == s.log;
    }
    NothingNewIsFound(cfg, s.log, t.log);
    BackingStays(s.log, t.log);
    GrantStays(cfg, s.log, t.log);
  }

  /** Whatever is neither a new candidate nor a new promotion follows from the state before. */
  lemma OtherStepFollows(cfg: Config, s: System, action: Action)
    requires s.trail != [] && !action.AddCandidate? && !action.BeginPromotion?
    ensures Follows(s, Do(cfg, s, action))
  {
    hide Do, Follows;
    if action.BeginEvaluation? || action.FinishEvaluation? || action.BeginReview? || action.FinishReview? {
      EvidenceStepFollows(cfg, s, action);
    } else if action.BeginRollback? || action.LogRollback? || action.MoveBack? || action.LogRestored?
      || action.FinishRollback? {
      RollbackStepFollows(cfg, s, action);
    } else if action.SetLease? || action.CleanUp? || action.MarkLease? || action.Crash? {
      LeaseStepFollows(cfg, s, action);
    } else if action.FinishPromotion? {
      FinishPromotionFollows(cfg, s, action.receipt, action.dies);
    } else {
      PromotionStepFollows(cfg, s, action);
    }
  }

  lemma StepKeepsCustody(cfg: Config, s: System, action: Action)
    requires Inv(cfg, s) && Custody(cfg, s)
    ensures s.trail != [] && Custody(cfg, Do(cfg, s, action))
  {
    hide Inv, Custody, Follows, DoBeginPromotion;
    HasHead(cfg, s);
    if action.AddCandidate? {
      AddCandidateKeepsCustody(cfg, s, action.args);
    } else if action.BeginPromotion? {
      BeginPromotionKeepsCustody(cfg, s, action.g, action.fingerprint, action.newId);
    } else {
      OtherStepFollows(cfg, s, action);
      FollowersKeepCustody(cfg, s, Do(cfg, s, action));
    }
  }

  lemma {:induction false} RunKeepsCustody(cfg: Config, s: System, actions: seq<Action>)
    requires Inv(cfg, s) && Custody(cfg, s)
    ensures s.trail != [] && Custody(cfg, Run(cfg, s, actions))
  {
    assert s.trail != [];
    hide Inv, Do, Custody;
    if actions == [] {
    } else {
      var before := actions[..|actions| - 1];
      RunKeepsCustody(cfg, s, before);
      RunKeepsInv(cfg, s, before);
      StepKeepsCustody(cfg, Run(cfg, s, before), actions[|actions| - 1]);
    }
  }

  lemma ReachableHasCustody(cfg: Config, s: System, actions: seq<Action>)
    requires Opened(cfg, s)
    ensures s.trail != [] && Custody(cfg, Run(cfg, s, actions))
  {
    OpenedHasInv(cfg, s);
    RunKeepsCustody(cfg, s, actions);
  }

  // ---------- Evidence ages only by candidate events ----------

  lemma {:induction false} InspectGrows(cfg: Config, before: seq<Event>, after: seq<Event>)
    requires before <= after
    ensures var s, t := Inspect(cfg, before), Inspect(cfg, after);
      s.candidates <= t.candidates && s.evaluations <= t.evaluations && s.reviews <= t.reviews
    decreases |after|
  {
    if before == after {
      assert before == after;
    } else {
      InspectGrows(cfg, before, after[..|after| - 1]);
    }
  }

  lemma {:induction false} SameFirstEvaluation(es: seq<Evaluation>, more: seq<Evaluation>, candidate: string,
                                               receipt: string)
    requires es <= more
    ensures EvaluationFor(es, candidate, receipt).Some? ==>
      EvaluationFor(more, candidate, receipt) == EvaluationFor(es, candidate, receipt)
  {
    if es == [] {
    } else {
      SameFirstEvaluation(es[1..], more[1..], candidate, receipt);
    }
  }

  lemma {:induction false} SameFirstReview(rs: seq<Review>, more: seq<Review>, candidate: string, receipt: string)
    requires rs <= more
    ensures ReviewFor(rs, candidate, receipt).Some? ==>
      ReviewFor(more, candidate, receipt) == ReviewFor(rs, candidate, receipt)
  {
    if rs == [] {
    } else {
      SameFirstReview(rs[1..], more[1..], candidate, receipt);
    }
  }

  /** What a grant finds does not change as the records grow, except for the denominator. */
  lemma SameInputs(cfg: Config, s: Snapshot, t: Snapshot, g: PromotionGrant)
    requires s.candidates <= t.candidates && s.evaluations <= t.evaluations && s.reviews <= t.reviews
    requires PromotionInputs(cfg, s, g, false).Some? && StateOf(t) == Open
    ensures PromotionInputs(cfg, t, g, false).Some? <==> |s.candidates| == |t.candidates|
  {
    FoundFirst(s.candidates, t.candidates[|s.candidates|..], g.candidate);
    assert t.candidates == s.candidates + t.candidates[|s.candidates|..];
    var Inputs(c, e, r) := PromotionInputs(cfg, s, g, false).value;
    SameFirstEvaluation(s.evaluations, t.evaluations, c.id, g.evaluationReceipt);
    SameFirstReview(s.reviews, t.reviews, c.id, g.reviewReceipt);
    assert |s.candidates| == |t.candidates| ==> s.candidates == t.candidates;
    hide StateOf, FindCandidate, EvaluationFor, ReviewFor;
  }

  /** While nothing is promoted, evidence that stood still stands exactly when no candidate event followed. */
  lemma EvidenceAge(cfg: Config, before: seq<Event>, after: seq<Event>, g: PromotionGrant)
    requires AllBacked(after) && before <= after && !HasPromotion(after) && Granted(cfg, before, g)
    ensures Granted(cfg, after, g) <==> CandidateEvents(before) == CandidateEvents(after)
  {
    InspectEvidence(cfg, before);
    InspectEvidence(cfg, after);
    InspectGrows(cfg, before, after);
    StateOfLog(cfg, after);
    hide AllBacked, HasPromotion, HasRollback, Inspect, StateOf, PromotionInputs;
    SameInputs(cfg, Inspect(cfg, before), Inspect(cfg, after), g);
  }

  /** Evidence that has gone stale stays stale. */
  lemma StaysStale(cfg: Config, before: seq<Event>, after: seq<Event>, g: PromotionGrant)
    requires AllBacked(before) && AllBacked(after) && before <= after && !HasPromotion(before) && !HasPromotion(after)
    requires OnceGranted(cfg, before, g) && !Granted(cfg, before, g)
    ensures !Granted(cfg, after, g)
  {
    hide AllBacked, HasPromotion, Granted, CandidateEvents;
    var k :| 0 <= k <= |before| && Granted(cfg, before[..k], g);
    EvidenceAge(cfg, before[..k], before, g);
    EvidenceAge(cfg, before[..k], after, g);
    CandidateEventsGrow(after, k, |before|);
    CandidateEventsGrow(after, |before|, |after|);
    assert after[..k] == before[..k] && after[..|before|] == before && after[..|after|] == after;
  }

  // ---------- What is lost ----------

  predicate NoneIntegrated(leases: map<string, Lease>) {
    forall id :: id in leases ==> leases[id].state != LeaseIntegrated
  }

  lemma OpenCampaign(cfg: Config, s: System)
    requires Inv(cfg, s) && !HasPromotion(s.log)
    ensures AllBacked(s.log) && StateOf(Inspect(cfg, s.log)) == Open
  {
    StateOfLog(cfg, s.log);
  }

  /** HEAD has moved, nothing was completed, no lease is in its integrated state, and nobody is about to change that. */
  ghost predicate Lost(cfg: Config, s: System) {
    && |s.trail| == 2 && !HasPromotion(s.log) && NoneIntegrated(s.leases)
    && !s.stage.HeadMoved? && (s.stage.Merged? ==> !Granted(cfg, s.log, s.stage.g))
  }

  /** The stages of a lost campaign: nobody, a promotion that has just begun, or one whose evidence went stale. */
  predicate Powerless(cfg: Config, stage: Stage) {
    stage == Free || (stage.Promoting? && stage.g.predecessor == cfg.accepted) || stage.Merged?
  }

  lemma LostIsPowerless(cfg: Config, s: System)
    requires Inv(cfg, s) && Lost(cfg, s)
    ensures s.trail != [] && Head(s) != cfg.accepted && Powerless(cfg, s.stage)
    ensures s.stage.Merged? ==> PromotionInputs(cfg, Inspect(cfg, s.log), s.stage.g, true).None?
  {
    OpenCampaign(cfg, s);
    hide AllBacked, FlightsOk, EventsOk, LeasesOk, Inspect, StateOf;
    if s.stage.RollingBack? || s.stage.RollbackLogged? || s.stage.HeadRestored? || s.stage.Restored? {
      assert PromotionCompleted(s.stage.p).PromotionCompleted?;
    }
  }

  /** An event that completes nothing, at the end of the log or nowhere. */
  predicate CompletesNothing(before: seq<Event>, after: seq<Event>) {
    after == before || (|after| == |before| + 1 && after[..|before|] == before && !after[|before|].PromotionCompleted?)
  }

  lemma StillNotPromoted(before: seq<Event>, after: seq<Event>)
    requires CompletesNothing(before, after) && !HasPromotion(before)
    ensures !HasPromotion(after)
  {
    if after != before {
      Grows(before, after[|before|]);
      assert after == before + [after[|before|]];
    }
  }

  lemma EvidenceStepCompletesNothing(cfg: Config, s: System, action: Action)
    requires s.trail != []
    requires action.AddCandidate? || action.BeginEvaluation? || action.FinishEvaluation? || action.BeginReview?
      || action.FinishReview?
    ensures var t := Do(cfg, s, action);
      CompletesNothing(s.log, t.log) && t.trail == s.trail && t.leases == s.leases && t.stage == s.stage
  {
    hide Inspect, StateOf, DoBeginEvaluation, DoFinishEvaluation, DoBeginReview, DoFinishReview, FindCandidate;
    if action.AddCandidate? {
    } else if action.BeginEvaluation? || action.FinishEvaluation? {
      EvaluationStepNotes(cfg, s, action);
    } else {
      ReviewStepNotes(cfg, s, action);
    }
  }

  lemma LockStepCompletesNothing(cfg: Config, s: System, action: Action)
    requires s.trail != [] && Head(s) != cfg.accepted && Powerless(cfg, s.stage) && NoneIntegrated(s.leases)
    requires s.stage.Merged? ==> PromotionInputs(cfg, Inspect(cfg, s.log), s.stage.g, true).None?
    requires action.BeginPromotion? || action.Reconcile? || action.MoveHead? || action.MarkLease?
      || action.FinishPromotion?
    ensures var t := Do(cfg, s, action);
      && CompletesNothing(s.log, t.log) && t.trail == s.trail && NoneIntegrated(t.leases) && !t.stage.HeadMoved?
      && (t.stage.Merged? ==> t.stage == s.stage && t.log == s.log)
  {
    hide Inspect, StateOf, PromotionInputs, PromotionByGrant;
  }

  lemma LeaseStepCompletesNothing(cfg: Config, s: System, action: Action)
    requires s.trail != [] && NoneIntegrated(s.leases) && !s.stage.HeadMoved?
    requires action.SetLease? || action.CleanUp? || action.Crash?
    ensures var t := Do(cfg, s, action);
      && t.log == s.log && t.trail == s.trail && NoneIntegrated(t.leases) && (t.stage == s.stage || t.stage == Free)
  {
  }

  lemma RollbackStepCompletesNothing(cfg: Config, s: System, action: Action)
    requires s.trail != [] && Powerless(cfg, s.stage)
    requires action.BeginRollback? || action.LogRollback? || action.MoveBack? || action.LogRestored?
      || action.FinishRollback?
    ensures var t := Do(cfg, s, action);
      && CompletesNothing(s.log, t.log) && t.trail == s.trail && t.leases == s.leases
      && (t.stage.RollingBack? || (t.stage == s.stage && (t.stage.Merged? ==> t.log == s.log)))
  {
    hide Do;
    if action.BeginRollback? {
      BeginRollbackStays(cfg, s, action.b, action.fingerprint, action.newId);
    } else {
      NothingToRestore(cfg, s, action);
    }
  }

  predicate NotRollingBack(stage: Stage) {
    !stage.RollingBack? && !stage.RollbackLogged? && !stage.HeadRestored? && !stage.Restored?
  }

  /** A later step of a rollback does nothing to whoever is not rolling back. */
  lemma NothingToRestore(cfg: Config, s: System, action: Action)
    requires s.trail != [] && NotRollingBack(s.stage)
    requires action.LogRollback? || action.MoveBack? || action.LogRestored? || action.FinishRollback?
    ensures Do(cfg, s, action) == s
  {
    hide Inspect, PromotionById, RollbackByGrant, LastTx, TxMatches;
  }

  lemma LostStep(cfg: Config, s: System, action: Action)
    requires Inv(cfg, s) && Custody(cfg, s) && Lost(cfg, s)
    ensures s.trail != [] && Lost(cfg, Do(cfg, s, action)) && Do(cfg, s, action).trail == s.trail
  {
    LostIsPowerless(cfg, s);
    StepKeepsInv(cfg, s, action);
    var t := Do(cfg, s, action);
    BothBacked(cfg, s, t);
    hide Inv, Do, CompletesNothing, AllBacked, Granted, PromotionInputs, Inspect, Found, LeaseBacked, HasPromotion,
      OnceGranted;
    if action.AddCandidate? || action.BeginEvaluation? || action.FinishEvaluation? || action.BeginReview?
      || action.FinishReview? {
      EvidenceStepCompletesNothing(cfg, s, action);
      StillNotPromoted(s.log, t.log);
      if s.stage.Merged? {
        StaysStale(cfg, s.log, t.log, s.stage.g);
      }
    } else {
      if action.BeginPromotion? || action.Reconcile? || action.MoveHead? || action.MarkLease?
        || action.FinishPromotion? {
        LockStepCompletesNothing(cfg, s, action);
      } else if action.SetLease? || action.CleanUp? || action.Crash? {
        LeaseStepCompletesNothing(cfg, s, action);
      } else {
        RollbackStepCompletesNothing(cfg, s, action);
      }
      StillNotPromoted(s.log, t.log);
    }
  }

  /** From a lost state no run completes a promotion, under any grant, and HEAD never moves again. */
  lemma {:induction false} LostForever(cfg: Config, s: System, actions: seq<Action>)
    requires s.trail != [] && Inv(cfg, s) && Custody(cfg, s) && Lost(cfg, s)
    ensures var r := Run(cfg, s, actions); Lost(cfg, r) && r.trail == s.trail && !HasPromotion(r.log)
  {
    hide Inv, Do, Custody, Granted;
    if actions == [] {
    } else {
      var before := actions[..|actions| - 1];
      LostForever(cfg, s, before);
      RunKeepsInv(cfg, s, before);
      RunKeepsCustody(cfg, s, before);
      LostStep(cfg, Run(cfg, s, before), actions[|actions| - 1]);
    }
  }

  /** The first way to lose it: the first three steps of any attempt from the frozen HEAD, then a crash. */
  lemma CrashAfterMoveLoses(cfg: Config, s: System, a: Attempt)
    requires Inv(cfg, s) && s.stage == Free && Granted(cfg, s.log, a.g) && LeaseReady(s, a) && |s.trail| == 1
    ensures Lost(cfg, Crashed(cfg, s, a, 3))
  {
    assert s.trail != [];
    hide Inv, Granted, HasPromotion, Run, Reached, LeaseReady, Lost;
    ReachedBy(cfg, s, a, 3);
    RunKeepsInv(cfg, s, Steps(a)[..3]);
    MovedAndDead(cfg, s, a, Run(cfg, s, Steps(a)[..3]));
  }

  lemma MovedAndDead(cfg: Config, s: System, a: Attempt, r: System)
    requires Inv(cfg, s) && s.stage == Free && Granted(cfg, s.log, a.g) && LeaseReady(s, a) && |s.trail| == 1
    requires Inv(cfg, r) && Reached(cfg, s, a, 3, r)
    ensures Lost(cfg, r.(stage := Free))
  {
    hide AllBacked, FlightsOk, EventsOk, Granted, HasPromotion;
  }

  /** The second way: cleaning up the workspace of the integrated lease before its promotion is completed. */
  lemma CleanUpLoses(cfg: Config, s: System, id: string)
    requires s.trail != [] && Inv(cfg, s) && |s.trail| == 2 && !HasPromotion(s.log) && s.stage == Free
      && Marked(s.leases, id)
    ensures Lost(cfg, Do(cfg, s, CleanUp(id)))
  {
    hide AllBacked, FlightsOk, EventsOk, HasPromotion;
  }

  /** In particular after a crash that a retry alone would have made good. */
  lemma CrashThenCleanUpLoses(cfg: Config, s: System, a: Attempt, k: nat)
    requires s.trail != [] && Inv(cfg, s) && s.stage == Free && Granted(cfg, s.log, a.g) && LeaseReady(s, a)
      && 4 <= k <= 5
    ensures var t := Crashed(cfg, s, a, k); Lost(cfg, Do(cfg, t, CleanUp(a.g.lease)))
  {
    var t := Crashed(cfg, s, a, k);
    CrashedHasInv(cfg, s, a, k);
    CrashKeepsGranted(cfg, s, a, k);
    LeaseMarkedByThen(cfg, s, a, k);
    hide *;
    GrantedState(cfg, t, a.g);
    CleanUpLoses(cfg, t, a.g.lease);
  }

  /** After the fourth step the lease is marked for this grant and fingerprint, and HEAD has moved. */
  lemma LeaseMarkedByThen(cfg: Config, s: System, a: Attempt, k: nat)
    requires s.trail != [] && Inv(cfg, s) && s.stage == Free && Granted(cfg, s.log, a.g) && LeaseReady(s, a)
      && 4 <= k <= 5
    ensures var t := Crashed(cfg, s, a, k);
      && t.stage == Free && |t.trail| == 2 && Marked(t.leases, a.g.lease)
      && t.leases[a.g.lease].integration.value.grant == a.g.id
      && t.leases[a.g.lease].integration.value.fingerprint == a.f
  {
    hide Run, Inv, Granted, LeaseReady, Reached, DoFinishPromotion, Target;
    var merged := Run(cfg, s, Steps(a)[..4]);
    ReachedBy(cfg, s, a, 4);
    RunKeepsInv(cfg, s, Steps(a)[..4]);
    OnceMerged(cfg, s, a, merged);
    MergedMarks(cfg, s, a, merged);
    EvidenceOutlivesEffect(cfg, merged, a);
  }

  lemma MergedMarks(cfg: Config, s: System, a: Attempt, r: System)
    requires s.trail != [] && Inv(cfg, s) && Granted(cfg, s.log, a.g) && LeaseReady(s, a) && Reached(cfg, s, a, 4, r)
    ensures r.stage.Merged? && r.stage.g == a.g && Granted(cfg, r.log, a.g) && Marked(r.leases, a.g.lease)
    ensures r.leases[a.g.lease].integration.value.grant == a.g.id
      && r.leases[a.g.lease].integration.value.fingerprint == a.f
  {
    hide Inv, Granted;
    MarkedMeansMoved(cfg, s, a.g);
  }

  // ---------- Runs, one after the other ----------

  lemma {:induction false} RunsCompose(cfg: Config, s: System, first: seq<Action>, second: seq<Action>)
    requires s.trail != []
    ensures Run(cfg, s, first + second) == Run(cfg, Run(cfg, s, first), second)
  {
    hide Do;
    if second == [] {
      assert first + second == first;
    } else {
      var shorter := second[..|second| - 1];
      RunsCompose(cfg, s, first, shorter);
      assert (first + second)[..|first + second| - 1] == first + shorter;
    }
  }

  // ---------- What may come between a crash and its retry ----------

  lemma LeasesStay(cfg: Config, s: System, action: Action)
    requires s.trail != [] && !action.SetLease? && !action.CleanUp? && !action.MarkLease?
    ensures Do(cfg, s, action).leases == s.leases
  {
    hide Do;
    match action
    case BeginEvaluation(_, _) => EvaluationStepNotes(cfg, s, action);
    case FinishEvaluation(_, _, _, _) => EvaluationStepNotes(cfg, s, action);
    case BeginReview(_, _, _) => ReviewStepNotes(cfg, s, action);
    case FinishReview(_, _, _, _) => ReviewStepNotes(cfg, s, action);
    case BeginRollback(b, f, id) => BeginRollbackStays(cfg, s, b, f, id);
    case FinishRollback(receipt, dies) => FinishRollbackStays(cfg, s, receipt, dies);
    case LogRollback(_) => MoveBackStays(cfg, s, action);
    case MoveBack => MoveBackStays(cfg, s, action);
    case LogRestored => MoveBackStays(cfg, s, action);
    case _ => PromotionLeasesStay(cfg, s, action);
  }

  lemma PromotionLeasesStay(cfg: Config, s: System, action: Action)
    requires s.trail != []
    requires action.AddCandidate? || action.BeginPromotion? || action.Reconcile? || action.MoveHead?
      || action.FinishPromotion? || action.Crash?
    ensures Do(cfg, s, action).leases == s.leases
  {
    hide Inspect, StateOf, PromotionInputs, PromotionByGrant, CandidateEvent;
  }

  lemma MarkingSpares(cfg: Config, s: System, action: Action, id: string)
    requires Inv(cfg, s) && Marked(s.leases, id) && (action.SetLease? || action.CleanUp? || action.MarkLease?)
    ensures var t := Do(cfg, s, action); Marked(t.leases, id) && t.leases[id].integration == s.leases[id].integration
  {
    hide AllBacked, FlightsOk, EventsOk, LeasesOk, HasPromotion;
  }

  /** An integration once recorded on a lease stays as it is. */
  lemma MarkStays(cfg: Config, s: System, action: Action, id: string)
    requires s.trail != [] && Inv(cfg, s) && Marked(s.leases, id)
    ensures var t := Do(cfg, s, action); Marked(t.leases, id) && t.leases[id].integration == s.leases[id].integration
  {
    hide Inv, Do;
    if action.SetLease? || action.CleanUp? || action.MarkLease? {
      MarkingSpares(cfg, s, action, id);
    } else {
      LeasesStay(cfg, s, action);
    }
  }

  lemma {:induction false} MarksStay(cfg: Config, s: System, actions: seq<Action>, id: string)
    requires Inv(cfg, s) && Marked(s.leases, id)
    ensures s.trail != []
    ensures var r := Run(cfg, s, actions); Marked(r.leases, id) && r.leases[id].integration == s.leases[id].integration
  {
    assert s.trail != [];
    hide Inv, Do;
    if actions == [] {
    } else {
      var before := actions[..|actions| - 1];
      MarksStay(cfg, s, before, id);
      RunKeepsInv(cfg, s, before);
      MarkStays(cfg, Run(cfg, s, before), actions[|actions| - 1], id);
    }
  }

  lemma {:induction false} RunGrows(cfg: Config, s: System, actions: seq<Action>)
    requires s.trail != []
    ensures s.log <= Run(cfg, s, actions).log && s.trail <= Run(cfg, s, actions).trail
  {
    if actions == [] {
    } else {
      RunGrows(cfg, s, actions[..|actions| - 1]);
    }
  }

  /** With HEAD moved and the lease marked for this very request, only the lease's state is left to matter. */
  lemma MarkedIsReady(cfg: Config, s: System, b: Attempt)
    requires Inv(cfg, s) && |s.trail| >= 2 && !HasPromotion(s.log) && Marked(s.leases, b.g.lease)
      && b.g.predecessor == cfg.accepted
    requires s.leases[b.g.lease].integration.value.grant == b.g.id
      && s.leases[b.g.lease].integration.value.fingerprint == b.f
    ensures LeaseReady(s, b) <==> s.leases[b.g.lease].state == LeaseIntegrated
  {
    hide AllBacked, FlightsOk, EventsOk, StageOk, HasPromotion;
  }

  /** Once the lease was marked, only its state and the candidate events since are left to matter. */
  lemma BetweenRun(cfg: Config, s: System, a: Attempt, k: nat, actions: seq<Action>)
    requires s.trail != [] && Inv(cfg, s) && s.stage == Free && Granted(cfg, s.log, a.g) && LeaseReady(s, a)
      && 4 <= k <= 5
    requires !HasPromotion(Run(cfg, Crashed(cfg, s, a, k), actions).log)
    ensures var u := Run(cfg, Crashed(cfg, s, a, k), actions);
      && a.g.lease in u.leases
      && (Granted(cfg, u.log, a.g) <==> CandidateEvents(u.log) == CandidateEvents(s.log))
      && forall b: Attempt :: b.g == a.g && b.f == a.f ==>
           (LeaseReady(u, b) <==> u.leases[a.g.lease].state == LeaseIntegrated)
  {
    hide Inv, Granted, LeaseReady, Run, Crashed, HasPromotion, CandidateEvents, AllBacked, Steps;
    var t := Crashed(cfg, s, a, k);
    var u := Run(cfg, t, actions);
    CrashedHasInv(cfg, s, a, k);
    CrashKeepsGranted(cfg, s, a, k);
    LeaseMarkedByThen(cfg, s, a, k);
    RunKeepsInv(cfg, t, actions);
    MarksStay(cfg, t, actions, a.g.lease);
    RunGrows(cfg, t, actions);
    GrantedState(cfg, t, a.g);
    CrashGrows(cfg, s, a, k);
    BothBacked(cfg, t, u);
    EvidenceAge(cfg, t.log, u.log, a.g);
    EvidenceAge(cfg, s.log, t.log, a.g);
    forall b: Attempt | b.g == a.g && b.f == a.f
      ensures LeaseReady(u, b) <==> u.leases[a.g.lease].state == LeaseIntegrated
    {
      MarkedIsReady(cfg, u, b);
    }
  }


  /**
   A promotion that died after its lease was marked, with any run of other operations before it
   is retried: the retry completes if and only if the workspace was not cleaned up meanwhile and
   no candidate was added.
   */
  lemma RetryAfterInterference(cfg: Config, s: System, a: Attempt, k: nat, between: seq<Action>, b: Attempt)
    requires s.trail != [] && Inv(cfg, s) && s.stage == Free && Granted(cfg, s.log, a.g) && LeaseReady(s, a)
      && 4 <= k <= 5
    requires b.g == a.g && b.f == a.f
    requires var u := Run(cfg, Crashed(cfg, s, a, k), between); u.stage == Free && !HasPromotion(u.log)
    ensures var u := Run(cfg, Crashed(cfg, s, a, k), between);
      && a.g.lease in u.leases
      && (HasPromotion(Run(cfg, u, Steps(b)).log) <==>
            u.leases[a.g.lease].state == LeaseIntegrated && CandidateEvents(u.log) == CandidateEvents(s.log))
  {
    hide Inv, Granted, LeaseReady, Run, Crashed, HasPromotion, CandidateEvents, Steps;
    var t := Crashed(cfg, s, a, k);
    CrashedHasInv(cfg, s, a, k);
    RunKeepsInv(cfg, t, between);
    BetweenRun(cfg, s, a, k, between);
    AttemptExactly(cfg, Run(cfg, t, between), b);
  }

  lemma CrashGrows(cfg: Config, s: System, a: Attempt, k: nat)
    requires s.trail != [] && k <= 5
    ensures s.log <= Crashed(cfg, s, a, k).log
  {
    hide Do, DoFinishPromotion;
    RunGrows(cfg, s, Steps(a)[..if k <= 4 then k else 4]);
  }
}
