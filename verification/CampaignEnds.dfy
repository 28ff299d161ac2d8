/**
 What puts a promotion out of reach: dying between moving HEAD and marking the lease, cleaning up
 the marked lease's workspace, an event for any candidate once the evidence was checked, a further
 evaluation or review of the candidate while nobody is at work.  And that nothing else does.
 */
module CampaignEnds {
  import opened Wrappers
  import opened Campaign
  import opened CampaignLog
  import opened CampaignSystem
  import opened CampaignRuns
  import opened CampaignRecovery
  import opened CampaignLoss
  import opened CampaignRenewal
  import opened CampaignAuthority
  import opened CampaignFate

  // ---------- What loses a promotion ----------

  /** Whatever is lost without any grant is lost with them. */
  lemma LostIsDoomed(cfg: Config, a: Authority)
    requires Sound(cfg, a) && Lost(cfg, a.base)
    ensures Doomed(cfg, a)
  {
    hide Sound, Granted, HasPromotion, Scoped;
  }

  /** Dying between moving HEAD and marking the lease. */
  lemma CrashBeforeMarkDooms(cfg: Config, a: Authority)
    requires a.base.trail != [] && Sound(cfg, a) && a.base.stage.HeadMoved?
    ensures Doomed(cfg, Perform(cfg, a, Other(Crash)))
  {
    hide Inv, Custody, HasPromotion, Granted, Scoped, Perform, AdmissionOk, StageHeld, MarksHeld;
    HeadJustMoved(cfg, a.base);
    NoMarkNoLease(a.base.leases);
    CrashPerforms(cfg, a);
  }

  lemma HeadJustMoved(cfg: Config, s: System)
    requires Inv(cfg, s) && s.stage.HeadMoved?
    ensures |s.trail| == 2 && !HasPromotion(s.log) && forall id :: !Marked(s.leases, id)
  {
    hide AllBacked, FlightsOk, EventsOk, LeasesOk, HasPromotion;
  }

  /** Cleaning up the workspace of the integrated lease, unless the last section is under way. */
  lemma CleanUpDooms(cfg: Config, a: Authority, id: string)
    requires |a.base.trail| == 2 && Sound(cfg, a) && !HasPromotion(a.base.log) && !PastHead(a.base.stage)
    requires Marked(a.base.leases, id)
    ensures Doomed(cfg, Perform(cfg, a, Other(CleanUp(id))))
  {
    hide Inv, Custody, HasPromotion, Granted, Scoped, Perform, AdmissionOk, StageHeld, MarksHeld, DistinctReceipts;
    OnlyMark(cfg, a.base, id);
    MovedStages(cfg, a.base);
    PlainPerforms(cfg, a, CleanUp(id));
    ClosingLeavesNone(a.base.leases, id, Perform(cfg, a, Other(CleanUp(id))).base.leases);
  }

  lemma NoMarkNoLease(leases: map<string, Lease>)
    requires forall id :: !Marked(leases, id)
    ensures forall id, grant :: !IntegratedFor(leases, id, grant)
  {
    forall id, grant ensures !IntegratedFor(leases, id, grant) {
      assert !Marked(leases, id);
    }
  }

  lemma ClosingLeavesNone(leases: map<string, Lease>, id: string, after: map<string, Lease>)
    requires Marked(leases, id) && forall other :: Marked(leases, other) ==> other == id
    requires after == leases[id := leases[id].(state := LeaseClosed)]
    ensures forall other, grant :: !IntegratedFor(after, other, grant)
  {
    forall other, grant ensures !IntegratedFor(after, other, grant) {
      assert Marked(leases, other) ==> other == id;
    }
  }

  lemma OnlyMark(cfg: Config, s: System, id: string)
    requires Inv(cfg, s) && Marked(s.leases, id)
    ensures forall other :: Marked(s.leases, other) ==> other == id
  {
    hide AllBacked, FlightsOk, EventsOk, StageOk, HasPromotion;
  }

  /** An event for a candidate, admitted or not, at any time between moving HEAD and the completion. */
  lemma CandidateDooms(cfg: Config, a: Authority, args: CandidateArgs)
    requires |a.base.trail| == 2 && Sound(cfg, a) && !HasPromotion(a.base.log) && args.lease in a.base.leases
    ensures Doomed(cfg, Perform(cfg, a, Other(AddCandidate(args))))
  {
    hide Sound, Inv, HasPromotion, Granted, Scoped, Perform, CandidateEvents, Do, OnceGranted, OnceScoped, Held,
      IntegratedFor, CompletesNothing;
    var b := Perform(cfg, a, Other(AddCandidate(args)));
    PlainPerforms(cfg, a, AddCandidate(args));
    PerformKeepsSound(cfg, a, Other(AddCandidate(args)));
    AddingSparesStage(cfg, a.base, args);
    EvidenceStepCompletesNothing(cfg, a.base, AddCandidate(args));
    StillNotPromoted(a.base.log, b.base.log);
    OneMoreCandidate(cfg, a.base, args);
    if PastHead(b.base.stage) {
      StageIsHeld(cfg, a);
      Overtaken(cfg, a, b, a.base.stage.g);
    }
    forall id, grant | Redeemable(cfg, b, id, grant) ensures !Granted(cfg, b.base.log, b.grants[grant]) {
      IntegratedIsHeld(cfg, a, id, grant);
      Overtaken(cfg, a, b, a.grants[grant]);
    }
  }

  lemma OneMoreCandidate(cfg: Config, s: System, args: CandidateArgs)
    requires s.trail != [] && args.lease in s.leases
    ensures var t := Do(cfg, s, AddCandidate(args)); s.log <= t.log && CandidateEvents(s.log) < CandidateEvents(t.log)
  {
    hide Inspect, StateOf, FindCandidate;
    var e := CandidateEvent(cfg, Inspect(cfg, s.log), args, s.leases[args.lease]);
    assert (s.log + [e])[..|s.log|] == s.log;
  }

  lemma Overtaken(cfg: Config, a: Authority, b: Authority, g: PromotionGrant)
    requires Sound(cfg, a) && Sound(cfg, b) && a.base.log <= b.base.log
    requires !HasPromotion(a.base.log) && !HasPromotion(b.base.log)
    requires OnceGranted(cfg, a.base.log, g) && CandidateEvents(a.base.log) < CandidateEvents(b.base.log)
    ensures !Granted(cfg, b.base.log, g)
  {
    hide Sound, Granted, HasPromotion, AllBacked, Inv, CandidateEvents;
    SoundParts(cfg, b);
    BothBacked(cfg, b.base, b.base);
    var k :| 0 <= k <= |a.base.log| && Granted(cfg, a.base.log[..k], g);
    EvidenceAge(cfg, a.base.log[..k], b.base.log, g);
    CandidateEventsGrow(a.base.log, k, |a.base.log|);
    assert a.base.log[..|a.base.log|] == a.base.log;
  }

  /** The landing of a further evaluation or review of the integrated lease's candidate while nobody is at work. */
  lemma LaterEvidenceDooms(cfg: Config, a: Authority, action: Action, id: string, grant: string)
    requires |a.base.trail| == 2 && Sound(cfg, a) && NobodyAtWork(a) && !HasPromotion(a.base.log)
    requires IntegratedFor(a.base.leases, id, grant) && grant in a.grants
    requires (action.FinishEvaluation? || action.FinishReview?) && action.flight.c.id == a.grants[grant].candidate
    requires Perform(cfg, a, Other(action)).base.log != a.base.log
    ensures Doomed(cfg, Perform(cfg, a, Other(action)))
  {
    hide Sound, Inv, HasPromotion, Granted, Scoped, Perform, Do, OnceGranted, OnceScoped, Held, IntegratedFor, Barred,
      CompletesNothing, NoLaterEvidence;
    var b := Perform(cfg, a, Other(action));
    NotBarredIfChanged(cfg, a, action);
    PerformKeepsSound(cfg, a, Other(action));
    EvidenceStepCompletesNothing(cfg, a.base, action);
    StillNotPromoted(a.base.log, b.base.log);
    LandingOvertakes(cfg, a.base, action);
    IntegratedIsHeld(cfg, a, id, grant);
    ScopeOvertaken(cfg, a, b, a.grants[grant]);
    forall other, g | IntegratedFor(b.base.leases, other, g) ensures other == id && g == grant {
      OneIntegrated(cfg, a, id, grant, other, g);
    }
  }

  lemma NotBarredIfChanged(cfg: Config, a: Authority, action: Action)
    requires a.base.trail != [] && Perform(cfg, a, Other(action)).base.log != a.base.log
    requires action.FinishEvaluation? || action.FinishReview?
    ensures !Barred(cfg, a, action) && Perform(cfg, a, Other(action)) == a.(base := Do(cfg, a.base, action))
  {
    hide Barred, Do;
  }

  lemma LandingOvertakes(cfg: Config, s: System, action: Action)
    requires s.trail != [] && (action.FinishEvaluation? || action.FinishReview?) && Do(cfg, s, action).log != s.log
    ensures s.log <= Do(cfg, s, action).log
    ensures !NoLaterEvidence(cfg, s.log, Do(cfg, s, action).log, action.flight.c.id)
  {
    hide Do, Inspect;
    var t := Do(cfg, s, action);
    if action.FinishEvaluation? {
      EvaluationLands(cfg, s, action);
      LandedEvaluation(cfg, s.log, t.log, action.flight.c.id, action.receipt);
      assert Inspect(cfg, t.log).evaluations[|Inspect(cfg, s.log).evaluations|].candidate == action.flight.c.id;
    } else {
      ReviewLands(cfg, s, action);
      LandedReview(cfg, s.log, t.log, action.flight.c.id, action.receipt);
      assert Inspect(cfg, t.log).reviews[|Inspect(cfg, s.log).reviews|].candidate == action.flight.c.id;
    }
  }

  lemma ScopeOvertaken(cfg: Config, a: Authority, b: Authority, g: PromotionGrant)
    requires Sound(cfg, a) && Sound(cfg, b) && a.base.log <= b.base.log && OnceScoped(cfg, a.base.log, g)
    requires !NoLaterEvidence(cfg, a.base.log, b.base.log, g.candidate)
    ensures !Scoped(cfg, b.base.log, g)
  {
    hide Sound, Scoped, Inv, Custody, Inspect, DistinctReceipts, NoLaterEvidence, OnceScoped;
    SoundParts(cfg, b);
    if Scoped(cfg, a.base.log, g) {
      ScopeAge(cfg, a.base.log, b.base.log, g);
    } else {
      ScopeStaysLost(cfg, a.base.log, b.base.log, g);
    }
  }

  lemma OneIntegrated(cfg: Config, a: Authority, id: string, grant: string, other: string, g: string)
    requires Sound(cfg, a) && IntegratedFor(a.base.leases, id, grant) && IntegratedFor(a.base.leases, other, g)
    ensures other == id && g == grant
  {
    hide Inv, Custody, AdmissionOk, StageHeld, MarksHeld, DistinctReceipts, Inspect;
    assert Marked(a.base.leases, id) && Marked(a.base.leases, other);
    OnlyMark(cfg, a.base, id);
  }

  /** Moving HEAD on evidence that has gone stale since it was checked. */
  lemma StaleMoveDooms(cfg: Config, a: Authority)
    requires a.base.trail != [] && Sound(cfg, a) && a.base.stage.Committed?
    requires !Granted(cfg, a.base.log, a.base.stage.g)
    ensures Doomed(cfg, Perform(cfg, a, Other(MoveHead)))
  {
    hide Inv, Custody, HasPromotion, Granted, Scoped, Perform, AdmissionOk, StageHeld, MarksHeld, DistinctReceipts;
    AboutToMove(cfg, a.base);
    NoMarkNoLease(a.base.leases);
    PlainPerforms(cfg, a, MoveHead);
  }

  lemma AboutToMove(cfg: Config, s: System)
    requires s.trail != [] && Inv(cfg, s) && s.stage.Committed?
    ensures var t := Do(cfg, s, MoveHead);
      && |s.trail| == 1 && |t.trail| == 2 && t.log == s.log && t.leases == s.leases
      && t.stage.HeadMoved? && t.stage.g == s.stage.g && !HasPromotion(s.log) && forall id :: !Marked(s.leases, id)
  {
    hide AllBacked, FlightsOk, EventsOk, HasPromotion;
  }

  /**
   Without any crash: a candidate event at any point of an ordinary promotion between the check of
   its evidence and its last section.  HEAD moves and the lease is marked all the same, the last
   section refuses, and though the lease is integrated and nobody is at work, the promotion is lost.
   */
  lemma CandidateDuringDooms(cfg: Config, x: Authority, a: Attempt, j: nat, args: CandidateArgs)
    requires x.base.trail != [] && Sound(cfg, x) && NobodyAtWork(x)
    requires EntryOpen(cfg, x, a) && Granted(cfg, x.base.log, a.g) && LeaseReady(x.base, a) && 1 <= j <= 4
    requires args.lease in After(cfg, x, Taking(a) + OtherAll(Steps(a)[1..j])).base.leases
    ensures var y := After(cfg, x, Taking(a) + OtherAll(Steps(a)[1..j]));
      var z := After(cfg, y, [Other(AddCandidate(args))] + OtherAll(Steps(a)[j..]));
      Doomed(cfg, z) && NobodyAtWork(z) && IntegratedFor(z.base.leases, a.g.lease, a.g.id)
  {
    hide Sound, Inv, HasPromotion, Granted, Perform, Do, After, EntryOpen, LeaseReady, Doomed, Run, IntegratedFor,
      CandidateEvents, Scoped;
    var y := After(cfg, x, Taking(a) + OtherAll(Steps(a)[1..j]));
    MidwayRuns(cfg, x, a, j);
    AfterKeepsSound(cfg, x, Taking(a) + OtherAll(Steps(a)[1..j]));
    var b := Perform(cfg, y, Other(AddCandidate(args)));
    PlainPerforms(cfg, y, AddCandidate(args));
    PerformKeepsSound(cfg, y, Other(AddCandidate(args)));
    OneMoreCandidate(cfg, y.base, args);
    OnlyTheLog(cfg, y.base, args);
    var rest := Steps(a)[j..4];
    MergedThen(cfg, x, a, j);
    LogIsUnread(cfg, y.base, b.base.log, rest);
    OthersRun(cfg, b, rest);
    AfterKeepsSound(cfg, b, OtherAll(rest));
    var merged := After(cfg, b, OtherAll(rest));
    StaleByThen(cfg, x, a, y.base.log, merged);
    var finish := FinishPromotion(a.receipt, false);
    DoomedStep(cfg, merged, Other(finish));
    PlainPerforms(cfg, merged, finish);
    FinishReleases(cfg, merged.base, a.receipt);
    InOneGo(cfg, y, args, a, j);
  }

  lemma InOneGo(cfg: Config, y: Authority, args: CandidateArgs, a: Attempt, j: nat)
    requires y.base.trail != [] && 1 <= j <= 4
    ensures After(cfg, y, [Other(AddCandidate(args))] + OtherAll(Steps(a)[j..])) ==
      Perform(cfg, After(cfg, Perform(cfg, y, Other(AddCandidate(args))), OtherAll(Steps(a)[j..4])),
              Other(FinishPromotion(a.receipt, false)))
  {
    hide Perform, After;
    var first, middle, last :=
      [Other(AddCandidate(args))], OtherAll(Steps(a)[j..4]), [Other(FinishPromotion(a.receipt, false))];
    assert OtherAll(Steps(a)[j..]) == middle + last;
    AfterComposes(cfg, y, first, middle + last);
    AfterOne(cfg, y, first[0]);
    var b := Perform(cfg, y, first[0]);
    AfterComposes(cfg, b, middle, last);
    AfterOne(cfg, After(cfg, b, middle), last[0]);
  }

  lemma OnlyTheLog(cfg: Config, s: System, args: CandidateArgs)
    requires s.trail != []
    ensures var t := Do(cfg, s, AddCandidate(args)); t == s.(log := t.log)
  {
    hide Inspect, CandidateEvent;
  }

  predicate Blind(action: Action) {
    action.Reconcile? || action.MoveHead? || action.MarkLease?
  }

  /** The steps of the integration neither read nor write the campaign's log. */
  lemma {:induction false} LogIsUnread(cfg: Config, s: System, log: seq<Event>, actions: seq<Action>)
    requires s.trail != [] && forall i :: 0 <= i < |actions| ==> Blind(actions[i])
    ensures Run(cfg, s.(log := log), actions) == Run(cfg, s, actions).(log := log)
    ensures Run(cfg, s, actions).log == s.log
  {
    hide Do, Blind;
    if actions == [] {
    } else {
      var n := |actions| - 1;
      LogIsUnread(cfg, s, log, actions[..n]);
      StepReadsNoLog(cfg, Run(cfg, s, actions[..n]), log, actions[n]);
    }
  }

  lemma StepReadsNoLog(cfg: Config, s: System, log: seq<Event>, action: Action)
    requires s.trail != [] && Blind(action)
    ensures Do(cfg, s.(log := log), action) == Do(cfg, s, action).(log := log) && Do(cfg, s, action).log == s.log
  {
    hide Do, DoReconcile, DoMoveHead, DoMarkLease;
    BlindIs(cfg, s, action);
    BlindIs(cfg, s.(log := log), action);
    match action
    case Reconcile(commit) => ReconcileReadsNoLog(s, log, commit);
    case MoveHead => MoveReadsNoLog(s, log);
    case MarkLease(receipt) => MarkReadsNoLog(s, log, receipt);
  }

  lemma BlindIs(cfg: Config, s: System, action: Action)
    requires s.trail != [] && Blind(action)
    ensures action.Reconcile? ==> Do(cfg, s, action) == DoReconcile(s, action.commit)
    ensures action.MoveHead? ==> Do(cfg, s, action) == DoMoveHead(s)
    ensures action.MarkLease? ==> Do(cfg, s, action) == DoMarkLease(s, action.receipt)
  {
    hide DoReconcile, DoMoveHead, DoMarkLease;
  }

  lemma ReconcileReadsNoLog(s: System, log: seq<Event>, commit: string)
    requires s.trail != []
    ensures DoReconcile(s.(log := log), commit) == DoReconcile(s, commit).(log := log)
    ensures DoReconcile(s, commit).log == s.log
  {
  }

  lemma MoveReadsNoLog(s: System, log: seq<Event>)
    requires s.trail != []
    ensures DoMoveHead(s.(log := log)) == DoMoveHead(s).(log := log) && DoMoveHead(s).log == s.log
  {
  }

  lemma MarkReadsNoLog(s: System, log: seq<Event>, receipt: string)
    ensures DoMarkLease(s.(log := log), receipt) == DoMarkLease(s, receipt).(log := log)
    ensures DoMarkLease(s, receipt).log == s.log
  {
  }

  /** Partway through, the campaign is where the promotion's steps have brought it. */
  lemma MidwayRuns(cfg: Config, x: Authority, a: Attempt, j: nat)
    requires x.base.trail != [] && NobodyAtWork(x) && EntryOpen(cfg, x, a) && 1 <= j <= 4
    ensures var y := After(cfg, x, Taking(a) + OtherAll(Steps(a)[1..j]));
      y.base == Run(cfg, x.base, Steps(a)[..j]) && y.admitted.None?
  {
    hide Do, After, EntryOpen, Run;
    OpenIsScoped(cfg, x, a);
    Takes(cfg, x, a);
    var y := After(cfg, x, Taking(a));
    AfterComposes(cfg, x, Taking(a), OtherAll(Steps(a)[1..j]));
    OthersRun(cfg, y, Steps(a)[1..j]);
    PrefixFirstThenRest(cfg, x.base, Steps(a), j);
  }

  /** The log at the last section has a candidate event since the evidence was checked. */
  lemma StaleByThen(cfg: Config, x: Authority, a: Attempt, log: seq<Event>, merged: Authority)
    requires merged.base.trail != [] && Sound(cfg, merged) && Granted(cfg, x.base.log, a.g)
    requires x.base.log <= log && CandidateEvents(log) < CandidateEvents(merged.base.log) && log <= merged.base.log
    requires merged.base.stage.Merged? && merged.base.stage.g == a.g
    requires IntegratedFor(merged.base.leases, a.g.lease, a.g.id)
    ensures Doomed(cfg, merged)
  {
    hide Sound, Inv, HasPromotion, Granted, AllBacked, CandidateEvents, IntegratedFor, Scoped, Held, OnceGranted,
      OnceScoped;
    SoundParts(cfg, merged);
    NothingYetPromoted(cfg, merged);
    BothBacked(cfg, merged.base, merged.base);
    EvidenceAge(cfg, x.base.log, merged.base.log, a.g);
    CandidateEventsGrow(log, |x.base.log|, |log|);
    assert log[..|log|] == log && log[..|x.base.log|] == x.base.log;
    StageIsHeld(cfg, merged);
    HeldGrant(merged, a.g, merged.base.stage.f);
    forall id, grant | IntegratedFor(merged.base.leases, id, grant) ensures grant == a.g.id {
      OneIntegrated(cfg, merged, a.g.lease, a.g.id, id, grant);
    }
  }

  lemma FinishReleases(cfg: Config, s: System, receipt: string)
    requires s.trail != [] && s.stage.Merged?
    ensures var t := Do(cfg, s, FinishPromotion(receipt, false)); t.stage == Free && t.leases == s.leases
  {
    hide Inspect, PromotionInputs, PromotionByGrant;
  }

  lemma NothingYetPromoted(cfg: Config, a: Authority)
    requires Inv(cfg, a.base) && a.base.stage.Merged?
    ensures !HasPromotion(a.base.log) && |a.base.trail| == 2
  {
    hide AllBacked, FlightsOk, EventsOk, LeasesOk, HasPromotion;
  }

  /** Taken up from any point, the steps up to the last section end with the lease integrated for the request. */
  lemma MergedThen(cfg: Config, x: Authority, a: Attempt, j: nat)
    requires x.base.trail != [] && Sound(cfg, x) && NobodyAtWork(x)
    requires EntryOpen(cfg, x, a) && Granted(cfg, x.base.log, a.g) && LeaseReady(x.base, a) && 1 <= j <= 4
    ensures var midway := Run(cfg, x.base, Steps(a)[..j]);
      var merged := Run(cfg, midway, Steps(a)[j..4]);
      && x.base.log <= midway.log
      && merged.stage.Merged? && merged.stage.g == a.g && IntegratedFor(merged.leases, a.g.lease, a.g.id)
  {
    hide Sound, Inv, Granted, Do, EntryOpen, LeaseReady, Run, Reached, Target, IntegratedFor;
    SoundParts(cfg, x);
    ReachedBy(cfg, x.base, a, 4);
    RunKeepsInv(cfg, x.base, Steps(a)[..4]);
    var merged := Run(cfg, x.base, Steps(a)[..4]);
    OnceMerged(cfg, x.base, a, merged);
    MergedMarks(cfg, x.base, a, merged);
    MergedIntegrates(cfg, x.base, a, merged);
    RunsCompose(cfg, x.base, Steps(a)[..j], Steps(a)[j..4]);
    assert Steps(a)[..j] + Steps(a)[j..4] == Steps(a)[..4];
    RunGrows(cfg, x.base, Steps(a)[..j]);
  }

  lemma MergedIntegrates(cfg: Config, s: System, a: Attempt, r: System)
    requires s.trail != [] && Inv(cfg, s) && Granted(cfg, s.log, a.g) && LeaseReady(s, a) && Reached(cfg, s, a, 4, r)
    ensures IntegratedFor(r.leases, a.g.lease, a.g.id)
  {
    hide Inv, Granted;
    MarkedMeansMoved(cfg, s, a.g);
  }

  // ---------- Nothing else loses one ----------

  /** A crash, also one between the two records of the last section. */
  predicate Dies(action: Action) {
    action.Crash? || (action.FinishPromotion? && action.dies)
  }

  /** The steps that can put a promotion out of reach. */
  ghost predicate MayLose(cfg: Config, a: Authority, r: Request) {
    r.Other? &&
    (|| Dies(r.action) || r.action.CleanUp? || r.action.AddCandidate? || r.action.FinishEvaluation?
     || r.action.FinishReview?
     || (r.action.MoveHead? && a.base.stage.Committed? && !Granted(cfg, a.base.log, a.base.stage.g)))
  }

  /** The records say the same, leases and grants are there, and what was under way still is, or has merged. */
  ghost predicate Keeps(cfg: Config, a: Authority, b: Authority) {
    && Inspect(cfg, b.base.log) == Inspect(cfg, a.base.log) && KeepsGrants(a, b)
    && (forall id, grant :: IntegratedFor(a.base.leases, id, grant) ==> IntegratedFor(b.base.leases, id, grant))
    && (PastHead(a.base.stage) ==> !Granted(cfg, a.base.log, a.base.stage.g)
                                   || (PastHead(b.base.stage) && b.base.stage.g == a.base.stage.g))
    && (forall g :: UnderWay(a, g) && WithLease(a, g) && Granted(cfg, a.base.log, g) ==>
          UnderWay(b, g) || (b.base.stage.Merged? && b.base.stage.g == g))
  }

  /** The grant is on record and its lease is integrated for it. */
  ghost predicate WithLease(a: Authority, g: PromotionGrant) {
    g.id in a.grants && a.grants[g.id] == g && IntegratedFor(a.base.leases, g.lease, g.id)
  }

  lemma KeptInReach(cfg: Config, a: Authority, b: Authority)
    requires Sound(cfg, a) && Keeps(cfg, a, b) && InReach(cfg, a)
    ensures InReach(cfg, b)
  {
    hide Sound, PromotionInputs, InScope, Inspect, IntegratedFor, KeepsGrants, UnderWay;
    if PastHead(a.base.stage) && Granted(cfg, a.base.log, a.base.stage.g) {
    } else {
      var id, grant :| Redeemable(cfg, a, id, grant);
      IntegratedIsHeld(cfg, a, id, grant);
      SameGrant(a, b, grant);
      if Scoped(cfg, a.base.log, a.grants[grant]) || UnderWay(b, a.grants[grant]) {
        assert Redeemable(cfg, b, id, grant);
      }
    }
  }

  lemma SameLogKeeps(cfg: Config, a: Authority, b: Authority)
    requires KeepsGrants(a, b) && Inspect(cfg, b.base.log) == Inspect(cfg, a.base.log)
    requires b.base.leases == a.base.leases
    requires a.base.stage == b.base.stage || (a.base.stage == Free && a.admitted.None?)
    requires a.admitted.Some? ==> b.admitted == a.admitted
    ensures Keeps(cfg, a, b)
  {
    hide Inspect, Granted, IntegratedFor, KeepsGrants;
  }

  lemma PaperKeeps(cfg: Config, a: Authority, r: Request)
    requires a.base.trail != [] && (r.Retain? || r.Consume? || r.Admit?)
    ensures Keeps(cfg, a, Perform(cfg, a, r))
  {
    hide Scoped, KeepsGrants, Keeps, Inspect;
    PerformKeepsGrants(cfg, a, r);
    SameLogKeeps(cfg, a, Perform(cfg, a, r));
  }

  lemma BarredKeeps(cfg: Config, a: Authority, action: Action)
    requires a.base.trail != [] && Barred(cfg, a, action)
    ensures Keeps(cfg, a, Perform(cfg, a, Other(action)))
  {
    hide Barred, KeepsGrants, Keeps, Inspect;
    PerformKeepsGrants(cfg, a, Other(action));
    SameLogKeeps(cfg, a, Perform(cfg, a, Other(action)));
  }

  /** The admitted request begins if its evidence stands. */
  lemma PromoteKeeps(cfg: Config, a: Authority, newId: string)
    requires a.base.trail != [] && Sound(cfg, a) && !HasPromotion(a.base.log)
    ensures Keeps(cfg, a, Perform(cfg, a, Promote(newId)))
  {
    hide Sound, Inv, HasPromotion, KeepsGrants, Granted, IntegratedFor, Inspect, DoBeginPromotion, Custody;
    SoundParts(cfg, a);
    PerformKeepsGrants(cfg, a, Promote(newId));
    if a.admitted.Some? {
      AdmittedIsFree(cfg, a);
      var g := a.admitted.value.g;
      BeginsIfGranted(cfg, a.base, g, a.admitted.value.f, newId);
    }
  }

  lemma AdmittedIsFree(cfg: Config, a: Authority)
    requires AdmissionOk(cfg, a) && a.admitted.Some?
    ensures a.base.stage == Free
  {
    hide Held, OnceScoped;
  }

  lemma BeginsIfGranted(cfg: Config, s: System, g: PromotionGrant, f: string, newId: string)
    requires Inv(cfg, s) && s.stage == Free && !HasPromotion(s.log)
    ensures var t := DoBeginPromotion(cfg, s, g, f, newId);
      && Inspect(cfg, t.log) == Inspect(cfg, s.log) && t.leases == s.leases
      && (Granted(cfg, s.log, g) ==> t.stage.Promoting? && t.stage.g == g)
  {
    hide Inspect, PromotionInputs, StateOf, Inv, HasPromotion;
    if Granted(cfg, s.log, g) {
      NoCompletedRecord(cfg, s, g);
    }
    PreparedIsInvisible(cfg, s.log, PromotionPrepared(g.candidate, g.id, newId, g.predecessor));
  }

  lemma QuietStepKeeps(cfg: Config, a: Authority, action: Action)
    requires a.base.trail != [] && !Barred(cfg, a, action) && (action.BeginEvaluation? || action.BeginReview?)
    ensures Keeps(cfg, a, Perform(cfg, a, Other(action)))
  {
    hide Barred, KeepsGrants, Keeps, Inspect, Do;
    PerformKeepsGrants(cfg, a, Other(action));
    StartIsInvisible(cfg, a.base, action);
    SameLogKeeps(cfg, a, Perform(cfg, a, Other(action)));
  }

  lemma StartIsInvisible(cfg: Config, s: System, action: Action)
    requires s.trail != [] && (action.BeginEvaluation? || action.BeginReview?)
    ensures var t := Do(cfg, s, action);
      Inspect(cfg, t.log) == Inspect(cfg, s.log) && t.leases == s.leases && t.stage == s.stage && t.trail == s.trail
  {
    hide Inspect, StateOf, FindCandidate, FindEvaluation, FindReview;
    if action.BeginEvaluation? {
      InspectNext(cfg, s.log, EvaluationStarted(action.candidate, action.evaluation));
    } else {
      InspectNext(cfg, s.log,
                  ReviewStarted(action.candidate, action.evaluation, action.review, |Inspect(cfg, s.log).candidates|));
    }
  }

  lemma SetLeaseKeeps(cfg: Config, a: Authority, id: string, lease: Lease)
    requires a.base.trail != []
    ensures Keeps(cfg, a, Perform(cfg, a, Other(SetLease(id, lease))))
  {
    hide KeepsGrants, Inspect, Granted;
    PerformKeepsGrants(cfg, a, Other(SetLease(id, lease)));
    PlainPerforms(cfg, a, SetLease(id, lease));
    hide Perform;
  }

  lemma RollbackKeeps(cfg: Config, a: Authority, action: Action)
    requires a.base.trail != [] && !Barred(cfg, a, action) && NotRollingBack(a.base.stage)
    requires action.BeginRollback? || action.LogRollback? || action.MoveBack? || action.LogRestored?
      || action.FinishRollback?
    ensures Keeps(cfg, a, Perform(cfg, a, Other(action)))
  {
    hide KeepsGrants, Keeps, Inspect, Do;
    PerformKeepsGrants(cfg, a, Other(action));
    if action.BeginRollback? {
      BeginRollbackStays(cfg, a.base, action.b, action.fingerprint, action.newId);
      RollbackIsInvisible(cfg, a.base.log, Do(cfg, a.base, action).log);
    } else {
      NothingToRestore(cfg, a.base, action);
    }
    SameLogKeeps(cfg, a, Perform(cfg, a, Other(action)));
  }

  lemma RollbackIsInvisible(cfg: Config, before: seq<Event>, after: seq<Event>)
    requires after == before
      || (|after| == |before| + 1 && before <= after && after[|before|].RollbackPrepared?)
    ensures Inspect(cfg, after) == Inspect(cfg, before)
  {
    if after != before {
      assert after[..|after| - 1] == before;
    }
  }

  lemma ReconcileKeeps(cfg: Config, a: Authority, commit: string)
    requires |a.base.trail| == 2 && Sound(cfg, a) && !HasPromotion(a.base.log)
    ensures Keeps(cfg, a, Perform(cfg, a, Other(Reconcile(commit))))
  {
    hide Sound, Inv, HasPromotion, KeepsGrants, Held, Inspect, Granted, Custody;
    SoundParts(cfg, a);
    PerformKeepsGrants(cfg, a, Other(Reconcile(commit)));
    PlainPerforms(cfg, a, Reconcile(commit));
    MovedStages(cfg, a.base);
    var b := Perform(cfg, a, Other(Reconcile(commit)));
    if a.base.stage.Promoting? {
      var g := a.base.stage.g;
      NotAdmittedToo(cfg, a);
      ReconcileMerges(cfg, a.base, commit);
      if WithLease(a, g) {
        IntegratedIsHeld(cfg, a, g.lease, g.id);
        StageIsHeld(cfg, a);
        OneFingerprint(a, g, a.base.stage.f, a.base.leases[g.lease].integration.value.fingerprint);
        PromotingMergesAnyhow(cfg, a.base, g.lease, commit);
      }
      hide IntegratedFor, DoReconcile;
    } else {
      assert b == a;
      SameLogKeeps(cfg, a, b);
    }
  }

  lemma NotAdmittedToo(cfg: Config, a: Authority)
    requires AdmissionOk(cfg, a) && a.base.stage.Promoting?
    ensures a.admitted.None?
  {
    hide Held, OnceScoped;
  }

  lemma PromotingMergesAnyhow(cfg: Config, s: System, id: string, commit: string)
    requires Inv(cfg, s) && |s.trail| == 2 && s.stage.Promoting?
    requires IntegratedFor(s.leases, id, s.stage.g.id) && s.stage.g.lease == id
    requires s.stage.f == s.leases[id].integration.value.fingerprint
    ensures Do(cfg, s, Reconcile(commit)).stage.Merged?
  {
    assert Marked(s.leases, id);
    hide AllBacked, FlightsOk, EventsOk, HasPromotion;
  }

  lemma MarkKeeps(cfg: Config, a: Authority, receipt: string)
    requires |a.base.trail| == 2 && Sound(cfg, a) && !HasPromotion(a.base.log)
    ensures Keeps(cfg, a, Perform(cfg, a, Other(MarkLease(receipt))))
  {
    hide Sound, Inv, HasPromotion, KeepsGrants, Held, Inspect, Granted, Custody;
    SoundParts(cfg, a);
    PerformKeepsGrants(cfg, a, Other(MarkLease(receipt)));
    PlainPerforms(cfg, a, MarkLease(receipt));
    MovedStages(cfg, a.base);
    if a.base.stage.HeadMoved? {
      NoMarkNoLease(a.base.leases);
      HeadIsNotAdmitted(cfg, a);
    }
    hide Perform, IntegratedFor;
  }

  lemma HeadIsNotAdmitted(cfg: Config, a: Authority)
    requires AdmissionOk(cfg, a) && PastHead(a.base.stage)
    ensures a.admitted.None?
  {
    hide Held, OnceScoped;
  }

  lemma IdleMoveKeeps(cfg: Config, a: Authority)
    requires a.base.trail != [] && !a.base.stage.Committed?
    ensures Keeps(cfg, a, Perform(cfg, a, Other(MoveHead)))
  {
    hide KeepsGrants, Keeps, Inspect;
    PerformKeepsGrants(cfg, a, Other(MoveHead));
    PlainPerforms(cfg, a, MoveHead);
    SameLogKeeps(cfg, a, Perform(cfg, a, Other(MoveHead)));
  }

  /** The last section completes, or its evidence was gone already. */
  lemma FinishKeeps(cfg: Config, a: Authority, receipt: string)
    requires |a.base.trail| == 2 && Sound(cfg, a) && !HasPromotion(a.base.log)
    ensures var b := Perform(cfg, a, Other(FinishPromotion(receipt, false)));
      HasPromotion(b.base.log) || Keeps(cfg, a, b)
  {
    hide Sound, Inv, HasPromotion, KeepsGrants, Inspect, Granted, Custody, Do, PromotionInputs, IntegratedFor,
      Completes;
    SoundParts(cfg, a);
    PerformKeepsGrants(cfg, a, Other(FinishPromotion(receipt, false)));
    PlainPerforms(cfg, a, FinishPromotion(receipt, false));
    if a.base.stage.Merged? && Granted(cfg, a.base.log, a.base.stage.g) {
      OwnRecordOnly(cfg, a.base);
      var x := CampaignRecovery.Attempt(a.base.stage.g, a.base.stage.f, "", "", "", receipt);
      FinishCompletes(cfg, x, a.base);
      FinishingIs(cfg, a.base, receipt, false);
      CompletedIsPromoted(DoFinishPromotion(cfg, a.base, receipt, false), x, a.base.stage.i.accepted);
    } else {
      StaleInputs(cfg, a.base);
      StaleFinishChangesNothing(cfg, a.base, receipt);
    }
    hide DoFinishPromotion;
  }

  lemma StaleFinishChangesNothing(cfg: Config, s: System, receipt: string)
    requires s.trail != [] && (s.stage.Merged? ==> PromotionInputs(cfg, Inspect(cfg, s.log), s.stage.g, true).None?)
    ensures Do(cfg, s, FinishPromotion(receipt, false)) == if s.stage.Merged? then s.(stage := Free) else s
  {
    hide Inspect, PromotionInputs, PromotionByGrant;
  }

  lemma HarmlessKeeps(cfg: Config, a: Authority, action: Action)
    requires |a.base.trail| == 2 && Sound(cfg, a) && !HasPromotion(a.base.log) && !Barred(cfg, a, action)
    requires !MayLose(cfg, a, Other(action))
    ensures var b := Perform(cfg, a, Other(action)); HasPromotion(b.base.log) || Keeps(cfg, a, b)
  {
    hide Sound, Inv, HasPromotion, Keeps, Perform, Barred, Granted, Inspect;
    SoundParts(cfg, a);
    MovedStages(cfg, a.base);
    match action
    case SetLease(id, lease) => SetLeaseKeeps(cfg, a, id, lease);
    case BeginEvaluation(_, _) => QuietStepKeeps(cfg, a, action);
    case BeginReview(_, _, _) => QuietStepKeeps(cfg, a, action);
    case Reconcile(commit) => ReconcileKeeps(cfg, a, commit);
    case MoveHead => IdleMoveKeeps(cfg, a);
    case MarkLease(receipt) => MarkKeeps(cfg, a, receipt);
    case FinishPromotion(receipt, _) => FinishKeeps(cfg, a, receipt);
    case _ => NotBeginning(cfg, a, action); RollbackKeeps(cfg, a, action);
  }

  /**
   Before HEAD moves only moving it changes where it is, and that keeps a promotion in reach if its
   evidence stands.
   */
  lemma UnmovedStaysCompletable(cfg: Config, a: Authority, r: Request)
    requires |a.base.trail| == 1 && Sound(cfg, a) && !HasPromotion(a.base.log) && MayAdmit(cfg)
    requires !MayLose(cfg, a, r)
    ensures Completable(cfg, Perform(cfg, a, r))
  {
    hide Sound, Inv, HasPromotion, Perform, Do, Granted, Custody, Inspect;
    SoundParts(cfg, a);
    AmountsTo(cfg, a, r);
    var step := Amounts(cfg, a, r);
    if step.Some? {
      TrailMoves(cfg, a.base, step.value);
      if step.value.MoveHead? && a.base.stage.Committed? {
        AboutToMove(cfg, a.base);
      }
    }
  }

  lemma TrailMoves(cfg: Config, s: System, action: Action)
    requires |s.trail| == 1 && Inv(cfg, s) && !HasPromotion(s.log)
    ensures !(action.MoveHead? && s.stage.Committed?) ==> |Do(cfg, s, action).trail| == 1
  {
    hide Inv, HasPromotion, Inspect, CandidateEvent, DoBeginEvaluation, DoFinishEvaluation, DoBeginReview,
      DoFinishReview,
      DoBeginPromotion, DoFinishPromotion, DoBeginRollback, DoFinishRollback, LastTx, TxMatches;
    NotMovingBack(cfg, s);
  }

  lemma NotMovingBack(cfg: Config, s: System)
    requires Inv(cfg, s) && !HasPromotion(s.log)
    ensures NotRollingBack(s.stage)
  {
    hide AllBacked, FlightsOk, EventsOk, LeasesOk, TrailOk, HasPromotion;
    if !NotRollingBack(s.stage) {
      CompletionPromotes(s.log, s.stage.p);
    }
  }

  /**
   Nothing else loses a promotion.  A step after which no run completes one any more, where some
   run did before, is a crash, a clean-up, a candidate event, the landing of an evaluation or a
   review, or the moving of HEAD on evidence gone stale since it was checked.
   */
  lemma OnlyTheseLose(cfg: Config, a: Authority, requests: seq<Request>, r: Request)
    requires OpenedAuthority(cfg, a)
    requires a.base.trail != [] && CanComplete(cfg, After(cfg, a, requests))
    requires !CanComplete(cfg, Perform(cfg, After(cfg, a, requests), r))
    ensures MayLose(cfg, After(cfg, a, requests), r)
  {
    hide Sound, HasPromotion, After, CanComplete, Perform, MayLose, InReach, Keeps, Completable;
    var b := After(cfg, a, requests);
    var d := Perform(cfg, b, r);
    ReachableIsSound(cfg, a, requests);
    assert d == After(cfg, a, requests + [r]) by {
      AfterComposes(cfg, a, requests, [r]);
      AfterOne(cfg, b, r);
    }
    if HasPromotion(b.base.log) {
      PromotedStays(cfg, b, r);
      CompletesNow(cfg, d);
    } else if HasPromotion(d.base.log) {
      CompletesNow(cfg, d);
    } else {
      CanCompleteExactly(cfg, a, requests);
      CanCompleteExactly(cfg, a, requests + [r]);
      if !MayLose(cfg, b, r) {
        StaysCompletable(cfg, b, r);
      }
    }
  }

  lemma PromotedStays(cfg: Config, a: Authority, r: Request)
    requires a.base.trail != [] && HasPromotion(a.base.log)
    ensures HasPromotion(Perform(cfg, a, r).base.log)
  {
    hide Perform;
    var e :| e in a.base.log && e.PromotionCompleted?;
    assert e in Perform(cfg, a, r).base.log;
  }

  lemma StaysCompletable(cfg: Config, a: Authority, r: Request)
    requires a.base.trail != [] && Sound(cfg, a) && !HasPromotion(a.base.log) && Completable(cfg, a)
      && !MayLose(cfg, a, r)
    requires !HasPromotion(Perform(cfg, a, r).base.log)
    ensures Completable(cfg, Perform(cfg, a, r))
  {
    hide Sound, Inv, HasPromotion, Perform, InReach, Keeps, MayLose, Barred, TrailOk;
    TrailsAre(cfg, a);
    var b := Perform(cfg, a, r);
    if |a.base.trail| == 1 {
      UnmovedStaysCompletable(cfg, a, r);
    } else {
      MovedStays(a, b);
      if r.Promote? {
        PromoteKeeps(cfg, a, r.newId);
      } else if !r.Other? {
        PaperKeeps(cfg, a, r);
      } else if Barred(cfg, a, r.action) {
        BarredKeeps(cfg, a, r.action);
      } else {
        HarmlessKeeps(cfg, a, r.action);
      }
      KeptInReach(cfg, a, b);
    }
  }

  lemma MovedStays(a: Authority, b: Authority)
    requires a.base.trail <= b.base.trail && a.base.trail != [] && |a.base.trail| != 1
    ensures |b.base.trail| != 1
  {
  }
}
