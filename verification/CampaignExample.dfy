/**
 A whole campaign: one candidate, its evaluation and its review.  It shows that the hypotheses of
 the recovery results are met by a run, and every end a promotion can come to.
 */
module CampaignExample {
  import opened Wrappers
  import opened Campaign
  import opened CampaignSystem
  import opened CampaignRuns
  import opened CampaignRecovery
  import opened CampaignLog
  import opened CampaignLoss
  import opened CampaignRenewal
  import opened CampaignAuthority
  import opened CampaignFate
  import opened CampaignEnds
  import CampaignRollback

  const CFG := Config("base", "author", "evaluator", "judge", (attempt, cost, reason) => "rejected", patch => patch,
                      candidates => "denominator")

  const LEASE := Lease(LeaseReturned, "base", "author", Some("patch"), None)

  const ENTRY := Candidate("C", "patch", "patch", "L", None, Original, "author", Admitted, 0, [])
  const PASS := Evaluation("E", "C", CompletedPass, false, false, "evaluation receipt")
  const APPROVAL := Review("R", "C", "E", Approve, 1, "denominator", [], "review receipt")

  const EVALUATING := EvaluationFlight(ENTRY, "E")
  const REVIEWING := ReviewFlight(ENTRY, PASS, "R", 1, "denominator")

  const OPENED := System([CampaignOpened], ["base"], map["L" := LEASE], map[], map[], {}, Free)

  const PREPARATION := [
    AddCandidate(CandidateArgs("attempt", "L", Original, None, Some("C"), "author", Admitted, 0, [])),
    BeginEvaluation("C", "E"),
    FinishEvaluation(EVALUATING, ProviderCompleted, Some(EvaluatorAnswer(Some(CompletedPass), false)),
                     "evaluation receipt"),
    BeginReview("C", "E", "R"),
    FinishReview(REVIEWING, ProviderCompleted, Some(ReviewerAnswer(Some(Approve), [])), "review receipt")]

  const GRANT := PromotionGrant("G", "C", "patch", "base", "L", "patch", "evaluation receipt", "review receipt")

  const PROMOTION := CampaignRecovery.Attempt(GRANT, "fingerprint", "P", "new", "integration receipt",
                                              "promotion receipt")

  // ---------- The state after each step ----------

  const LOG_1 := [CampaignOpened, CandidateAdded(ENTRY)]
  const LOG_2 := LOG_1 + [EvaluationStarted("C", "E")]
  const LOG_3 := LOG_2 + [EvaluationCompleted(PASS)]
  const LOG_4 := LOG_3 + [ReviewStarted("C", "E", "R", 1)]
  const LOG_5 := LOG_4 + [ReviewCompleted(APPROVAL)]

  const EMPTY := Snapshot([], [], [], [], [])

  lemma Snapshots()
    ensures Inspect(CFG, [CampaignOpened]) == EMPTY
    ensures Inspect(CFG, LOG_1) == Inspect(CFG, LOG_2) == EMPTY.(candidates := [ENTRY])
    ensures Inspect(CFG, LOG_3) == Inspect(CFG, LOG_4) == EMPTY.(candidates := [ENTRY], evaluations := [PASS])
    ensures Inspect(CFG, LOG_5) == EMPTY.(candidates := [ENTRY], evaluations := [PASS], reviews := [APPROVAL])
  {
    InspectNext(CFG, [], CampaignOpened);
    assert [] + [CampaignOpened] == [CampaignOpened] && [CampaignOpened] + [CandidateAdded(ENTRY)] == LOG_1;
    InspectNext(CFG, [CampaignOpened], CandidateAdded(ENTRY));
    InspectNext(CFG, LOG_1, EvaluationStarted("C", "E"));
    InspectNext(CFG, LOG_2, EvaluationCompleted(PASS));
    InspectNext(CFG, LOG_3, ReviewStarted("C", "E", "R", 1));
    InspectNext(CFG, LOG_4, ReviewCompleted(APPROVAL));
    hide Inspect;
  }

  lemma Admits()
    ensures Do(CFG, OPENED, PREPARATION[0]) == OPENED.(log := LOG_1)
  {
    Snapshots();
    hide Inspect;
    assert StateOf(EMPTY) == Open;
    assert FindCandidate([], "C") == None;
    assert CandidateEvent(CFG, EMPTY, PREPARATION[0].args, LEASE) == CandidateAdded(ENTRY);
    assert [CampaignOpened] + [CandidateAdded(ENTRY)] == LOG_1;
  }

  lemma Evaluates()
    ensures Do(CFG, OPENED.(log := LOG_1), PREPARATION[1]) == OPENED.(log := LOG_2, flights := {EVALUATING})
    ensures Do(CFG, OPENED.(log := LOG_2, flights := {EVALUATING}), PREPARATION[2]) == OPENED.(log := LOG_3)
  {
    Snapshots();
    hide Inspect;
    var snap := EMPTY.(candidates := [ENTRY]);
    assert StateOf(snap) == Open && FindCandidate([ENTRY], "C") == Some(ENTRY) && FindEvaluation([], "E") == None;
    assert {} + {EVALUATING} == {EVALUATING};
    assert {EVALUATING} - {EVALUATING} == {};
  }

  lemma Reviews()
    ensures Do(CFG, OPENED.(log := LOG_3), PREPARATION[3]) == OPENED.(log := LOG_4, flights := {REVIEWING})
    ensures Do(CFG, OPENED.(log := LOG_4, flights := {REVIEWING}), PREPARATION[4]) == OPENED.(log := LOG_5)
  {
    Snapshots();
    hide Inspect;
    var snap := EMPTY.(candidates := [ENTRY], evaluations := [PASS]);
    assert StateOf(snap) == Open && FindCandidate([ENTRY], "C") == Some(ENTRY)
      && FindEvaluation([PASS], "E") == Some(PASS) && FindReview([], "R") == None;
    assert {} + {REVIEWING} == {REVIEWING};
    assert {REVIEWING} - {REVIEWING} == {};
  }

  lemma EvidenceStands()
    ensures Granted(CFG, LOG_5, GRANT)
  {
    Snapshots();
    hide Inspect;
    var snap := EMPTY.(candidates := [ENTRY], evaluations := [PASS], reviews := [APPROVAL]);
    assert StateOf(snap) == Open && FindCandidate([ENTRY], "C") == Some(ENTRY);
    assert EvaluationFor([PASS], "C", "evaluation receipt") == Some(PASS)
      && ReviewFor([APPROVAL], "C", "review receipt") == Some(APPROVAL);
    assert PromotionInputs(CFG, snap, GRANT, false) == Some(Inputs(ENTRY, PASS, APPROVAL));
  }

  lemma LeaseStands()
    ensures Opened(CFG, OPENED) && LeaseReady(OPENED.(log := LOG_5), PROMOTION) && |PREPARATION| == 5
    ensures !Marked(OPENED.leases, "L") && Target(OPENED.(log := LOG_5), PROMOTION) == "new"
  {
  }

  /** A run that opens a campaign and leaves it ready for its promotion. */
  lemma PreparationIsReady()
    ensures Opened(CFG, OPENED) && Run(CFG, OPENED, PREPARATION) == OPENED.(log := LOG_5)
    ensures Inv(CFG, OPENED.(log := LOG_5)) && Granted(CFG, LOG_5, GRANT)
      && LeaseReady(OPENED.(log := LOG_5), PROMOTION)
  {
    LeaseStands();
    EvidenceStands();
    hide Inspect, Inv, Do, Run, Granted, LeaseReady, PREPARATION;
    Admits();
    Evaluates();
    Reviews();
    RunFive(CFG, OPENED, PREPARATION);
    ReachableHasInv(CFG, OPENED, PREPARATION);
  }

  // ---------- The ends it can come to ----------

  /** The campaign opened, with the grant on record; and the same, ready for its promotion. */
  const HOST := Authority(OPENED, map["G" := GRANT], map[], None)
  const READY := Authority(OPENED.(log := LOG_5), map["G" := GRANT], map[], None)

  lemma PreparationPerforms()
    ensures OpenedAuthority(CFG, HOST) && After(CFG, HOST, OtherAll(PREPARATION)) == READY
  {
    hide Inspect, Do, Perform, After, Opened, PREPARATION, LOG_1, LOG_2, LOG_3, LOG_4, LOG_5;
    LeaseStands();
    AddingPerforms();
    EvaluatingPerforms();
    ReviewingPerforms();
    FiveRequests(HOST, OtherAll(PREPARATION));
  }

  lemma FiveRequests(a: Authority, requests: seq<Request>)
    requires a.base.trail != [] && |requests| == 5
    ensures After(CFG, a, requests) ==
      Perform(CFG, Perform(CFG, Perform(CFG, Perform(CFG, Perform(CFG, a,
        requests[0]), requests[1]), requests[2]), requests[3]), requests[4])
  {
    hide Perform, After;
    assert requests[..0] == [] && requests[..5] == requests;
    AfterNothing(CFG, a);
    AfterOneMore(CFG, a, requests, 0);
    AfterOneMore(CFG, a, requests, 1);
    AfterOneMore(CFG, a, requests, 2);
    AfterOneMore(CFG, a, requests, 3);
    AfterOneMore(CFG, a, requests, 4);
  }

  lemma AddingPerforms()
    ensures Perform(CFG, HOST, Other(PREPARATION[0])) == HOST.(base := OPENED.(log := LOG_1))
  {
    hide Inspect, Do, Perform, LOG_1;
    Admits();
    PlainPerforms(CFG, HOST, PREPARATION[0]);
  }

  lemma EvaluatingPerforms()
    ensures var a := HOST.(base := OPENED.(log := LOG_1));
      Perform(CFG, Perform(CFG, a, Other(PREPARATION[1])), Other(PREPARATION[2]))
      == HOST.(base := OPENED.(log := LOG_3))
  {
    hide Inspect, Do, Perform, LOG_1, LOG_2, LOG_3;
    Evaluates();
    Snapshots();
    PlainPerforms(CFG, HOST.(base := OPENED.(log := LOG_1)), PREPARATION[1]);
    NewReceiptPerforms(HOST.(base := OPENED.(log := LOG_2, flights := {EVALUATING})), PREPARATION[2]);
  }

  lemma ReviewingPerforms()
    ensures var a := HOST.(base := OPENED.(log := LOG_3));
      Perform(CFG, Perform(CFG, a, Other(PREPARATION[3])), Other(PREPARATION[4])) == READY
  {
    hide Inspect, Do, Perform, LOG_3, LOG_4, LOG_5;
    Reviews();
    Snapshots();
    PlainPerforms(CFG, HOST.(base := OPENED.(log := LOG_3)), PREPARATION[3]);
    NewReceiptPerforms(HOST.(base := OPENED.(log := LOG_4, flights := {REVIEWING})), PREPARATION[4]);
  }

  lemma NewReceiptPerforms(a: Authority, action: Action)
    requires a.base.trail != [] && (action.FinishEvaluation? || action.FinishReview?)
    requires !RepeatsReceipt(Inspect(CFG, a.base.log), action)
    ensures Perform(CFG, a, Other(action)) == a.(base := Do(CFG, a.base, action))
  {
    hide Do, Inspect, RepeatsReceipt;
  }

  lemma ReadyIsOpen()
    ensures Sound(CFG, READY) && NobodyAtWork(READY) && EntryOpen(CFG, READY, PROMOTION)
    ensures Granted(CFG, LOG_5, GRANT) && LeaseReady(READY.base, PROMOTION) && Inv(CFG, READY.base)
  {
    PreparationPerforms();
    PreparationIsReady();
    ReachableIsSound(CFG, HOST, OtherAll(PREPARATION));
    ScopeStands();
    hide Sound, Inv, Granted, LeaseReady, Scoped;
  }

  lemma ScopeStands()
    ensures Scoped(CFG, LOG_5, GRANT)
  {
    Snapshots();
    hide Inspect;
    assert FindCandidate([ENTRY], "C") == Some(ENTRY);
    assert LastEvaluation([PASS], "C") == Some(PASS) && LastReview([APPROVAL], "C") == Some(APPROVAL);
  }

  const AGAIN := EvaluationFlight(ENTRY, "E2")
  const LATER := FinishEvaluation(AGAIN, ProviderCompleted, Some(EvaluatorAnswer(Some(CompletedPass), false)), "later")

  const ANOTHER := CandidateArgs("attempt", "L", Original, None, Some("D"), "author", Admitted, 0, [])

  /** What the crash after the lease is marked leaves. */
  const DEAD := After(CFG, READY, DyingSteps(PROMOTION, 4))

  /**
   Left alone the promotion completes with the new revision.  It is lost when its process dies
   before the lease is marked; when the workspace is cleaned up, or the candidate evaluated again,
   after a crash that a retry would have made good; and without any crash when another candidate
   is added before the last section.
   */
  lemma EndsAreReached()
    ensures OpenedAuthority(CFG, HOST) && After(CFG, HOST, OtherAll(PREPARATION)) == READY
    ensures Completes(After(CFG, READY, EntrySteps(PROMOTION)).base, PROMOTION, "new")
    ensures Doomed(CFG, After(CFG, READY, DyingSteps(PROMOTION, 3)))
    ensures Doomed(CFG, Perform(CFG, DEAD, Other(CleanUp("L"))))
    ensures Doomed(CFG, After(CFG, DEAD, [Other(BeginEvaluation("C", "E2")), Other(LATER)]))
    ensures var merged := After(CFG, READY, Taking(PROMOTION) + OtherAll(Steps(PROMOTION)[1..4]));
      Doomed(CFG, After(CFG, merged, [Other(AddCandidate(ANOTHER))] + OtherAll(Steps(PROMOTION)[4..])))
  {
    hide Inv, Run, Completes, Lost, Granted, LeaseReady, Target, Sound, After, EntryOpen, Doomed, Perform,
      IntegratedFor;
    PreparationPerforms();
    ReadyIsOpen();
    LeaseStands();
    AttemptCompletes(CFG, READY.base, PROMOTION);
    OpenIsScoped(CFG, READY, PROMOTION);
    EntryRuns(CFG, READY, PROMOTION);
    DyingLoses();
    CleaningLoses();
    EvaluatingLoses();
    AddingLoses();
  }

  lemma DyingLoses()
    ensures Doomed(CFG, After(CFG, READY, DyingSteps(PROMOTION, 3)))
  {
    hide Inv, Granted, LeaseReady, Sound, After, EntryOpen, Doomed, Crashed, Lost;
    ReadyIsOpen();
    DyingRuns(CFG, READY, PROMOTION, 3);
    AfterKeepsSound(CFG, READY, DyingSteps(PROMOTION, 3));
    CrashAfterMoveLoses(CFG, READY.base, PROMOTION);
    LostIsDoomed(CFG, After(CFG, READY, DyingSteps(PROMOTION, 3)));
  }

  /** After the later crash the lease is marked and nothing is promoted yet. */
  lemma DeadIsMarked()
    ensures Sound(CFG, DEAD) && NobodyAtWork(DEAD) && |DEAD.base.trail| == 2 && !HasPromotion(DEAD.base.log)
    ensures Marked(DEAD.base.leases, "L") && IntegratedFor(DEAD.base.leases, "L", "G")
    ensures "G" in DEAD.grants && DEAD.grants["G"] == GRANT && Granted(CFG, DEAD.base.log, GRANT)
    ensures LOG_5 <= DEAD.base.log && NobodyAtWork(READY) && DEAD.base == Crashed(CFG, READY.base, PROMOTION, 4)
  {
    hide Inv, Granted, LeaseReady, Sound, After, EntryOpen, Crashed, HasPromotion, KeepsGrants;
    ReadyIsOpen();
    DyingRuns(CFG, READY, PROMOTION, 4);
    AfterKeepsSound(CFG, READY, DyingSteps(PROMOTION, 4));
    LeaseMarkedByThen(CFG, READY.base, PROMOTION, 4);
    CrashKeepsGranted(CFG, READY.base, PROMOTION, 4);
    CrashGrows(CFG, READY.base, PROMOTION, 4);
    CrashedHasInv(CFG, READY.base, PROMOTION, 4);
    GrantedState(CFG, DEAD.base, GRANT);
    AfterKeepsGrants(CFG, READY, DyingSteps(PROMOTION, 4));
    SameGrant(READY, DEAD, "G");
    SoundParts(CFG, DEAD);
    DeadIsIntegrated();
  }

  lemma DeadIsIntegrated()
    ensures IntegratedFor(Crashed(CFG, READY.base, PROMOTION, 4).leases, "L", "G")
  {
    hide Inv, Granted, LeaseReady, Run, Reached, Target;
    PreparationIsReady();
    ReachedBy(CFG, READY.base, PROMOTION, 4);
    MergedIntegrates(CFG, READY.base, PROMOTION, Run(CFG, READY.base, Steps(PROMOTION)[..4]));
  }

  lemma CleaningLoses()
    ensures Doomed(CFG, Perform(CFG, DEAD, Other(CleanUp("L"))))
  {
    hide Sound, Granted, HasPromotion, Doomed, Perform, Crashed, After;
    DeadIsMarked();
    CleanUpDooms(CFG, DEAD, "L");
  }

  /** The candidate is as it was, and the campaign open. */
  lemma DeadIsOpen()
    ensures FindCandidate(Inspect(CFG, DEAD.base.log).candidates, "C") == Some(ENTRY)
    ensures StateOf(Inspect(CFG, DEAD.base.log)) == Open
    ensures Inspect(CFG, DEAD.base.log).evaluations == [PASS]
  {
    hide Inv, Granted, LeaseReady, Sound, After, EntryOpen, HasPromotion, Inspect, StateOf, KeepsGrants, Run;
    DeadIsMarked();
    ReadyIsOpen();
    SoundParts(CFG, DEAD);
    OpenCampaign(CFG, DEAD.base);
    ReachedBy(CFG, READY.base, PROMOTION, 4);
    ReachedLog(Run(CFG, READY.base, Steps(PROMOTION)[..4]));
    Snapshots();
    EntryIsFound();
  }

  lemma EntryIsFound()
    ensures FindCandidate([ENTRY], "C") == Some(ENTRY)
  {
  }

  lemma ReachedLog(r: System)
    requires Reached(CFG, READY.base, PROMOTION, 4, r)
    ensures Inspect(CFG, r.log) == Inspect(CFG, LOG_5)
  {
    hide Inspect, Granted;
    if id :| r.log == LOG_5 + [PromotionPrepared("C", "G", id, "base")] {
      PreparedIsInvisible(CFG, LOG_5, PromotionPrepared("C", "G", id, "base"));
    }
  }

  lemma EvaluatingLoses()
    ensures Doomed(CFG, After(CFG, DEAD, [Other(BeginEvaluation("C", "E2")), Other(LATER)]))
  {
    hide Sound, Granted, HasPromotion, Doomed, Perform, Do, Crashed, After, Inspect, StateOf, IntegratedFor,
      FindCandidate;
    DeadIsMarked();
    DeadIsOpen();
    var snap := Inspect(CFG, DEAD.base.log);
    var begin := BeginEvaluation("C", "E2");
    var e := Evaluation("E2", "C", CompletedPass, false, false, "later");
    PlainPerforms(CFG, DEAD, begin);
    var b := Perform(CFG, DEAD, Other(begin));
    PerformKeepsSound(CFG, DEAD, Other(begin));
    OnlyPassIsThere();
    EvaluationRuns(CFG, DEAD.base, snap, ENTRY, e);
    EvaluationActionsAre(DEAD.base);
    StartIsInvisible(CFG, DEAD.base, begin);
    NewReceiptPerforms(b, LATER);
    SameInspectSamePromise(CFG, DEAD, b);
    LaterEvidenceDooms(CFG, b, LATER, "L", "G");
    assert [Other(begin), Other(LATER)] == [Other(begin)] + [Other(LATER)];
    AfterComposes(CFG, DEAD, [Other(begin)], [Other(LATER)]);
    AfterOne(CFG, DEAD, Other(begin));
    AfterOne(CFG, b, Other(LATER));
  }

  lemma OnlyPassIsThere()
    ensures FindEvaluation([PASS], "E2") == None
  {
  }

  lemma EvaluationActionsAre(s: System)
    requires s.trail != []
    ensures Do(CFG, s, BeginEvaluation("C", "E2")) == DoBeginEvaluation(CFG, s, "C", "E2")
    ensures var t := DoBeginEvaluation(CFG, s, "C", "E2");
      && t.trail != []
      && Do(CFG, t, LATER) == DoFinishEvaluation(CFG, t, AGAIN, LATER.status, LATER.answer, "later")
  {
    hide DoBeginEvaluation, DoFinishEvaluation;
  }

  /** What the records show does not say less of what was promoted. */
  lemma SameInspectSamePromise(cfg: Config, a: Authority, b: Authority)
    requires Sound(cfg, a) && Sound(cfg, b) && Inspect(cfg, b.base.log) == Inspect(cfg, a.base.log)
    requires !HasPromotion(a.base.log)
    ensures !HasPromotion(b.base.log)
  {
    hide Inspect, Inv, StateOf, AllBacked, HasPromotion;
    SoundParts(cfg, a);
    SoundParts(cfg, b);
    BothBacked(cfg, a.base, b.base);
    StateOfLog(cfg, a.base.log);
    StateOfLog(cfg, b.base.log);
  }

  lemma AddingLoses()
    ensures var merged := After(CFG, READY, Taking(PROMOTION) + OtherAll(Steps(PROMOTION)[1..4]));
      Doomed(CFG, After(CFG, merged, [Other(AddCandidate(ANOTHER))] + OtherAll(Steps(PROMOTION)[4..])))
  {
    hide Inv, Granted, LeaseReady, Sound, After, EntryOpen, Doomed, Run, Reached;
    ReadyIsOpen();
    MidwayRuns(CFG, READY, PROMOTION, 4);
    ReachedBy(CFG, READY.base, PROMOTION, 4);
    MergedIntegrates(CFG, READY.base, PROMOTION, Run(CFG, READY.base, Steps(PROMOTION)[..4]));
    CandidateDuringDooms(CFG, READY, PROMOTION, 4, ANOTHER);
  }

  function RollingBack(p: Promotion): CampaignRollback.Attempt {
    CampaignRollback.Attempt(RollbackGrant("RG", p.id, p.accepted, p.predecessor), "another fingerprint", "RB", true,
                             "rollback receipt")
  }

  ghost predicate RolledBackBy(s: System, a: CampaignRollback.Attempt)
    requires s.trail != []
  {
    CampaignRollback.Done(Run(CFG, s, CampaignRollback.Steps(a)).log, a.b.id)
  }

  /** The promoted campaign meets the hypotheses of the rollback results, and is rolled back. */
  lemma PromotedIsRolledBack()
    ensures var t := Run(CFG, OPENED.(log := LOG_5), Steps(PROMOTION));
      && Inv(CFG, t) && t.stage == Free && Head(t) == "new"
      && exists p :: CampaignRollback.Fits(t, RollingBack(p), p) && RolledBackBy(t, RollingBack(p))
  {
    hide Inv, Run, Granted, LeaseReady, Target, CampaignRollback.Done;
    PreparationIsReady();
    LeaseStands();
    var s := OPENED.(log := LOG_5);
    AttemptCompletes(CFG, s, PROMOTION);
    RunKeepsInv(CFG, s, Steps(PROMOTION));
    RollbackLogUntouched(CFG, s, PROMOTION);
    var t := Run(CFG, s, Steps(PROMOTION));
    var p := t.log[|t.log| - 1].p;
    assert PromotionCompleted(p) in t.log;
    CampaignRollback.RollbackCompletes(CFG, t, RollingBack(p), p);
  }
}
