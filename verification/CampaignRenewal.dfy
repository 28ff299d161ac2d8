/**
 Getting new evidence: one more evaluation and review of a candidate, and a new lease with its
 first candidate, as runs of the campaign.
 */
module CampaignRenewal {
  import opened Wrappers
  import opened Campaign
  import opened CampaignSystem
  import opened CampaignRecovery

  // ---------- Renewing the evidence ----------

  /** A name longer than every name in use. */
  function NewName(used: seq<string>): (r: string)
    ensures forall u :: u in used ==> |u| < |r|
  {
    if used == [] then "x"
    else
      var rest := NewName(used[1..]);
      if |used[0]| < |rest| then rest else used[0] + "x"
  }

  function EvaluationNames(es: seq<Evaluation>): seq<string> {
    if es == [] then [] else [es[0].id, es[0].receipt] + EvaluationNames(es[1..])
  }

  function ReviewNames(rs: seq<Review>): seq<string> {
    if rs == [] then [] else [rs[0].id, rs[0].receipt] + ReviewNames(rs[1..])
  }

  /** An evaluation and a review under names not in use come last and are found under them. */
  lemma {:induction false} NewEvaluationIsFound(es: seq<Evaluation>, e: Evaluation)
    requires e.id == e.receipt && e.id !in EvaluationNames(es)
    ensures FindEvaluation(es, e.id).None? && FindEvaluation(es + [e], e.id) == Some(e)
    ensures EvaluationFor(es + [e], e.candidate, e.receipt) == Some(e)
  {
    if es == [] {
    } else {
      assert (es + [e])[1..] == es[1..] + [e];
      NewEvaluationIsFound(es[1..], e);
    }
  }

  lemma {:induction false} NewReviewIsFound(rs: seq<Review>, r: Review)
    requires r.id == r.receipt && r.id !in ReviewNames(rs)
    ensures FindReview(rs, r.id).None? && ReviewFor(rs + [r], r.candidate, r.receipt) == Some(r)
  {
    if rs == [] {
    } else {
      assert (rs + [r])[1..] == rs[1..] + [r];
      NewReviewIsFound(rs[1..], r);
    }
  }

  function CleanPass(snap: Snapshot, c: Candidate): Evaluation {
    var name := NewName(EvaluationNames(snap.evaluations));
    Evaluation(name, c.id, CompletedPass, false, false, name)
  }

  function CleanApproval(cfg: Config, snap: Snapshot, c: Candidate): Review {
    var name := NewName(ReviewNames(snap.reviews));
    Review(name, c.id, CleanPass(snap, c).id, Approve, |snap.candidates|, cfg.denominatorDigest(snap.candidates), [],
           name)
  }

  /** One more evaluation and one more review of a candidate, both in its favour. */
  function Renewal(cfg: Config, snap: Snapshot, c: Candidate): (r: seq<Action>)
    ensures |r| == 4
  {
    var e, v := CleanPass(snap, c), CleanApproval(cfg, snap, c);
    [BeginEvaluation(c.id, e.id),
     FinishEvaluation(EvaluationFlight(c, e.id), ProviderCompleted, Some(EvaluatorAnswer(Some(CompletedPass), false)),
                      e.receipt),
     BeginReview(c.id, e.id, v.id),
     FinishReview(ReviewFlight(c, e, v.id, v.denominator, v.denominatorDigest), ProviderCompleted,
                  Some(ReviewerAnswer(Some(Approve), [])), v.receipt)]
  }

  /** The same world, with this evidence on record. */
  ghost predicate Holds(cfg: Config, s: System, snap: Snapshot, t: System) {
    Inspect(cfg, t.log) == snap && t.trail == s.trail && t.leases == s.leases && t.integrations == s.integrations
      && t.stage == s.stage
  }

  lemma InspectNext(cfg: Config, log: seq<Event>, e: Event)
    ensures Inspect(cfg, log + [e]) == ApplyEvent(cfg, Inspect(cfg, log), e)
  {
    assert (log + [e])[..|log|] == log;
  }

  lemma EvaluationRuns(cfg: Config, s: System, snap: Snapshot, c: Candidate, e: Evaluation)
    requires s.trail != [] && Inspect(cfg, s.log) == snap && StateOf(snap) == Open
    requires FindCandidate(snap.candidates, c.id) == Some(c) && c.outcome == Admitted
      && FindEvaluation(snap.evaluations, e.id).None?
    requires e == Evaluation(e.id, c.id, CompletedPass, false, false, e.receipt)
    ensures var t := DoFinishEvaluation(cfg, DoBeginEvaluation(cfg, s, c.id, e.id), EvaluationFlight(c, e.id),
                                        ProviderCompleted,
                                        Some(EvaluatorAnswer(Some(CompletedPass), false)), e.receipt);
      Holds(cfg, s, snap.(evaluations := snap.evaluations + [e]), t)
  {
    hide Inspect, StateOf, FindCandidate, FindEvaluation;
    var started := EvaluationStarted(c.id, e.id);
    InspectNext(cfg, s.log, started);
    InspectNext(cfg, s.log + [started], EvaluationCompleted(e));
    var begun := DoBeginEvaluation(cfg, s, c.id, e.id);
    assert begun == Append(s, started).(flights := s.flights + {EvaluationFlight(c, e.id)});
    hide DoBeginEvaluation;
  }

  lemma ReviewRuns(cfg: Config, s: System, snap: Snapshot, c: Candidate, e: Evaluation, v: Review)
    requires s.trail != [] && Inspect(cfg, s.log) == snap && StateOf(snap) == Open
    requires FindCandidate(snap.candidates, c.id) == Some(c) && FindEvaluation(snap.evaluations, e.id) == Some(e)
    requires e.candidate == c.id && !e.nonImproving && FindReview(snap.reviews, v.id).None?
    requires v == Review(v.id, c.id, e.id, Approve, |snap.candidates|, cfg.denominatorDigest(snap.candidates), [],
                         v.receipt)
    ensures var t := DoFinishReview(cfg, DoBeginReview(cfg, s, c.id, e.id, v.id),
                                    ReviewFlight(c, e, v.id, v.denominator, v.denominatorDigest),
                                    ProviderCompleted, Some(ReviewerAnswer(Some(Approve), [])), v.receipt);
      Holds(cfg, s, snap.(reviews := snap.reviews + [v]), t)
  {
    hide Inspect, StateOf, FindCandidate, FindEvaluation, FindReview;
    var started := ReviewStarted(c.id, e.id, v.id, v.denominator);
    InspectNext(cfg, s.log, started);
    InspectNext(cfg, s.log + [started], ReviewCompleted(v));
    var begun := DoBeginReview(cfg, s, c.id, e.id, v.id);
    var flight := ReviewFlight(c, e, v.id, v.denominator, v.denominatorDigest);
    assert begun == Append(s, started).(flights := s.flights + {flight});
    hide DoBeginReview;
  }

  function Renewed(cfg: Config, snap: Snapshot, c: Candidate): Snapshot {
    snap.(evaluations := snap.evaluations + [CleanPass(snap, c)],
          reviews := snap.reviews + [CleanApproval(cfg, snap, c)])
  }

  /** The names the renewal uses are new, and a pass leaves the campaign as open as it was. */
  lemma RenewalIsNew(cfg: Config, snap: Snapshot, c: Candidate)
    ensures var e := CleanPass(snap, c);
      && e == Evaluation(e.id, c.id, CompletedPass, false, false, e.receipt)
      && FindEvaluation(snap.evaluations, e.id).None? && FindEvaluation(snap.evaluations + [e], e.id) == Some(e)
      && StateOf(snap.(evaluations := snap.evaluations + [e])) == StateOf(snap)
    ensures var v := CleanApproval(cfg, snap, c);
      && FindReview(snap.reviews, v.id).None?
      && v == Review(v.id, c.id, CleanPass(snap, c).id, Approve, |snap.candidates|,
                     cfg.denominatorDigest(snap.candidates), [], v.receipt)
  {
    NewEvaluationIsFound(snap.evaluations, CleanPass(snap, c));
    NewReviewIsFound(snap.reviews, CleanApproval(cfg, snap, c));
    hide NewName, FindEvaluation, FindReview;
  }

  lemma RenewalRuns(cfg: Config, s: System, snap: Snapshot, c: Candidate)
    requires s.trail != [] && Inspect(cfg, s.log) == snap && StateOf(snap) == Open
    requires FindCandidate(snap.candidates, c.id) == Some(c) && c.outcome == Admitted
    ensures Holds(cfg, s, Renewed(cfg, snap, c), Run(cfg, s, Renewal(cfg, snap, c)))
  {
    hide Inspect, StateOf, Run, FindCandidate, FindReview, FindEvaluation, CleanPass, CleanApproval, DoBeginEvaluation,
         DoFinishEvaluation, DoBeginReview, DoFinishReview;
    var e, v, steps := CleanPass(snap, c), CleanApproval(cfg, snap, c), Renewal(cfg, snap, c);
    RenewalIsNew(cfg, snap, c);
    FourSteps(cfg, s, steps);
    EvaluationRuns(cfg, s, snap, c, e);
    ReviewRuns(cfg, Do(cfg, Do(cfg, s, steps[0]), steps[1]), snap.(evaluations := snap.evaluations + [e]), c, e, v);
  }

  lemma FourSteps(cfg: Config, s: System, steps: seq<Action>)
    requires s.trail != [] && |steps| == 4
    ensures Run(cfg, s, steps) == Do(cfg, Do(cfg, Do(cfg, Do(cfg, s, steps[0]), steps[1]), steps[2]), steps[3])
  {
    hide Do;
    assert steps[..4] == steps && steps[..0] == [];
    RunOneMore(cfg, s, steps, 0);
    RunOneMore(cfg, s, steps, 1);
    RunOneMore(cfg, s, steps, 2);
    RunOneMore(cfg, s, steps, 3);
  }

  /** The grant the renewed evidence supports. */
  function RenewedGrant(cfg: Config, snap: Snapshot, c: Candidate, id: string): PromotionGrant {
    PromotionGrant(id, c.id, c.digest, cfg.accepted, c.lease, c.patch, CleanPass(snap, c).receipt,
                   CleanApproval(cfg, snap, c).receipt)
  }

  /** An attempt to promote a candidate on some evidence. */
  function AttemptFor(cfg: Config, c: Candidate, grant: string, fingerprint: string, commit: string, e: string,
                      v: string): Attempt {
    Attempt(PromotionGrant(grant, c.id, c.digest, cfg.accepted, c.lease, c.patch, e, v), fingerprint, "", commit, "",
            "")
  }

  lemma RenewalGrants(cfg: Config, log: seq<Event>, snap: Snapshot, c: Candidate, id: string)
    requires Inspect(cfg, log) == Renewed(cfg, snap, c) && StateOf(snap) == Open
      && FindCandidate(snap.candidates, c.id) == Some(c)
    ensures Granted(cfg, log, RenewedGrant(cfg, snap, c, id))
  {
    NewEvaluationIsFound(snap.evaluations, CleanPass(snap, c));
    NewReviewIsFound(snap.reviews, CleanApproval(cfg, snap, c));
    assert StateOf(Renewed(cfg, snap, c)) == Open;
    hide Inspect, StateOf, FindCandidate, NewName;
  }

  // ---------- A campaign whose HEAD has not moved ----------

  lemma {:induction false} LengthBound(keys: set<string>) returns (n: nat)
    ensures forall k :: k in keys ==> |k| < n
  {
    if keys == {} {
      n := 0;
    } else {
      var k :| k in keys;
      n := LengthBound(keys - {k});
      n := if |k| < n then n else |k| + 1;
    }
  }

  lemma NewKey(keys: set<string>) returns (x: string)
    ensures x !in keys
  {
    var n := LengthBound(keys);
    x := seq(n, _ => 'x');
  }

  function NewLease(cfg: Config): Lease {
    Lease(LeaseReturned, cfg.accepted, cfg.author, Some("patch"), None)
  }

  function NewCandidate(cfg: Config, id: string, lease: string): Candidate {
    Candidate(id, "patch", "patch", lease, None, Original, cfg.author, Admitted, 0, [])
  }

  /** Let go of the lock, return a new lease and add a first candidate from it. */
  function Beginning(cfg: Config, id: string, lease: string): (r: seq<Action>)
    ensures |r| == 3
  {
    [Crash, SetLease(lease, NewLease(cfg)),
     AddCandidate(CandidateArgs("attempt", lease, Original, None, Some(id), cfg.author, Admitted, 0, []))]
  }

  lemma CandidateAdmitted(cfg: Config, snap: Snapshot, id: string, lease: string)
    requires cfg.author != cfg.evaluator && cfg.author != cfg.reviewer && StateOf(snap) == Open
      && FindCandidate(snap.candidates, id).None?
    ensures CandidateEvent(cfg, snap, Beginning(cfg, id, lease)[2].args, NewLease(cfg)) ==
      CandidateAdded(NewCandidate(cfg, id, lease))
  {
    hide StateOf;
  }

  lemma BeginningRuns(cfg: Config, s: System, snap: Snapshot, id: string, lease: string)
    requires s.trail != [] && Inspect(cfg, s.log) == snap && StateOf(snap) == Open
      && FindCandidate(snap.candidates, id).None? && lease !in s.leases
    requires cfg.author != cfg.evaluator && cfg.author != cfg.reviewer
    ensures var t := Run(cfg, s, Beginning(cfg, id, lease));
      && t.stage == Free && t.trail == s.trail && t.integrations == s.integrations
      && t.leases == s.leases[lease := NewLease(cfg)]
      && t.log == s.log + [CandidateAdded(NewCandidate(cfg, id, lease))]
      && Inspect(cfg, t.log) == snap.(candidates := snap.candidates + [NewCandidate(cfg, id, lease)])
  {
    hide Inspect, StateOf, Run, CandidateEvent, FindCandidate;
    var steps, c := Beginning(cfg, id, lease), NewCandidate(cfg, id, lease);
    CandidateAdmitted(cfg, snap, id, lease);
    ThreeSteps(cfg, s, steps);
    InspectNext(cfg, s.log, CandidateAdded(c));
    var middle := Do(cfg, Do(cfg, s, steps[0]), steps[1]);
    assert middle == s.(stage := Free, leases := s.leases[lease := NewLease(cfg)]);
  }

  lemma ThreeSteps(cfg: Config, s: System, steps: seq<Action>)
    requires s.trail != [] && |steps| == 3
    ensures Run(cfg, s, steps) == Do(cfg, Do(cfg, Do(cfg, s, steps[0]), steps[1]), steps[2])
  {
    hide Do;
    assert steps[..3] == steps && steps[..0] == [];
    RunOneMore(cfg, s, steps, 0);
    RunOneMore(cfg, s, steps, 1);
    RunOneMore(cfg, s, steps, 2);
  }
}
