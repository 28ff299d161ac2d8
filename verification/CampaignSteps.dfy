/**
 What the locked sections of candidates, evaluations and reviews record, and when: in every
 reachable state, in terms of the events on record and of what the caller and the provider said.
 */
module CampaignSteps {
  import opened Wrappers
  import opened Campaign
  import opened CampaignLog
  import opened CampaignSystem
  import opened CampaignRuns
  import opened CampaignLoss
  import opened CampaignRecords

  // ---------- Candidates ----------

  /** The checks of `add_candidate`, in their order. */
  datatype Check =
    | IsOpen | IsAuthor | IsIndependent | HasCost | HasDissent | HasNoParent | HasParent | IsReturned | HasBase
    | HasOwner | IsNew

  function Reason(check: Check): string {
    match check
    case IsOpen => "campaign_not_open"
    case IsAuthor => "candidate_author_mismatch"
    case IsIndependent => "authority_collision"
    case HasCost => "invalid_cost"
    case HasDissent => "invalid_dissent"
    case HasNoParent => "unexpected_candidate_parent"
    case HasParent => "candidate_parent_not_found"
    case IsReturned => "candidate_patch_not_returned"
    case HasBase => "candidate_base_mismatch"
    case HasOwner => "candidate_lease_owner_mismatch"
    case IsNew => "duplicate_candidate"
  }

  ghost predicate ParentOnRecord(log: seq<Event>, id: string) {
    exists c :: CandidateAdded(c) in log && c.id == id && c.outcome != Rejected
  }

  /** The id is that of an admitted candidate, or one made up for a rejected attempt. */
  ghost predicate KnownId(cfg: Config, log: seq<Event>, id: string) {
    exists e :: e in log && (if e.CandidateAdded? then e.c.id == id
                             else e.CandidateRejected? && cfg.rejectedId(e.attempt, e.cost, e.reason) == id)
  }

  ghost predicate Repeats(dissent: seq<string>) {
    exists i, j :: 0 <= i < j < |dissent| && dissent[i] == dissent[j]
  }

  /** The id the candidate will have. */
  function ResolvedId(cfg: Config, args: CandidateArgs, patch: string): string {
    match args.id
    case Some(id) => id
    case None => cfg.generatedId(patch)
  }

  ghost predicate Passes(cfg: Config, log: seq<Event>, args: CandidateArgs, lease: Lease, check: Check) {
    match check
    case IsOpen => !HasPromotion(log)
    case IsAuthor => args.author == cfg.author
    case IsIndependent => args.author !in {cfg.evaluator, cfg.reviewer}
    case HasCost => 0 <= args.cost
    case HasDissent => !Repeats(args.dissent)
    case HasNoParent => args.action == Original ==> args.parent == None
    case HasParent => args.action != Original ==> args.parent.Some? && ParentOnRecord(log, args.parent.value)
    case IsReturned => lease.state == LeaseReturned && lease.patch.Some?
    case HasBase => lease.base == cfg.accepted
    case HasOwner => lease.owner == args.author
    case IsNew => lease.patch.Some? && !KnownId(cfg, log, ResolvedId(cfg, args, lease.patch.value))
  }

  ghost function FirstFailing(cfg: Config, log: seq<Event>, args: CandidateArgs, lease: Lease): Option<Check> {
    if !Passes(cfg, log, args, lease, IsOpen) then Some(IsOpen)
    else if !Passes(cfg, log, args, lease, IsAuthor) then Some(IsAuthor)
    else if !Passes(cfg, log, args, lease, IsIndependent) then Some(IsIndependent)
    else if !Passes(cfg, log, args, lease, HasCost) then Some(HasCost)
    else if !Passes(cfg, log, args, lease, HasDissent) then Some(HasDissent)
    else if !Passes(cfg, log, args, lease, HasNoParent) then Some(HasNoParent)
    else if !Passes(cfg, log, args, lease, HasParent) then Some(HasParent)
    else if !Passes(cfg, log, args, lease, IsReturned) then Some(IsReturned)
    else if !Passes(cfg, log, args, lease, HasBase) then Some(HasBase)
    else if !Passes(cfg, log, args, lease, HasOwner) then Some(HasOwner)
    else if !Passes(cfg, log, args, lease, IsNew) then Some(IsNew)
    else None
  }

  /** The record of a candidate that passed every check. */
  predicate RecordsCandidate(cfg: Config, args: CandidateArgs, lease: Lease, e: Event) {
    && e.CandidateAdded? && lease.patch == Some(e.c.patch) && e.c.digest == e.c.patch
    && e.c.id == ResolvedId(cfg, args, e.c.patch)
    && e.c.lease == args.lease && e.c.parent == args.parent && e.c.action == args.action && e.c.author == args.author
    && e.c.outcome == args.outcome && e.c.cost == args.cost && e.c.dissent == args.dissent
  }

  lemma {:induction false} KnownIds(cfg: Config, log: seq<Event>, id: string)
    ensures FindCandidate(Inspect(cfg, log).candidates, id).Some? <==> KnownId(cfg, log, id)
  {
    if log == [] {
    } else {
      var n := |log| - 1;
      var cs, last := Inspect(cfg, log[..n]).candidates, log[n];
      assert log == log[..n] + [last];
      KnownIds(cfg, log[..n], id);
      assert forall e :: e in log <==> e in log[..n] || e == last;
      if last.CandidateAdded? {
        FoundInMore(cs, last.c, id);
      } else if last.CandidateRejected? {
        FoundInMore(cs, RejectedCandidate(cfg, last.attempt, last.cost, last.reason), id);
      }
    }
  }

  lemma {:induction false} FoundInMore(cs: seq<Candidate>, c: Candidate, id: string)
    ensures FindCandidate(cs + [c], id).Some? <==> FindCandidate(cs, id).Some? || c.id == id
  {
    if cs == [] {
      assert cs + [c] == [c];
    } else {
      assert (cs + [c])[1..] == cs[1..] + [c] && (cs + [c])[0] == cs[0];
      FoundInMore(cs[1..], c, id);
    }
  }

  predicate ParentIn(s: Snapshot, args: CandidateArgs) {
    args.action == Original
    || (args.parent.Some? && exists c :: c in s.candidates && c.outcome != Rejected && c.id == args.parent.value)
  }

  /** What the snapshot says and what the raw events say. */
  lemma SnapshotMeans(cfg: Config, log: seq<Event>, args: CandidateArgs, lease: Lease)
    requires AllBacked(log)
    ensures var s := Inspect(cfg, log);
      && (StateOf(s) == Open <==> Passes(cfg, log, args, lease, IsOpen))
      && (ParentIn(s, args) <==> Passes(cfg, log, args, lease, HasParent))
      && (DistinctStrings(args.dissent) <==> Passes(cfg, log, args, lease, HasDissent))
      && (lease.patch.Some? ==>
            (FindCandidate(s.candidates, ResolvedId(cfg, args, lease.patch.value)).None? <==>
             Passes(cfg, log, args, lease, IsNew)))
  {
    hide Inspect, StateOf, KnownId, AllBacked, FindCandidate, HasPromotion, HasRollback, Repeats, DistinctStrings,
      ParentIn, ParentOnRecord;
    StateOfLog(cfg, log);
    ParentMeans(cfg, log, args);
    DissentRepeats(args.dissent);
    if lease.patch.Some? {
      KnownIds(cfg, log, ResolvedId(cfg, args, lease.patch.value));
    }
  }

  lemma ParentMeans(cfg: Config, log: seq<Event>, args: CandidateArgs)
    ensures ParentIn(Inspect(cfg, log), args) <==>
      (args.action != Original ==> args.parent.Some? && ParentOnRecord(log, args.parent.value))
  {
    hide Inspect, CandidateEvents;
    InspectEvidence(cfg, log);
    var cs := Inspect(cfg, log).candidates;
    if args.parent.Some? {
      var id := args.parent.value;
      if c :| c in cs && c.outcome != Rejected && c.id == id {
        assert CandidateAdded(c) in log;
      }
      if c :| CandidateAdded(c) in log && c.id == id && c.outcome != Rejected {
        assert c in cs;
      }
    }
  }

  /** What the checks say of one event: it is the candidate's, or names the first check that fails. */
  ghost predicate Settles(cfg: Config, log: seq<Event>, args: CandidateArgs, lease: Lease, e: Event) {
    match FirstFailing(cfg, log, args, lease)
    case None => RecordsCandidate(cfg, args, lease, e)
    case Some(check) =>
      e == CandidateRejected(args.attempt, if args.cost < 0 then 0 else args.cost, Reason(check))
  }

  lemma EventSettles(cfg: Config, log: seq<Event>, args: CandidateArgs, lease: Lease)
    requires AllBacked(log)
    ensures Settles(cfg, log, args, lease, CandidateEvent(cfg, Inspect(cfg, log), args, lease))
  {
    hide Settles, CandidateEvent, Inspect, RequestPasses, AllBacked;
    if RequestPasses(cfg, log, args) {
      LeaseSettles(cfg, log, args, lease);
    } else {
      RequestSettles(cfg, log, args, lease);
    }
  }

  /** The checks that do not look at the lease. */
  ghost predicate RequestPasses(cfg: Config, log: seq<Event>, args: CandidateArgs) {
    && !HasPromotion(log) && args.author == cfg.author && args.author !in {cfg.evaluator, cfg.reviewer}
    && 0 <= args.cost && !Repeats(args.dissent) && (args.action == Original ==> args.parent == None)
  }

  lemma RequestSettles(cfg: Config, log: seq<Event>, args: CandidateArgs, lease: Lease)
    requires AllBacked(log) && !RequestPasses(cfg, log, args)
    ensures Settles(cfg, log, args, lease, CandidateEvent(cfg, Inspect(cfg, log), args, lease))
  {
    SnapshotMeans(cfg, log, args, lease);
    hide Inspect, StateOf, KnownId, AllBacked, FindCandidate, HasPromotion, ParentOnRecord, Repeats, DistinctStrings;
  }

  lemma LeaseSettles(cfg: Config, log: seq<Event>, args: CandidateArgs, lease: Lease)
    requires AllBacked(log) && RequestPasses(cfg, log, args)
    ensures Settles(cfg, log, args, lease, CandidateEvent(cfg, Inspect(cfg, log), args, lease))
  {
    hide CandidateEvent, Inspect, StateOf, KnownId, AllBacked, FindCandidate, HasPromotion, ParentOnRecord, Repeats,
      DistinctStrings, Reason, ParentIn, RecordsCandidate;
    SnapshotMeans(cfg, log, args, lease);
    LeaseEvent(cfg, Inspect(cfg, log), args, lease);
  }

  /** The event of a request that passes its own checks. */
  lemma LeaseEvent(cfg: Config, s: Snapshot, args: CandidateArgs, lease: Lease)
    requires StateOf(s) == Open && args.author == cfg.author && args.author !in {cfg.evaluator, cfg.reviewer}
    requires 0 <= args.cost && DistinctStrings(args.dissent) && (args.action == Original ==> args.parent == None)
    ensures var e := CandidateEvent(cfg, s, args, lease);
      if !ParentIn(s, args) then e == CandidateRejected(args.attempt, args.cost, Reason(HasParent))
      else if lease.state != LeaseReturned || lease.patch.None? then
        e == CandidateRejected(args.attempt, args.cost, Reason(IsReturned))
      else if lease.base != cfg.accepted then
        e == CandidateRejected(args.attempt, args.cost, Reason(HasBase))
      else if lease.owner != args.author then
        e == CandidateRejected(args.attempt, args.cost, Reason(HasOwner))
      else if FindCandidate(s.candidates, ResolvedId(cfg, args, lease.patch.value)).Some? then
        e == CandidateRejected(args.attempt, args.cost, Reason(IsNew))
      else RecordsCandidate(cfg, args, lease, e)
  {
    hide StateOf, FindCandidate, DistinctStrings;
  }

  lemma DissentRepeats(dissent: seq<string>)
    ensures Repeats(dissent) <==> !DistinctStrings(dissent)
  {
  }

  /** `add_candidate` on a known lease adds exactly one event, which the checks settle. */
  lemma CandidatesAreSettled(cfg: Config, s: System, args: CandidateArgs)
    requires Inv(cfg, s) && args.lease in s.leases
    ensures s.trail != []
    ensures var t := Do(cfg, s, AddCandidate(args));
      exists e :: Settles(cfg, s.log, args, s.leases[args.lease], e) && t == s.(log := s.log + [e])
  {
    hide Inspect, CandidateEvent, Settles;
    EventSettles(cfg, s.log, args, s.leases[args.lease]);
  }

  // ---------- Evaluations ----------

  ghost predicate Evaluated(log: seq<Event>, id: string) {
    exists v :: EvaluationCompleted(v) in log && v.id == id
  }

  lemma {:induction false} EvaluatedIds(cfg: Config, log: seq<Event>, id: string)
    ensures FindEvaluation(Inspect(cfg, log).evaluations, id).Some? <==> Evaluated(log, id)
  {
    InspectEvidence(cfg, log);
    if FindEvaluation(Inspect(cfg, log).evaluations, id).None? {
      NoSuchEvaluation(cfg, log, id);
    }
  }

  /** An evaluation begins exactly in an open campaign, of an admitted candidate, under a new id. */
  lemma EvaluationBeginsExactly(cfg: Config, s: System, candidate: string, id: string)
    requires Inv(cfg, s) && Found(cfg, s.log)
    ensures var t := DoBeginEvaluation(cfg, s, candidate, id);
      if !HasPromotion(s.log) && AdmittedIn(s.log, candidate) && !Evaluated(s.log, id) then
        exists c :: CandidateAdded(c) in s.log && c.id == candidate
          && t == s.(log := s.log + [EvaluationStarted(candidate, id)],
                     flights := s.flights + {EvaluationFlight(c, id)})
      else t == s
  {
    StateOfLog(cfg, s.log);
    EvaluatedIds(cfg, s.log, id);
    InspectEvidence(cfg, s.log);
    var found := FindCandidate(Inspect(cfg, s.log).candidates, candidate);
    hide AllBacked, FlightsOk, EventsOk, StageOk, LeasesOk, Inspect, StateOf, HasPromotion, HasRollback, Evaluated,
      FindEvaluation;
    if c :| CandidateAdded(c) in s.log && c.id == candidate && c.outcome == Admitted {
      assert found == Some(c);
    }
    if found.Some? && found.value.outcome == Admitted {
      assert CandidateAdded(found.value) in s.log;
    }
  }

  /** The candidate of an operation in flight is still what a lookup of its id finds. */
  ghost predicate FlightsStand(cfg: Config, s: System) {
    forall f :: f in s.flights ==> FindCandidate(Inspect(cfg, s.log).candidates, f.c.id) == Some(f.c)
  }

  /** What is recorded of an evaluation: its flight's names, and what its provider said. */
  predicate LandsAs(f: Flight, status: ProviderStatus, answer: Option<EvaluatorAnswer>, receipt: string,
                    v: Evaluation) {
    && v.id == f.id && v.candidate == f.c.id && v.receipt == receipt
    && v.outcome == EvaluationResult(status, answer).0
    && (v.rewardHack <==> v.outcome == SuspectedRewardHack)
    && (v.nonImproving <==> v.outcome != CompletedPass)
  }

  /** An evaluation in flight is landed, with what its provider said, unless its id is on record already. */
  lemma EvaluationLandsExactly(cfg: Config, s: System, f: Flight, status: ProviderStatus,
                               answer: Option<EvaluatorAnswer>, receipt: string)
    requires FlightsStand(cfg, s) && f in s.flights && f.EvaluationFlight?
    ensures var t := DoFinishEvaluation(cfg, s, f, status, answer, receipt);
      if Evaluated(s.log, f.id) then t == s.(flights := s.flights - {f})
      else
        exists v :: LandsAs(f, status, answer, receipt, v)
          && t == s.(log := s.log + [EvaluationCompleted(v)], flights := s.flights - {f})
  {
    EvaluatedIds(cfg, s.log, f.id);
    hide Inspect, EvaluationResult, FindEvaluation, FindCandidate, Evaluated;
    var (outcome, hack) := EvaluationResult(status, answer);
    PassIsClean(status, answer);
    var v := Evaluation(f.id, f.c.id, outcome, outcome != CompletedPass || hack, hack, receipt);
    assert LandsAs(f, status, answer, receipt, v);
  }

  // ---------- Reviews ----------

  ghost predicate Reviewed(log: seq<Event>, id: string) {
    exists r :: ReviewCompleted(r) in log && r.id == id
  }

  lemma ReviewedIds(cfg: Config, log: seq<Event>, id: string)
    ensures FindReview(Inspect(cfg, log).reviews, id).Some? <==> Reviewed(log, id)
  {
    InspectEvidence(cfg, log);
    if FindReview(Inspect(cfg, log).reviews, id).None? {
      NoSuchReview(cfg, log, id);
    }
  }

  ghost predicate EvaluationOf(log: seq<Event>, candidate: string, evaluation: string) {
    exists v :: EvaluationCompleted(v) in log && v.id == evaluation && v.candidate == candidate
  }

  /** A review flight of all the candidates there are. */
  ghost predicate ReviewsAll(cfg: Config, log: seq<Event>, f: Flight, candidate: string, evaluation: string,
                             id: string) {
    && f.ReviewFlight? && f.c.id == candidate && f.e.id == evaluation && f.id == id
    && CandidateAdded(f.c) in log && EvaluationCompleted(f.e) in log && f.e.candidate == candidate
    && f.denominator == CandidateEvents(log) && f.digest == cfg.denominatorDigest(Inspect(cfg, log).candidates)
  }

  /** A review begins exactly in an open campaign, of a completed evaluation of the candidate, under a new id. */
  lemma ReviewBeginsExactly(cfg: Config, s: System, candidate: string, evaluation: string, id: string)
    requires Inv(cfg, s) && Found(cfg, s.log) && AllNamed(cfg, s.log)
    ensures var t := DoBeginReview(cfg, s, candidate, evaluation, id);
      if !HasPromotion(s.log) && EvaluationOf(s.log, candidate, evaluation) && !Reviewed(s.log, id) then
        exists f :: ReviewsAll(cfg, s.log, f, candidate, evaluation, id)
          && t == s.(log := s.log + [ReviewStarted(candidate, evaluation, id, f.denominator)],
                     flights := s.flights + {f})
      else t == s
  {
    StateOfLog(cfg, s.log);
    ReviewedIds(cfg, s.log, id);
    InspectEvidence(cfg, s.log);
    EvaluationsHaveOneId(cfg, s.log, evaluation);
    EvaluatedIsAdmitted(cfg, s.log, candidate, evaluation);
    var snap := Inspect(cfg, s.log);
    var c, e := FindCandidate(snap.candidates, candidate), FindEvaluation(snap.evaluations, evaluation);
    hide Inv, Inspect, StateOf, HasPromotion, HasRollback, Reviewed, FindEvaluation, FindCandidate, FindReview,
      AllNamed, CandidateEvents, Found;
    if e.Some? && e.value.candidate == candidate {
      assert EvaluationOf(s.log, candidate, evaluation);
      var f := ReviewFlight(c.value, e.value, id, |snap.candidates|, cfg.denominatorDigest(snap.candidates));
      assert ReviewsAll(cfg, s.log, f, candidate, evaluation, id);
    }
  }

  /** An id finds the only evaluation on record under it. */
  lemma EvaluationsHaveOneId(cfg: Config, log: seq<Event>, id: string)
    requires AllNamed(cfg, log)
    ensures forall v :: EvaluationCompleted(v) in log && v.id == id ==>
      FindEvaluation(Inspect(cfg, log).evaluations, id) == Some(v)
  {
    EvaluatedIds(cfg, log, id);
    InspectEvidence(cfg, log);
    var found := FindEvaluation(Inspect(cfg, log).evaluations, id);
    hide Inspect, FindEvaluation;
    forall v | EvaluationCompleted(v) in log && v.id == id ensures found == Some(v) {
      assert Evaluated(log, id);
      OneEvaluation(cfg, log, v, found.value);
    }
  }

  lemma OneEvaluation(cfg: Config, log: seq<Event>, v: Evaluation, w: Evaluation)
    requires AllNamed(cfg, log) && EvaluationCompleted(v) in log && EvaluationCompleted(w) in log && v.id == w.id
    ensures v == w
  {
    var i :| 0 <= i < |log| && log[i] == EvaluationCompleted(v);
    var j :| 0 <= j < |log| && log[j] == EvaluationCompleted(w);
    if i < j {
      LaterHasNewId(cfg, log, i, j);
    } else if j < i {
      LaterHasNewId(cfg, log, j, i);
    }
  }

  lemma LaterHasNewId(cfg: Config, log: seq<Event>, i: nat, j: nat)
    requires AllNamed(cfg, log) && i < j < |log| && log[i].EvaluationCompleted? && log[j].EvaluationCompleted?
    ensures log[i].e.id != log[j].e.id
  {
    assert Named(cfg, log[..j], log[j]);
    assert EvaluationCompleted(log[i].e) == log[..j][i];
  }

  lemma EvaluatedIsAdmitted(cfg: Config, log: seq<Event>, candidate: string, evaluation: string)
    requires AllBacked(log) && Found(cfg, log)
    ensures var found := FindCandidate(Inspect(cfg, log).candidates, candidate);
      EvaluationOf(log, candidate, evaluation) ==> found.Some? && CandidateAdded(found.value) in log
  {
    hide Inspect, FindCandidate;
    if v :| EvaluationCompleted(v) in log && v.id == evaluation && v.candidate == candidate {
      var k :| 0 <= k < |log| && log[k] == EvaluationCompleted(v);
      assert Backed(log[..k], log[k]);
      var c :| CandidateAdded(c) in log[..k] && c.id == candidate && c.outcome == Admitted;
      assert CandidateAdded(c) in log;
    }
  }

  /** What is recorded of a review: its flight's names and denominator, and what its provider said. */
  predicate ReviewLandsAs(f: Flight, status: ProviderStatus, answer: Option<ReviewerAnswer>, receipt: string,
                          candidates: nat, r: Review)
    requires f.ReviewFlight?
  {
    && r.id == f.id && r.candidate == f.c.id && r.evaluation == f.e.id && r.receipt == receipt
    && r.denominator == f.denominator && r.denominatorDigest == f.digest
    && r.dissent == ReviewResult(status, answer, f.e.nonImproving).1
    && (candidates == f.denominator ==> r.outcome == ReviewResult(status, answer, f.e.nonImproving).0)
    && (candidates != f.denominator ==> r.outcome == Inconclusive)
  }

  /** A review in flight is landed, inconclusive once there are other candidates, unless its id is on record. */
  lemma ReviewLandsExactly(cfg: Config, s: System, f: Flight, status: ProviderStatus, answer: Option<ReviewerAnswer>,
                           receipt: string)
    requires FlightsStand(cfg, s) && f in s.flights && f.ReviewFlight?
    ensures var t := DoFinishReview(cfg, s, f, status, answer, receipt);
      if Reviewed(s.log, f.id) then t == s.(flights := s.flights - {f})
      else
        exists r :: ReviewLandsAs(f, status, answer, receipt, CandidateEvents(s.log), r)
          && t == s.(log := s.log + [ReviewCompleted(r)], flights := s.flights - {f})
  {
    ReviewedIds(cfg, s.log, f.id);
    InspectEvidence(cfg, s.log);
    hide Inspect, ReviewResult, FindReview, FindCandidate, Reviewed, CandidateEvents;
    var (outcome, dissent) := ReviewResult(status, answer, f.e.nonImproving);
    var final := if CandidateEvents(s.log) != f.denominator then Inconclusive else outcome;
    var r := Review(f.id, f.c.id, f.e.id, final, f.denominator, f.digest, dissent, receipt);
    assert ReviewLandsAs(f, status, answer, receipt, CandidateEvents(s.log), r);
  }

  // ---------- In every reachable state ----------

  lemma StepKeepsFlights(cfg: Config, s: System, a: Action)
    requires s.trail != [] && FlightsStand(cfg, s)
    ensures FlightsStand(cfg, Do(cfg, s, a))
  {
    hide Do, Inspect, FindCandidate;
    var t := Do(cfg, s, a);
    InspectGrows(cfg, s.log, t.log);
    var before, after := Inspect(cfg, s.log).candidates, Inspect(cfg, t.log).candidates;
    NewFlights(cfg, s, a);
    forall f | f in t.flights ensures FindCandidate(after, f.c.id) == Some(f.c) {
      FoundFirst(before, after[|before|..], f.c.id);
      assert after == before + after[|before|..];
    }
  }

  /** A step puts nothing in flight but a candidate it has just looked up. */
  lemma NewFlights(cfg: Config, s: System, a: Action)
    requires s.trail != []
    ensures forall f :: f in Do(cfg, s, a).flights ==>
      f in s.flights || FindCandidate(Inspect(cfg, s.log).candidates, f.c.id) == Some(f.c)
  {
    hide Do, Inspect, FindCandidate;
    if a.BeginEvaluation? || a.FinishEvaluation? || a.BeginReview? || a.FinishReview? {
      NewOfEvidence(cfg, s, a);
    } else if a.BeginRollback? || a.LogRollback? || a.MoveBack? || a.LogRestored? || a.FinishRollback? {
      NoneOfRollbacks(cfg, s, a);
    } else {
      NoneOfPromotions(cfg, s, a);
    }
  }

  lemma NewOfEvidence(cfg: Config, s: System, a: Action)
    requires s.trail != [] && (a.BeginEvaluation? || a.FinishEvaluation? || a.BeginReview? || a.FinishReview?)
    ensures forall f :: f in Do(cfg, s, a).flights ==>
      f in s.flights || FindCandidate(Inspect(cfg, s.log).candidates, f.c.id) == Some(f.c)
  {
    hide Inspect, FindCandidate, FindEvaluation, FindReview, StateOf, EvaluationResult, ReviewResult;
  }

  lemma NoneOfRollbacks(cfg: Config, s: System, a: Action)
    requires s.trail != []
    requires a.BeginRollback? || a.LogRollback? || a.MoveBack? || a.LogRestored? || a.FinishRollback?
    ensures Do(cfg, s, a).flights == s.flights
  {
    hide Inspect, PromotionById, RollbackByGrant, LastTx, TxMatches, DoFinishRollback, DoBeginRollback;
    match a
    case BeginRollback(b, f, newId) => BeginningFliesNothing(cfg, s, b, f, newId);
    case FinishRollback(receipt, diesAfter) => EndingFliesNothing(cfg, s, receipt, diesAfter);
    case _ =>
  }

  lemma BeginningFliesNothing(cfg: Config, s: System, b: RollbackGrant, f: string, newId: string)
    ensures DoBeginRollback(cfg, s, b, f, newId).flights == s.flights
  {
    hide Inspect, PromotionById, RollbackByGrant, LastTx;
  }

  lemma EndingFliesNothing(cfg: Config, s: System, receipt: string, diesAfter: nat)
    ensures DoFinishRollback(cfg, s, receipt, diesAfter).flights == s.flights
  {
    hide Inspect, PromotionById, RollbackByGrant;
  }

  lemma NoneOfPromotions(cfg: Config, s: System, a: Action)
    requires s.trail != []
    requires !(a.BeginRollback? || a.LogRollback? || a.MoveBack? || a.LogRestored? || a.FinishRollback?)
    requires !(a.BeginEvaluation? || a.FinishEvaluation? || a.BeginReview? || a.FinishReview?)
    ensures Do(cfg, s, a).flights == s.flights
  {
    hide Inspect, CandidateEvent, PromotionInputs, PromotionByGrant;
  }

  lemma {:induction false} RunKeepsFlights(cfg: Config, s: System, actions: seq<Action>)
    requires s.trail != [] && FlightsStand(cfg, s)
    ensures FlightsStand(cfg, Run(cfg, s, actions))
  {
    hide Do, FlightsStand;
    if actions == [] {
    } else {
      var n := |actions| - 1;
      RunKeepsFlights(cfg, s, actions[..n]);
      StepKeepsFlights(cfg, Run(cfg, s, actions[..n]), actions[n]);
    }
  }

  /** Every reachable state meets the hypotheses of the results above. */
  lemma ReachableStands(cfg: Config, s: System, actions: seq<Action>)
    requires Opened(cfg, s)
    ensures var r := Run(cfg, s, actions);
      Inv(cfg, r) && Found(cfg, r.log) && AllNamed(cfg, r.log) && FlightsStand(cfg, r)
  {
    hide Run, Inv, Found, AllNamed, Custody, Named;
    OpenedHasInv(cfg, s);
    RunKeepsInv(cfg, s, actions);
    RunKeepsFlights(cfg, s, actions);
    RecordsNameTheirOrigin(cfg, s, actions);
    ReachableHasCustody(cfg, s, actions);
    CustodyFinds(cfg, Run(cfg, s, actions));
    NamesAll(cfg, Run(cfg, s, actions).log);
  }

  lemma CustodyFinds(cfg: Config, s: System)
    requires Custody(cfg, s)
    ensures Found(cfg, s.log)
  {
  }

  lemma NamesAll(cfg: Config, log: seq<Event>)
    requires forall k :: 0 <= k < |log| ==> Named(cfg, log[..k], log[k])
    ensures AllNamed(cfg, log)
  {
    hide Named;
  }
}
