/**
 An evolution campaign (`evolution.py`): its events, the fold into a snapshot, and what
 each locked section reads and appends.  Digests and generated ids are parameters.
 */
module Campaign {
  import opened Wrappers

  datatype CandidateOutcome =
    | Admitted | Rejected | Rework | CandidateFailed | CandidateCancelled | Undecided | BudgetExhausted

  datatype CandidateAction = Original | Edit | Rebase | RetryAction

  datatype Candidate = Candidate(id: string, digest: string, patch: string, lease: string, parent: Option<string>,
                                 action: CandidateAction, author: string, outcome: CandidateOutcome, cost: nat,
                                 dissent: seq<string>)

  datatype EvaluationOutcome =
    | CompletedPass | CompletedFail | Contaminated | SuspectedRewardHack | EvaluatorError | InfrastructureError
    | PolicyRejected | Skipped | StaleInput | TimedOut | EvaluationCancelled

  datatype Evaluation = Evaluation(id: string, candidate: string, outcome: EvaluationOutcome, nonImproving: bool,
                                   rewardHack: bool, receipt: string)

  datatype ReviewOutcome = Approve | RejectReview | ReworkReview | Inconclusive | Dissent | ReviewCancelled

  datatype Review = Review(id: string, candidate: string, evaluation: string, outcome: ReviewOutcome,
                           denominator: nat, denominatorDigest: string, dissent: seq<string>, receipt: string)

  datatype Promotion = Promotion(id: string, grant: string, candidate: string, predecessor: string, accepted: string,
                                 integrationReceipt: string, receipt: Option<string>)

  datatype Rollback = Rollback(id: string, grant: string, promotion: string, predecessor: string, replaced: string,
                               receipt: Option<string>)

  datatype Event =
    | CampaignOpened
    | CandidateAdded(c: Candidate)
    | CandidateRejected(attempt: string, cost: nat, reason: string)
    | EvaluationStarted(candidate: string, evaluation: string)
    | EvaluationCompleted(e: Evaluation)
    | ReviewStarted(candidate: string, evaluation: string, review: string, denominator: nat)
    | ReviewCompleted(r: Review)
    | PromotionPrepared(candidate: string, grant: string, promotion: string, predecessor: string)
    | PromotionEffectApplied(p: Promotion)
    | PromotionCompleted(p: Promotion)
    | RollbackPrepared(grant: string, promotion: string, rollback: string)
    | RollbackEffectApplied(b: Rollback)
    | RollbackCompleted(b: Rollback)

  datatype CampaignState = Open | Promoted | RolledBack

  datatype Snapshot = Snapshot(candidates: seq<Candidate>, evaluations: seq<Evaluation>, reviews: seq<Review>,
                               promotions: seq<Promotion>, rollbacks: seq<Rollback>)

  /** The frozen inputs a campaign decides by, and the digests it uses. */
  datatype Config = Config(
    accepted: string,                                  // the frozen accepted revision
    author: string, evaluator: string, reviewer: string,
    rejectedId: (string, nat, string) -> string,       // the synthetic id of a rejected attempt
    generatedId: string -> string,                     // the id made from a patch digest
    denominatorDigest: seq<Candidate> -> string)

  // ---------- The fold ----------

  function RejectedCandidate(cfg: Config, attempt: string, cost: nat, reason: string): Candidate {
    var id := cfg.rejectedId(attempt, cost, reason);
    Candidate(id, id, id, "lease:rejected", None, Original, "redacted", Rejected, cost, [])
  }

  /** A dictionary keyed by grant, in insertion order. */
  function PutPromotion(ps: seq<Promotion>, p: Promotion): (r: seq<Promotion>)
    ensures forall q :: q in r ==> q == p || q in ps
    ensures p in r
  {
    if ps == [] then [p]
    else if ps[0].grant == p.grant then [p] + ps[1..]
    else [ps[0]] + PutPromotion(ps[1..], p)
  }

  function PutRollback(bs: seq<Rollback>, b: Rollback): (r: seq<Rollback>)
    ensures forall q :: q in r ==> q == b || q in bs
    ensures b in r
  {
    if bs == [] then [b]
    else if bs[0].grant == b.grant then [b] + bs[1..]
    else [bs[0]] + PutRollback(bs[1..], b)
  }

  function ApplyEvent(cfg: Config, s: Snapshot, e: Event): Snapshot {
    match e
    case CandidateAdded(c) => s.(candidates := s.candidates + [c])
    case CandidateRejected(a, cost, reason) =>
      s.(candidates := s.candidates + [RejectedCandidate(cfg, a, cost, reason)])
    case EvaluationCompleted(v) => s.(evaluations := s.evaluations + [v])
    case ReviewCompleted(r) => s.(reviews := s.reviews + [r])
    case PromotionEffectApplied(p) => s.(promotions := PutPromotion(s.promotions, p.(receipt := None)))
    case PromotionCompleted(p) => s.(promotions := PutPromotion(s.promotions, p))
    case RollbackEffectApplied(b) => s.(rollbacks := PutRollback(s.rollbacks, b.(receipt := None)))
    case RollbackCompleted(b) => s.(rollbacks := PutRollback(s.rollbacks, b))
    case _ => s
  }

  /** `_inspect_unlocked`. */
  function Inspect(cfg: Config, log: seq<Event>): Snapshot {
    if log == [] then Snapshot([], [], [], [], [])
    else ApplyEvent(cfg, Inspect(cfg, log[..|log| - 1]), log[|log| - 1])
  }

  function StateOf(s: Snapshot): CampaignState {
    if exists b :: b in s.rollbacks && b.receipt.Some? then RolledBack
    else if exists p :: p in s.promotions && p.receipt.Some? then Promoted
    else Open
  }

  // ---------- Lookups: the first match ----------

  function FindCandidate(cs: seq<Candidate>, id: string): (r: Option<Candidate>)
    ensures r.Some? ==> r.value in cs && r.value.id == id
    ensures r.None? ==> forall c :: c in cs ==> c.id != id
  {
    if cs == [] then None else if cs[0].id == id then Some(cs[0]) else FindCandidate(cs[1..], id)
  }

  function FindEvaluation(es: seq<Evaluation>, id: string): (r: Option<Evaluation>)
    ensures r.Some? ==> r.value in es && r.value.id == id
  {
    if es == [] then None else if es[0].id == id then Some(es[0]) else FindEvaluation(es[1..], id)
  }

  function FindReview(rs: seq<Review>, id: string): (r: Option<Review>)
    ensures r.Some? ==> r.value in rs && r.value.id == id
  {
    if rs == [] then None else if rs[0].id == id then Some(rs[0]) else FindReview(rs[1..], id)
  }

  function EvaluationFor(es: seq<Evaluation>, candidate: string, receipt: string): (r: Option<Evaluation>)
    ensures r.Some? ==> r.value in es && r.value.candidate == candidate && r.value.receipt == receipt
  {
    if es == [] then None
    else if es[0].candidate == candidate && es[0].receipt == receipt then Some(es[0])
    else EvaluationFor(es[1..], candidate, receipt)
  }

  function ReviewFor(rs: seq<Review>, candidate: string, receipt: string): (r: Option<Review>)
    ensures r.Some? ==> r.value in rs && r.value.candidate == candidate && r.value.receipt == receipt
  {
    if rs == [] then None
    else if rs[0].candidate == candidate && rs[0].receipt == receipt then Some(rs[0])
    else ReviewFor(rs[1..], candidate, receipt)
  }

  function PromotionByGrant(ps: seq<Promotion>, grant: string): (r: Option<Promotion>)
    ensures r.Some? ==> r.value in ps && r.value.grant == grant
    ensures r.None? ==> forall p :: p in ps ==> p.grant != grant
  {
    if ps == [] then None else if ps[0].grant == grant then Some(ps[0]) else PromotionByGrant(ps[1..], grant)
  }

  function PromotionById(ps: seq<Promotion>, id: string): (r: Option<Promotion>)
    ensures r.Some? ==> r.value in ps && r.value.id == id
  {
    if ps == [] then None else if ps[0].id == id then Some(ps[0]) else PromotionById(ps[1..], id)
  }

  function RollbackByGrant(bs: seq<Rollback>, grant: string): (r: Option<Rollback>)
    ensures r.Some? ==> r.value in bs && r.value.grant == grant
    ensures r.None? ==> forall b :: b in bs ==> b.grant != grant
  {
    if bs == [] then None else if bs[0].grant == grant then Some(bs[0]) else RollbackByGrant(bs[1..], grant)
  }

  // ---------- Outcomes ----------

  datatype ProviderStatus = ProviderCompleted | ProviderTimedOut | ProviderCancelled | ProviderFailed

  /** What an evaluator answered; `None` stands for an unknown outcome name. */
  datatype EvaluatorAnswer = EvaluatorAnswer(outcome: Option<EvaluationOutcome>, suspected: bool)

  datatype ReviewerAnswer = ReviewerAnswer(outcome: Option<ReviewOutcome>, dissent: seq<string>)

  /** `_evaluation_outcome`. */
  function EvaluationResult(status: ProviderStatus, parsed: Option<EvaluatorAnswer>): (EvaluationOutcome, bool) {
    if status == ProviderTimedOut then (TimedOut, false)
    else if status == ProviderCancelled then (EvaluationCancelled, false)
    else if status != ProviderCompleted || parsed.None? then (EvaluatorError, false)
    else
      var named := if parsed.value.outcome.Some? then parsed.value.outcome.value else EvaluatorError;
      var hack := parsed.value.suspected || named == SuspectedRewardHack;
      (if hack then SuspectedRewardHack else named, hack)
  }

  /** `_review_outcome`. */
  function ReviewResult(status: ProviderStatus, parsed: Option<ReviewerAnswer>, nonImproving: bool)
    : (ReviewOutcome, seq<string>) {
    if status == ProviderCancelled then (ReviewCancelled, [])
    else if status != ProviderCompleted || parsed.None? then (Inconclusive, [])
    else
      var named := if parsed.value.outcome.Some? then parsed.value.outcome.value else Inconclusive;
      var dissent := parsed.value.dissent;
      var improving := if nonImproving && named == Approve then Inconclusive else named;
      (if dissent != [] && improving == Approve then Dissent else improving, dissent)
  }

  /** A pass is recorded as improving exactly when nothing suspicious was reported. */
  lemma PassIsClean(status: ProviderStatus, parsed: Option<EvaluatorAnswer>)
    ensures var (outcome, hack) := EvaluationResult(status, parsed);
      (outcome == CompletedPass && !hack <==>
        status == ProviderCompleted && parsed.Some? && parsed.value.outcome == Some(CompletedPass)
          && !parsed.value.suspected)
      && (hack <==> outcome == SuspectedRewardHack)
  {
  }

  /** Where each outcome of an evaluation comes from. */
  lemma EvaluationOutcomes(status: ProviderStatus, parsed: Option<EvaluatorAnswer>, o: EvaluationOutcome)
    ensures var answered := status == ProviderCompleted && parsed.Some?;
      var suspected := answered && (parsed.value.suspected || parsed.value.outcome == Some(SuspectedRewardHack));
      EvaluationResult(status, parsed).0 == o <==>
        || (o == SuspectedRewardHack && suspected)
        || (answered && !suspected && parsed.value.outcome == Some(o))
        || (o == TimedOut && status == ProviderTimedOut)
        || (o == EvaluationCancelled && status == ProviderCancelled)
        || (o == EvaluatorError && status == ProviderFailed)
        || (o == EvaluatorError && status == ProviderCompleted && parsed.None?)
        || (o == EvaluatorError && answered && !suspected && parsed.value.outcome.None?)
  {
  }

  /** Where each outcome of a review comes from, and what dissent is kept. */
  lemma ReviewOutcomes(status: ProviderStatus, parsed: Option<ReviewerAnswer>, nonImproving: bool, o: ReviewOutcome)
    ensures var answered := status == ProviderCompleted && parsed.Some?;
      var approves := answered && parsed.value.outcome == Some(Approve);
      && (ReviewResult(status, parsed, nonImproving).0 == o <==>
          || (o == Approve && approves && !nonImproving && parsed.value.dissent == [])
          || (o == Dissent && approves && !nonImproving && parsed.value.dissent != [])
          || (o == Inconclusive && approves && nonImproving)
          || (answered && !approves && parsed.value.outcome == Some(o))
          || (o == ReviewCancelled && status == ProviderCancelled)
          || (o == Inconclusive && (status == ProviderTimedOut || status == ProviderFailed))
          || (o == Inconclusive && status == ProviderCompleted && parsed.None?)
          || (o == Inconclusive && answered && parsed.value.outcome.None?))
      && ReviewResult(status, parsed, nonImproving).1 == if answered then parsed.value.dissent else []
  {
  }

  /** An approval is dissent-free and rests on an improving evaluation. */
  lemma ApprovalIsClean(status: ProviderStatus, parsed: Option<ReviewerAnswer>, nonImproving: bool)
    ensures var (outcome, dissent) := ReviewResult(status, parsed, nonImproving);
      outcome == Approve <==>
        status == ProviderCompleted && parsed.Some? && parsed.value.outcome == Some(Approve) && !nonImproving
          && dissent == [] && parsed.value.dissent == []
  {
  }

  // ---------- add_candidate ----------

  datatype LeaseState = LeaseActive | LeaseReturned | LeaseIntegrated | LeaseClosed

  /** Who integrated a lease, and the accepted revision its receipt names. */
  datatype Integration = Integration(grant: string, fingerprint: string, receipt: string, accepted: string)

  datatype Lease = Lease(state: LeaseState, base: string, owner: string, patch: Option<string>,
                         integration: Option<Integration>)

  datatype CandidateArgs = CandidateArgs(attempt: string, lease: string, action: CandidateAction,
                                         parent: Option<string>,
                                         id: Option<string>, author: string, outcome: CandidateOutcome, cost: int,
                                         dissent: seq<string>)

  predicate DistinctStrings(s: seq<string>) {
    forall i, j :: 0 <= i < j < |s| ==> s[i] != s[j]
  }

  /** The event `add_candidate` appends: the admitted record, or the rejection with its reason. */
  function CandidateEvent(cfg: Config, s: Snapshot, args: CandidateArgs, lease: Lease): Event {
    var reject := (reason: string) => CandidateRejected(args.attempt, if args.cost > 0 then args.cost else 0, reason);
    if StateOf(s) != Open then reject("campaign_not_open")
    else if args.author != cfg.author then reject("candidate_author_mismatch")
    else if args.author == cfg.evaluator || args.author == cfg.reviewer then reject("authority_collision")
    else if args.cost < 0 then reject("invalid_cost")
    else if !DistinctStrings(args.dissent) then reject("invalid_dissent")
    else if args.action == Original && args.parent.Some? then reject("unexpected_candidate_parent")
    else if args.action != Original
      && (args.parent.None? || !exists c :: c in s.candidates && c.outcome != Rejected && c.id == args.parent.value)
    then reject("candidate_parent_not_found")
    else if lease.state != LeaseReturned || lease.patch.None? then reject("candidate_patch_not_returned")
    else if lease.base != cfg.accepted then reject("candidate_base_mismatch")
    else if lease.owner != args.author then reject("candidate_lease_owner_mismatch")
    else
      var id := if args.id.Some? then args.id.value else cfg.generatedId(lease.patch.value);
      if FindCandidate(s.candidates, id).Some? then reject("duplicate_candidate")
      else CandidateAdded(Candidate(id, lease.patch.value, lease.patch.value, args.lease, args.parent, args.action,
                                    args.author, args.outcome, args.cost, args.dissent))
  }

  // ---------- promote_candidate ----------

  datatype PromotionGrant = PromotionGrant(id: string, candidate: string, candidateDigest: string, predecessor: string,
                                           lease: string, patch: string, evaluationReceipt: string,
                                           reviewReceipt: string)

  datatype Inputs = Inputs(c: Candidate, e: Evaluation, r: Review)

  /** `_promotion_inputs`: the candidate with its passing evaluation and its approval of the whole denominator. */
  function PromotionInputs(cfg: Config, s: Snapshot, g: PromotionGrant, allowPromoted: bool): Option<Inputs> {
    if StateOf(s) != Open && !(allowPromoted && StateOf(s) == Promoted) then None
    else
      match FindCandidate(s.candidates, g.candidate)
      case None => None
      case Some(c) =>
        match EvaluationFor(s.evaluations, c.id, g.evaluationReceipt)
        case None => None
        case Some(e) =>
          match ReviewFor(s.reviews, c.id, g.reviewReceipt)
          case None => None
          case Some(r) =>
            if r.evaluation != e.id then None
            else if g.candidateDigest != c.digest || g.lease != c.lease || g.patch != c.patch
              || g.predecessor != cfg.accepted then None
            else if e.nonImproving || e.rewardHack || r.outcome != Approve || r.dissent != []
                    || r.denominator != |s.candidates| || r.denominatorDigest != cfg.denominatorDigest(s.candidates)
                      then None
            else Some(Inputs(c, e, r))
  }
}
