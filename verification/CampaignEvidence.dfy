/**
 What a promotion rests on, said of the lists of a snapshot: which records are found, what they must
 say, and what a rejected attempt counts as.
 */
module CampaignEvidence {
  import opened Wrappers
  import opened Campaign
  import opened CampaignSystem

  ghost predicate FirstCandidate(cs: seq<Candidate>, c: Candidate, id: string) {
    exists i ::
      && 0 <= i < |cs| && cs[i] == c && c.id == id
      && forall j :: 0 <= j < i ==> cs[j].id != id
  }

  ghost predicate FirstEvaluation(es: seq<Evaluation>, e: Evaluation, candidate: string, receipt: string) {
    exists i ::
      && 0 <= i < |es| && es[i] == e && e.candidate == candidate && e.receipt == receipt
      && forall j :: 0 <= j < i ==> es[j].candidate != candidate || es[j].receipt != receipt
  }

  ghost predicate FirstReview(rs: seq<Review>, r: Review, candidate: string, receipt: string) {
    exists i ::
      && 0 <= i < |rs| && rs[i] == r && r.candidate == candidate && r.receipt == receipt
      && forall j :: 0 <= j < i ==> rs[j].candidate != candidate || rs[j].receipt != receipt
  }

  /** The grant is of this candidate, the pass is clean, and the approval of it covers all candidates. */
  predicate CarriesPromotion(cfg: Config, candidates: seq<Candidate>, g: PromotionGrant, c: Candidate, e: Evaluation,
                             r: Review) {
    && g.candidateDigest == c.digest && g.lease == c.lease && g.patch == c.patch && g.predecessor == cfg.accepted
    && !e.nonImproving && !e.rewardHack
    && r.evaluation == e.id && r.outcome == Approve && r.dissent == []
    && r.denominator == |candidates| && r.denominatorDigest == cfg.denominatorDigest(candidates)
  }

  lemma {:induction false} FindsFirstCandidate(cs: seq<Candidate>, id: string)
    ensures forall c :: FindCandidate(cs, id) == Some(c) <==> FirstCandidate(cs, c, id)
  {
    if cs == [] {
    } else {
      FindsFirstCandidate(cs[1..], id);
    }
  }

  lemma {:induction false} FindsFirstEvaluation(es: seq<Evaluation>, candidate: string, receipt: string)
    ensures forall e :: EvaluationFor(es, candidate, receipt) == Some(e) <==> FirstEvaluation(es, e, candidate, receipt)
  {
    if es == [] {
    } else {
      FindsFirstEvaluation(es[1..], candidate, receipt);
    }
  }

  lemma {:induction false} FindsFirstReview(rs: seq<Review>, candidate: string, receipt: string)
    ensures forall r :: ReviewFor(rs, candidate, receipt) == Some(r) <==> FirstReview(rs, r, candidate, receipt)
  {
    if rs == [] {
    } else {
      FindsFirstReview(rs[1..], candidate, receipt);
    }
  }

  /**
   A grant finds its evidence exactly when the campaign is open (or promoted, where that is allowed),
   its candidate is on record, and the first evaluation and the first review of that candidate with
   the receipts it names carry the promotion.
   */
  lemma InputsExactly(cfg: Config, s: Snapshot, g: PromotionGrant, allowPromoted: bool, c: Candidate, e: Evaluation,
                      r: Review)
    ensures PromotionInputs(cfg, s, g, allowPromoted) == Some(Inputs(c, e, r)) <==>
      && (forall b :: b in s.rollbacks ==> b.receipt == None)
      && (allowPromoted || forall p :: p in s.promotions ==> p.receipt == None)
      && FirstCandidate(s.candidates, c, g.candidate)
      && FirstEvaluation(s.evaluations, e, g.candidate, g.evaluationReceipt)
      && FirstReview(s.reviews, r, g.candidate, g.reviewReceipt)
      && CarriesPromotion(cfg, s.candidates, g, c, e, r)
  {
    FindsFirstCandidate(s.candidates, g.candidate);
    FindsFirstEvaluation(s.evaluations, g.candidate, g.evaluationReceipt);
    FindsFirstReview(s.reviews, g.candidate, g.reviewReceipt);
    hide FindCandidate, EvaluationFor, ReviewFor, FirstCandidate, FirstEvaluation, FirstReview;
  }

  /** A rejected attempt counts as a candidate of its own, under one made-up name, and derives from none. */
  lemma RejectionIsFolded(cfg: Config, log: seq<Event>, attempt: string, cost: nat, reason: string)
    ensures var id := cfg.rejectedId(attempt, cost, reason);
      Inspect(cfg, log + [CandidateRejected(attempt, cost, reason)]).candidates ==
      Inspect(cfg, log).candidates
      + [Candidate(id, id, id, "lease:rejected", None, Original, "redacted", Rejected, cost, [])]
  {
    var e := CandidateRejected(attempt, cost, reason);
    assert (log + [e])[..|log|] == log;
  }

  /**
   HEAD is moved to the commit from the predecessor only; where it is at the commit already it stays,
   and anywhere else the promotion ends.
   */
  lemma MoveHeadExactly(s: System)
    requires s.stage.Committed? && s.trail != []
    ensures var t, last := DoMoveHead(s), s.trail[|s.trail| - 1];
      && t.trail == s.trail + (if last == s.stage.g.predecessor then [s.stage.commit] else [])
      && t.stage == (if last == s.stage.g.predecessor || last == s.stage.commit
                     then HeadMoved(s.stage.g, s.stage.f, s.stage.promotion, s.stage.commit) else Free)
      && t.log == s.log && t.leases == s.leases && t.integrations == s.integrations
  {
  }
}
