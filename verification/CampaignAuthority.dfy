/**
 The only way into a promotion (`accepted_point_authority.py`, the grant records of
 `mutation_journal.py`, `promote_candidate` of `foundation_tools.py`).  The host admits a grant
 once and for all; a request consumes it, and is let through only while the evaluation and the
 review its scope names are the latest of its candidate.  What lies behind is the campaign of
 `CampaignSystem`, so that every run here is a run there.
 */
module CampaignAuthority {
  import opened Wrappers
  import opened Campaign
  import opened CampaignLog
  import opened CampaignSystem
  import opened CampaignRuns
  import opened CampaignRecovery
  import opened CampaignLoss

  /** A request that holds the accepted-point lock and has passed the check of its scope. */
  datatype Admission = Admission(g: PromotionGrant, f: string)

  /** `grants` are the records admitted by the host, `consumed` the one request each is for. */
  datatype Authority = Authority(
    base: System,
    grants: map<string, PromotionGrant>,
    consumed: map<string, string>,
    admitted: Option<Admission>)

  datatype Request =
    | Retain(grant: PromotionGrant)
    | Consume(id: string, f: string)
    | Admit(id: string, f: string)
    | Promote(newId: string)
    | Other(action: Action)

  // ---------- The scope of a grant ----------

  /** The last evaluation of a candidate, whatever its outcome. */
  function LastEvaluation(es: seq<Evaluation>, candidate: string): (r: Option<Evaluation>)
    ensures r.Some? ==> r.value in es && r.value.candidate == candidate
  {
    if es == [] then None
    else if es[|es| - 1].candidate == candidate then Some(es[|es| - 1])
    else LastEvaluation(es[..|es| - 1], candidate)
  }

  function LastReview(rs: seq<Review>, candidate: string): (r: Option<Review>)
    ensures r.Some? ==> r.value in rs && r.value.candidate == candidate
  {
    if rs == [] then None
    else if rs[|rs| - 1].candidate == candidate then Some(rs[|rs| - 1])
    else LastReview(rs[..|rs| - 1], candidate)
  }

  /** The scope written down in the grant is the one derived from the records. */
  predicate InScope(cfg: Config, s: Snapshot, g: PromotionGrant) {
    var c := FindCandidate(s.candidates, g.candidate);
    var e, r := LastEvaluation(s.evaluations, g.candidate), LastReview(s.reviews, g.candidate);
    && c.Some? && e.Some? && r.Some?
    && g.candidateDigest == c.value.digest && g.lease == c.value.lease && g.patch == c.value.patch
    && g.predecessor == cfg.accepted
    && g.evaluationReceipt == e.value.receipt && g.reviewReceipt == r.value.receipt
  }

  predicate Scoped(cfg: Config, log: seq<Event>, g: PromotionGrant) {
    InScope(cfg, Inspect(cfg, log), g)
  }

  // ---------- Requests ----------

  /** A receipt carries an identifier of its own, so no new one repeats a receipt on record. */
  predicate RepeatsReceipt(s: Snapshot, action: Action) {
    || (action.FinishEvaluation? && exists e :: e in s.evaluations && e.receipt == action.receipt)
    || (action.FinishReview? && exists r :: r in s.reviews && r.receipt == action.receipt)
  }

  /** No promotion begins but through a grant, and nobody else takes the lock an admitted request holds. */
  predicate Barred(cfg: Config, a: Authority, action: Action) {
    || action.BeginPromotion? || (action.BeginRollback? && a.admitted.Some?)
    || RepeatsReceipt(Inspect(cfg, a.base.log), action)
  }

  function Perform(cfg: Config, a: Authority, r: Request): (b: Authority)
    requires a.base.trail != []
    ensures a.base.trail <= b.base.trail && a.base.log <= b.base.log
  {
    match r
    case Retain(g) => if g.id in a.grants then a else a.(grants := a.grants[g.id := g])
    case Consume(id, f) =>
      if id !in a.grants || !Scoped(cfg, a.base.log, a.grants[id]) || (id in a.consumed && a.consumed[id] != f) then a
      else a.(consumed := a.consumed[id := f])
    case Admit(id, f) =>
      if a.base.stage != Free || a.admitted.Some? || id !in a.grants || id !in a.consumed || a.consumed[id] != f
         || !Scoped(cfg, a.base.log, a.grants[id])
      then a else a.(admitted := Some(Admission(a.grants[id], f)))
    case Promote(newId) =>
      if a.admitted.None? then a
      else
        var g, f := a.admitted.value.g, a.admitted.value.f;
        a.(base := DoBeginPromotion(cfg, a.base, g, f, newId), admitted := None)
    case Other(action) =>
      if Barred(cfg, a, action) then a
      else a.(base := Do(cfg, a.base, action), admitted := if action.Crash? then None else a.admitted)
  }

  function After(cfg: Config, a: Authority, requests: seq<Request>): (b: Authority)
    requires a.base.trail != []
    ensures a.base.trail <= b.base.trail
  {
    if requests == [] then a else Perform(cfg, After(cfg, a, requests[..|requests| - 1]), requests[|requests| - 1])
  }

  lemma AfterOneMore(cfg: Config, a: Authority, requests: seq<Request>, k: nat)
    requires a.base.trail != [] && k < |requests|
    ensures After(cfg, a, requests[..k + 1]) == Perform(cfg, After(cfg, a, requests[..k]), requests[k])
  {
    hide Perform;
    assert requests[..k + 1][..k] == requests[..k];
  }

  lemma {:induction false} AfterComposes(cfg: Config, a: Authority, first: seq<Request>, second: seq<Request>)
    requires a.base.trail != []
    ensures After(cfg, a, first + second) == After(cfg, After(cfg, a, first), second)
  {
    hide Perform;
    if second == [] {
      assert first + second == first;
    } else {
      var shorter := second[..|second| - 1];
      AfterComposes(cfg, a, first, shorter);
      assert (first + second)[..|first + second| - 1] == first + shorter;
    }
  }

  predicate NobodyAtWork(a: Authority) {
    a.base.stage == Free && a.admitted.None?
  }

  // ---------- Every run here is a run of the campaign ----------

  /** The step of the campaign a request amounts to, if any. */
  function Amounts(cfg: Config, a: Authority, r: Request): Option<Action> {
    match r
    case Promote(newId) =>
      if a.admitted.None? then None
      else Some(BeginPromotion(a.admitted.value.g, a.admitted.value.f, newId))
    case Other(action) => if Barred(cfg, a, action) then None else Some(action)
    case _ => None
  }

  lemma AmountsTo(cfg: Config, a: Authority, r: Request)
    requires a.base.trail != []
    ensures var step := Amounts(cfg, a, r);
      Perform(cfg, a, r).base == if step.None? then a.base else Do(cfg, a.base, step.value)
  {
    hide Scoped, Barred, DoBeginPromotion;
  }

  lemma {:induction false} EveryEntryRunIsARun(cfg: Config, a: Authority, requests: seq<Request>)
    returns (actions: seq<Action>)
    requires a.base.trail != []
    ensures After(cfg, a, requests).base == Run(cfg, a.base, actions)
  {
    hide Perform, Do, Amounts;
    if requests == [] {
      actions := [];
    } else {
      var n := |requests| - 1;
      actions := EveryEntryRunIsARun(cfg, a, requests[..n]);
      var before := After(cfg, a, requests[..n]);
      AmountsTo(cfg, before, requests[n]);
      var step := Amounts(cfg, before, requests[n]);
      if step.Some? {
        RunsOneMore(cfg, a.base, actions, step.value);
        actions := actions + [step.value];
      }
    }
  }

  lemma RunsOneMore(cfg: Config, s: System, actions: seq<Action>, action: Action)
    requires s.trail != []
    ensures Run(cfg, s, actions + [action]) == Do(cfg, Run(cfg, s, actions), action)
  {
    hide Do;
    assert (actions + [action])[..|actions|] == actions;
  }

  // ---------- Receipts are distinct ----------

  predicate DistinctReceipts(s: Snapshot) {
    && (forall i, j :: 0 <= i < j < |s.evaluations| ==> s.evaluations[i].receipt != s.evaluations[j].receipt)
    && (forall i, j :: 0 <= i < j < |s.reviews| ==> s.reviews[i].receipt != s.reviews[j].receipt)
  }

  predicate AddsNoEvidence(before: seq<Event>, after: seq<Event>) {
    && before <= after
    && forall k :: |before| <= k < |after| ==> !after[k].EvaluationCompleted? && !after[k].ReviewCompleted?
  }

  lemma {:induction false} SameEvidence(cfg: Config, before: seq<Event>, after: seq<Event>)
    requires AddsNoEvidence(before, after)
    ensures var s, t := Inspect(cfg, before), Inspect(cfg, after);
      t.evaluations == s.evaluations && t.reviews == s.reviews
    decreases |after|
  {
    if before == after {
      assert after == before;
    } else {
      SameEvidence(cfg, before, after[..|after| - 1]);
    }
  }

  lemma WorldStepAddsNoEvidence(cfg: Config, s: System, action: Action)
    requires s.trail != []
    requires action.SetLease? || action.CleanUp? || action.Reconcile? || action.MoveHead? || action.MarkLease?
      || action.Crash? || action.LogRollback? || action.MoveBack? || action.LogRestored?
    ensures Do(cfg, s, action).log == s.log
  {
    hide LastTx, TxMatches;
  }

  lemma EntryStepAddsNoEvidence(cfg: Config, s: System, action: Action)
    requires s.trail != []
    requires action.AddCandidate? || action.BeginEvaluation? || action.BeginReview?
    ensures AddsNoEvidence(s.log, Do(cfg, s, action).log)
  {
    hide Inspect, StateOf, FindCandidate, FindEvaluation, FindReview;
  }

  lemma BeginningAddsNoEvidence(cfg: Config, s: System, action: Action)
    requires s.trail != [] && (action.BeginPromotion? || action.BeginRollback?)
    ensures AddsNoEvidence(s.log, Do(cfg, s, action).log)
  {
    hide Inspect, PromotionInputs, PromotionByGrant, PromotionById, RollbackByGrant, LastTx;
  }

  lemma FinishPromotionAddsNoEvidence(cfg: Config, s: System, receipt: string, dies: bool)
    requires s.trail != []
    ensures AddsNoEvidence(s.log, Do(cfg, s, FinishPromotion(receipt, dies)).log)
  {
    hide Inspect, PromotionInputs, PromotionByGrant;
  }

  lemma FinishRollbackAddsNoEvidence(cfg: Config, s: System, receipt: string, diesAfter: nat)
    requires s.trail != []
    ensures AddsNoEvidence(s.log, Do(cfg, s, FinishRollback(receipt, diesAfter)).log)
  {
    hide Inspect, PromotionById, RollbackByGrant;
  }

  lemma StepAddsNoEvidence(cfg: Config, s: System, action: Action)
    requires s.trail != [] && !action.FinishEvaluation? && !action.FinishReview?
    ensures AddsNoEvidence(s.log, Do(cfg, s, action).log)
  {
    hide Do;
    if action.AddCandidate? || action.BeginEvaluation? || action.BeginReview? {
      EntryStepAddsNoEvidence(cfg, s, action);
    } else if action.BeginPromotion? || action.BeginRollback? {
      BeginningAddsNoEvidence(cfg, s, action);
    } else if action.FinishPromotion? {
      FinishPromotionAddsNoEvidence(cfg, s, action.receipt, action.dies);
    } else if action.FinishRollback? {
      FinishRollbackAddsNoEvidence(cfg, s, action.receipt, action.diesAfter);
    } else {
      WorldStepAddsNoEvidence(cfg, s, action);
    }
  }

  predicate LandsEvaluation(before: seq<Event>, after: seq<Event>, candidate: string, receipt: string) {
    && |after| == |before| + 1 && before <= after && after[|before|].EvaluationCompleted?
    && after[|before|].e.candidate == candidate && after[|before|].e.receipt == receipt
  }

  predicate LandsReview(before: seq<Event>, after: seq<Event>, candidate: string, receipt: string) {
    && |after| == |before| + 1 && before <= after && after[|before|].ReviewCompleted?
    && after[|before|].r.candidate == candidate && after[|before|].r.receipt == receipt
  }

  /** What lands is one evaluation of the flight's candidate with the receipt it was given, or nothing. */
  lemma EvaluationLands(cfg: Config, s: System, action: Action)
    requires s.trail != [] && action.FinishEvaluation?
    ensures var t := Do(cfg, s, action);
      && t.trail == s.trail && t.leases == s.leases && t.stage == s.stage
      && (t.log == s.log || (action.flight.EvaluationFlight?
                             && LandsEvaluation(s.log, t.log, action.flight.c.id, action.receipt)))
  {
    hide Inspect, EvaluationResult, FindCandidate, FindEvaluation;
  }

  lemma ReviewLands(cfg: Config, s: System, action: Action)
    requires s.trail != [] && action.FinishReview?
    ensures var t := Do(cfg, s, action);
      && t.trail == s.trail && t.leases == s.leases && t.stage == s.stage
      && (t.log == s.log || (action.flight.ReviewFlight?
                             && LandsReview(s.log, t.log, action.flight.c.id, action.receipt)))
  {
    hide Inspect, ReviewResult, FindCandidate, FindReview;
  }

  lemma LandedEvaluation(cfg: Config, before: seq<Event>, after: seq<Event>, candidate: string, receipt: string)
    requires LandsEvaluation(before, after, candidate, receipt)
    ensures var s, t := Inspect(cfg, before), Inspect(cfg, after);
      && t.evaluations == s.evaluations + [after[|before|].e] && t.reviews == s.reviews
  {
    assert after[..|after| - 1] == before;
  }

  lemma LandedReview(cfg: Config, before: seq<Event>, after: seq<Event>, candidate: string, receipt: string)
    requires LandsReview(before, after, candidate, receipt)
    ensures var s, t := Inspect(cfg, before), Inspect(cfg, after);
      && t.reviews == s.reviews + [after[|before|].r] && t.evaluations == s.evaluations
  {
    assert after[..|after| - 1] == before;
  }

  /** Receipts stay distinct, because none is given twice. */
  lemma PerformKeepsReceipts(cfg: Config, a: Authority, r: Request)
    requires a.base.trail != [] && DistinctReceipts(Inspect(cfg, a.base.log))
    ensures DistinctReceipts(Inspect(cfg, Perform(cfg, a, r).base.log))
  {
    hide Perform, Do, Inspect;
    AmountsTo(cfg, a, r);
    var step := Amounts(cfg, a, r);
    if step.Some? {
      StepKeepsReceipts(cfg, a.base, step.value);
    }
  }

  lemma StepKeepsReceipts(cfg: Config, s: System, action: Action)
    requires s.trail != [] && DistinctReceipts(Inspect(cfg, s.log)) && !RepeatsReceipt(Inspect(cfg, s.log), action)
    ensures DistinctReceipts(Inspect(cfg, Do(cfg, s, action).log))
  {
    hide Do, Inspect;
    var t := Do(cfg, s, action);
    if action.FinishEvaluation? {
      EvaluationLands(cfg, s, action);
      if t.log != s.log {
        LandedEvaluation(cfg, s.log, t.log, action.flight.c.id, action.receipt);
      }
    } else if action.FinishReview? {
      ReviewLands(cfg, s, action);
      if t.log != s.log {
        LandedReview(cfg, s.log, t.log, action.flight.c.id, action.receipt);
      }
    } else {
      StepAddsNoEvidence(cfg, s, action);
      SameEvidence(cfg, s.log, t.log);
    }
  }

  // ---------- A scope ages by evaluations and reviews of its candidate ----------

  /** Between the two logs no evaluation and no review of this candidate landed. */
  predicate NoLaterEvidence(cfg: Config, before: seq<Event>, after: seq<Event>, candidate: string) {
    var s, t := Inspect(cfg, before), Inspect(cfg, after);
    && (forall i :: |s.evaluations| <= i < |t.evaluations| ==> t.evaluations[i].candidate != candidate)
    && (forall i :: |s.reviews| <= i < |t.reviews| ==> t.reviews[i].candidate != candidate)
  }

  predicate EvaluatedAfter(es: seq<Evaluation>, n: nat, candidate: string) {
    exists i :: n <= i < |es| && es[i].candidate == candidate
  }

  predicate ReviewedAfter(rs: seq<Review>, n: nat, candidate: string) {
    exists i :: n <= i < |rs| && rs[i].candidate == candidate
  }

  /** The last evaluation is the one it was, or one of those that came since. */
  lemma {:induction false} LastEvaluationOf(es: seq<Evaluation>, more: seq<Evaluation>, candidate: string)
    requires es <= more
    ensures !EvaluatedAfter(more, |es|, candidate) ==> LastEvaluation(more, candidate) == LastEvaluation(es, candidate)
    ensures EvaluatedAfter(more, |es|, candidate) ==>
      exists i :: |es| <= i < |more| && LastEvaluation(more, candidate) == Some(more[i])
    decreases |more|
  {
    if es == more {
      assert more == es;
    } else {
      var n := |more| - 1;
      LastEvaluationOf(es, more[..n], candidate);
      if more[n].candidate != candidate && EvaluatedAfter(more, |es|, candidate) {
        var i :| |es| <= i < |more| && more[i].candidate == candidate;
        assert more[..n][i].candidate == candidate;
        var j :| |es| <= j < n && LastEvaluation(more[..n], candidate) == Some(more[..n][j]);
        assert LastEvaluation(more, candidate) == Some(more[j]);
      } else if more[n].candidate == candidate {
        assert LastEvaluation(more, candidate) == Some(more[n]);
      }
    }
  }

  lemma {:induction false} LastReviewOf(rs: seq<Review>, more: seq<Review>, candidate: string)
    requires rs <= more
    ensures !ReviewedAfter(more, |rs|, candidate) ==> LastReview(more, candidate) == LastReview(rs, candidate)
    ensures ReviewedAfter(more, |rs|, candidate) ==>
      exists i :: |rs| <= i < |more| && LastReview(more, candidate) == Some(more[i])
    decreases |more|
  {
    if rs == more {
      assert more == rs;
    } else {
      var n := |more| - 1;
      LastReviewOf(rs, more[..n], candidate);
      if more[n].candidate != candidate && ReviewedAfter(more, |rs|, candidate) {
        var i :| |rs| <= i < |more| && more[i].candidate == candidate;
        assert more[..n][i].candidate == candidate;
        var j :| |rs| <= j < n && LastReview(more[..n], candidate) == Some(more[..n][j]);
        assert LastReview(more, candidate) == Some(more[j]);
      } else if more[n].candidate == candidate {
        assert LastReview(more, candidate) == Some(more[n]);
      }
    }
  }

  /** A scope that was right is right exactly until its candidate is evaluated or reviewed again. */
  lemma ScopeOfMore(cfg: Config, s: Snapshot, t: Snapshot, g: PromotionGrant)
    requires s.candidates <= t.candidates && s.evaluations <= t.evaluations && s.reviews <= t.reviews
    requires DistinctReceipts(t) && InScope(cfg, s, g)
    ensures InScope(cfg, t, g) <==>
      !EvaluatedAfter(t.evaluations, |s.evaluations|, g.candidate)
        && !ReviewedAfter(t.reviews, |s.reviews|, g.candidate)
  {
    hide FindCandidate, LastEvaluation, LastReview, EvaluatedAfter, ReviewedAfter;
    FoundFirst(s.candidates, t.candidates[|s.candidates|..], g.candidate);
    assert t.candidates == s.candidates + t.candidates[|s.candidates|..];
    LastEvaluationOf(s.evaluations, t.evaluations, g.candidate);
    LastReviewOf(s.reviews, t.reviews, g.candidate);
    var e, r := LastEvaluation(s.evaluations, g.candidate).value, LastReview(s.reviews, g.candidate).value;
    var i :| 0 <= i < |s.evaluations| && s.evaluations[i] == e;
    var j :| 0 <= j < |s.reviews| && s.reviews[j] == r;
    assert t.evaluations[i] == e && t.reviews[j] == r;
  }

  lemma ScopeAge(cfg: Config, before: seq<Event>, after: seq<Event>, g: PromotionGrant)
    requires before <= after && DistinctReceipts(Inspect(cfg, after)) && Scoped(cfg, before, g)
    ensures Scoped(cfg, after, g) <==> NoLaterEvidence(cfg, before, after, g.candidate)
  {
    hide Inspect, InScope, DistinctReceipts;
    InspectGrows(cfg, before, after);
    ScopeOfMore(cfg, Inspect(cfg, before), Inspect(cfg, after), g);
  }

  ghost predicate OnceScoped(cfg: Config, log: seq<Event>, g: PromotionGrant) {
    exists k :: 0 <= k <= |log| && Scoped(cfg, log[..k], g)
  }

  lemma ScopeStays(cfg: Config, before: seq<Event>, after: seq<Event>)
    requires before <= after
    ensures forall g :: OnceScoped(cfg, before, g) ==> OnceScoped(cfg, after, g)
  {
    hide Scoped;
    forall g | OnceScoped(cfg, before, g) ensures OnceScoped(cfg, after, g) {
      var k :| 0 <= k <= |before| && Scoped(cfg, before[..k], g);
      assert after[..k] == before[..k];
    }
  }

  lemma DistinctBefore(cfg: Config, before: seq<Event>, after: seq<Event>)
    requires before <= after && DistinctReceipts(Inspect(cfg, after))
    ensures DistinctReceipts(Inspect(cfg, before))
  {
    hide Inspect;
    InspectGrows(cfg, before, after);
  }

  lemma LaterStaysLater(cfg: Config, first: seq<Event>, before: seq<Event>, after: seq<Event>, candidate: string)
    requires first <= before <= after && !NoLaterEvidence(cfg, first, before, candidate)
    ensures !NoLaterEvidence(cfg, first, after, candidate)
  {
    hide Inspect;
    InspectGrows(cfg, first, before);
    InspectGrows(cfg, before, after);
    var s, t, u := Inspect(cfg, first), Inspect(cfg, before), Inspect(cfg, after);
    if i :| |s.evaluations| <= i < |t.evaluations| && t.evaluations[i].candidate == candidate {
      assert u.evaluations[i].candidate == candidate;
    } else {
      var j :| |s.reviews| <= j < |t.reviews| && t.reviews[j].candidate == candidate;
      assert u.reviews[j].candidate == candidate;
    }
  }

  /** A scope that has been overtaken is never right again. */
  lemma ScopeStaysLost(cfg: Config, before: seq<Event>, after: seq<Event>, g: PromotionGrant)
    requires before <= after && DistinctReceipts(Inspect(cfg, after))
    requires OnceScoped(cfg, before, g) && !Scoped(cfg, before, g)
    ensures !Scoped(cfg, after, g)
  {
    hide Inspect, Scoped, DistinctReceipts, NoLaterEvidence;
    var k :| 0 <= k <= |before| && Scoped(cfg, before[..k], g);
    DistinctBefore(cfg, before, after);
    ScopeAge(cfg, before[..k], before, g);
    ScopeAge(cfg, before[..k], after, g);
    LaterStaysLater(cfg, before[..k], before, after, g.candidate);
  }

  // ---------- What every grant in use is ----------

  /** Recorded, and consumed for this one request. */
  predicate Held(a: Authority, g: PromotionGrant, f: string) {
    g.id in a.grants && a.grants[g.id] == g && g.id in a.consumed && a.consumed[g.id] == f
  }

  predicate GrantsOk(a: Authority) {
    forall id :: id in a.grants ==> a.grants[id].id == id
  }

  ghost predicate AdmissionOk(cfg: Config, a: Authority) {
    a.admitted.Some? ==>
      && a.base.stage == Free && Held(a, a.admitted.value.g, a.admitted.value.f)
      && OnceScoped(cfg, a.base.log, a.admitted.value.g)
  }

  /** A promotion under way is under a held grant. */
  ghost predicate StageHeld(cfg: Config, a: Authority) {
    AboutToMark(a.base.stage) || a.base.stage.Merged? ==>
      Held(a, a.base.stage.g, a.base.stage.f) && OnceScoped(cfg, a.base.log, a.base.stage.g)
  }

  /** The lease was integrated for the one request of a held grant, whose evidence and scope stood once. */
  ghost predicate MarkHeld(cfg: Config, a: Authority, id: string, i: Integration) {
    && i.grant in a.grants && Held(a, a.grants[i.grant], i.fingerprint) && a.grants[i.grant].lease == id
    && a.grants[i.grant].id == i.grant
    && OnceGranted(cfg, a.base.log, a.grants[i.grant]) && OnceScoped(cfg, a.base.log, a.grants[i.grant])
  }

  ghost predicate MarksHeld(cfg: Config, a: Authority) {
    forall id :: Marked(a.base.leases, id) ==> MarkHeld(cfg, a, id, a.base.leases[id].integration.value)
  }

  ghost predicate Sound(cfg: Config, a: Authority) {
    && Inv(cfg, a.base) && Custody(cfg, a.base) && DistinctReceipts(Inspect(cfg, a.base.log))
    && GrantsOk(a) && AdmissionOk(cfg, a) && StageHeld(cfg, a) && MarksHeld(cfg, a)
  }

  /** A campaign just opened, with whatever grants the host has admitted before. */
  predicate OpenedAuthority(cfg: Config, a: Authority) {
    Opened(cfg, a.base) && GrantsOk(a) && a.consumed == map[] && a.admitted == None
  }

  /** Grants and their requests are never changed. */
  predicate KeepsGrants(a: Authority, b: Authority) {
    && (forall id :: id in a.grants ==> id in b.grants && b.grants[id] == a.grants[id])
    && (forall id :: id in a.consumed ==> id in b.consumed && b.consumed[id] == a.consumed[id])
  }

  lemma PerformKeepsGrants(cfg: Config, a: Authority, r: Request)
    requires a.base.trail != []
    ensures KeepsGrants(a, Perform(cfg, a, r))
    ensures GrantsOk(a) ==> GrantsOk(Perform(cfg, a, r))
  {
    hide Scoped, Barred, DoBeginPromotion, Do;
  }

  lemma HeldStays(a: Authority, b: Authority)
    requires KeepsGrants(a, b)
    ensures forall g, f :: Held(a, g, f) ==> Held(b, g, f)
  {
  }

  lemma ScopedNow(cfg: Config, log: seq<Event>, g: PromotionGrant)
    requires Scoped(cfg, log, g)
    ensures OnceScoped(cfg, log, g)
  {
    hide Scoped;
    assert log[..|log|] == log;
  }

  lemma PerformKeepsAdmission(cfg: Config, a: Authority, r: Request)
    requires a.base.trail != [] && GrantsOk(a) && AdmissionOk(cfg, a)
    ensures AdmissionOk(cfg, Perform(cfg, a, r))
  {
    var b := Perform(cfg, a, r);
    hide Scoped, Barred, DoBeginPromotion, Do, OnceScoped, Held, KeepsGrants;
    PerformKeepsGrants(cfg, a, r);
    HeldStays(a, b);
    ScopeStays(cfg, a.base.log, b.base.log);
    if r.Admit? && b.admitted != a.admitted {
      AdmittedIsHeld(cfg, a, r.id, r.f);
      ScopedNow(cfg, a.base.log, a.grants[r.id]);
    } else if r.Other? && a.admitted.Some? && b.admitted.Some? && !Barred(cfg, a, r.action) {
      LockStaysFree(cfg, a, r.action);
    }
  }

  lemma AdmittedIsHeld(cfg: Config, a: Authority, id: string, f: string)
    requires a.base.trail != [] && GrantsOk(a) && Perform(cfg, a, Admit(id, f)).admitted != a.admitted
    ensures id in a.grants && Perform(cfg, a, Admit(id, f)).admitted == Some(Admission(a.grants[id], f))
    ensures Held(a, a.grants[id], f) && Scoped(cfg, a.base.log, a.grants[id])
  {
    hide Scoped;
  }

  /** While a request holds the lock nothing but itself begins. */
  lemma LockStaysFree(cfg: Config, a: Authority, action: Action)
    requires a.base.trail != [] && a.base.stage == Free && a.admitted.Some? && !Barred(cfg, a, action)
    ensures Do(cfg, a.base, action).stage == Free
  {
    hide RepeatsReceipt, Inspect;
    if action.BeginEvaluation? || action.FinishEvaluation? {
      EvaluationStepNotes(cfg, a.base, action);
    } else if action.BeginReview? || action.FinishReview? {
      ReviewStepNotes(cfg, a.base, action);
    } else {
      FreeStaysFree(cfg, a.base, action);
    }
  }

  lemma FreeStaysFree(cfg: Config, s: System, action: Action)
    requires s.trail != [] && s.stage == Free
    requires !action.BeginPromotion? && !action.BeginRollback?
    requires !action.BeginEvaluation? && !action.FinishEvaluation? && !action.BeginReview? && !action.FinishReview?
    ensures Do(cfg, s, action).stage == Free
  {
    hide Inspect, CandidateEvent, PromotionInputs, PromotionByGrant, PromotionById, RollbackByGrant, LastTx, TxMatches;
  }

  lemma PerformKeepsStage(cfg: Config, a: Authority, r: Request)
    requires a.base.trail != [] && AdmissionOk(cfg, a) && StageHeld(cfg, a)
    ensures StageHeld(cfg, Perform(cfg, a, r))
  {
    hide OnceScoped, Held, KeepsGrants, Perform, Do, Amounts, DoBeginPromotion;
    var b := Perform(cfg, a, r);
    PerformKeepsGrants(cfg, a, r);
    HeldStays(a, b);
    ScopeStays(cfg, a.base.log, b.base.log);
    AmountsTo(cfg, a, r);
    var step := Amounts(cfg, a, r);
    if step.Some? {
      if step.value.BeginPromotion? {
        PromotesTheAdmitted(cfg, a, r);
        BeginningIs(cfg, a.base, step.value.g, step.value.fingerprint, step.value.newId);
        BeginPromotionNeedsEvidence(cfg, a.base, step.value.g, step.value.fingerprint, step.value.newId);
      } else if step.value.AddCandidate? {
        AddingSparesStage(cfg, a.base, step.value.args);
      } else {
        OtherStepFollows(cfg, a.base, step.value);
      }
    }
  }

  lemma BeginningIs(cfg: Config, s: System, g: PromotionGrant, f: string, newId: string)
    requires s.trail != []
    ensures Do(cfg, s, BeginPromotion(g, f, newId)) == DoBeginPromotion(cfg, s, g, f, newId)
  {
    hide DoBeginPromotion;
  }

  lemma AddingSparesStage(cfg: Config, s: System, args: CandidateArgs)
    requires s.trail != []
    ensures var t := Do(cfg, s, AddCandidate(args)); t.stage == s.stage && t.leases == s.leases && t.trail == s.trail
  {
    hide Inspect, CandidateEvent;
  }

  lemma PromotesTheAdmitted(cfg: Config, a: Authority, r: Request)
    requires Amounts(cfg, a, r).Some? && Amounts(cfg, a, r).value.BeginPromotion?
    ensures r.Promote? && a.admitted.Some?
    ensures Amounts(cfg, a, r).value == BeginPromotion(a.admitted.value.g, a.admitted.value.f, r.newId)
  {
    hide Barred;
    BeginningIsBarred(cfg, a, r);
  }

  lemma BeginningIsBarred(cfg: Config, a: Authority, r: Request)
    ensures r.Other? && r.action.BeginPromotion? ==> Barred(cfg, a, r.action)
  {
  }

  /** A mark is an old one, or that of the promotion that has just moved HEAD. */
  lemma MarksComeFrom(cfg: Config, s: System, action: Action, id: string)
    requires Inv(cfg, s) && s.trail != [] && Marked(Do(cfg, s, action).leases, id)
    ensures var i := Do(cfg, s, action).leases[id].integration.value;
      || (Marked(s.leases, id) && s.leases[id].integration.value == i)
      || (s.stage.HeadMoved? && id == s.stage.g.lease && i.grant == s.stage.g.id && i.fingerprint == s.stage.f)
  {
    hide Inv, Do;
    if Marked(s.leases, id) {
      MarkStays(cfg, s, action, id);
    } else if action.MarkLease? {
      MarkingRecords(cfg, s, action.receipt, id);
    } else if action.SetLease? || action.CleanUp? {
      OthersMarkNothing(cfg, s, action, id);
    } else {
      LeasesStay(cfg, s, action);
    }
  }

  lemma MarkingRecords(cfg: Config, s: System, receipt: string, id: string)
    requires s.trail != [] && Marked(Do(cfg, s, MarkLease(receipt)).leases, id) && !Marked(s.leases, id)
    ensures var i := Do(cfg, s, MarkLease(receipt)).leases[id].integration.value;
      s.stage.HeadMoved? && id == s.stage.g.lease && i.grant == s.stage.g.id && i.fingerprint == s.stage.f
  {
  }

  lemma OthersMarkNothing(cfg: Config, s: System, action: Action, id: string)
    requires s.trail != [] && (action.SetLease? || action.CleanUp?) && Marked(Do(cfg, s, action).leases, id)
    ensures Marked(s.leases, id)
  {
  }

  lemma PerformKeepsMarks(cfg: Config, a: Authority, r: Request)
    requires a.base.trail != [] && Inv(cfg, a.base) && Custody(cfg, a.base)
    requires GrantsOk(a) && StageHeld(cfg, a) && MarksHeld(cfg, a)
    ensures MarksHeld(cfg, Perform(cfg, a, r))
  {
    hide Inv, Custody, OnceScoped, OnceGranted, Perform, Do, Amounts, StageHeld, KeepsGrants;
    var b := Perform(cfg, a, r);
    PerformKeepsGrants(cfg, a, r);
    AmountsTo(cfg, a, r);
    var step := Amounts(cfg, a, r);
    forall id | Marked(b.base.leases, id) ensures MarkHeld(cfg, b, id, b.base.leases[id].integration.value) {
      var i := b.base.leases[id].integration.value;
      if step.Some? {
        MarksComeFrom(cfg, a.base, step.value, id);
      }
      if !(Marked(a.base.leases, id) && a.base.leases[id].integration.value == i) {
        StageMarkHeld(cfg, a, i);
      }
      MarkStaysHeld(cfg, a, b, id, i);
    }
  }

  lemma StageMarkHeld(cfg: Config, a: Authority, i: Integration)
    requires Custody(cfg, a.base) && StageHeld(cfg, a) && a.base.stage.HeadMoved?
    requires i.grant == a.base.stage.g.id && i.fingerprint == a.base.stage.f
    ensures MarkHeld(cfg, a, a.base.stage.g.lease, i)
  {
    hide Found, LeaseBacked, OnceGranted, OnceScoped;
  }

  lemma MarkStaysHeld(cfg: Config, a: Authority, b: Authority, id: string, i: Integration)
    requires MarkHeld(cfg, a, id, i) && KeepsGrants(a, b) && a.base.log <= b.base.log
    ensures MarkHeld(cfg, b, id, i)
  {
    hide OnceGranted, OnceScoped, KeepsGrants, Held;
    HeldStays(a, b);
    GrantStays(cfg, a.base.log, b.base.log);
    ScopeStays(cfg, a.base.log, b.base.log);
    SameGrant(a, b, i.grant);
  }

  lemma SameGrant(a: Authority, b: Authority, id: string)
    requires KeepsGrants(a, b) && id in a.grants
    ensures id in b.grants && b.grants[id] == a.grants[id]
  {
  }

  /** Every request, granted or refused, keeps the campaign's invariants and what is known of its grants. */
  lemma PerformKeepsSound(cfg: Config, a: Authority, r: Request)
    requires a.base.trail != [] && Sound(cfg, a)
    ensures Sound(cfg, Perform(cfg, a, r))
  {
    hide Inv, Custody, DistinctReceipts, GrantsOk, AdmissionOk, StageHeld, MarksHeld, Perform, Do, Amounts, Inspect;
    PerformKeepsGrants(cfg, a, r);
    PerformKeepsAdmission(cfg, a, r);
    PerformKeepsStage(cfg, a, r);
    PerformKeepsMarks(cfg, a, r);
    PerformKeepsReceipts(cfg, a, r);
    AmountsTo(cfg, a, r);
    var step := Amounts(cfg, a, r);
    if step.Some? {
      StepKeepsInv(cfg, a.base, step.value);
      StepKeepsCustody(cfg, a.base, step.value);
    }
  }

  lemma {:induction false} AfterKeepsSound(cfg: Config, a: Authority, requests: seq<Request>)
    requires a.base.trail != [] && Sound(cfg, a)
    ensures Sound(cfg, After(cfg, a, requests))
  {
    hide Sound, Perform;
    if requests == [] {
    } else {
      AfterKeepsSound(cfg, a, requests[..|requests| - 1]);
      PerformKeepsSound(cfg, After(cfg, a, requests[..|requests| - 1]), requests[|requests| - 1]);
    }
  }

  lemma OpenedIsSound(cfg: Config, a: Authority)
    requires OpenedAuthority(cfg, a)
    ensures a.base.trail != [] && Sound(cfg, a)
  {
    hide Inv, Custody;
    OpenedHasInv(cfg, a.base);
    ReachableHasCustody(cfg, a.base, []);
    NothingYet(cfg);
  }

  lemma NothingYet(cfg: Config)
    ensures DistinctReceipts(Inspect(cfg, [CampaignOpened]))
  {
    assert [CampaignOpened][..0] == [];
  }

  lemma ReachableIsSound(cfg: Config, a: Authority, requests: seq<Request>)
    requires OpenedAuthority(cfg, a)
    ensures a.base.trail != [] && Sound(cfg, After(cfg, a, requests))
  {
    hide Sound;
    OpenedIsSound(cfg, a);
    AfterKeepsSound(cfg, a, requests);
  }

  // ---------- A promotion request from beginning to end ----------

  function OtherAll(actions: seq<Action>): (r: seq<Request>)
    ensures |r| == |actions| && forall i :: 0 <= i < |r| ==> r[i] == Other(actions[i])
  {
    seq(|actions|, i requires 0 <= i < |actions| => Other(actions[i]))
  }

  /** Consume the grant, be admitted, and begin. */
  function Taking(a: Attempt): seq<Request> {
    [Consume(a.g.id, a.f), Admit(a.g.id, a.f), Promote(a.newId)]
  }

  function EntrySteps(a: Attempt): seq<Request> {
    Taking(a) + OtherAll(Steps(a)[1..])
  }

  /** Actions that no grant and no lock stands in the way of. */
  predicate Plain(action: Action) {
    && !action.BeginPromotion? && !action.BeginRollback? && !action.Crash?
    && !action.FinishEvaluation? && !action.FinishReview?
  }

  /** The grant is recorded as it is, for this request or none yet, and its scope is the current one. */
  predicate EntryOpen(cfg: Config, x: Authority, a: Attempt) {
    && a.g.id in x.grants && x.grants[a.g.id] == a.g && Scoped(cfg, x.base.log, a.g)
    && (a.g.id in x.consumed ==> x.consumed[a.g.id] == a.f)
  }

  lemma PlainPerforms(cfg: Config, x: Authority, action: Action)
    requires x.base.trail != [] && Plain(action)
    ensures Perform(cfg, x, Other(action)) == x.(base := Do(cfg, x.base, action))
  {
    hide Do, Inspect;
  }

  lemma {:induction false} OthersRun(cfg: Config, x: Authority, actions: seq<Action>)
    requires x.base.trail != [] && forall i :: 0 <= i < |actions| ==> Plain(actions[i])
    ensures After(cfg, x, OtherAll(actions)) == x.(base := Run(cfg, x.base, actions))
  {
    hide Perform, Do, Plain;
    if actions == [] {
    } else {
      var n := |actions| - 1;
      OthersRun(cfg, x, actions[..n]);
      assert OtherAll(actions)[..n] == OtherAll(actions[..n]);
      PlainPerforms(cfg, After(cfg, x, OtherAll(actions[..n])), actions[n]);
    }
  }

  lemma TakingRuns(cfg: Config, x: Authority, a: Attempt)
    requires x.base.trail != []
    ensures After(cfg, x, Taking(a)) ==
      Perform(cfg, Perform(cfg, Perform(cfg, x, Consume(a.g.id, a.f)), Admit(a.g.id, a.f)), Promote(a.newId))
  {
    hide Perform;
    var steps := Taking(a);
    assert steps[..3] == steps && steps[..0] == [];
    AfterOneMore(cfg, x, steps, 0);
    AfterOneMore(cfg, x, steps, 1);
    AfterOneMore(cfg, x, steps, 2);
  }

  /** An open entry begins the promotion, a closed one changes nothing of the campaign. */
  lemma Takes(cfg: Config, x: Authority, a: Attempt)
    requires x.base.trail != [] && NobodyAtWork(x) && (a.g.id in x.grants ==> x.grants[a.g.id] == a.g)
    ensures var y := After(cfg, x, Taking(a));
      && y.admitted.None? && y.base == if EntryOpen(cfg, x, a) then Do(cfg, x.base, Steps(a)[0]) else x.base
  {
    hide Scoped, DoBeginPromotion, Do, After;
    TakingRuns(cfg, x, a);
    BeginningIs(cfg, x.base, a.g, a.f, a.newId);
  }

  lemma EntryRuns(cfg: Config, x: Authority, a: Attempt)
    requires x.base.trail != [] && NobodyAtWork(x) && (a.g.id in x.grants ==> x.grants[a.g.id] == a.g)
    ensures After(cfg, x, EntrySteps(a)).base == if EntryOpen(cfg, x, a) then Run(cfg, x.base, Steps(a)) else x.base
  {
    hide After, Run, Do, EntryOpen;
    var y := After(cfg, x, Taking(a));
    Takes(cfg, x, a);
    AfterComposes(cfg, x, Taking(a), OtherAll(Steps(a)[1..]));
    OthersRun(cfg, y, Steps(a)[1..]);
    if EntryOpen(cfg, x, a) {
      FirstThenRest(cfg, x.base, Steps(a));
    } else {
      RestOfNothing(cfg, x.base, a);
    }
  }

  lemma FirstThenRest(cfg: Config, s: System, actions: seq<Action>)
    requires s.trail != [] && actions != []
    ensures Run(cfg, s, actions) == Run(cfg, Do(cfg, s, actions[0]), actions[1..])
  {
    hide Do;
    RunsCompose(cfg, s, [actions[0]], actions[1..]);
    assert [actions[0]] + actions[1..] == actions;
    OneStep(cfg, s, actions[0]);
  }

  lemma OneStep(cfg: Config, s: System, action: Action)
    requires s.trail != []
    ensures Run(cfg, s, [action]) == Do(cfg, s, action)
  {
    hide Do;
    assert [action][..0] == [] && [action][..1] == [action];
    RunOneMore(cfg, s, [action], 0);
  }

  lemma RestOfNothing(cfg: Config, s: System, a: Attempt)
    requires s.trail != [] && s.stage == Free
    ensures Run(cfg, s, Steps(a)[1..]) == s
  {
    hide Do;
    var rest := Steps(a)[1..];
    FreeStepsDoNothing(cfg, s, a);
    assert rest[..4] == rest && rest[..0] == [];
    RunOneMore(cfg, s, rest, 0);
    RunOneMore(cfg, s, rest, 1);
    RunOneMore(cfg, s, rest, 2);
    RunOneMore(cfg, s, rest, 3);
  }

  /**
   What a request for a promotion needs, whatever happened before: a recorded grant that no other
   request has consumed, whose scope is the current one, evidence that stands and a lease that is
   ready.  Exactly then it completes.
   */
  lemma EntryExactly(cfg: Config, x: Authority, a: Attempt)
    requires x.base.trail != [] && Inv(cfg, x.base) && NobodyAtWork(x) && !HasPromotion(x.base.log)
    requires a.g.id in x.grants ==> x.grants[a.g.id] == a.g
    ensures HasPromotion(After(cfg, x, EntrySteps(a)).base.log) <==>
      EntryOpen(cfg, x, a) && Granted(cfg, x.base.log, a.g) && LeaseReady(x.base, a)
  {
    hide Inv, After, Run, EntryOpen, HasPromotion, Granted, LeaseReady, EntrySteps;
    EntryRuns(cfg, x, a);
    AttemptExactly(cfg, x.base, a);
  }

  // ---------- Crashes and retries ----------

  /** The request dies after its `k`-th step, or with `k == 5` between the two records of the last. */
  function DyingSteps(a: Attempt, k: nat): seq<Request>
    requires 1 <= k <= 5
  {
    Taking(a) + OtherAll(Steps(a)[1..if k <= 4 then k else 4])
      + (if k <= 4 then [] else [Other(FinishPromotion(a.receipt, true))]) + [Other(Crash)]
  }

  lemma DyingRuns(cfg: Config, x: Authority, a: Attempt, k: nat)
    requires x.base.trail != [] && NobodyAtWork(x) && EntryOpen(cfg, x, a) && 1 <= k <= 5
    ensures var y := After(cfg, x, DyingSteps(a, k)); y.base == Crashed(cfg, x.base, a, k) && NobodyAtWork(y)
  {
    hide After, Run, Do, EntryOpen;
    var n := if k <= 4 then k else 4;
    var first, middle := Taking(a), OtherAll(Steps(a)[1..n]);
    var last := if k <= 4 then [] else [Other(FinishPromotion(a.receipt, true))];
    var y := After(cfg, x, first);
    OpenIsScoped(cfg, x, a);
    Takes(cfg, x, a);
    AfterComposes(cfg, x, first, middle);
    OthersRun(cfg, y, Steps(a)[1..n]);
    PrefixFirstThenRest(cfg, x.base, Steps(a), n);
    var z := After(cfg, x, first + middle);
    AfterComposes(cfg, x, first + middle, last);
    if k <= 4 {
      AfterNothing(cfg, z);
    } else {
      AfterOne(cfg, z, last[0]);
      PlainPerforms(cfg, z, last[0].action);
      FinishingIs(cfg, z.base, a.receipt, true);
    }
    AfterComposes(cfg, x, first + middle + last, [Other(Crash)]);
    AfterOne(cfg, After(cfg, x, first + middle + last), Other(Crash));
    CrashPerforms(cfg, After(cfg, x, first + middle + last));
  }

  lemma PrefixFirstThenRest(cfg: Config, s: System, actions: seq<Action>, n: nat)
    requires s.trail != [] && 1 <= n <= |actions|
    ensures Run(cfg, s, actions[..n]) == Run(cfg, Do(cfg, s, actions[0]), actions[1..n])
  {
    hide Do, Run;
    FirstThenRest(cfg, s, actions[..n]);
    assert actions[..n][1..] == actions[1..n];
  }

  lemma AfterNothing(cfg: Config, x: Authority)
    requires x.base.trail != []
    ensures After(cfg, x, []) == x
  {
  }

  lemma AfterOne(cfg: Config, x: Authority, r: Request)
    requires x.base.trail != []
    ensures After(cfg, x, [r]) == Perform(cfg, x, r)
  {
    hide Perform;
    assert [r][..0] == [] && [r][..1] == [r];
    AfterOneMore(cfg, x, [r], 0);
  }

  lemma FinishingIs(cfg: Config, s: System, receipt: string, dies: bool)
    requires s.trail != []
    ensures Do(cfg, s, FinishPromotion(receipt, dies)) == DoFinishPromotion(cfg, s, receipt, dies)
  {
    hide DoFinishPromotion;
  }

  lemma CrashPerforms(cfg: Config, x: Authority)
    requires x.base.trail != []
    ensures Perform(cfg, x, Other(Crash)) == x.(base := x.base.(stage := Free), admitted := None)
  {
    hide Inspect;
  }

  /**
   A request that died after its lease was marked, with any requests before it is made again:
   the repetition completes if and only if in the meantime the workspace was not cleaned up, no
   candidate was added, and its candidate was neither evaluated nor reviewed again.
   */
  lemma EntryRetryAfterInterference(cfg: Config, x: Authority, a: Attempt, k: nat, between: seq<Request>, b: Attempt)
    requires x.base.trail != [] && Sound(cfg, x) && NobodyAtWork(x)
    requires EntryOpen(cfg, x, a) && Granted(cfg, x.base.log, a.g) && LeaseReady(x.base, a) && 4 <= k <= 5
    requires b.g == a.g && b.f == a.f
    requires var u := After(cfg, After(cfg, x, DyingSteps(a, k)), between);
      NobodyAtWork(u) && !HasPromotion(u.base.log)
    ensures var u := After(cfg, After(cfg, x, DyingSteps(a, k)), between);
      && a.g.lease in u.base.leases
      && (HasPromotion(After(cfg, u, EntrySteps(b)).base.log) <==>
            && u.base.leases[a.g.lease].state == LeaseIntegrated
            && CandidateEvents(u.base.log) == CandidateEvents(x.base.log)
            && NoLaterEvidence(cfg, x.base.log, u.base.log, a.g.candidate))
  {
    hide After, Run, Crashed, Granted, LeaseReady, HasPromotion, CandidateEvents, EntrySteps, DyingSteps, Steps,
      NoLaterEvidence, Sound, Scoped, EntryOpen;
    var y := After(cfg, x, DyingSteps(a, k));
    var u := After(cfg, y, between);
    SoundParts(cfg, x);
    DyingRuns(cfg, x, a, k);
    AfterKeepsSound(cfg, x, DyingSteps(a, k));
    AfterKeepsSound(cfg, y, between);
    SoundParts(cfg, u);
    var actions := EveryEntryRunIsARun(cfg, y, between);
    BetweenRun(cfg, x.base, a, k, actions);
    RunGrows(cfg, y.base, actions);
    CrashGrows(cfg, x.base, a, k);
    StillHeld(cfg, x, a, u, k, between);
    ScopeAge(cfg, x.base.log, u.base.log, a.g) by { OpenIsScoped(cfg, x, a); }
    OpenOrOvertaken(cfg, u, b);
    EntryExactly(cfg, u, b);
  }

  lemma SoundParts(cfg: Config, x: Authority)
    requires Sound(cfg, x)
    ensures Inv(cfg, x.base) && Custody(cfg, x.base) && DistinctReceipts(Inspect(cfg, x.base.log)) && GrantsOk(x)
    ensures AdmissionOk(cfg, x) && StageHeld(cfg, x) && MarksHeld(cfg, x)
  {
  }

  lemma OpenIsScoped(cfg: Config, x: Authority, a: Attempt)
    requires EntryOpen(cfg, x, a)
    ensures Scoped(cfg, x.base.log, a.g) && a.g.id in x.grants && x.grants[a.g.id] == a.g
  {
  }

  lemma {:induction false} AfterKeepsGrants(cfg: Config, a: Authority, requests: seq<Request>)
    requires a.base.trail != []
    ensures KeepsGrants(a, After(cfg, a, requests))
  {
    hide Perform;
    if requests == [] {
    } else {
      AfterKeepsGrants(cfg, a, requests[..|requests| - 1]);
      PerformKeepsGrants(cfg, After(cfg, a, requests[..|requests| - 1]), requests[|requests| - 1]);
    }
  }

  /** The grant that was consumed for this request stays so. */
  lemma StillHeld(cfg: Config, x: Authority, a: Attempt, u: Authority, k: nat, between: seq<Request>)
    requires x.base.trail != [] && NobodyAtWork(x) && EntryOpen(cfg, x, a) && 1 <= k <= 5
    requires u == After(cfg, After(cfg, x, DyingSteps(a, k)), between)
    ensures Held(u, a.g, a.f)
  {
    hide After, KeepsGrants, EntryOpen, Scoped;
    var rest := OtherAll(Steps(a)[1..if k <= 4 then k else 4])
      + (if k <= 4 then [] else [Other(FinishPromotion(a.receipt, true))]) + [Other(Crash)];
    assert DyingSteps(a, k) == Taking(a) + rest;
    AfterComposes(cfg, x, Taking(a), rest);
    var taken := After(cfg, x, Taking(a));
    TakingHolds(cfg, x, a);
    AfterKeepsGrants(cfg, taken, rest);
    HeldStays(taken, After(cfg, x, DyingSteps(a, k)));
    AfterKeepsGrants(cfg, After(cfg, x, DyingSteps(a, k)), between);
    HeldStays(After(cfg, x, DyingSteps(a, k)), u);
  }

  lemma TakingHolds(cfg: Config, x: Authority, a: Attempt)
    requires x.base.trail != [] && NobodyAtWork(x) && EntryOpen(cfg, x, a)
    ensures Held(After(cfg, x, Taking(a)), a.g, a.f)
  {
    hide Scoped, DoBeginPromotion, After;
    TakingRuns(cfg, x, a);
  }

  lemma OpenOrOvertaken(cfg: Config, u: Authority, b: Attempt)
    requires Held(u, b.g, b.f)
    ensures EntryOpen(cfg, u, b) <==> Scoped(cfg, u.base.log, b.g)
    ensures b.g.id in u.grants && u.grants[b.g.id] == b.g
  {
    hide Scoped;
  }
}
