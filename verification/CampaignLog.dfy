/**
 What a campaign's log says on its own: each event is backed by the events before it.
 The predicates here look at raw events, never at the folded snapshot; the lemmas
 connect the two.
 */
module CampaignLog {
  import opened Wrappers
  import opened Campaign

  function CandidateEvents(log: seq<Event>): nat {
    if log == [] then 0
    else
      var last := log[|log| - 1];
      CandidateEvents(log[..|log| - 1]) + (if last.CandidateAdded? || last.CandidateRejected? then 1 else 0)
  }

  // ---------- Backed events ----------

  ghost predicate AdmittedIn(log: seq<Event>, id: string) {
    exists c :: CandidateAdded(c) in log && c.id == id && c.outcome == Admitted
  }

  /** The review at position `j` approves, without dissent, the clean pass recorded at position `i`. */
  ghost predicate Approval(log: seq<Event>, i: nat, j: nat, candidate: string) {
    && i < j < |log| && log[i].EvaluationCompleted? && log[j].ReviewCompleted?
    && log[i].e.candidate == candidate && log[i].e.outcome == CompletedPass && !log[i].e.rewardHack
    && AdmittedIn(log[..i], candidate)
    && log[j].r.candidate == candidate && log[j].r.evaluation == log[i].e.id
    && log[j].r.outcome == Approve && log[j].r.dissent == []
    && log[j].r.denominator == CandidateEvents(log[..j])
  }

  /** Some approval still covers every candidate event of the log. */
  ghost predicate Justified(log: seq<Event>, candidate: string) {
    exists i: nat, j: nat :: Approval(log, i, j, candidate) && log[j].r.denominator == CandidateEvents(log)
  }

  predicate PromotionEvent(e: Event) {
    e.PromotionEffectApplied? || e.PromotionCompleted?
  }

  predicate RollbackEvent(e: Event) {
    e.RollbackEffectApplied? || e.RollbackCompleted?
  }

  predicate Rolls(b: Rollback, p: Promotion) {
    b.promotion == p.id && b.predecessor == p.predecessor && b.replaced == p.accepted
  }

  /** A new node of the genealogy: unused id, open campaign, and a parent exactly when it is derived work. */
  ghost predicate BackedCandidate(log: seq<Event>, c: Candidate) {
    && (forall q :: q in log && q.CandidateAdded? ==> q.c.id != c.id)
    && !HasPromotion(log)
    && (c.action == Original <==> c.parent.None?)
    && (c.parent.Some? ==> exists q :: q in log && q.CandidateAdded? && q.c.id == c.parent.value)
  }

  ghost predicate BackedEvaluation(log: seq<Event>, v: Evaluation) {
    AdmittedIn(log, v.candidate) && (v.nonImproving <==> v.outcome != CompletedPass || v.rewardHack)
  }

  /** The review at the end of `log` judges the evaluation at position `i`. */
  ghost predicate ReviewOf(log: seq<Event>, i: nat, r: Review) {
    && i < |log| && log[i].EvaluationCompleted? && log[i].e.id == r.evaluation && log[i].e.candidate == r.candidate
    && (r.outcome == Approve ==> !log[i].e.nonImproving && r.dissent == [] && r.denominator == CandidateEvents(log))
  }

  ghost predicate BackedReview(log: seq<Event>, r: Review) {
    exists i: nat :: ReviewOf(log, i, r)
  }

  ghost predicate BackedEffect(log: seq<Event>, p: Promotion) {
    && Justified(log, p.candidate) && p.accepted != p.predecessor && p.receipt.None?
    && forall q :: q in log ==> !PromotionEvent(q)
  }

  ghost predicate BackedCompletion(log: seq<Event>, p: Promotion) {
    && Justified(log, p.candidate) && p.accepted != p.predecessor && p.receipt.Some?
    && (forall q :: q in log ==> !q.PromotionCompleted?)
    && (exists q :: q in log && q.PromotionEffectApplied? && SamePromotion(q.p, p))
  }

  predicate SamePromotion(q: Promotion, p: Promotion) {
    q.id == p.id && q.grant == p.grant && q.accepted == p.accepted && q.predecessor == p.predecessor
      && q.integrationReceipt == p.integrationReceipt
  }

  ghost predicate RollsBackCompleted(log: seq<Event>, b: Rollback) {
    exists q :: q in log && q.PromotionCompleted? && Rolls(b, q.p)
  }

  ghost predicate BackedRollbackEffect(log: seq<Event>, b: Rollback) {
    && b.receipt.None? && RollsBackCompleted(log, b)
    && forall q :: q in log && RollbackEvent(q) ==> q.b.grant != b.grant
  }

  ghost predicate BackedRollback(log: seq<Event>, b: Rollback) {
    && b.receipt.Some? && RollsBackCompleted(log, b)
    && (exists q :: q in log && q.RollbackEffectApplied? && q.b.id == b.id && q.b.grant == b.grant)
    && forall q :: q in log && q.RollbackCompleted? ==> q.b.grant != b.grant
  }

  /** `e` may follow `log`. */
  ghost predicate Backed(log: seq<Event>, e: Event) {
    match e
    case CandidateAdded(c) => BackedCandidate(log, c)
    case EvaluationCompleted(v) => BackedEvaluation(log, v)
    case ReviewCompleted(r) => BackedReview(log, r)
    case PromotionEffectApplied(p) => BackedEffect(log, p)
    case PromotionCompleted(p) => BackedCompletion(log, p)
    case RollbackEffectApplied(b) => BackedRollbackEffect(log, b)
    case RollbackCompleted(b) => BackedRollback(log, b)
    case _ => true
  }

  ghost predicate AllBacked(log: seq<Event>) {
    forall k :: 0 <= k < |log| ==> Backed(log[..k], log[k])
  }

  lemma AllBackedExtends(log: seq<Event>, e: Event)
    requires AllBacked(log) && Backed(log, e)
    ensures AllBacked(log + [e])
  {
    hide Backed;
    forall k | 0 <= k < |log + [e]| ensures Backed((log + [e])[..k], (log + [e])[k]) {
      if k < |log| {
        assert (log + [e])[..k] == log[..k];
      } else {
        assert (log + [e])[..k] == log;
      }
    }
  }

  lemma AllBackedPrefix(log: seq<Event>, n: nat)
    requires AllBacked(log) && n <= |log|
    ensures AllBacked(log[..n])
  {
    hide Backed;
    forall k | 0 <= k < n ensures Backed(log[..n][..k], log[..n][k]) {
      assert log[..n][..k] == log[..k];
    }
  }

  lemma LastIsBacked(log: seq<Event>) returns (before: seq<Event>, e: Event)
    requires AllBacked(log) && log != []
    ensures before == log[..|log| - 1] && e == log[|log| - 1] && log == before + [e]
    ensures AllBacked(before) && Backed(before, e)
    ensures forall q :: q in log <==> q in before || q == e
  {
    hide Backed;
    before, e := log[..|log| - 1], log[|log| - 1];
    AllBackedPrefix(log, |log| - 1);
    assert log == before + [e];
  }

  // ---------- The snapshot against the raw events ----------

  lemma {:induction false} InspectEvidence(cfg: Config, log: seq<Event>)
    ensures var s := Inspect(cfg, log);
      && |s.candidates| == CandidateEvents(log)
      && (forall c :: c in s.candidates && c.outcome != Rejected ==> CandidateAdded(c) in log)
      && (forall c :: CandidateAdded(c) in log ==> c in s.candidates)
      && (forall e :: e in s.evaluations ==> EvaluationCompleted(e) in log)
      && (forall r :: r in s.reviews ==> ReviewCompleted(r) in log)
  {
    if log == [] {
    } else {
      InspectEvidence(cfg, log[..|log| - 1]);
      assert log == log[..|log| - 1] + [log[|log| - 1]];
    }
  }

  lemma {:induction false} PutRollbackKeeps(bs: seq<Rollback>, b: Rollback, q: Rollback)
    requires q in bs && q.grant != b.grant
    ensures q in PutRollback(bs, b)
  {
    if bs[0] == q {
    } else {
      PutRollbackKeeps(bs[1..], b, q);
    }
  }

  ghost predicate PromotedUnder(ps: seq<Promotion>, grant: string) {
    exists p :: p in ps && p.grant == grant
  }

  ghost predicate RolledBackUnder(bs: seq<Rollback>, grant: string) {
    exists b :: b in bs && b.grant == grant
  }

  /** Every promotion in the snapshot is an event's, and every event's grant is in the snapshot. */
  ghost predicate PromotionsAgree(log: seq<Event>, ps: seq<Promotion>) {
    && (forall p :: p in ps ==> (if p.receipt.Some? then PromotionCompleted(p) else PromotionEffectApplied(p)) in log)
    && (forall e :: e in log && PromotionEvent(e) ==> PromotedUnder(ps, e.p.grant))
    && (forall p :: PromotionCompleted(p) in log ==> p in ps)
    && |ps| <= 1
  }

  lemma PutIsAlone(log: seq<Event>, ps: seq<Promotion>, e: Event)
    requires PromotionsAgree(log, ps) && PromotionEvent(e)
    requires if e.PromotionEffectApplied? then forall q :: q in log ==> !PromotionEvent(q)
             else exists q :: q in log && PromotionEvent(q) && q.p.grant == e.p.grant
    ensures PutPromotion(ps, e.p) == [e.p]
  {
    if ps == [] {
    } else {
      var p := ps[0];
      assert (if p.receipt.Some? then PromotionCompleted(p) else PromotionEffectApplied(p)) in log;
      assert forall q :: q in ps ==> q == p;
    }
  }

  /** Once a promotion has completed it is the only one of the snapshot. */
  lemma OnlyCompleted(log: seq<Event>, ps: seq<Promotion>, completed: Promotion, p: Promotion)
    requires PromotionsAgree(log, ps) && PromotionCompleted(completed) in log && p in ps
    ensures p == completed
  {
    assert completed in ps;
  }

  lemma RollbackEffectIsBacked(log: seq<Event>, p: Promotion, record: Rollback)
    requires PromotionCompleted(p) in log && Rolls(record, p) && record.receipt.None?
    requires forall q :: q in log && RollbackEvent(q) ==> q.b.grant != record.grant
    ensures Backed(log, RollbackEffectApplied(record))
  {
    var e := PromotionCompleted(p);
    assert e.PromotionCompleted? && Rolls(record, e.p);
  }

  lemma RollbackIsBacked(log: seq<Event>, p: Promotion, effect: Rollback, record: Rollback)
    requires PromotionCompleted(p) in log && Rolls(record, p) && record.receipt.Some?
    requires RollbackEffectApplied(effect) in log && effect.id == record.id && effect.grant == record.grant
    requires forall q :: q in log && q.RollbackCompleted? ==> q.b.grant != record.grant
    ensures Backed(log, RollbackCompleted(record))
  {
    var e, a := PromotionCompleted(p), RollbackEffectApplied(effect);
    assert e.PromotionCompleted? && Rolls(record, e.p);
    assert a.RollbackEffectApplied? && a.b.id == record.id && a.b.grant == record.grant;
  }

  lemma PutPromotionAgrees(log: seq<Event>, ps: seq<Promotion>, e: Event)
    requires PromotionsAgree(log, ps) && PromotionEvent(e)
    requires if e.PromotionCompleted? then e.p.receipt.Some? else e.p.receipt.None?
    requires if e.PromotionEffectApplied? then forall q :: q in log ==> !PromotionEvent(q)
             else
               && (forall q :: q in log ==> !q.PromotionCompleted?)
               && exists q :: q in log && PromotionEvent(q) && q.p.grant == e.p.grant
    ensures PromotionsAgree(log + [e], PutPromotion(ps, e.p))
  {
    assert PutPromotion(ps, e.p) == [e.p] by { PutIsAlone(log, ps, e); }
    hide PutPromotion;
    assert forall q :: q in log + [e] ==> q in log || q == e;
  }

  lemma FoldPromotions(cfg: Config, s: Snapshot, log: seq<Event>, e: Event)
    requires PromotionsAgree(log, s.promotions) && Backed(log, e)
    ensures PromotionsAgree(log + [e], ApplyEvent(cfg, s, e).promotions)
  {
    hide BackedReview, BackedCandidate, BackedEvaluation, BackedRollbackEffect, BackedRollback, Justified;
    if PromotionEvent(e) {
      hide PromotionsAgree;
      assert e.PromotionEffectApplied? ==> e.p.(receipt := None) == e.p;
      PutPromotionAgrees(log, s.promotions, e);
    } else {
      hide Backed;
      assert forall q :: q in log + [e] <==> q in log || q == e;
      assert ApplyEvent(cfg, s, e).promotions == s.promotions;
    }
  }

  lemma {:induction false} InspectPromotions(cfg: Config, log: seq<Event>)
    requires AllBacked(log)
    ensures PromotionsAgree(log, Inspect(cfg, log).promotions)
  {
    if log == [] {
    } else {
      var before, e := LastIsBacked(log);
      hide Backed, AllBacked, ApplyEvent, PromotionsAgree;
      InspectPromotions(cfg, before);
      FoldPromotions(cfg, Inspect(cfg, before), before, e);
    }
  }

  ghost predicate RollbacksAgree(log: seq<Event>, bs: seq<Rollback>) {
    && (forall b :: b in bs ==> (if b.receipt.Some? then RollbackCompleted(b) else RollbackEffectApplied(b)) in log)
    && (forall e :: e in log && RollbackEvent(e) ==> RolledBackUnder(bs, e.b.grant))
    && (forall b :: RollbackCompleted(b) in log ==> b in bs)
    && DistinctGrants(bs)
  }

  predicate DistinctGrants(bs: seq<Rollback>) {
    forall i, j :: 0 <= i < j < |bs| ==> bs[i].grant != bs[j].grant
  }

  lemma {:induction false} PutRollbackDistinct(bs: seq<Rollback>, b: Rollback)
    requires DistinctGrants(bs)
    ensures DistinctGrants(PutRollback(bs, b))
  {
    if bs == [] || bs[0].grant == b.grant {
    } else {
      var rest := PutRollback(bs[1..], b);
      PutRollbackDistinct(bs[1..], b);
      forall j | 0 <= j < |rest| ensures rest[j].grant != bs[0].grant {
        assert rest[j] in rest;
      }
    }
  }

  lemma PutRollbackAgrees(log: seq<Event>, bs: seq<Rollback>, e: Event)
    requires RollbacksAgree(log, bs) && RollbackEvent(e)
    requires if e.RollbackCompleted? then e.b.receipt.Some? else e.b.receipt.None?
    requires forall q :: q in log && q.RollbackCompleted? ==> q.b.grant != e.b.grant
    ensures RollbacksAgree(log + [e], PutRollback(bs, e.b))
  {
    var put := PutRollback(bs, e.b);
    assert e.b in put;
    PutRollbackDistinct(bs, e.b);
    forall b | b in bs && b.grant != e.b.grant ensures b in put {
      PutRollbackKeeps(bs, e.b, b);
    }
    hide PutRollback;
    assert forall q :: q in log + [e] ==> q in log || q == e;
  }

  lemma FoldRollbacks(cfg: Config, s: Snapshot, log: seq<Event>, e: Event)
    requires RollbacksAgree(log, s.rollbacks) && Backed(log, e)
    ensures RollbacksAgree(log + [e], ApplyEvent(cfg, s, e).rollbacks)
  {
    hide BackedReview, BackedCandidate, BackedEvaluation, BackedEffect, BackedCompletion, RollsBackCompleted;
    if RollbackEvent(e) {
      hide RollbacksAgree;
      assert e.RollbackEffectApplied? ==> e.b.(receipt := None) == e.b;
      PutRollbackAgrees(log, s.rollbacks, e);
    } else {
      hide Backed;
      assert forall q :: q in log + [e] <==> q in log || q == e;
      assert ApplyEvent(cfg, s, e).rollbacks == s.rollbacks;
    }
  }

  lemma {:induction false} InspectRollbacks(cfg: Config, log: seq<Event>)
    requires AllBacked(log)
    ensures RollbacksAgree(log, Inspect(cfg, log).rollbacks)
  {
    if log == [] {
    } else {
      var before, e := LastIsBacked(log);
      hide Backed, AllBacked, ApplyEvent, RollbacksAgree;
      InspectRollbacks(cfg, before);
      FoldRollbacks(cfg, Inspect(cfg, before), before, e);
    }
  }

  /** A completed event of an entirely backed log carries its receipt. */
  lemma CompletedHasReceipt(log: seq<Event>, e: Event)
    requires AllBacked(log) && e in log
    ensures e.PromotionCompleted? ==> e.p.receipt.Some?
    ensures e.RollbackCompleted? ==>
      e.b.receipt.Some? && exists q :: q in log && q.PromotionCompleted? && Rolls(e.b, q.p)
  {
    hide Justified, BackedEvaluation, BackedReview, BackedEffect, BackedRollbackEffect;
    var k :| 0 <= k < |log| && log[k] == e;
    assert Backed(log[..k], e);
  }

  ghost predicate HasRollback(log: seq<Event>) {
    exists e :: e in log && e.RollbackCompleted?
  }

  ghost predicate HasPromotion(log: seq<Event>) {
    exists e :: e in log && e.PromotionCompleted?
  }

  /** The folded state is what the completion events say. */
  lemma StateOfLog(cfg: Config, log: seq<Event>)
    requires AllBacked(log)
    ensures StateOf(Inspect(cfg, log)) == if HasRollback(log) then RolledBack else if HasPromotion(log) then Promoted
      else Open
    ensures HasRollback(log) ==> HasPromotion(log)
  {
    InspectPromotions(cfg, log);
    InspectRollbacks(cfg, log);
    var s := Inspect(cfg, log);
    hide AllBacked, Inspect;
    if e :| e in log && e.RollbackCompleted? {
      CompletedHasReceipt(log, e);
      assert RollbackCompleted(e.b) in log;
    } else {
      assert forall b :: b in s.rollbacks && b.receipt.Some? ==> RollbackCompleted(b) in log;
    }
    if e :| e in log && e.PromotionCompleted? {
      CompletedHasReceipt(log, e);
      assert PromotionCompleted(e.p) in log;
    } else {
      assert forall p :: p in s.promotions && p.receipt.Some? ==> PromotionCompleted(p) in log;
    }
  }

  function Rank(state: CampaignState): nat {
    match state case Open => 0 case Promoted => 1 case RolledBack => 2
  }

  /** The folded state only ever goes from open to promoted to rolled back, and rolled back means promoted before. */
  lemma StateOnlyAdvances(cfg: Config, log: seq<Event>, n: nat)
    requires AllBacked(log) && n <= |log|
    ensures Rank(StateOf(Inspect(cfg, log[..n]))) <= Rank(StateOf(Inspect(cfg, log)))
    ensures StateOf(Inspect(cfg, log)) == RolledBack ==>
      exists k :: 0 <= k < |log| && StateOf(Inspect(cfg, log[..k])) == Promoted
  {
    AllBackedPrefix(log, n);
    StateOfLog(cfg, log);
    StateOfLog(cfg, log[..n]);
    hide Inspect, StateOf;
    if StateOf(Inspect(cfg, log)) == RolledBack {
      var k := FirstRollback(cfg, log);
    }
  }

  /** A log without rollbacks gets one only after a promotion completed. */
  lemma RollbackFollowsPromotion(before: seq<Event>, last: Event)
    requires Backed(before, last) && HasRollback(before + [last]) && !HasRollback(before)
    ensures HasPromotion(before)
  {
    var e :| e in before + [last] && e.RollbackCompleted?;
    assert e == last;
    assert RollsBackCompleted(before, last.b) by { hide HasPromotion, HasRollback; }
    hide Backed;
  }

  lemma {:induction false} FirstRollback(cfg: Config, log: seq<Event>) returns (k: nat)
    requires AllBacked(log) && HasRollback(log)
    ensures k < |log| && StateOf(Inspect(cfg, log[..k])) == Promoted
  {
    hide *;
    RolledBackIsNotEmpty(log);
    k := |log| - 1;
    var before, last := LastIsBacked(log);
    StateOfLog(cfg, before);
    if HasRollback(before) {
      var j := FirstRollback(cfg, before);
      assert before[..j] == log[..j];
      k := j;
    } else {
      RollbackFollowsPromotion(before, last);
    }
  }

  lemma RolledBackIsNotEmpty(log: seq<Event>)
    requires HasRollback(log)
    ensures log != []
  {
  }

  /** At most one promotion takes effect and at most one completes, whatever the grants. */
  lemma AtMostOnePromotion(log: seq<Event>, i: nat, j: nat)
    requires AllBacked(log) && i < |log| && j < |log|
    ensures log[i].PromotionEffectApplied? && log[j].PromotionEffectApplied? ==> i == j
    ensures log[i].PromotionCompleted? && log[j].PromotionCompleted? ==> i == j
    ensures log[i].RollbackCompleted? && log[j].RollbackCompleted? && log[i].b.grant == log[j].b.grant ==> i == j
  {
    assert Backed(log[..i], log[i]) && Backed(log[..j], log[j]);
    hide AllBacked, Justified, BackedEvaluation, BackedReview, RollsBackCompleted;
    if i < j {
      assert log[i] == log[..j][i] && log[i] in log[..j];
    } else if j < i {
      assert log[j] == log[..i][j] && log[j] in log[..i];
    }
  }

  /**
   A grant's approval goes stale at the next candidate event: none lies between an approval and the
   promotion it carries.
   */
  lemma NoCandidateSinceApproval(log: seq<Event>, k: nat)
    requires AllBacked(log) && k < |log| && log[k].PromotionCompleted?
    ensures exists i: nat, j: nat :: Approval(log[..k], i, j, log[k].p.candidate)
              && forall m :: j <= m < k ==> !log[m].CandidateAdded? && !log[m].CandidateRejected?
  {
    var before := log[..k];
    assert Backed(before, log[k]);
    assert Justified(before, log[k].p.candidate);
    hide AllBacked, Backed, CandidateEvents;
    var i: nat, j: nat :| Approval(before, i, j, log[k].p.candidate)
      && before[j].r.denominator == CandidateEvents(before);
    assert CandidateEvents(before[..j]) == CandidateEvents(before);
    hide Approval, Justified;
    forall m | j <= m < k ensures !log[m].CandidateAdded? && !log[m].CandidateRejected? {
      NoneBetween(before, j, m);
    }
  }

  lemma NoneBetween(log: seq<Event>, j: nat, m: nat)
    requires j <= m < |log| && CandidateEvents(log[..j]) == CandidateEvents(log)
    ensures !log[m].CandidateAdded? && !log[m].CandidateRejected?
  {
    CandidateEventsGrow(log, j, m);
    CandidateEventsGrow(log, m + 1, |log|);
    assert log[..|log|] == log;
    assert log[..m + 1][..m] == log[..m];
  }

  lemma {:induction false} CandidateEventsGrow(log: seq<Event>, i: nat, j: nat)
    requires i <= j <= |log|
    ensures CandidateEvents(log[..i]) <= CandidateEvents(log[..j])
    decreases j
  {
    if i == j {
    } else {
      CandidateEventsGrow(log, i, j - 1);
      assert log[..j][..j - 1] == log[..j - 1];
    }
  }
}
