/**
 The safety of every run of a campaign: what holds of the log, of HEAD, of the leases and of
 the operation in progress after any sequence of steps, crashes included.
 */
module CampaignRuns {
  import opened Wrappers
  import opened Campaign
  import opened CampaignLog
  import opened CampaignSystem

  // ---------- The invariant ----------

  ghost predicate FlightOk(log: seq<Event>, f: Flight) {
    match f
    case EvaluationFlight(c, _) => AdmittedIn(log, c.id)
    case ReviewFlight(c, e, _, _, _) => EvaluationCompleted(e) in log && e.candidate == c.id
  }

  ghost predicate FlightsOk(log: seq<Event>, flights: set<Flight>) {
    forall f :: f in flights ==> FlightOk(log, f)
  }

  /** HEAD is the frozen revision, then one other revision, then the frozen revision again. */
  predicate TrailOk(cfg: Config, trail: seq<string>) {
    && 1 <= |trail| <= 3 && trail[0] == cfg.accepted
    && (|trail| >= 2 ==> trail[1] != cfg.accepted)
    && (|trail| == 3 ==> trail[2] == cfg.accepted)
  }

  predicate Marked(leases: map<string, Lease>, id: string) {
    id in leases && leases[id].integration.Some?
  }

  ghost predicate MarkedFor(leases: map<string, Lease>, grant: string) {
    exists id :: Marked(leases, id) && leases[id].integration.value.grant == grant
  }

  /** At most one lease was ever integrated, and its receipt names the revision HEAD moved to. */
  ghost predicate LeasesOk(trail: seq<string>, leases: map<string, Lease>) {
    && (forall id :: Marked(leases, id) ==> |trail| >= 2 && leases[id].integration.value.accepted == trail[1])
    && (forall id, other :: Marked(leases, id) && Marked(leases, other) ==> id == other)
    && (forall id :: id in leases && leases[id].state == LeaseIntegrated ==> Marked(leases, id))
  }

  /** Every promotion in the log is the integrated lease's; every rollback follows the restored HEAD. */
  ghost predicate EventOk(cfg: Config, trail: seq<string>, leases: map<string, Lease>, e: Event) {
    && (PromotionEvent(e) ==>
        |trail| >= 2 && e.p.predecessor == cfg.accepted && e.p.accepted == trail[1] && MarkedFor(leases, e.p.grant))
    && (RollbackEvent(e) ==> |trail| == 3)
  }

  ghost predicate EventsOk(cfg: Config, log: seq<Event>, trail: seq<string>, leases: map<string, Lease>) {
    forall e :: e in log ==> EventOk(cfg, trail, leases, e)
  }

  ghost predicate StageOk(cfg: Config, log: seq<Event>, trail: seq<string>, leases: map<string, Lease>, stage: Stage) {
    match stage
    case Free => true
    case Promoting(g, _, _) => g.predecessor == cfg.accepted && !HasPromotion(log)
    case Committed(g, _, _, commit) =>
      && g.predecessor == cfg.accepted && !HasPromotion(log) && |trail| == 1 && commit != cfg.accepted
      && g.lease in leases
    case HeadMoved(g, _, _, commit) =>
      && g.predecessor == cfg.accepted && !HasPromotion(log) && |trail| == 2 && commit == trail[1] && g.lease in leases
      && forall id :: !Marked(leases, id)
    case Merged(g, _, _, i) =>
      && g.predecessor == cfg.accepted && !HasPromotion(log) && |trail| == 2 && i.accepted == trail[1]
      && i.grant == g.id
      && MarkedFor(leases, g.id)
    case RollingBack(_, _, _, p) => PromotionCompleted(p) in log
    case RollbackLogged(_, _, _, p) => PromotionCompleted(p) in log && |trail| == 2
    case HeadRestored(_, _, _, p) => PromotionCompleted(p) in log && |trail| == 3
    case Restored(_, _, _, p) => PromotionCompleted(p) in log && |trail| == 3
  }

  ghost predicate Inv(cfg: Config, s: System) {
    && AllBacked(s.log) && FlightsOk(s.log, s.flights)
    && TrailOk(cfg, s.trail) && LeasesOk(s.trail, s.leases) && EventsOk(cfg, s.log, s.trail, s.leases)
    && (|s.trail| == 3 ==> HasPromotion(s.log))
    && (forall f :: f in s.integrations ==> s.integrations[f].2 != cfg.accepted)
    && StageOk(cfg, s.log, s.trail, s.leases, s.stage)
  }

  // ---------- Appending ----------

  predicate Quiet(e: Event) {
    !PromotionEvent(e) && !RollbackEvent(e)
  }

  /** What holds of a log still holds when a quiet event follows. */
  lemma QuietKeepsInv(cfg: Config, s: System, e: Event, flights: set<Flight>)
    requires Inv(cfg, s) && Quiet(e) && Backed(s.log, e)
    requires FlightsOk(s.log, flights)
    ensures Inv(cfg, Append(s, e).(flights := flights))
  {
    AllBackedExtends(s.log, e);
    hide AllBacked, Backed;
    Grows(s.log, e);
  }

  lemma Grows(log: seq<Event>, e: Event)
    ensures forall q :: q in log + [e] <==> q in log || q == e
    ensures HasPromotion(log + [e]) <==> HasPromotion(log) || e.PromotionCompleted?
    ensures forall fs :: FlightsOk(log, fs) ==> FlightsOk(log + [e], fs)
  {
    forall q ensures q in log + [e] <==> q in log || q == e {
    }
    assert e in log + [e];
  }

  /** Any backed event that agrees with HEAD and the leases may be appended, the operation ending with it. */
  lemma AppendKeepsInv(cfg: Config, s: System, e: Event)
    requires Inv(cfg, s) && Backed(s.log, e) && EventOk(cfg, s.trail, s.leases, e)
    ensures Inv(cfg, Append(s.(stage := Free), e))
  {
    AllBackedExtends(s.log, e);
    Grows(s.log, e);
    hide AllBacked, Backed, EventOk, FlightsOk, LeasesOk, HasPromotion;
  }

  lemma ReleaseKeepsInv(cfg: Config, s: System)
    requires Inv(cfg, s)
    ensures Inv(cfg, s.(stage := Free))
  {
  }

  // ---------- Candidates, evaluations, reviews ----------

  lemma AddCandidateKeepsInv(cfg: Config, s: System, args: CandidateArgs)
    requires args.lease in s.leases && Inv(cfg, s)
    ensures Inv(cfg, Append(s, CandidateEvent(cfg, Inspect(cfg, s.log), args, s.leases[args.lease])))
  {
    hide Inv, Backed, CandidateEvent, Inspect, Quiet, FlightsOk;
    var e := CandidateEvent(cfg, Inspect(cfg, s.log), args, s.leases[args.lease]);
    InvBacks(cfg, s);
    CandidateIsBacked(cfg, s.log, args, s.leases[args.lease]);
    QuietKeepsInv(cfg, s, e, s.flights);
    assert Append(s, e).(flights := s.flights) == Append(s, e);
  }

  lemma InvBacks(cfg: Config, s: System)
    requires Inv(cfg, s)
    ensures AllBacked(s.log) && FlightsOk(s.log, s.flights)
  {
  }

  lemma CandidateIsBacked(cfg: Config, log: seq<Event>, args: CandidateArgs, lease: Lease)
    requires AllBacked(log)
    ensures var e := CandidateEvent(cfg, Inspect(cfg, log), args, lease); Backed(log, e) && Quiet(e)
  {
    hide AllBacked, Inspect, StateOf, HasPromotion;
    InspectEvidence(cfg, log);
    StateOfLog(cfg, log);
  }

  lemma BeginEvaluationKeepsInv(cfg: Config, s: System, candidate: string, id: string)
    requires Inv(cfg, s)
    ensures Inv(cfg, DoBeginEvaluation(cfg, s, candidate, id))
  {
    InspectEvidence(cfg, s.log);
    hide AllBacked, Inspect, StateOf, EventsOk, StageOk, LeasesOk;
    var snap := Inspect(cfg, s.log);
    var found := FindCandidate(snap.candidates, candidate);
    if found.Some? && found.value.outcome == Admitted {
      var flight := EvaluationFlight(found.value, id);
      assert FlightOk(s.log, flight);
      QuietKeepsInv(cfg, s, EvaluationStarted(candidate, id), s.flights + {flight});
    }
  }

  lemma FinishEvaluationKeepsInv(cfg: Config, s: System, f: Flight, status: ProviderStatus,
                                 answer: Option<EvaluatorAnswer>, receipt: string)
    requires Inv(cfg, s)
    ensures Inv(cfg, DoFinishEvaluation(cfg, s, f, status, answer, receipt))
  {
    hide AllBacked, Inspect, EventsOk, StageOk, LeasesOk;
    if f in s.flights && f.EvaluationFlight? {
      assert FlightOk(s.log, f);
      var (outcome, hack) := EvaluationResult(status, answer);
      var e := EvaluationCompleted(Evaluation(f.id, f.c.id, outcome, outcome != CompletedPass || hack, hack, receipt));
      assert Backed(s.log, e);
      QuietKeepsInv(cfg, s, e, s.flights - {f});
    }
  }

  lemma BeginReviewKeepsInv(cfg: Config, s: System, candidate: string, evaluation: string, id: string)
    requires Inv(cfg, s)
    ensures Inv(cfg, DoBeginReview(cfg, s, candidate, evaluation, id))
  {
    InspectEvidence(cfg, s.log);
    hide AllBacked, Inspect, StateOf, EventsOk, StageOk, LeasesOk;
    var snap := Inspect(cfg, s.log);
    var c, e := FindCandidate(snap.candidates, candidate), FindEvaluation(snap.evaluations, evaluation);
    if c.Some? && e.Some? && e.value.candidate == candidate {
      var n := |snap.candidates|;
      var flight := ReviewFlight(c.value, e.value, id, n, cfg.denominatorDigest(snap.candidates));
      assert FlightOk(s.log, flight);
      QuietKeepsInv(cfg, s, ReviewStarted(candidate, evaluation, id, n), s.flights + {flight});
    }
  }

  lemma FinishReviewKeepsInv(cfg: Config, s: System, f: Flight, status: ProviderStatus, answer: Option<ReviewerAnswer>,
                             receipt: string)
    requires Inv(cfg, s)
    ensures Inv(cfg, DoFinishReview(cfg, s, f, status, answer, receipt))
  {
    InspectEvidence(cfg, s.log);
    hide AllBacked, Inspect, EventsOk, StageOk, LeasesOk, CandidateEvents;
    if f in s.flights && f.ReviewFlight? {
      assert FlightOk(s.log, f);
      var (outcome, dissent) := ReviewResult(status, answer, f.e.nonImproving);
      var final := if |Inspect(cfg, s.log).candidates| != f.denominator then Inconclusive else outcome;
      var r := Review(f.id, f.c.id, f.e.id, final, f.denominator, f.digest, dissent, receipt);
      assert BackedReview(s.log, r) by {
        ApprovalIsClean(status, answer, f.e.nonImproving);
        var i :| 0 <= i < |s.log| && s.log[i] == EvaluationCompleted(f.e);
        hide ReviewResult;
        assert ReviewOf(s.log, i, r);
      }
      hide BackedReview, ReviewResult;
      QuietKeepsInv(cfg, s, ReviewCompleted(r), s.flights - {f});
    }
  }

  // ---------- Leases ----------

  lemma SetLeaseKeepsInv(cfg: Config, s: System, id: string, lease: Lease)
    requires Inv(cfg, s)
    ensures Inv(cfg, Do(cfg, s, SetLease(id, lease)))
  {
    hide Inv;
    HasHead(cfg, s);
    var t := Do(cfg, s, SetLease(id, lease));
    if t != s {
      assert t == s.(leases := s.leases[id := lease]);
      LeaseMayChange(cfg, s, id, lease);
    }
  }

  /**
   A lease may change while no integration is under way, if its own integration stays and no
   integrated state is made up.
   */
  lemma LeaseMayChange(cfg: Config, s: System, id: string, lease: Lease)
    requires Inv(cfg, s) && !s.stage.Committed? && !s.stage.HeadMoved?
    requires lease.state != LeaseIntegrated
    requires if id in s.leases then lease.integration == s.leases[id].integration else lease.integration.None?
    ensures Inv(cfg, s.(leases := s.leases[id := lease]))
  {
    hide AllBacked, FlightsOk, HasPromotion;
    var after := s.leases[id := lease];
    assert forall other :: Marked(after, other) <==> Marked(s.leases, other);
    SameMarks(s.leases, after);
  }

  lemma SameMarks(before: map<string, Lease>, after: map<string, Lease>)
    requires forall id :: Marked(before, id) <==> Marked(after, id)
    requires forall id :: Marked(before, id) && Marked(after, id) ==> after[id].integration == before[id].integration
    ensures forall grant :: MarkedFor(before, grant) <==> MarkedFor(after, grant)
  {
  }

  lemma CleanUpKeepsInv(cfg: Config, s: System, id: string)
    requires Inv(cfg, s)
    ensures Inv(cfg, Do(cfg, s, CleanUp(id)))
  {
    hide Inv;
    HasHead(cfg, s);
    var t := Do(cfg, s, CleanUp(id));
    if t != s {
      assert t == s.(leases := s.leases[id := s.leases[id].(state := LeaseClosed)]);
      LeaseMayChange(cfg, s, id, s.leases[id].(state := LeaseClosed));
    }
  }

  // ---------- Promotion ----------

  lemma BeginPromotionKeepsInv(cfg: Config, s: System, g: PromotionGrant, f: string, newId: string)
    requires Inv(cfg, s)
    ensures Inv(cfg, DoBeginPromotion(cfg, s, g, f, newId))
  {
    StateOfLog(cfg, s.log);
    var snap := Inspect(cfg, s.log);
    if s.stage == Free && PromotionInputs(cfg, snap, g, false).Some? {
      assert StateOf(snap) == Open && g.predecessor == cfg.accepted;
      var e := PromotionPrepared(g.candidate, g.id, newId, g.predecessor);
      hide Inspect, StateOf, PromotionInputs, AllBacked;
      QuietKeepsInv(cfg, s, e, s.flights);
      Grows(s.log, e);
    }
  }

  lemma ReconcileKeepsInv(cfg: Config, s: System, commit: string)
    requires Inv(cfg, s)
    ensures Inv(cfg, DoReconcile(s, commit))
  {
    hide AllBacked, FlightsOk, EventsOk, HasPromotion;
    if s.stage.Promoting? && s.stage.g.lease in s.leases && s.leases[s.stage.g.lease].state == LeaseIntegrated {
      assert Marked(s.leases, s.stage.g.lease);
    }
  }

  lemma MoveHeadKeepsInv(cfg: Config, s: System)
    requires Inv(cfg, s)
    ensures Inv(cfg, DoMoveHead(s))
  {
    hide AllBacked, FlightsOk, HasPromotion;
    if s.stage.Committed? {
      assert forall id :: !Marked(s.leases, id);
      var t := DoMoveHead(s);
      assert t.trail == s.trail + [s.stage.commit];
    }
  }

  lemma MarkLeaseKeepsInv(cfg: Config, s: System, receipt: string)
    requires Inv(cfg, s)
    ensures Inv(cfg, DoMarkLease(s, receipt))
  {
    hide AllBacked, FlightsOk, HasPromotion;
    if s.stage.HeadMoved? {
      var t := DoMarkLease(s, receipt);
      assert Marked(t.leases, s.stage.g.lease);
      assert forall id :: Marked(t.leases, id) ==> id == s.stage.g.lease;
      assert forall grant :: !MarkedFor(s.leases, grant);
    }
  }

  /** What the evidence check found is an approval in the log that still covers every candidate event. */
  lemma InputsAreJustified(cfg: Config, log: seq<Event>, g: PromotionGrant, allowPromoted: bool)
    requires AllBacked(log) && PromotionInputs(cfg, Inspect(cfg, log), g, allowPromoted).Some?
    ensures var inputs := PromotionInputs(cfg, Inspect(cfg, log), g, allowPromoted).value;
      inputs.c.id == g.candidate && Justified(log, inputs.c.id)
  {
    hide Inspect, CandidateEvents, AllBacked, StateOf, Justified;
    InspectEvidence(cfg, log);
    var Inputs(c, e, r) := PromotionInputs(cfg, Inspect(cfg, log), g, allowPromoted).value;
    CoveringApproval(log, r);
  }

  /** An approval on record that covers every candidate event justifies its candidate. */
  lemma CoveringApproval(log: seq<Event>, r: Review)
    requires AllBacked(log) && ReviewCompleted(r) in log && r.outcome == Approve && r.dissent == []
    requires r.denominator == CandidateEvents(log)
    ensures Justified(log, r.candidate)
  {
    hide CandidateEvents;
    var j :| 0 <= j < |log| && log[j] == ReviewCompleted(r);
    assert Backed(log[..j], log[j]);
    var i: nat :| ReviewOf(log[..j], i, r);
    assert log[..j][i] == log[i];
    assert Backed(log[..i], log[i]);
    assert Approval(log, i, j, r.candidate);
  }

  lemma JustifiedKeeps(log: seq<Event>, e: Event, candidate: string)
    requires Justified(log, candidate) && !e.CandidateAdded? && !e.CandidateRejected?
    ensures Justified(log + [e], candidate)
  {
    var i: nat, j: nat :| Approval(log, i, j, candidate) && log[j].r.denominator == CandidateEvents(log);
    assert (log + [e])[..i] == log[..i] && (log + [e])[..j] == log[..j] && (log + [e])[..|log|] == log;
    assert Approval(log + [e], i, j, candidate);
  }

  lemma FinishPromotionKeepsInv(cfg: Config, s: System, receipt: string, dies: bool)
    requires Inv(cfg, s)
    ensures Inv(cfg, DoFinishPromotion(cfg, s, receipt, dies))
  {
    hide Inv, Inspect, PromotionInputs, PromotionByGrant, Justified, HasPromotion;
    ReleaseKeepsInv(cfg, s);
    if s.stage.Merged? && PromotionInputs(cfg, Inspect(cfg, s.log), s.stage.g, true).Some? {
      var c := PromotionInputs(cfg, Inspect(cfg, s.log), s.stage.g, true).value.c;
      LastSectionFacts(cfg, s);
      var current := PromotionByGrant(Inspect(cfg, s.log).promotions, s.stage.g.id);
      if current.None? {
        var p := Promotion(s.stage.promotion, s.stage.g.id, c.id, s.stage.g.predecessor, s.stage.i.accepted,
                           s.stage.i.receipt, None);
        EffectKeepsInv(cfg, s, p);
        EffectThenCompletion(cfg, s, p, receipt);
      } else {
        var p := current.value.(candidate := c.id, receipt := Some(receipt));
        CompletionKeepsInv(cfg, s.(stage := Free), p, current.value);
      }
    }
  }

  /** What the last section of a promotion can rely on. */
  lemma LastSectionFacts(cfg: Config, s: System)
    requires Inv(cfg, s) && s.stage.Merged? && PromotionInputs(cfg, Inspect(cfg, s.log), s.stage.g, true).Some?
    ensures s.stage.g.predecessor == cfg.accepted && !HasPromotion(s.log)
    ensures Justified(s.log, PromotionInputs(cfg, Inspect(cfg, s.log), s.stage.g, true).value.c.id)
    ensures var current := PromotionByGrant(Inspect(cfg, s.log).promotions, s.stage.g.id);
      if current.None? then forall q :: q in s.log ==> !PromotionEvent(q)
      else current.value.accepted == s.stage.i.accepted && current.value.receipt.None?
           && PromotionEffectApplied(current.value) in s.log
  {
    hide AllBacked, FlightsOk, EventsOk, LeasesOk, Inspect, PromotionInputs, PromotionByGrant, Justified, HasPromotion;
    InspectPromotions(cfg, s.log);
    InputsAreJustified(cfg, s.log, s.stage.g, true);
    NoneOrItsOwn(cfg, s, Inspect(cfg, s.log).promotions);
  }

  lemma EffectThenCompletion(cfg: Config, s: System, p: Promotion, receipt: string)
    requires Inv(cfg, s) && s.stage.Merged? && Justified(s.log, p.candidate)
    requires forall q :: q in s.log ==> !PromotionEvent(q)
    requires p.grant == s.stage.g.id && p.predecessor == cfg.accepted && p.accepted == s.stage.i.accepted
      && p.receipt.None?
    requires !HasPromotion(s.log)
    ensures Inv(cfg, Append(Append(s.(stage := Free), PromotionEffectApplied(p)),
                            PromotionCompleted(p.(receipt := Some(receipt)))))
  {
    hide Inv, Justified, HasPromotion;
    var applied := Append(s.(stage := Free), PromotionEffectApplied(p));
    EffectKeepsInv(cfg, s, p);
    JustifiedKeeps(s.log, PromotionEffectApplied(p), p.candidate);
    Grows(s.log, PromotionEffectApplied(p));
    CompletionKeepsInv(cfg, applied, p.(receipt := Some(receipt)), p);
  }

  /** At the last section of a promotion, either nothing was promoted or the grant's own effect is on record. */
  lemma NoneOrItsOwn(cfg: Config, s: System, ps: seq<Promotion>)
    requires Inv(cfg, s) && s.stage.Merged? && PromotionsAgree(s.log, ps)
    ensures var current := PromotionByGrant(ps, s.stage.g.id);
      if current.None? then forall q :: q in s.log ==> !PromotionEvent(q)
      else current.value.accepted == s.stage.i.accepted && current.value.receipt.None?
           && PromotionEffectApplied(current.value) in s.log
  {
    hide AllBacked, FlightsOk;
    forall q | q in s.log && PromotionEvent(q) ensures q.p.grant == s.stage.g.id {
      assert EventOk(cfg, s.trail, s.leases, q);
    }
    var current := PromotionByGrant(ps, s.stage.g.id);
    if current.Some? {
      var p := current.value;
      assert p.receipt.Some? ==> PromotionCompleted(p) in s.log;
      assert PromotionEffectApplied(p) in s.log;
      assert EventOk(cfg, s.trail, s.leases, PromotionEffectApplied(p));
    }
  }

  lemma EffectKeepsInv(cfg: Config, s: System, p: Promotion)
    requires Inv(cfg, s) && s.stage.Merged? && Justified(s.log, p.candidate)
    requires forall q :: q in s.log ==> !PromotionEvent(q)
    requires p.grant == s.stage.g.id && p.predecessor == cfg.accepted && p.accepted == s.stage.i.accepted
      && p.receipt.None?
    ensures Inv(cfg, Append(s.(stage := Free), PromotionEffectApplied(p)))
  {
    hide AllBacked, FlightsOk, HasPromotion, Justified;
    AppendKeepsInv(cfg, s, PromotionEffectApplied(p));
  }

  lemma CompletionIsBacked(cfg: Config, s: System, p: Promotion, effect: Promotion)
    requires AllBacked(s.log) && Justified(s.log, p.candidate) && !HasPromotion(s.log)
    requires PromotionEffectApplied(effect) in s.log && SamePromotion(effect, p) && p.receipt.Some?
    ensures BackedCompletion(s.log, p)
  {
    hide Justified;
    var e := PromotionEffectApplied(effect);
    assert e.PromotionEffectApplied? && SamePromotion(e.p, p);
    var k :| 0 <= k < |s.log| && s.log[k] == e;
    assert Backed(s.log[..k], e);
  }

  lemma CompletionIsOk(cfg: Config, s: System, p: Promotion, effect: Promotion)
    requires Inv(cfg, s) && PromotionEffectApplied(effect) in s.log && SamePromotion(effect, p)
    ensures AllBacked(s.log) && EventOk(cfg, s.trail, s.leases, PromotionCompleted(p))
  {
    hide AllBacked, FlightsOk, LeasesOk, HasPromotion;
    assert EventOk(cfg, s.trail, s.leases, PromotionEffectApplied(effect));
  }

  lemma CompletionKeepsInv(cfg: Config, s: System, p: Promotion, effect: Promotion)
    requires Inv(cfg, s) && s.stage == Free && Justified(s.log, p.candidate) && !HasPromotion(s.log)
    requires PromotionEffectApplied(effect) in s.log && SamePromotion(effect, p) && p.receipt.Some?
    ensures Inv(cfg, Append(s, PromotionCompleted(p)))
  {
    hide Justified, HasPromotion, AllBacked, FlightsOk, LeasesOk, TrailOk, BackedCompletion;
    CompletionIsOk(cfg, s, p, effect);
    CompletionIsBacked(cfg, s, p, effect);
    hide Inv, EventOk;
    AppendKeepsInv(cfg, s, PromotionCompleted(p));
  }

  // ---------- Rollback ----------

  /** A completed promotion is the one HEAD moved to. */
  lemma CompletedIsHeads(cfg: Config, s: System, p: Promotion)
    requires Inv(cfg, s) && PromotionCompleted(p) in s.log
    ensures |s.trail| >= 2 && p.accepted == s.trail[1] && p.predecessor == cfg.accepted && p.receipt.Some?
  {
    assert EventOk(cfg, s.trail, s.leases, PromotionCompleted(p));
    CompletedHasReceipt(s.log, PromotionCompleted(p));
    hide AllBacked, FlightsOk;
  }

  lemma RollingKeepsInv(cfg: Config, s: System, b: RollbackGrant, f: string, existing: Option<Rollback>, p: Promotion)
    requires Inv(cfg, s) && PromotionCompleted(p) in s.log
    ensures existing.Some? ==> Inv(cfg, s.(stage := RollingBack(b, f, existing.value.id, p)))
  {
    hide AllBacked, FlightsOk, EventsOk, LeasesOk, HasPromotion;
  }

  lemma CompleteInLog(cfg: Config, s: System, p: Promotion)
    requires Inv(cfg, s) && p in Inspect(cfg, s.log).promotions && p.receipt.Some?
    ensures PromotionCompleted(p) in s.log
  {
    InspectPromotions(cfg, s.log);
    hide AllBacked, Inspect, FlightsOk;
  }

  lemma BeginRollbackKeepsInv(cfg: Config, s: System, b: RollbackGrant, f: string, newId: string)
    requires Inv(cfg, s)
    ensures Inv(cfg, DoBeginRollback(cfg, s, b, f, newId))
  {
    hide Inspect, PromotionById, RollbackByGrant, Inv, LastTx, FlightsOk, Backed;
    var snap := Inspect(cfg, s.log);
    var found := PromotionById(snap.promotions, b.promotion);
    if s.stage == Free && found.Some? && found.value.receipt.Some? {
      var p := found.value;
      CompleteInLog(cfg, s, p);
      var e := RollbackPrepared(b.id, p.id, newId);
      Grows(s.log, e);
      InvBacks(cfg, s);
      QuietKeepsInv(cfg, s, e, s.flights) by { PreparedIsQuiet(s.log, b.id, p.id, newId); }
      RollingKeepsInv(cfg, s, b, f, RollbackByGrant(snap.rollbacks, b.id), p);
      RollingKeepsInv(cfg, Append(s, e), b, f, Some(Rollback(newId, "", "", "", "", None)), p);
    }
    var t := LastTx(s, f);
    if s.stage == Free && t.Some? {
      TxMayGrow(cfg, s, f, t.value.(state := TxCompleted), Free);
    }
  }

  lemma PreparedIsQuiet(log: seq<Event>, grant: string, promotion: string, rollback: string)
    ensures var e := RollbackPrepared(grant, promotion, rollback); Quiet(e) && Backed(log, e)
  {
  }

  lemma LogRollbackKeepsInv(cfg: Config, s: System, valid: bool)
    requires Inv(cfg, s)
    ensures Inv(cfg, DoLogRollback(s, valid))
  {
    if s.stage.RollingBack? {
      var p := s.stage.p;
      ReleaseKeepsInv(cfg, s);
      var b, f, r := s.stage.b, s.stage.f, s.stage.rollback;
      RollbackStages(cfg, s, b, f, r, p);
      hide Inv, LastTx, TxMatches, AppendTx, Head;
      if Head(s) == p.predecessor {
        TxMayGrow(cfg, s, f, Tx(p.predecessor, p.accepted, b.id, PostRef), Restored(b, f, r, p));
      } else if Head(s) == p.accepted {
        TxMayGrow(cfg, s, f, Tx(p.predecessor, p.accepted, b.id, PreRef), RollbackLogged(b, f, r, p));
      }
    }
  }

  /** HEAD at the predecessor means it is back already; HEAD at the accepted revision means it is not. */
  lemma RollbackStages(cfg: Config, s: System, b: RollbackGrant, f: string, r: string, p: Promotion)
    requires Inv(cfg, s) && PromotionCompleted(p) in s.log
    ensures s.trail != []
    ensures Head(s) == p.predecessor ==> Inv(cfg, s.(stage := Restored(b, f, r, p)))
    ensures Head(s) == p.accepted ==> Inv(cfg, s.(stage := RollbackLogged(b, f, r, p)))
  {
    CompletedIsHeads(cfg, s, p);
    assert TrailOk(cfg, s.trail);
    if |s.trail| == 3 {
      StageMayBe(cfg, s, Restored(b, f, r, p));
    } else {
      StageMayBe(cfg, s, RollbackLogged(b, f, r, p));
    }
    hide Inv;
  }

  lemma StageMayBe(cfg: Config, s: System, stage: Stage)
    requires Inv(cfg, s) && StageOk(cfg, s.log, s.trail, s.leases, stage)
    ensures Inv(cfg, s.(stage := stage))
  {
    hide AllBacked, FlightsOk, EventsOk, LeasesOk, HasPromotion, StageOk;
  }

  /** The rollback transaction log is no part of the invariant. */
  lemma TxMayGrow(cfg: Config, s: System, f: string, t: Tx, stage: Stage)
    requires Inv(cfg, s.(stage := stage))
    ensures Inv(cfg, AppendTx(s, f, t).(stage := stage))
  {
  }

  lemma MoveBackKeepsInv(cfg: Config, s: System)
    requires Inv(cfg, s)
    ensures Inv(cfg, DoMoveBack(s))
  {
    if s.stage.RollbackLogged? {
      CompletedIsHeads(cfg, s, s.stage.p);
      assert PromotionCompleted(s.stage.p).PromotionCompleted?;
      hide AllBacked, FlightsOk;
    }
  }

  lemma LogRestoredKeepsInv(cfg: Config, s: System)
    requires Inv(cfg, s)
    ensures Inv(cfg, DoLogRestored(s))
  {
  }

  /** At the last section of a rollback, its grant has no rollback yet or an unfinished one of the same promotion. */
  lemma RollbackOnRecord(cfg: Config, s: System, bs: seq<Rollback>, grant: string, p: Promotion)
    requires Inv(cfg, s) && RollbacksAgree(s.log, bs) && PromotionCompleted(p) in s.log
    ensures RollbackByGrant(bs, grant).None? ==> forall q :: q in s.log && RollbackEvent(q) ==> q.b.grant != grant
    ensures RollbackByGrant(bs, grant).Some? ==> RollbackByGrant(bs, grant).value.predecessor == p.predecessor
    ensures var current := RollbackByGrant(bs, grant);
      current.Some? && current.value.receipt.None? ==>
        RollbackEffectApplied(current.value) in s.log && forall q :: q in s.log && q.RollbackCompleted? ==>
          q.b.grant != grant
  {
    var current := RollbackByGrant(bs, grant);
    CompletedIsHeads(cfg, s, p);
    if current.Some? {
      var e := if current.value.receipt.Some? then RollbackCompleted(current.value)
        else RollbackEffectApplied(current.value);
      assert e in s.log;
      var q := RollbackNamesCompletion(s.log, e);
      CompletedIsHeads(cfg, s, q);
      hide Inv;
      forall r | r in s.log && r.RollbackCompleted? && current.value.receipt.None? ensures r.b.grant != grant {
        CompletedHasReceiptIn(cfg, s, r);
        assert RollbackCompleted(r.b) == r;
      }
    }
  }

  lemma CompletedHasReceiptIn(cfg: Config, s: System, e: Event)
    requires Inv(cfg, s) && e in s.log && e.RollbackCompleted?
    ensures e.b.receipt.Some?
  {
    CompletedHasReceipt(s.log, e);
  }

  lemma RollbackNamesCompletion(log: seq<Event>, e: Event) returns (p: Promotion)
    requires AllBacked(log) && e in log && RollbackEvent(e)
    ensures PromotionCompleted(p) in log && Rolls(e.b, p)
  {
    var k :| 0 <= k < |log| && log[k] == e;
    assert Backed(log[..k], e);
    hide AllBacked, BackedEvaluation, BackedReview, BackedCandidate, BackedEffect, BackedCompletion;
    var q :| q in log[..k] && q.PromotionCompleted? && Rolls(e.b, q.p);
    p := q.p;
    assert q == PromotionCompleted(p);
  }

  lemma FinishRollbackKeepsInv(cfg: Config, s: System, receipt: string, diesAfter: nat)
    requires Inv(cfg, s)
    ensures Inv(cfg, DoFinishRollback(cfg, s, receipt, diesAfter))
  {
    hide Inv, Inspect, PromotionById, RollbackByGrant;
    ReleaseKeepsInv(cfg, s);
    if s.stage.Restored? && PromotionById(Inspect(cfg, s.log).promotions, s.stage.p.id).Some? {
      var grant := s.stage.b.id;
      var p := PromotionById(Inspect(cfg, s.log).promotions, s.stage.p.id).value;
      RestoredFacts(cfg, s);
      var current := RollbackByGrant(Inspect(cfg, s.log).rollbacks, grant);
      if current.None? {
        var record := Rollback(s.stage.rollback, grant, p.id, p.predecessor, p.accepted, None);
        RollbackEffectKeepsInv(cfg, s, p, record);
        var applied := Append(s.(stage := Free), RollbackEffectApplied(record));
        Grows(s.log, RollbackEffectApplied(record));
        RollbackCompletionKeepsInv(cfg, applied, p, record, record.(receipt := Some(receipt)), s.stage.f);
      } else if current.value.receipt.None? {
        var record := current.value;
        RollbackCompletionKeepsInv(cfg, s.(stage := Free), p, record,
                                   Rollback(record.id, grant, p.id, p.predecessor, p.accepted, Some(receipt)),
                                   s.stage.f);
      }
    }
  }

  /** The completion of a rollback, with or without the closing transaction. */
  lemma RollbackCompletionKeepsInv(cfg: Config, s: System, p: Promotion, effect: Rollback, record: Rollback, f: string)
    requires s.stage == Free && Inv(cfg, s) && |s.trail| == 3 && PromotionCompleted(p) in s.log && Rolls(record, p)
      && record.receipt.Some?
    requires RollbackEffectApplied(effect) in s.log && effect.id == record.id && effect.grant == record.grant
    requires forall q :: q in s.log && q.RollbackCompleted? ==> q.b.grant != record.grant
    ensures var t := Append(s, RollbackCompleted(record)); Inv(cfg, t) && forall tx :: Inv(cfg, AppendTx(t, f, tx))
  {
    hide Inv;
    RollbackKeepsInv(cfg, s, p, effect, record);
    var t := Append(s, RollbackCompleted(record));
    forall tx ensures Inv(cfg, AppendTx(t, f, tx)) {
      TxMayGrow(cfg, t, f, tx, Free);
    }
  }

  /** What the last section of a rollback can rely on. */
  lemma RestoredFacts(cfg: Config, s: System)
    requires Inv(cfg, s) && s.stage.Restored? && PromotionById(Inspect(cfg, s.log).promotions, s.stage.p.id).Some?
    ensures |s.trail| == 3 && PromotionById(Inspect(cfg, s.log).promotions, s.stage.p.id) == Some(s.stage.p)
    ensures PromotionCompleted(s.stage.p) in s.log
    ensures var current, p := RollbackByGrant(Inspect(cfg, s.log).rollbacks, s.stage.b.id), s.stage.p;
      && (current.None? ==> forall q :: q in s.log && RollbackEvent(q) ==> q.b.grant != s.stage.b.id)
      && (current.Some? ==> current.value.predecessor == p.predecessor)
      && (current.Some? && current.value.receipt.None? ==>
            RollbackEffectApplied(current.value) in s.log && forall q :: q in s.log && q.RollbackCompleted? ==>
              q.b.grant != s.stage.b.id)
  {
    hide AllBacked, FlightsOk, EventsOk, LeasesOk, Inspect, PromotionById, RollbackByGrant, HasPromotion;
    var snap := Inspect(cfg, s.log);
    InspectPromotions(cfg, s.log);
    InspectRollbacks(cfg, s.log);
    var p := PromotionById(snap.promotions, s.stage.p.id).value;
    OnlyCompleted(s.log, snap.promotions, s.stage.p, p);
    RollbackOnRecord(cfg, s, snap.rollbacks, s.stage.b.id, p);
  }

  lemma RollbackEffectKeepsInv(cfg: Config, s: System, p: Promotion, record: Rollback)
    requires Inv(cfg, s) && |s.trail| == 3 && PromotionCompleted(p) in s.log && Rolls(record, p) && record.receipt.None?
    requires forall q :: q in s.log && RollbackEvent(q) ==> q.b.grant != record.grant
    ensures Inv(cfg, Append(s.(stage := Free), RollbackEffectApplied(record)))
  {
    RollbackEffectIsBacked(s.log, p, record);
    assert EventOk(cfg, s.trail, s.leases, RollbackEffectApplied(record));
    hide Inv, Backed, EventOk;
    AppendKeepsInv(cfg, s, RollbackEffectApplied(record));
  }

  lemma RollbackKeepsInv(cfg: Config, s: System, p: Promotion, effect: Rollback, record: Rollback)
    requires Inv(cfg, s) && s.stage == Free && |s.trail| == 3 && PromotionCompleted(p) in s.log && Rolls(record, p)
      && record.receipt.Some?
    requires RollbackEffectApplied(effect) in s.log && effect.id == record.id && effect.grant == record.grant
    requires forall q :: q in s.log && q.RollbackCompleted? ==> q.b.grant != record.grant
    ensures Inv(cfg, Append(s, RollbackCompleted(record)))
  {
    RollbackIsBacked(s.log, p, effect, record);
    assert EventOk(cfg, s.trail, s.leases, RollbackCompleted(record));
    hide Inv, Backed, EventOk;
    AppendKeepsInv(cfg, s, RollbackCompleted(record));
  }

  // ---------- Every run ----------

  lemma OpenedHasInv(cfg: Config, s: System)
    requires Opened(cfg, s)
    ensures Inv(cfg, s)
  {
    assert s.log[..0] == [];
  }

  lemma HasHead(cfg: Config, s: System)
    requires Inv(cfg, s)
    ensures s.trail != []
  {
  }

  lemma StepKeepsInv(cfg: Config, s: System, a: Action)
    requires Inv(cfg, s)
    ensures Inv(cfg, Do(cfg, s, a))
  {
    hide Inv, Inspect, CandidateEvent;
    hide DoBeginEvaluation, DoFinishEvaluation, DoBeginReview, DoFinishReview;
    hide DoBeginPromotion, DoReconcile, DoMoveHead, DoMarkLease, DoFinishPromotion;
    hide DoBeginRollback, DoLogRollback, DoMoveBack, DoLogRestored, DoFinishRollback;
    HasHead(cfg, s);
    match a {
      case SetLease(id, lease) => SetLeaseKeepsInv(cfg, s, id, lease);
      case CleanUp(id) => CleanUpKeepsInv(cfg, s, id);
      case AddCandidate(args) => if args.lease in s.leases { AddCandidateKeepsInv(cfg, s, args); }
      case BeginEvaluation(c, e) => BeginEvaluationKeepsInv(cfg, s, c, e);
      case FinishEvaluation(f, status, answer, receipt) => FinishEvaluationKeepsInv(cfg, s, f, status, answer, receipt);
      case BeginReview(c, e, r) => BeginReviewKeepsInv(cfg, s, c, e, r);
      case FinishReview(f, status, verdict, receipt) => FinishReviewKeepsInv(cfg, s, f, status, verdict, receipt);
      case BeginPromotion(g, f, newId) => BeginPromotionKeepsInv(cfg, s, g, f, newId);
      case Reconcile(commit) => ReconcileKeepsInv(cfg, s, commit);
      case MoveHead => MoveHeadKeepsInv(cfg, s);
      case MarkLease(receipt) => MarkLeaseKeepsInv(cfg, s, receipt);
      case FinishPromotion(receipt, dies) => FinishPromotionKeepsInv(cfg, s, receipt, dies);
      case BeginRollback(b, f, newId) => BeginRollbackKeepsInv(cfg, s, b, f, newId);
      case LogRollback(valid) => LogRollbackKeepsInv(cfg, s, valid);
      case MoveBack => MoveBackKeepsInv(cfg, s);
      case LogRestored => LogRestoredKeepsInv(cfg, s);
      case FinishRollback(receipt, diesAfter) => FinishRollbackKeepsInv(cfg, s, receipt, diesAfter);
      case Crash => ReleaseKeepsInv(cfg, s);
    }
  }

  lemma {:induction false} RunKeepsInv(cfg: Config, s: System, actions: seq<Action>)
    requires Inv(cfg, s)
    ensures Inv(cfg, Run(cfg, s, actions))
  {
    hide Inv, Do;
    HasHead(cfg, s);
    if actions == [] {
    } else {
      RunKeepsInv(cfg, s, actions[..|actions| - 1]);
      StepKeepsInv(cfg, Run(cfg, s, actions[..|actions| - 1]), actions[|actions| - 1]);
    }
  }

  lemma ReachableHasInv(cfg: Config, s: System, actions: seq<Action>)
    requires Opened(cfg, s)
    ensures Inv(cfg, Run(cfg, s, actions))
  {
    OpenedHasInv(cfg, s);
    RunKeepsInv(cfg, s, actions);
  }

  /**
   In every reachable log a completed promotion rests on an admitted candidate, its earlier
   clean pass and an earlier dissent-free approval, with no candidate event since that approval.
   */
  lemma PromotionsAreJustified(cfg: Config, s: System, actions: seq<Action>, k: nat)
    requires Opened(cfg, s)
    requires k < |Run(cfg, s, actions).log| && Run(cfg, s, actions).log[k].PromotionCompleted?
    ensures var log := Run(cfg, s, actions).log;
      && (exists i: nat, j: nat :: Approval(log[..k], i, j, log[k].p.candidate)
            && forall m :: j <= m < k ==> !log[m].CandidateAdded? && !log[m].CandidateRejected?)
      && (forall m :: 0 <= m < |log| && log[m].PromotionCompleted? ==> m == k)
  {
    ReachableHasInv(cfg, s, actions);
    var log := Run(cfg, s, actions).log;
    NoCandidateSinceApproval(log, k);
    forall m | 0 <= m < |log| && log[m].PromotionCompleted? ensures m == k {
      AtMostOnePromotion(log, m, k);
    }
  }

  /**
   HEAD goes from the frozen revision to at most one other and back, whatever crashes: the log
   completes a promotion only of the revision HEAD really moved to, and a rollback only after
   HEAD is back, and each rollback names the one completed promotion.
   */
  lemma HeadAndLogAgree(cfg: Config, s: System, actions: seq<Action>)
    requires Opened(cfg, s)
    ensures var r := Run(cfg, s, actions);
      && TrailOk(cfg, r.trail)
      && (|r.trail| == 3 ==> HasPromotion(r.log))
      && (forall p :: PromotionCompleted(p) in r.log ==>
          |r.trail| >= 2 && p.predecessor == r.trail[0] && p.accepted == r.trail[1])
      && (forall b :: RollbackCompleted(b) in r.log ==>
            |r.trail| == 3 && b.replaced == r.trail[1] && b.predecessor == r.trail[2]
            && exists p :: PromotionCompleted(p) in r.log && Rolls(b, p))
  {
    ReachableHasInv(cfg, s, actions);
    var r := Run(cfg, s, actions);
    forall p | PromotionCompleted(p) in r.log
      ensures |r.trail| >= 2 && p.predecessor == r.trail[0] && p.accepted == r.trail[1]
    {
      CompletedIsHeads(cfg, r, p);
    }
    forall b | RollbackCompleted(b) in r.log
      ensures |r.trail| == 3 && b.replaced == r.trail[1] && b.predecessor == r.trail[2]
      ensures exists p :: PromotionCompleted(p) in r.log && Rolls(b, p)
    {
      assert EventOk(cfg, r.trail, r.leases, RollbackCompleted(b));
      var p := RollbackNamesCompletion(r.log, RollbackCompleted(b));
      CompletedIsHeads(cfg, r, p);
      hide Inv, Run;
    }
  }

  lemma {:induction false} LogGrows(cfg: Config, s: System, actions: seq<Action>, n: nat)
    requires s.trail != [] && n <= |actions|
    ensures Run(cfg, s, actions[..n]).log <= Run(cfg, s, actions).log
    ensures Run(cfg, s, actions[..n]).trail <= Run(cfg, s, actions).trail
    decreases |actions|
  {
    if n < |actions| {
      var before := actions[..|actions| - 1];
      LogGrows(cfg, s, before, n);
      assert before[..n] == actions[..n];
    } else {
      assert actions[..n] == actions;
    }
  }

  /** Over any run the folded state goes from open to promoted to rolled back and never back, skipping nothing. */
  lemma CampaignOnlyAdvances(cfg: Config, s: System, actions: seq<Action>, n: nat)
    requires Opened(cfg, s) && n <= |actions|
    ensures var before, after := Inspect(cfg, Run(cfg, s, actions[..n]).log), Inspect(cfg, Run(cfg, s, actions).log);
      && Rank(StateOf(before)) <= Rank(StateOf(after))
      && (StateOf(after) == RolledBack ==>
          exists k :: 0 <= k < |Run(cfg, s, actions).log|
            && StateOf(Inspect(cfg, Run(cfg, s, actions).log[..k])) == Promoted)
  {
    ReachableHasInv(cfg, s, actions);
    LogGrows(cfg, s, actions, n);
    var before, after := Run(cfg, s, actions[..n]).log, Run(cfg, s, actions).log;
    assert after[..|before|] == before;
    StateOnlyAdvances(cfg, after, |before|);
  }

  /**
   The integration's own recovery branch, HEAD already at the recorded commit, is never taken by
   a promotion: whenever an integration is about to move HEAD, HEAD is still the predecessor.
   */
  lemma RecoveryBranchIsDead(cfg: Config, s: System, actions: seq<Action>)
    requires Opened(cfg, s)
    ensures var r := Run(cfg, s, actions);
      r.stage.Committed? ==> Head(r) == r.stage.g.predecessor && Head(r) != r.stage.commit
  {
    ReachableHasInv(cfg, s, actions);
  }
}
