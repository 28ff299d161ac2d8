/**
 What the records of a campaign name: over every run, each completed evaluation and review names
 its own start, each promotion the receipt found on the lease integrated under its grant and its
 own preparation, each rollback its preparation.
 */
module CampaignRecords {
  import opened Wrappers
  import opened Campaign
  import opened CampaignLog
  import opened CampaignSystem
  import opened CampaignRuns

  // ---------- What a record names ----------

  /** A candidate of the frozen author, who is neither evaluator nor reviewer, named by its patch. */
  predicate CandidateNamed(cfg: Config, c: Candidate) {
    && c.author == cfg.author && c.author != cfg.evaluator && c.author != cfg.reviewer
    && c.digest == c.patch && DistinctStrings(c.dissent)
  }

  ghost predicate EvaluationNamed(log: seq<Event>, v: Evaluation) {
    && EvaluationStarted(v.candidate, v.id) in log
    && forall w :: EvaluationCompleted(w) in log ==> w.id != v.id
  }

  /** The review was started at position `j`, over all the candidates there were. */
  ghost predicate StartedAt(cfg: Config, log: seq<Event>, j: nat, candidate: string, evaluation: string, id: string,
                            denominator: nat, digest: string) {
    && j < |log| && log[j] == ReviewStarted(candidate, evaluation, id, denominator)
    && denominator == CandidateEvents(log[..j])
    && digest == cfg.denominatorDigest(Inspect(cfg, log[..j]).candidates)
  }

  ghost predicate ReviewBegun(cfg: Config, log: seq<Event>, candidate: string, evaluation: string, id: string,
                              denominator: nat, digest: string) {
    exists j: nat :: StartedAt(cfg, log, j, candidate, evaluation, id, denominator, digest)
  }

  ghost predicate ReviewNamed(cfg: Config, log: seq<Event>, r: Review) {
    && ReviewBegun(cfg, log, r.candidate, r.evaluation, r.id, r.denominator, r.denominatorDigest)
    && (r.denominator != CandidateEvents(log) ==> r.outcome == Inconclusive)
    && forall w :: ReviewCompleted(w) in log ==> w.id != r.id
  }

  ghost predicate PreparedIn(log: seq<Event>, grant: string, id: string, predecessor: string) {
    exists candidate :: PromotionPrepared(candidate, grant, id, predecessor) in log
  }

  /** What may be recorded after `log`. */
  ghost predicate Named(cfg: Config, log: seq<Event>, e: Event) {
    match e
    case CandidateAdded(c) => CandidateNamed(cfg, c)
    case EvaluationCompleted(v) => EvaluationNamed(log, v)
    case ReviewCompleted(r) => ReviewNamed(cfg, log, r)
    case PromotionEffectApplied(p) => PreparedIn(log, p.grant, p.id, p.predecessor)
    case PromotionCompleted(p) => PreparedIn(log, p.grant, p.id, p.predecessor)
    case RollbackEffectApplied(b) => RollbackPrepared(b.grant, b.promotion, b.id) in log
    case RollbackCompleted(b) => RollbackPrepared(b.grant, b.promotion, b.id) in log
    case _ => true
  }

  ghost predicate AllNamed(cfg: Config, log: seq<Event>) {
    forall k :: 0 <= k < |log| ==> Named(cfg, log[..k], log[k])
  }

  /** The lease carries the integration this record names. */
  predicate Carries(leases: map<string, Lease>, id: string, p: Promotion) {
    && Marked(leases, id) && leases[id].integration.value.grant == p.grant
    && leases[id].integration.value.receipt == p.integrationReceipt
    && leases[id].integration.value.accepted == p.accepted
  }

  ghost predicate OnLease(leases: map<string, Lease>, p: Promotion) {
    exists id :: Carries(leases, id, p)
  }

  ghost predicate AllOnLease(leases: map<string, Lease>, log: seq<Event>) {
    forall e :: e in log && PromotionEvent(e) ==> OnLease(leases, e.p)
  }

  ghost predicate FlightBegun(cfg: Config, log: seq<Event>, f: Flight) {
    match f
    case EvaluationFlight(c, id) => EvaluationStarted(c.id, id) in log
    case ReviewFlight(c, e, id, n, digest) => ReviewBegun(cfg, log, c.id, e.id, id, n, digest)
  }

  ghost predicate FlightsBegun(cfg: Config, log: seq<Event>, flights: set<Flight>) {
    forall f :: f in flights ==> FlightBegun(cfg, log, f)
  }

  ghost predicate StageNamed(log: seq<Event>, leases: map<string, Lease>, stage: Stage) {
    match stage
    case Free => true
    case Promoting(g, _, id) => PreparedIn(log, g.id, id, g.predecessor)
    case Committed(g, _, id, _) => PreparedIn(log, g.id, id, g.predecessor)
    case HeadMoved(g, _, id, _) => PreparedIn(log, g.id, id, g.predecessor)
    case Merged(g, _, id, i) =>
      && PreparedIn(log, g.id, id, g.predecessor)
      && Marked(leases, g.lease) && leases[g.lease].integration == Some(i)
    case RollingBack(b, _, id, p) => RollbackPrepared(b.id, p.id, id) in log
    case RollbackLogged(b, _, id, p) => RollbackPrepared(b.id, p.id, id) in log
    case HeadRestored(b, _, id, p) => RollbackPrepared(b.id, p.id, id) in log
    case Restored(b, _, id, p) => RollbackPrepared(b.id, p.id, id) in log
  }

  ghost predicate Records(cfg: Config, s: System) {
    && AllNamed(cfg, s.log) && AllOnLease(s.leases, s.log)
    && FlightsBegun(cfg, s.log, s.flights) && StageNamed(s.log, s.leases, s.stage)
  }

  // ---------- What stays ----------

  lemma AllNamedExtends(cfg: Config, log: seq<Event>, e: Event)
    requires AllNamed(cfg, log) && Named(cfg, log, e)
    ensures AllNamed(cfg, log + [e])
  {
    hide Named;
    forall k | 0 <= k < |log + [e]| ensures Named(cfg, (log + [e])[..k], (log + [e])[k]) {
      if k < |log| {
        assert (log + [e])[..k] == log[..k];
      } else {
        assert (log + [e])[..k] == log;
      }
    }
  }

  lemma ReviewStaysBegun(cfg: Config, log: seq<Event>, e: Event)
    ensures forall c, v, id, n, d :: ReviewBegun(cfg, log, c, v, id, n, d) ==>
      ReviewBegun(cfg, log + [e], c, v, id, n, d)
  {
    hide Inspect, CandidateEvents;
    forall c, v, id, n, d | ReviewBegun(cfg, log, c, v, id, n, d) ensures ReviewBegun(cfg, log + [e], c, v, id, n, d) {
      var j: nat :| StartedAt(cfg, log, j, c, v, id, n, d);
      assert (log + [e])[..j] == log[..j];
      assert StartedAt(cfg, log + [e], j, c, v, id, n, d);
    }
  }

  lemma FlightsStayBegun(cfg: Config, log: seq<Event>, e: Event, flights: set<Flight>)
    requires FlightsBegun(cfg, log, flights)
    ensures FlightsBegun(cfg, log + [e], flights)
  {
    ReviewStaysBegun(cfg, log, e);
    hide ReviewBegun;
  }

  lemma StageStaysNamed(log: seq<Event>, e: Event, leases: map<string, Lease>, stage: Stage)
    requires StageNamed(log, leases, stage)
    ensures StageNamed(log + [e], leases, stage)
  {
    assert forall q :: q in log ==> q in log + [e];
  }

  /** A named event may be appended. */
  lemma AppendKeepsRecords(cfg: Config, s: System, e: Event)
    requires Records(cfg, s) && Named(cfg, s.log, e) && (PromotionEvent(e) ==> OnLease(s.leases, e.p))
    ensures Records(cfg, Append(s, e))
  {
    AllNamedExtends(cfg, s.log, e);
    FlightsStayBegun(cfg, s.log, e, s.flights);
    StageStaysNamed(s.log, e, s.leases, s.stage);
    hide AllNamed, Named, FlightsBegun, StageNamed, OnLease;
    assert forall q :: q in s.log + [e] <==> q in s.log || q == e;
  }

  lemma FlightsMayBe(cfg: Config, s: System, flights: set<Flight>)
    requires Records(cfg, s) && FlightsBegun(cfg, s.log, flights)
    ensures Records(cfg, s.(flights := flights))
  {
    hide AllNamed, AllOnLease, FlightsBegun, StageNamed;
  }

  lemma NamedStageMayBe(cfg: Config, s: System, stage: Stage)
    requires Records(cfg, s) && StageNamed(s.log, s.leases, stage)
    ensures Records(cfg, s.(stage := stage))
  {
    hide AllNamed, AllOnLease, FlightsBegun, StageNamed;
  }

  lemma FreeIsNamed(cfg: Config, s: System)
    requires Records(cfg, s)
    ensures Records(cfg, s.(stage := Free))
  {
    NamedStageMayBe(cfg, s, Free);
  }

  /** HEAD and the transaction logs are not looked at, and leases keep the integrations they carry. */
  lemma WorldMayBe(cfg: Config, s: System, t: System)
    requires Records(cfg, s) && t.log == s.log && t.flights == s.flights
    requires forall id :: Marked(s.leases, id) ==>
      Marked(t.leases, id) && t.leases[id].integration == s.leases[id].integration
    requires StageNamed(t.log, t.leases, t.stage)
    ensures Records(cfg, t)
  {
    forall e | e in t.log && PromotionEvent(e) ensures OnLease(t.leases, e.p) {
      var id :| Carries(s.leases, id, e.p);
      assert Carries(t.leases, id, e.p);
    }
    hide AllNamed, FlightsBegun, StageNamed;
  }

  // ---------- Leases ----------

  lemma LeaseStepKeepsRecords(cfg: Config, s: System, action: Action)
    requires s.trail != [] && Records(cfg, s) && (action.SetLease? || action.CleanUp?)
    ensures Records(cfg, Do(cfg, s, action))
  {
    var t := Do(cfg, s, action);
    assert StageNamed(t.log, t.leases, t.stage);
    hide Records, StageNamed;
    WorldMayBe(cfg, s, t);
  }

  // ---------- Candidates, evaluations, reviews ----------

  lemma CandidateIsNamed(cfg: Config, s: Snapshot, log: seq<Event>, args: CandidateArgs, lease: Lease)
    ensures Named(cfg, log, CandidateEvent(cfg, s, args, lease))
    ensures !PromotionEvent(CandidateEvent(cfg, s, args, lease))
  {
    hide StateOf, FindCandidate;
  }

  lemma AddCandidateKeepsRecords(cfg: Config, s: System, args: CandidateArgs)
    requires s.trail != [] && Records(cfg, s)
    ensures Records(cfg, Do(cfg, s, AddCandidate(args)))
  {
    hide Records, Named, CandidateEvent, Inspect;
    if args.lease in s.leases {
      CandidateIsNamed(cfg, Inspect(cfg, s.log), s.log, args, s.leases[args.lease]);
      AppendKeepsRecords(cfg, s, CandidateEvent(cfg, Inspect(cfg, s.log), args, s.leases[args.lease]));
    }
  }

  lemma BeginEvaluationKeepsRecords(cfg: Config, s: System, candidate: string, id: string)
    requires Records(cfg, s)
    ensures Records(cfg, DoBeginEvaluation(cfg, s, candidate, id))
  {
    var found := FindCandidate(Inspect(cfg, s.log).candidates, candidate);
    var t := DoBeginEvaluation(cfg, s, candidate, id);
    hide Inspect, StateOf, Records, FlightsBegun;
    if t.log != s.log {
      var begun := Append(s, EvaluationStarted(candidate, id));
      AppendKeepsRecords(cfg, s, EvaluationStarted(candidate, id));
      var flight := EvaluationFlight(found.value, id);
      assert FlightBegun(cfg, begun.log, flight);
      OneMoreFlight(cfg, begun, flight);
    }
  }

  lemma OneMoreFlight(cfg: Config, s: System, f: Flight)
    requires Records(cfg, s) && FlightBegun(cfg, s.log, f)
    ensures Records(cfg, s.(flights := s.flights + {f}))
  {
    FlightsMayBe(cfg, s, s.flights + {f});
  }

  lemma OneFlightLess(cfg: Config, s: System, f: Flight)
    requires Records(cfg, s)
    ensures Records(cfg, s.(flights := s.flights - {f}))
    ensures f in s.flights ==> FlightBegun(cfg, s.log, f)
  {
    FlightsMayBe(cfg, s, s.flights - {f});
  }

  lemma {:induction false} NoSuchEvaluation(cfg: Config, log: seq<Event>, id: string)
    requires FindEvaluation(Inspect(cfg, log).evaluations, id).None?
    ensures forall w :: EvaluationCompleted(w) in log ==> w.id != id
  {
    if log == [] {
    } else {
      var n := |log| - 1;
      var es := Inspect(cfg, log[..n]).evaluations;
      var last := log[n];
      assert log == log[..n] + [last];
      if last.EvaluationCompleted? {
        NotInLonger(es, last.e, id);
      }
      NoSuchEvaluation(cfg, log[..n], id);
    }
  }

  lemma {:induction false} NotInLonger(es: seq<Evaluation>, e: Evaluation, id: string)
    requires FindEvaluation(es + [e], id).None?
    ensures FindEvaluation(es, id).None? && e.id != id
  {
    if es == [] {
      assert (es + [e])[0] == e;
    } else {
      assert (es + [e])[1..] == es[1..] + [e] && (es + [e])[0] == es[0];
      NotInLonger(es[1..], e, id);
    }
  }

  lemma {:induction false} NoSuchReview(cfg: Config, log: seq<Event>, id: string)
    requires FindReview(Inspect(cfg, log).reviews, id).None?
    ensures forall w :: ReviewCompleted(w) in log ==> w.id != id
  {
    if log == [] {
    } else {
      var n := |log| - 1;
      var rs := Inspect(cfg, log[..n]).reviews;
      var last := log[n];
      assert log == log[..n] + [last];
      if last.ReviewCompleted? {
        NotAmongMore(rs, last.r, id);
      }
      NoSuchReview(cfg, log[..n], id);
    }
  }

  lemma {:induction false} NotAmongMore(rs: seq<Review>, r: Review, id: string)
    requires FindReview(rs + [r], id).None?
    ensures FindReview(rs, id).None? && r.id != id
  {
    if rs == [] {
      assert (rs + [r])[0] == r;
    } else {
      assert (rs + [r])[1..] == rs[1..] + [r] && (rs + [r])[0] == rs[0];
      NotAmongMore(rs[1..], r, id);
    }
  }

  lemma FinishEvaluationKeepsRecords(cfg: Config, s: System, f: Flight, status: ProviderStatus,
                                     answer: Option<EvaluatorAnswer>, receipt: string)
    requires Records(cfg, s)
    ensures Records(cfg, DoFinishEvaluation(cfg, s, f, status, answer, receipt))
  {
    var t := DoFinishEvaluation(cfg, s, f, status, answer, receipt);
    hide Inspect, Records, EvaluationResult, FindCandidate, FindEvaluation;
    if f in s.flights && f.EvaluationFlight? {
      OneFlightLess(cfg, s, f);
      var landed := s.(flights := s.flights - {f});
      if t != landed {
        NoSuchEvaluation(cfg, s.log, f.id);
        var e := t.log[|s.log|];
        assert Named(cfg, landed.log, e);
        AppendKeepsRecords(cfg, landed, e);
      }
    }
  }

  lemma BeginReviewKeepsRecords(cfg: Config, s: System, candidate: string, evaluation: string, id: string)
    requires Records(cfg, s)
    ensures Records(cfg, DoBeginReview(cfg, s, candidate, evaluation, id))
  {
    InspectEvidence(cfg, s.log);
    var snap := Inspect(cfg, s.log);
    var c, e := FindCandidate(snap.candidates, candidate), FindEvaluation(snap.evaluations, evaluation);
    var t := DoBeginReview(cfg, s, candidate, evaluation, id);
    hide Inspect, StateOf, Records, FindCandidate, FindEvaluation, FindReview, CandidateEvents;
    if t.log != s.log {
      var start := ReviewStarted(candidate, evaluation, id, |snap.candidates|);
      var begun := Append(s, start);
      AppendKeepsRecords(cfg, s, start);
      var digest := cfg.denominatorDigest(snap.candidates);
      assert begun.log[..|s.log|] == s.log;
      assert StartedAt(cfg, begun.log, |s.log|, candidate, evaluation, id, |snap.candidates|, digest);
      OneMoreFlight(cfg, begun, ReviewFlight(c.value, e.value, id, |snap.candidates|, digest));
    }
  }

  lemma FinishReviewKeepsRecords(cfg: Config, s: System, f: Flight, status: ProviderStatus,
                                 answer: Option<ReviewerAnswer>, receipt: string)
    requires Records(cfg, s)
    ensures Records(cfg, DoFinishReview(cfg, s, f, status, answer, receipt))
  {
    InspectEvidence(cfg, s.log);
    var t := DoFinishReview(cfg, s, f, status, answer, receipt);
    hide Inspect, Records, ReviewResult, FindCandidate, FindReview, ReviewBegun, CandidateEvents;
    if f in s.flights && f.ReviewFlight? {
      OneFlightLess(cfg, s, f);
      var landed := s.(flights := s.flights - {f});
      if t != landed {
        NoSuchReview(cfg, s.log, f.id);
        var e := t.log[|s.log|];
        assert Named(cfg, landed.log, e);
        AppendKeepsRecords(cfg, landed, e);
      }
    }
  }

  // ---------- Promotions ----------

  lemma EventOnRecord(cfg: Config, log: seq<Event>, e: Event)
    requires AllNamed(cfg, log) && e in log
    ensures (e.PromotionEffectApplied? || e.PromotionCompleted?) ==> PreparedIn(log, e.p.grant, e.p.id, e.p.predecessor)
    ensures (e.RollbackEffectApplied? || e.RollbackCompleted?) ==>
      RollbackPrepared(e.b.grant, e.b.promotion, e.b.id) in log
  {
    var k :| 0 <= k < |log| && log[k] == e;
    assert Named(cfg, log[..k], log[k]);
    assert forall q :: q in log[..k] ==> q in log;
  }

  lemma BeginPromotionKeepsRecords(cfg: Config, s: System, g: PromotionGrant, f: string, newId: string)
    requires Inv(cfg, s) && Records(cfg, s)
    ensures Records(cfg, DoBeginPromotion(cfg, s, g, f, newId))
  {
    var snap := Inspect(cfg, s.log);
    var own := PromotionByGrant(snap.promotions, g.id);
    var t := DoBeginPromotion(cfg, s, g, f, newId);
    hide Inspect, StateOf;
    if t.stage.Promoting? && s.stage == Free {
      assert g.predecessor == cfg.accepted;
      hide PromotionInputs;
      if own.Some? {
        OwnPrepared(cfg, s, own.value);
        NamedStageMayBe(cfg, s, t.stage) by { assert PreparedIn(s.log, g.id, own.value.id, g.predecessor); }
      } else {
        var e := PromotionPrepared(g.candidate, g.id, newId, g.predecessor);
        AppendKeepsRecords(cfg, s, e);
        assert e in Append(s, e).log;
        NamedStageMayBe(cfg, Append(s, e), t.stage);
      }
    }
  }

  lemma OwnPrepared(cfg: Config, s: System, p: Promotion)
    requires Inv(cfg, s) && Records(cfg, s) && p in Inspect(cfg, s.log).promotions
    ensures PreparedIn(s.log, p.grant, p.id, cfg.accepted)
    ensures OnLease(s.leases, p)
  {
    InspectPromotions(cfg, s.log);
    hide Inspect, AllBacked, PreparedIn, FlightsOk, LeasesOk, StageOk, StageNamed, FlightsBegun, OnLease, AllNamed;
    var e := if p.receipt.Some? then PromotionCompleted(p) else PromotionEffectApplied(p);
    assert EventOk(cfg, s.trail, s.leases, e);
    EventOnRecord(cfg, s.log, e);
  }

  lemma ReconcileKeepsRecords(cfg: Config, s: System, commit: string)
    requires s.trail != [] && Records(cfg, s)
    ensures Records(cfg, DoReconcile(s, commit))
  {
    var t := DoReconcile(s, commit);
    assert StageNamed(t.log, t.leases, t.stage) by { hide PreparedIn; }
    hide Records, StageNamed;
    WorldMayBe(cfg, s, t);
  }

  lemma MoveHeadKeepsRecords(cfg: Config, s: System)
    requires s.trail != [] && Records(cfg, s)
    ensures Records(cfg, DoMoveHead(s))
  {
    var t := DoMoveHead(s);
    assert StageNamed(t.log, t.leases, t.stage) by { hide PreparedIn; }
    hide Records, StageNamed;
    WorldMayBe(cfg, s, t);
  }

  lemma MarkLeaseKeepsRecords(cfg: Config, s: System, receipt: string)
    requires Inv(cfg, s) && Records(cfg, s)
    ensures Records(cfg, DoMarkLease(s, receipt))
  {
    var t := DoMarkLease(s, receipt);
    assert StageNamed(t.log, t.leases, t.stage) by { hide PreparedIn; }
    hide Records, StageNamed;
    if s.stage.HeadMoved? {
      NothingMarked(cfg, s);
    }
    WorldMayBe(cfg, s, t);
  }

  lemma NothingMarked(cfg: Config, s: System)
    requires Inv(cfg, s) && s.stage.HeadMoved?
    ensures forall id :: !Marked(s.leases, id)
  {
  }

  /** What the last section appends names the preparation and the receipt of the integration. */
  lemma FinishPromotionKeepsRecords(cfg: Config, s: System, receipt: string, dies: bool)
    requires Inv(cfg, s) && Records(cfg, s)
    ensures Records(cfg, DoFinishPromotion(cfg, s, receipt, dies))
  {
    var snap := Inspect(cfg, s.log);
    hide Inspect, PromotionInputs, Inv, Records, PromotionByGrant;
    FreeIsNamed(cfg, s);
    var done := s.(stage := Free);
    if s.stage.Merged? && PromotionInputs(cfg, snap, s.stage.g, true).Some? {
      var g, i, id := s.stage.g, s.stage.i, s.stage.promotion;
      MergedIsNamed(cfg, s);
      var c := PromotionInputs(cfg, snap, g, true).value.c;
      var current := PromotionByGrant(snap.promotions, g.id);
      LastSectionFacts(cfg, s);
      if current.None? {
        var p := Promotion(id, g.id, c.id, g.predecessor, i.accepted, i.receipt, None);
        assert Carries(s.leases, g.lease, p);
        AppendKeepsRecords(cfg, done, PromotionEffectApplied(p));
        var applied := Append(done, PromotionEffectApplied(p));
        PreparedStays(s.log, PromotionEffectApplied(p));
        assert Carries(applied.leases, g.lease, p.(receipt := Some(receipt)));
        AppendKeepsRecords(cfg, applied, PromotionCompleted(p.(receipt := Some(receipt))));
      } else {
        var p := current.value;
        OwnPrepared(cfg, s, p);
        OwnPredecessor(cfg, s, p);
        SameCarrier(s.leases, p, p.(candidate := c.id, receipt := Some(receipt)));
        AppendKeepsRecords(cfg, done, PromotionCompleted(p.(candidate := c.id, receipt := Some(receipt))));
      }
    }
  }

  lemma SameCarrier(leases: map<string, Lease>, p: Promotion, q: Promotion)
    requires OnLease(leases, p)
    requires q.grant == p.grant && q.integrationReceipt == p.integrationReceipt && q.accepted == p.accepted
    ensures OnLease(leases, q)
  {
    var id :| Carries(leases, id, p);
    assert Carries(leases, id, q);
  }

  lemma OwnPredecessor(cfg: Config, s: System, p: Promotion)
    requires Inv(cfg, s) && p in Inspect(cfg, s.log).promotions
    ensures p.predecessor == cfg.accepted
  {
    InspectPromotions(cfg, s.log);
    hide Inspect, AllBacked, FlightsOk, LeasesOk, StageOk;
    var e := if p.receipt.Some? then PromotionCompleted(p) else PromotionEffectApplied(p);
    assert EventOk(cfg, s.trail, s.leases, e);
  }

  lemma PreparedStays(log: seq<Event>, e: Event)
    ensures forall grant, id, predecessor :: PreparedIn(log, grant, id, predecessor) ==>
      PreparedIn(log + [e], grant, id, predecessor)
  {
    assert forall q :: q in log ==> q in log + [e];
  }

  lemma MergedIsNamed(cfg: Config, s: System)
    requires Inv(cfg, s) && Records(cfg, s) && s.stage.Merged?
    ensures PreparedIn(s.log, s.stage.g.id, s.stage.promotion, s.stage.g.predecessor)
    ensures Marked(s.leases, s.stage.g.lease) && s.leases[s.stage.g.lease].integration == Some(s.stage.i)
    ensures s.stage.i.grant == s.stage.g.id
  {
  }

  // ---------- Rollbacks ----------

  lemma BeginRollbackKeepsRecords(cfg: Config, s: System, b: RollbackGrant, f: string, newId: string)
    requires Inv(cfg, s) && Records(cfg, s)
    ensures Records(cfg, DoBeginRollback(cfg, s, b, f, newId))
  {
    var snap := Inspect(cfg, s.log);
    var t := DoBeginRollback(cfg, s, b, f, newId);
    var own, found := RollbackByGrant(snap.rollbacks, b.id), PromotionById(snap.promotions, b.promotion);
    BeginRollbackShape(cfg, s, b, f, newId);
    hide DoBeginRollback, Inspect, Inv, Records, StageNamed, AppendTx, PromotionById;
    if t.stage.RollingBack? && s.stage == Free {
      var p := found.value;
      if own.Some? {
        OwnRollbackPrepared(cfg, s, own.value, p);
        RollingMayBe(cfg, s, b, f, own.value.id, p);
      } else {
        var e := RollbackPrepared(b.id, p.id, newId);
        AppendKeepsRecords(cfg, s, e);
        assert e in Append(s, e).log;
        RollingMayBe(cfg, Append(s, e), b, f, newId, p);
      }
    } else if t != s {
      TxMayGrow(cfg, s, f, LastTx(s, f).value.(state := TxCompleted));
    }
  }

  lemma BeginRollbackShape(cfg: Config, s: System, b: RollbackGrant, f: string, newId: string)
    ensures var snap := Inspect(cfg, s.log);
      var t := DoBeginRollback(cfg, s, b, f, newId);
      var own, found := RollbackByGrant(snap.rollbacks, b.id), PromotionById(snap.promotions, b.promotion);
      if t.stage.RollingBack? && s.stage == Free then
        && found.Some? && found.value.receipt.Some?
        && t == if own.Some? then s.(stage := RollingBack(b, f, own.value.id, found.value))
                else Append(s, RollbackPrepared(b.id, found.value.id, newId))
                  .(stage := RollingBack(b, f, newId, found.value))
      else t == s || (LastTx(s, f).Some? && t == AppendTx(s, f, LastTx(s, f).value.(state := TxCompleted)))
  {
    hide Inspect, LastTx, RollbackByGrant, PromotionById;
  }

  lemma RollingMayBe(cfg: Config, s: System, b: RollbackGrant, f: string, id: string, p: Promotion)
    requires Records(cfg, s) && RollbackPrepared(b.id, p.id, id) in s.log
    ensures Records(cfg, s.(stage := RollingBack(b, f, id, p)))
  {
    hide Records;
    NamedStageMayBe(cfg, s, RollingBack(b, f, id, p));
  }

  /** The rollback transaction log is not looked at. */
  lemma TxMayGrow(cfg: Config, s: System, f: string, t: Tx)
    requires Records(cfg, s)
    ensures Records(cfg, AppendTx(s, f, t))
  {
    hide AllNamed, AllOnLease, FlightsBegun, StageNamed;
  }

  lemma OwnRollbackPrepared(cfg: Config, s: System, b: Rollback, p: Promotion)
    requires Inv(cfg, s) && Records(cfg, s) && b in Inspect(cfg, s.log).rollbacks
    requires p in Inspect(cfg, s.log).promotions && p.receipt.Some?
    ensures RollbackPrepared(b.grant, p.id, b.id) in s.log
  {
    InspectRollbacks(cfg, s.log);
    InspectPromotions(cfg, s.log);
    hide Inspect, FlightsOk, LeasesOk, StageOk, StageNamed, FlightsBegun, AllOnLease, AllNamed, AllBacked, EventsOk;
    var e := if b.receipt.Some? then RollbackCompleted(b) else RollbackEffectApplied(b);
    EventOnRecord(cfg, s.log, e);
    var q := RollbackNamesCompletion(s.log, e);
    OnlyCompleted(s.log, Inspect(cfg, s.log).promotions, q, p);
  }

  lemma RestoringKeepsRecords(cfg: Config, s: System, action: Action)
    requires s.trail != [] && Records(cfg, s) && (action.LogRollback? || action.MoveBack? || action.LogRestored?)
    ensures Records(cfg, Do(cfg, s, action))
  {
    var t := Do(cfg, s, action);
    RestoringShape(cfg, s, action);
    hide Do, Records;
    assert StageNamed(t.log, t.leases, t.stage) by { StageOfRecords(cfg, s); }
    hide StageNamed;
    WorldMayBe(cfg, s, t);
  }

  lemma StageOfRecords(cfg: Config, s: System)
    requires Records(cfg, s)
    ensures StageNamed(s.log, s.leases, s.stage)
  {
  }

  /** Restoring HEAD goes on with the same rollback, or lets go. */
  lemma RestoringShape(cfg: Config, s: System, action: Action)
    requires s.trail != [] && (action.LogRollback? || action.MoveBack? || action.LogRestored?)
    ensures var t := Do(cfg, s, action);
      && t.log == s.log && t.flights == s.flights && t.leases == s.leases
      && (|| t.stage == s.stage || t.stage == Free
          || (OfRollback(s.stage) && OfRollback(t.stage) && t.stage.b == s.stage.b && t.stage.p == s.stage.p
              && t.stage.rollback == s.stage.rollback))
  {
    hide DoLogRollback;
    if action.LogRollback? {
      LogRollbackShape(s, action.valid);
    }
  }

  lemma LogRollbackShape(s: System, valid: bool)
    requires s.trail != []
    ensures var t := DoLogRollback(s, valid);
      && t.log == s.log && t.flights == s.flights && t.leases == s.leases
      && (|| t.stage == s.stage || t.stage == Free
          || (OfRollback(s.stage) && OfRollback(t.stage) && t.stage.b == s.stage.b && t.stage.p == s.stage.p
              && t.stage.rollback == s.stage.rollback))
  {
    hide LastTx, TxMatches;
  }

  predicate OfRollback(stage: Stage) {
    stage.RollingBack? || stage.RollbackLogged? || stage.HeadRestored? || stage.Restored?
  }

  lemma FinishRollbackKeepsRecords(cfg: Config, s: System, receipt: string, diesAfter: nat)
    requires Inv(cfg, s) && Records(cfg, s)
    ensures Records(cfg, DoFinishRollback(cfg, s, receipt, diesAfter))
  {
    var snap := Inspect(cfg, s.log);
    hide Inspect, Inv, Records, PromotionById, RollbackByGrant;
    FreeIsNamed(cfg, s);
    var done := s.(stage := Free);
    if s.stage.Restored? && PromotionById(snap.promotions, s.stage.p.id).Some? {
      var b, p := s.stage.b, s.stage.p;
      RestoredFacts(cfg, s);
      RestoredIsNamed(cfg, s);
      var current := RollbackByGrant(snap.rollbacks, b.id);
      if current.None? {
        var record := Rollback(s.stage.rollback, b.id, p.id, p.predecessor, p.accepted, None);
        AppendKeepsRecords(cfg, done, RollbackEffectApplied(record));
        RollbackEndKeepsRecords(cfg, Append(done, RollbackEffectApplied(record)), record.(receipt := Some(receipt)),
                                s.stage.f);
      } else if current.value.receipt.None? {
        CompletedInSnapshot(cfg, s, p);
        OwnRollbackPrepared(cfg, s, current.value, p);
        RollbackEndKeepsRecords(cfg, done,
                                Rollback(current.value.id, b.id, p.id, p.predecessor, p.accepted, Some(receipt)),
                                s.stage.f);
      }
    }
  }

  lemma CompletedInSnapshot(cfg: Config, s: System, p: Promotion)
    requires Inv(cfg, s) && PromotionCompleted(p) in s.log
    ensures p in Inspect(cfg, s.log).promotions && p.receipt.Some?
  {
    InspectPromotions(cfg, s.log);
    CompletedIsHeads(cfg, s, p);
  }

  lemma RestoredIsNamed(cfg: Config, s: System)
    requires Records(cfg, s) && s.stage.Restored?
    ensures RollbackPrepared(s.stage.b.id, s.stage.p.id, s.stage.rollback) in s.log
  {
  }

  lemma RollbackEndKeepsRecords(cfg: Config, s: System, b: Rollback, f: string)
    requires Records(cfg, s) && s.stage == Free && RollbackPrepared(b.grant, b.promotion, b.id) in s.log
    ensures var t := Append(s, RollbackCompleted(b)); Records(cfg, t) && forall tx :: Records(cfg, AppendTx(t, f, tx))
  {
    hide Records;
    AppendKeepsRecords(cfg, s, RollbackCompleted(b));
    var t := Append(s, RollbackCompleted(b));
    forall tx ensures Records(cfg, AppendTx(t, f, tx)) {
      TxMayGrow(cfg, t, f, tx);
    }
  }

  // ---------- Every run ----------

  lemma StepKeepsRecords(cfg: Config, s: System, a: Action)
    requires Inv(cfg, s) && Records(cfg, s)
    ensures Records(cfg, Do(cfg, s, a))
  {
    hide Inv, Records, Inspect, CandidateEvent;
    hide DoBeginEvaluation, DoFinishEvaluation, DoBeginReview, DoFinishReview;
    hide DoBeginPromotion, DoReconcile, DoMoveHead, DoMarkLease, DoFinishPromotion;
    hide DoBeginRollback, DoLogRollback, DoMoveBack, DoLogRestored, DoFinishRollback;
    HasHead(cfg, s);
    match a {
      case SetLease(_, _) => LeaseStepKeepsRecords(cfg, s, a);
      case CleanUp(_) => LeaseStepKeepsRecords(cfg, s, a);
      case AddCandidate(args) => AddCandidateKeepsRecords(cfg, s, args);
      case BeginEvaluation(c, e) => BeginEvaluationKeepsRecords(cfg, s, c, e);
      case FinishEvaluation(f, st, answer, receipt) => FinishEvaluationKeepsRecords(cfg, s, f, st, answer, receipt);
      case BeginReview(c, e, r) => BeginReviewKeepsRecords(cfg, s, c, e, r);
      case FinishReview(f, st, verdict, receipt) => FinishReviewKeepsRecords(cfg, s, f, st, verdict, receipt);
      case BeginPromotion(g, f, newId) => BeginPromotionKeepsRecords(cfg, s, g, f, newId);
      case Reconcile(commit) => ReconcileKeepsRecords(cfg, s, commit);
      case MoveHead => MoveHeadKeepsRecords(cfg, s);
      case MarkLease(receipt) => MarkLeaseKeepsRecords(cfg, s, receipt);
      case FinishPromotion(receipt, dies) => FinishPromotionKeepsRecords(cfg, s, receipt, dies);
      case BeginRollback(b, f, newId) => BeginRollbackKeepsRecords(cfg, s, b, f, newId);
      case LogRollback(_) => RestoringKeepsRecords(cfg, s, a);
      case MoveBack => RestoringKeepsRecords(cfg, s, a);
      case LogRestored => RestoringKeepsRecords(cfg, s, a);
      case FinishRollback(receipt, diesAfter) => FinishRollbackKeepsRecords(cfg, s, receipt, diesAfter);
      case Crash => FreeIsNamed(cfg, s);
    }
  }

  lemma {:induction false} RunKeepsRecords(cfg: Config, s: System, actions: seq<Action>)
    requires Inv(cfg, s) && Records(cfg, s)
    ensures Records(cfg, Run(cfg, s, actions))
  {
    hide Inv, Do, Records;
    HasHead(cfg, s);
    if actions == [] {
    } else {
      var n := |actions| - 1;
      RunKeepsRecords(cfg, s, actions[..n]);
      RunKeepsInv(cfg, s, actions[..n]);
      StepKeepsRecords(cfg, Run(cfg, s, actions[..n]), actions[n]);
    }
  }

  /**
   Over every run, crashes included: every record names what came before it, and every promotion
   on record names the grant, the receipt and the revision that the one integrated lease carries.
   */
  lemma RecordsNameTheirOrigin(cfg: Config, s: System, actions: seq<Action>)
    requires Opened(cfg, s)
    ensures var r := Run(cfg, s, actions);
      && (forall k :: 0 <= k < |r.log| ==> Named(cfg, r.log[..k], r.log[k]))
      && (forall k :: 0 <= k < |r.log| && PromotionEvent(r.log[k]) ==>
            exists id :: Carries(r.leases, id, r.log[k].p) && forall other :: Marked(r.leases, other) ==> other == id)
  {
    OpenedHasInv(cfg, s);
    assert Records(cfg, s);
    RunKeepsRecords(cfg, s, actions);
    RunKeepsInv(cfg, s, actions);
    var r := Run(cfg, s, actions);
    hide Run, Named;
    forall k | 0 <= k < |r.log| && PromotionEvent(r.log[k])
      ensures exists id :: Carries(r.leases, id, r.log[k].p) && forall other :: Marked(r.leases, other) ==> other == id
    {
      assert OnLease(r.leases, r.log[k].p);
      var id :| Carries(r.leases, id, r.log[k].p);
      OneMark(cfg, r, id);
    }
  }

  lemma OneMark(cfg: Config, s: System, id: string)
    requires Inv(cfg, s) && Marked(s.leases, id)
    ensures forall other :: Marked(s.leases, other) ==> other == id
  {
  }
}
