/**
 The campaign as a system of interleaved operations.  Evaluations and reviews run between
 two locked sections and any number may be in flight; promotion and rollback hold the
 accepted-point lock, and may die after every durable write.
 */
module CampaignSystem {
  import opened Wrappers
  import opened Campaign

  /** What an operation carries from its first locked section to its second. */
  datatype Flight =
    | EvaluationFlight(c: Candidate, id: string)
    | ReviewFlight(c: Candidate, e: Evaluation, id: string, denominator: nat, digest: string)

  datatype RollbackGrant = RollbackGrant(id: string, promotion: string, current: string, target: string)

  /** Where the holder of the accepted-point lock stands. */
  datatype Stage =
    | Free
    | Promoting(g: PromotionGrant, f: string, promotion: string)
    // the integration is recorded, HEAD untouched
    | Committed(g: PromotionGrant, f: string, promotion: string, commit: string)
    // the lease is not marked yet
    | HeadMoved(g: PromotionGrant, f: string, promotion: string, commit: string)
    | Merged(g: PromotionGrant, f: string, promotion: string, i: Integration)
    | RollingBack(b: RollbackGrant, f: string, rollback: string, p: Promotion)
    | RollbackLogged(b: RollbackGrant, f: string, rollback: string, p: Promotion)    // pre_ref recorded, HEAD untouched
    | HeadRestored(b: RollbackGrant, f: string, rollback: string, p: Promotion)
    | Restored(b: RollbackGrant, f: string, rollback: string, p: Promotion)          // post_ref recorded

  datatype TxState = PreRef | PostRef | TxCompleted

  datatype Tx = Tx(expectedNew: string, expectedOld: string, grant: string, state: TxState)

  /** `trail` is the history of HEAD, oldest first. */
  datatype System = System(
    log: seq<Event>,
    trail: seq<string>,
    leases: map<string, Lease>,
    integrations: map<string, (string, string, string)>,   // fingerprint -> lease, grant, commit
    rollbackLog: map<string, seq<Tx>>,                     // fingerprint -> records
    flights: set<Flight>,
    stage: Stage)

  datatype Action =
    | SetLease(id: string, lease: Lease)
    | CleanUp(id: string)
    | AddCandidate(args: CandidateArgs)
    | BeginEvaluation(candidate: string, evaluation: string)
    | FinishEvaluation(flight: Flight, status: ProviderStatus, answer: Option<EvaluatorAnswer>, receipt: string)
    | BeginReview(candidate: string, evaluation: string, review: string)
    | FinishReview(flight: Flight, status: ProviderStatus, verdict: Option<ReviewerAnswer>, receipt: string)
    | BeginPromotion(g: PromotionGrant, fingerprint: string, newId: string)
    | Reconcile(commit: string)
    | MoveHead
    | MarkLease(receipt: string)
    | FinishPromotion(receipt: string, dies: bool)
    | BeginRollback(b: RollbackGrant, fingerprint: string, newId: string)
    | LogRollback(valid: bool)
    | MoveBack
    | LogRestored
    | FinishRollback(receipt: string, diesAfter: nat)
    | Crash

  function Head(s: System): string
    requires s.trail != []
  {
    s.trail[|s.trail| - 1]
  }

  function Append(s: System, e: Event): System {
    s.(log := s.log + [e])
  }

  function LastTx(s: System, f: string): Option<Tx> {
    if f in s.rollbackLog && s.rollbackLog[f] != [] then Some(s.rollbackLog[f][|s.rollbackLog[f]| - 1]) else None
  }

  function AppendTx(s: System, f: string, t: Tx): System {
    s.(rollbackLog := s.rollbackLog[f := (if f in s.rollbackLog then s.rollbackLog[f] else []) + [t]])
  }

  // ---------- Evaluation and review ----------

  function DoBeginEvaluation(cfg: Config, s: System, candidate: string, id: string): (r: System)
    ensures s.log <= r.log && r.trail == s.trail
  {
    var snap := Inspect(cfg, s.log);
    match FindCandidate(snap.candidates, candidate)
    case None => s
    case Some(c) =>
      if StateOf(snap) != Open || c.outcome != Admitted || FindEvaluation(snap.evaluations, id).Some? then s
      else Append(s, EvaluationStarted(candidate, id)).(flights := s.flights + {EvaluationFlight(c, id)})
  }

  function DoFinishEvaluation(cfg: Config, s: System, f: Flight, status: ProviderStatus,
                              answer: Option<EvaluatorAnswer>, receipt: string): (r: System)
    ensures s.log <= r.log && r.trail == s.trail
  {
    if f !in s.flights || !f.EvaluationFlight? then s
    else
      var snap := Inspect(cfg, s.log);
      var landed := s.(flights := s.flights - {f});
      if FindCandidate(snap.candidates, f.c.id) != Some(f.c) || FindEvaluation(snap.evaluations, f.id).Some? then landed
      else
        var (outcome, hack) := EvaluationResult(status, answer);
        var nonImproving := outcome != CompletedPass || hack;
        Append(landed, EvaluationCompleted(Evaluation(f.id, f.c.id, outcome, nonImproving, hack, receipt)))
  }

  function DoBeginReview(cfg: Config, s: System, candidate: string, evaluation: string, id: string): (r: System)
    ensures s.log <= r.log && r.trail == s.trail
  {
    var snap := Inspect(cfg, s.log);
    match (FindCandidate(snap.candidates, candidate), FindEvaluation(snap.evaluations, evaluation))
    case (Some(c), Some(e)) =>
      if StateOf(snap) != Open || e.candidate != candidate || FindReview(snap.reviews, id).Some? then s
      else
        var n := |snap.candidates|;
        Append(s, ReviewStarted(candidate, evaluation, id, n))
          .(flights := s.flights + {ReviewFlight(c, e, id, n, cfg.denominatorDigest(snap.candidates))})
    case _ => s
  }

  function DoFinishReview(cfg: Config, s: System, f: Flight, status: ProviderStatus, answer: Option<ReviewerAnswer>,
                          receipt: string): (r: System)
    ensures s.log <= r.log && r.trail == s.trail
  {
    if f !in s.flights || !f.ReviewFlight? then s
    else
      var snap := Inspect(cfg, s.log);
      var landed := s.(flights := s.flights - {f});
      if FindCandidate(snap.candidates, f.c.id) != Some(f.c) || FindReview(snap.reviews, f.id).Some? then landed
      else
        var (outcome, dissent) := ReviewResult(status, answer, f.e.nonImproving);
        var final := if |snap.candidates| != f.denominator then Inconclusive else outcome;
        Append(landed, ReviewCompleted(Review(f.id, f.c.id, f.e.id, final, f.denominator, f.digest, dissent, receipt)))
  }

  // ---------- Promotion ----------

  function DoBeginPromotion(cfg: Config, s: System, g: PromotionGrant, f: string, newId: string): (r: System)
    ensures s.log <= r.log && r.trail == s.trail
  {
    if s.stage != Free then s
    else
      var snap := Inspect(cfg, s.log);
      var existing := PromotionByGrant(snap.promotions, g.id);
      if existing.Some? && existing.value.receipt.Some? then s
      else if PromotionInputs(cfg, snap, g, false).None? then s
      else if existing.Some? then s.(stage := Promoting(g, f, existing.value.id))
      else Append(s, PromotionPrepared(g.candidate, g.id, newId, g.predecessor)).(stage := Promoting(g, f, newId))
  }

  /** `_reconcile_or_integrate` up to the recorded integration commit. */
  function DoReconcile(s: System, commit: string): System
    requires s.trail != []
  {
    if !s.stage.Promoting? then s
    else
      var g, f := s.stage.g, s.stage.f;
      var failed := s.(stage := Free);
      if g.lease !in s.leases then failed
      else
        var lease := s.leases[g.lease];
        if lease.state == LeaseIntegrated && lease.integration.Some? then
          var i := lease.integration.value;
          if i.grant != g.id || i.fingerprint != f || i.accepted == g.predecessor || Head(s) != i.accepted then failed
          else s.(stage := Merged(g, f, s.stage.promotion, i))
        else if Head(s) != g.predecessor then failed
        else if lease.state != LeaseReturned || lease.patch != Some(g.patch) || lease.base != g.predecessor then failed
        else if f in s.integrations then
          if (s.integrations[f].0, s.integrations[f].1) != (g.lease, g.id) then failed
          else s.(stage := Committed(g, f, s.stage.promotion, s.integrations[f].2))
        else if commit == Head(s) then failed
        else s.(stage := Committed(g, f, s.stage.promotion, commit),
                integrations := s.integrations[f := (g.lease, g.id, commit)])
  }

  function DoMoveHead(s: System): System
    requires s.trail != []
  {
    if !s.stage.Committed? then s
    else
      var next := HeadMoved(s.stage.g, s.stage.f, s.stage.promotion, s.stage.commit);
      if Head(s) == s.stage.g.predecessor then s.(trail := s.trail + [s.stage.commit], stage := next)
      else if Head(s) == s.stage.commit then s.(stage := next)
      else s.(stage := Free)
  }

  function DoMarkLease(s: System, receipt: string): (r: System)
    ensures s.log <= r.log && r.trail == s.trail
  {
    if !s.stage.HeadMoved? then s
    else if s.stage.g.lease !in s.leases then s.(stage := Free)
    else
      var i := Integration(s.stage.g.id, s.stage.f, receipt, s.stage.commit);
      var lease := s.leases[s.stage.g.lease].(state := LeaseIntegrated, integration := Some(i));
      s.(leases := s.leases[s.stage.g.lease := lease], stage := Merged(s.stage.g, s.stage.f, s.stage.promotion, i))
  }

  /** The second locked section; `dies` is a crash between its two appends. */
  function DoFinishPromotion(cfg: Config, s: System, receipt: string, dies: bool): (r: System)
    ensures s.log <= r.log && r.trail == s.trail
  {
    if !s.stage.Merged? then s
    else
      var g, i := s.stage.g, s.stage.i;
      var done := s.(stage := Free);
      var snap := Inspect(cfg, s.log);
      match PromotionInputs(cfg, snap, g, true)
      case None => done
      case Some(inputs) =>
        var current := PromotionByGrant(snap.promotions, g.id);
        if current.None? || current.value.accepted != i.accepted then
          var p := Promotion(s.stage.promotion, g.id, inputs.c.id, g.predecessor, i.accepted, i.receipt, None);
          var applied := Append(done, PromotionEffectApplied(p));
          if dies then applied else Append(applied, PromotionCompleted(p.(receipt := Some(receipt))))
        else if dies || current.value.receipt.Some? then done
        else Append(done, PromotionCompleted(current.value.(candidate := inputs.c.id, receipt := Some(receipt))))
  }

  // ---------- Rollback ----------

  predicate TxMatches(t: Tx, b: RollbackGrant, p: Promotion) {
    t.expectedNew == p.predecessor && t.expectedOld == p.accepted && t.grant == b.id
  }

  function DoBeginRollback(cfg: Config, s: System, b: RollbackGrant, f: string, newId: string): (r: System)
    ensures s.log <= r.log && r.trail == s.trail
  {
    if s.stage != Free then s
    else
      var snap := Inspect(cfg, s.log);
      var existing := RollbackByGrant(snap.rollbacks, b.id);
      if existing.Some? && existing.value.receipt.Some? then
        var t := LastTx(s, f);
        if t.None? || t.value.grant != b.id || t.value.state == TxCompleted then s
        else AppendTx(s, f, t.value.(state := TxCompleted))
      else
        match PromotionById(snap.promotions, b.promotion)
        case None => s
        case Some(p) =>
          if p.receipt.None? || b.current != p.accepted || b.target != p.predecessor then s
          else if existing.Some? then s.(stage := RollingBack(b, f, existing.value.id, p))
          else Append(s, RollbackPrepared(b.id, p.id, newId)).(stage := RollingBack(b, f, newId, p))
  }

  /** `_restore_exact_predecessor` up to the recorded intention. */
  function DoLogRollback(s: System, valid: bool): System
    requires s.trail != []
  {
    if !s.stage.RollingBack? then s
    else
      var b, f, r, p := s.stage.b, s.stage.f, s.stage.rollback, s.stage.p;
      var t := LastTx(s, f);
      if t.Some? && !TxMatches(t.value, b, p) then s.(stage := Free)
      else if Head(s) == p.predecessor
        then AppendTx(s, f, Tx(p.predecessor, p.accepted, b.id, PostRef)).(stage := Restored(b, f, r, p))
      else if Head(s) != p.accepted || !valid then s.(stage := Free)
      else
        var logged := if t.None? then AppendTx(s, f, Tx(p.predecessor, p.accepted, b.id, PreRef)) else s;
        logged.(stage := RollbackLogged(b, f, r, p))
  }

  /** `git update-ref` with the expected old value. */
  function DoMoveBack(s: System): System
    requires s.trail != []
  {
    if !s.stage.RollbackLogged? then s
    else if Head(s) != s.stage.p.accepted then s.(stage := Free)
    else s.(trail := s.trail + [s.stage.p.predecessor],
            stage := HeadRestored(s.stage.b, s.stage.f, s.stage.rollback, s.stage.p))
  }

  function DoLogRestored(s: System): (r: System)
    ensures s.log <= r.log && r.trail == s.trail
  {
    if !s.stage.HeadRestored? then s
    else
      var p := s.stage.p;
      var logged := AppendTx(s, s.stage.f, Tx(p.predecessor, p.accepted, s.stage.b.id, PostRef));
      logged.(stage := Restored(s.stage.b, s.stage.f, s.stage.rollback, p))
  }

  /** The last locked section; it may die after its first or second append. */
  function DoFinishRollback(cfg: Config, s: System, receipt: string, diesAfter: nat): (r: System)
    ensures s.log <= r.log && r.trail == s.trail
  {
    if !s.stage.Restored? then s
    else
      var b, f := s.stage.b, s.stage.f;
      var done := s.(stage := Free);
      var snap := Inspect(cfg, s.log);
      match PromotionById(snap.promotions, s.stage.p.id)
      case None => done
      case Some(p) =>
        var current := RollbackByGrant(snap.rollbacks, b.id);
        var first := current.None? || current.value.predecessor != p.predecessor;
        var record := if first then Rollback(s.stage.rollback, b.id, p.id, p.predecessor, p.accepted, None)
          else current.value;
        var applied := if first then Append(done, RollbackEffectApplied(record)) else done;
        if diesAfter == 1 || record.receipt.Some? then applied
        else
          var last := Rollback(record.id, b.id, p.id, p.predecessor, p.accepted, Some(receipt));
          var completed := Append(applied, RollbackCompleted(last));
          if diesAfter == 2 then completed
          else AppendTx(completed, f, Tx(p.predecessor, p.accepted, b.id, TxCompleted))
  }

  // ---------- Steps and runs ----------

  function Do(cfg: Config, s: System, a: Action): (r: System)
    requires s.trail != []
    ensures s.trail <= r.trail && s.log <= r.log
  {
    match a
    case SetLease(id, lease) =>
      // the workspace lock keeps leases still while an integration is under way, and
      // only an integration marks a lease
      if s.stage.Committed? || s.stage.HeadMoved? || lease.state == LeaseIntegrated || lease.integration.Some?
         || (id in s.leases && s.leases[id].integration.Some?)
      then s else s.(leases := s.leases[id := lease])
    case CleanUp(id) =>
      // the evidence of an integration outlives its workspace, its state does not
      if s.stage.Committed? || s.stage.HeadMoved? || id !in s.leases then s
      else s.(leases := s.leases[id := s.leases[id].(state := LeaseClosed)])
    case AddCandidate(args) =>
      if args.lease !in s.leases then s
      else Append(s, CandidateEvent(cfg, Inspect(cfg, s.log), args, s.leases[args.lease]))
    case BeginEvaluation(c, e) => DoBeginEvaluation(cfg, s, c, e)
    case FinishEvaluation(f, status, answer, receipt) => DoFinishEvaluation(cfg, s, f, status, answer, receipt)
    case BeginReview(c, e, r) => DoBeginReview(cfg, s, c, e, r)
    case FinishReview(f, status, verdict, receipt) => DoFinishReview(cfg, s, f, status, verdict, receipt)
    case BeginPromotion(g, f, newId) => DoBeginPromotion(cfg, s, g, f, newId)
    case Reconcile(commit) => DoReconcile(s, commit)
    case MoveHead => DoMoveHead(s)
    case MarkLease(receipt) => DoMarkLease(s, receipt)
    case FinishPromotion(receipt, dies) => DoFinishPromotion(cfg, s, receipt, dies)
    case BeginRollback(b, f, newId) => DoBeginRollback(cfg, s, b, f, newId)
    case LogRollback(valid) => DoLogRollback(s, valid)
    case MoveBack => DoMoveBack(s)
    case LogRestored => DoLogRestored(s)
    case FinishRollback(receipt, dies) => DoFinishRollback(cfg, s, receipt, dies)
    case Crash => s.(stage := Free)
  }

  function Run(cfg: Config, s: System, actions: seq<Action>): (r: System)
    requires s.trail != []
    ensures s.trail <= r.trail
  {
    if actions == [] then s else Do(cfg, Run(cfg, s, actions[..|actions| - 1]), actions[|actions| - 1])
  }

  lemma RunFive(cfg: Config, s: System, steps: seq<Action>)
    requires s.trail != [] && |steps| == 5
    ensures Run(cfg, s, steps[..4]) == Do(cfg, Do(cfg, Do(cfg, Do(cfg, s, steps[0]), steps[1]), steps[2]), steps[3])
    ensures Run(cfg, s, steps) ==
      Do(cfg, Do(cfg, Do(cfg, Do(cfg, Do(cfg, s, steps[0]), steps[1]), steps[2]), steps[3]), steps[4])
  {
    hide Do;
    assert steps[..5] == steps && steps[..0] == [];
    RunOneMore(cfg, s, steps, 0);
    RunOneMore(cfg, s, steps, 1);
    RunOneMore(cfg, s, steps, 2);
    RunOneMore(cfg, s, steps, 3);
    RunOneMore(cfg, s, steps, 4);
  }

  lemma RunOneMore(cfg: Config, s: System, steps: seq<Action>, k: nat)
    requires s.trail != [] && k < |steps|
    ensures Run(cfg, s, steps[..k + 1]) == Do(cfg, Run(cfg, s, steps[..k]), steps[k])
  {
    hide Do;
    assert steps[..k + 1][..k] == steps[..k];
  }

  /** A campaign just opened: `open_campaign` checks that HEAD is the frozen revision. */
  predicate Opened(cfg: Config, s: System) {
    && s.log == [CampaignOpened] && s.trail == [cfg.accepted] && s.flights == {} && s.stage == Free
    && s.integrations == map[] && s.rollbackLog == map[]
    && forall id :: id in s.leases ==> s.leases[id].state != LeaseIntegrated && s.leases[id].integration.None?
  }
}
