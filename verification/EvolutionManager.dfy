/**
 `EvolutionManager`'s two operations on the accepted revision, as they run when nothing
 interrupts them: each method is the steps of `CampaignSystem` one after another, and returns
 what the source returns.
 */
module EvolutionManagers {
  import opened Wrappers
  import opened Campaign
  import opened CampaignLog
  import opened CampaignSystem
  import opened CampaignRuns
  import opened CampaignRecovery
  import opened CampaignRecords
  import R = CampaignRollback

  datatype Refusal = Refused

  /** What the first locked section of a promotion finds. */
  datatype Opening = AlreadyDone(p: Promotion) | NotGranted | Prepared(promotion: string)

  /** The three steps of an integration, from the lock to the marked lease. */
  function Integrating(cfg: Config, s: System, a: Attempt): System
    requires s.trail != []
  {
    Do(cfg, Do(cfg, Do(cfg, s, Steps(a)[1]), Steps(a)[2]), Steps(a)[3])
  }

  lemma IntegratingIs(cfg: Config, s: System, a: Attempt)
    requires s.trail != []
    ensures DoMoveHead(DoReconcile(s, a.commit)).trail != []
    ensures Integrating(cfg, s, a) == DoMarkLease(DoMoveHead(DoReconcile(s, a.commit)), a.integrationReceipt)
  {
    hide DoReconcile, DoMarkLease;
    assert Do(cfg, s, Reconcile(a.commit)) == DoReconcile(s, a.commit);
  }

  lemma RefusedRuns(cfg: Config, s: System, a: Attempt)
    requires s.trail != [] && DoReconcile(s, a.commit) == s.(stage := Free)
    ensures Integrating(cfg, s, a) == s.(stage := Free)
  {
    hide DoReconcile, Integrating;
    IntegratingIs(cfg, s, a);
  }

  lemma FoundRuns(cfg: Config, s: System, a: Attempt, found: Stage)
    requires s.trail != [] && found.Merged? && DoReconcile(s, a.commit) == s.(stage := found)
    ensures Integrating(cfg, s, a) == s.(stage := found)
  {
    hide DoReconcile, Integrating;
    IntegratingIs(cfg, s, a);
  }

  lemma MadeRuns(cfg: Config, s: System, a: Attempt, made: System)
    requires s.trail != [] && DoReconcile(s, a.commit) == made && made.trail == s.trail && made.stage.Committed?
    requires Head(s) == made.stage.g.predecessor && made.stage.g.lease in made.leases
    ensures var stage, i :=
      made.stage, Integration(made.stage.g.id, made.stage.f, a.integrationReceipt, made.stage.commit);
      Integrating(cfg, s, a) == made.(
        trail := s.trail + [stage.commit],
        leases := made.leases[stage.g.lease := made.leases[stage.g.lease].(state := LeaseIntegrated,
            integration := Some(i))],
        stage := Merged(stage.g, stage.f, stage.promotion, i))
  {
    hide DoReconcile, Integrating;
    IntegratingIs(cfg, s, a);
  }

  class EvolutionManager {
    const cfg: Config
    var log: seq<Event>
    var trail: seq<string>
    var leases: map<string, Lease>
    var integrations: map<string, (string, string, string)>
    var rollbackLog: map<string, seq<Tx>>

    constructor (cfg: Config, leases: map<string, Lease>)
      requires forall id :: id in leases ==> leases[id].state != LeaseIntegrated && leases[id].integration.None?
      ensures this.cfg == cfg && Opened(cfg, State())
    {
      this.cfg := cfg;
      log, trail, this.leases, integrations, rollbackLog := [CampaignOpened], [cfg.accepted], leases, map[], map[];
    }

    /** What a promotion recorded by this request says of its own. */
    predicate Fresh(p: Promotion, a: Attempt) {
      p.candidate == a.g.candidate && p.receipt == Some(a.receipt)
    }

    /** The durable state, with no operation under way. */
    ghost function State(): System
      reads this
    {
      System(log, trail, leases, integrations, rollbackLog, {}, Free)
    }

    /** The fold over the event files, filling the lists and the two dictionaries. */
    method InspectUnlocked() returns (s: Snapshot)
      ensures s == Inspect(cfg, log)
    {
      var candidates: seq<Candidate> := [];
      var evaluations: seq<Evaluation> := [];
      var reviews: seq<Review> := [];
      var promotions: seq<Promotion> := [];
      var rollbacks: seq<Rollback> := [];
      for k := 0 to |log|
        invariant Inspect(cfg, log[..k]) == Snapshot(candidates, evaluations, reviews, promotions, rollbacks)
      {
        assert log[..k + 1][..k] == log[..k];
        match log[k] {
          case CandidateAdded(c) => { candidates := candidates + [c]; }
          case CandidateRejected(attempt, cost, reason) => {
            candidates := candidates + [RejectedCandidate(cfg, attempt, cost, reason)];
          }
          case EvaluationCompleted(e) => { evaluations := evaluations + [e]; }
          case ReviewCompleted(r) => { reviews := reviews + [r]; }
          case PromotionEffectApplied(p) => { promotions := PutPromotion(promotions, p.(receipt := None)); }
          case PromotionCompleted(p) => { promotions := PutPromotion(promotions, p); }
          case RollbackEffectApplied(b) => { rollbacks := PutRollback(rollbacks, b.(receipt := None)); }
          case RollbackCompleted(b) => { rollbacks := PutRollback(rollbacks, b); }
          case _ => {}
        }
      }
      assert log[..|log|] == log;
      s := Snapshot(candidates, evaluations, reviews, promotions, rollbacks);
    }

    // ---------- Promotion ----------

    /** The first locked section. */
    method PreparePromotion(a: Attempt) returns (r: Opening)
      requires trail != []
      modifies this`log
      ensures var own := PromotionByGrant(Inspect(cfg, old(log)).promotions, a.g.id);
        && (r.AlreadyDone? <==> own.Some? && own.value.receipt.Some?)
        && (r.AlreadyDone? ==> own == Some(r.p))
        && (r.Prepared? ==> Granted(cfg, old(log), a.g))
        && (r.NotGranted? ==> !Granted(cfg, old(log), a.g))
      ensures !r.Prepared? ==> State() == old(State()) == Do(cfg, old(State()), Steps(a)[0])
      ensures r.Prepared? ==> State().(stage := Promoting(a.g, a.f, r.promotion)) == Do(cfg, old(State()), Steps(a)[0])
    {
      var snapshot := InspectUnlocked();
      var existing := PromotionByGrant(snapshot.promotions, a.g.id);
      if existing.Some? && existing.value.receipt.Some? {
        return AlreadyDone(existing.value);
      }
      if PromotionInputs(cfg, snapshot, a.g, false).None? {
        return NotGranted;
      }
      var promotion := if existing.Some? then existing.value.id else a.newId;
      if existing.None? {
        log := log + [PromotionPrepared(a.g.candidate, a.g.id, promotion, a.g.predecessor)];
      }
      r := Prepared(promotion);
    }

    /** `_reconcile_or_integrate`: three steps, the integration found or made, or nothing. */
    method ReconcileOrIntegrate(a: Attempt, promotion: string) returns (r: Option<Integration>)
      requires trail != []
      modifies this`trail, this`leases, this`integrations
      ensures trail != []
      ensures Integrating(cfg, old(State()).(stage := Promoting(a.g, a.f, promotion)), a)
        == State().(stage := if r.Some? then Merged(a.g, a.f, promotion, r.value) else Free)
    {
      hide Do, DoMoveHead, DoMarkLease, Steps;
      var g := a.g;
      ghost var s := State().(stage := Promoting(g, a.f, promotion));
      if g.lease !in leases {
        RefusedRuns(cfg, s, a);
        return None;
      }
      var lease := leases[g.lease];
      var head := trail[|trail| - 1];
      if lease.state == LeaseIntegrated && lease.integration.Some? {
        var i := lease.integration.value;
        if i.grant != g.id || i.fingerprint != a.f || i.accepted == g.predecessor || head != i.accepted {
          RefusedRuns(cfg, s, a);
          return None;
        }
        FoundRuns(cfg, s, a, Merged(g, a.f, promotion, i));
        return Some(i);
      }
      if head != g.predecessor || lease.state != LeaseReturned || lease.patch != Some(g.patch)
        || lease.base != g.predecessor {
        RefusedRuns(cfg, s, a);
        return None;
      }
      var commit := a.commit;
      if a.f in integrations {
        if (integrations[a.f].0, integrations[a.f].1) != (g.lease, g.id) {
          RefusedRuns(cfg, s, a);
          return None;
        }
        commit := integrations[a.f].2;
      } else if commit == head {
        RefusedRuns(cfg, s, a);
        return None;
      } else {
        integrations := integrations[a.f := (g.lease, g.id, commit)];
      }
      MadeRuns(cfg, s, a, State().(stage := Committed(g, a.f, promotion, commit)));
      trail := trail + [commit];
      var i := Integration(g.id, a.f, a.integrationReceipt, commit);
      leases := leases[g.lease := lease.(state := LeaseIntegrated, integration := Some(i))];
      r := Some(i);
    }

    /** The last locked section: the effect, unless it is on record, and the completion. */
    method CompletePromotion(a: Attempt, promotion: string, i: Integration) returns (r: Result<Promotion, Refusal>)
      requires trail != []
      modifies this`log
      ensures State() == Do(cfg, old(State()).(stage := Merged(a.g, a.f, promotion, i)), Steps(a)[4])
      ensures r.Err? ==> log == old(log)
      ensures var current := PromotionByGrant(Inspect(cfg, old(log)).promotions, a.g.id);
        r.Ok? && (current.Some? ==> current.value.receipt.None? && current.value.accepted == i.accepted) ==>
          log != [] && log[|log| - 1] == PromotionCompleted(r.value) && r.value.grant == a.g.id
            && r.value.accepted == i.accepted && Fresh(r.value, a)
    {
      var snapshot := InspectUnlocked();
      var inputs := PromotionInputs(cfg, snapshot, a.g, true);
      if inputs.None? {
        return Err(Refused);
      }
      var current := PromotionByGrant(snapshot.promotions, a.g.id);
      if current.None? || current.value.accepted != i.accepted {
        var p := Promotion(promotion, a.g.id, inputs.value.c.id, a.g.predecessor, i.accepted, i.receipt, None);
        log := log + [PromotionEffectApplied(p)];
        current := Some(p);
      }
      if current.value.receipt.Some? {
        return Ok(current.value);
      }
      var done := current.value.(candidate := inputs.value.c.id, receipt := Some(a.receipt));
      log := log + [PromotionCompleted(done)];
      r := Ok(done);
    }

    /**
     `promote_candidate`.  A grant that has its promotion gets it again; otherwise the call is
     the five steps of an attempt, and succeeds exactly when the evidence stands and the lease
     is ready, with the revision HEAD then has.
     */
    method PromoteCandidate(a: Attempt) returns (r: Result<Promotion, Refusal>)
      requires Inv(cfg, State()) && Records(cfg, State())
      modifies this`log, this`trail, this`leases, this`integrations
      ensures Inv(cfg, State()) && Records(cfg, State())
      ensures State() == Run(cfg, old(State()), Steps(a))
      ensures var own := PromotionByGrant(Inspect(cfg, old(log)).promotions, a.g.id);
        if own.Some? && own.value.receipt.Some? then r == Ok(own.value) && State() == old(State())
        else
          && (r.Ok? <==> Granted(cfg, old(log), a.g) && LeaseReady(old(State()), a))
          && (r.Ok? ==> Fresh(r.value, a))
      ensures r.Ok? ==>
        PromotionCompleted(r.value) in log && r.value.grant == a.g.id && |trail| >= 2 && r.value.accepted == trail[1]
      ensures r.Ok? ==>
        OnLease(leases, r.value) && PreparedIn(log, a.g.id, r.value.id, cfg.accepted)
    {
      ghost var s := State();
      InvHasTrail(cfg, s);
      RunFive(cfg, s, Steps(a));
      RunKeepsInv(cfg, s, Steps(a));
      RunKeepsRecords(cfg, s, Steps(a));
      hide Inv, Run, Do, Inspect, PromotionInputs, LeaseReady, Granted, PromotionByGrant, Records, OnLease, PreparedIn,
        Fresh;
      var opening := PreparePromotion(a);
      match opening {
        case AlreadyDone(p) => {
          CompleteInLog(cfg, s, p);
          CompletedIsHeads(cfg, s, p);
          FreeStepsDoNothing(cfg, s, a);
          r := Ok(p);
        }
        case NotGranted => {
          FreeStepsDoNothing(cfg, s, a);
          r := Err(Refused);
        }
        case Prepared(promotion) => {
          r := FinishAttempt(s, a, promotion);
        }
      }
      if r.Ok? {
        CompletionOnRecord(cfg, State(), r.value);
      }
    }

    /** The rest of a prepared promotion, from outside the lock to the last locked section. */
    method FinishAttempt(ghost s: System, a: Attempt, promotion: string) returns (r: Result<Promotion, Refusal>)
      requires Inv(cfg, s) && s.stage == Free && Granted(cfg, s.log, a.g) && trail != []
      requires State().(stage := Promoting(a.g, a.f, promotion)) == Do(cfg, s, Steps(a)[0])
      modifies this`log, this`trail, this`leases, this`integrations
      ensures State() == Run(cfg, s, Steps(a))
      ensures r.Ok? <==> LeaseReady(s, a)
      ensures r.Ok? ==>
        PromotionCompleted(r.value) in log && r.value.grant == a.g.id && |trail| >= 2 && r.value.accepted == trail[1]
          && Fresh(r.value, a)
    {
      hide Inv, Run, Do, Inspect, PromotionInputs, LeaseReady, Granted, PromotionByGrant, Target, Completes,
        HasPromotion, Steps, Fresh;
      InvHasTrail(cfg, s);
      RunFive(cfg, s, Steps(a));
      AttemptCompletes(cfg, s, a);
      MergedExactlyWhenReady(cfg, s, a);
      var integration := ReconcileOrIntegrate(a, promotion);
      if integration.None? {
        FreeStepsDoNothing(cfg, State(), a);
        return Err(Refused);
      }
      ghost var merged := State().(stage := Merged(a.g, a.f, promotion, integration.value));
      OwnRecordOnly(cfg, merged);
      MergedHead(cfg, merged);
      r := CompletePromotion(a, promotion, integration.value);
    }

    // ---------- Rollback ----------

    function TransactionOf(f: string): Option<Tx>
      reads this
    {
      if f in rollbackLog && rollbackLog[f] != [] then Some(rollbackLog[f][|rollbackLog[f]| - 1]) else None
    }

    /** No rollback of this grant is on record, or one without its receipt. */
    predicate Unfinished(log: seq<Event>, grant: string) {
      var own := RollbackByGrant(Inspect(cfg, log).rollbacks, grant);
      own.Some? ==> own.value.receipt.None?
    }

    /** The transaction of this request is closed. */
    predicate Closed(a: R.Attempt)
      reads this
    {
      TransactionOf(a.f).Some? && TransactionOf(a.f).value.grant == a.b.id
      && TransactionOf(a.f).value.state == TxCompleted
    }

    method AppendTransaction(f: string, t: Tx)
      modifies this`rollbackLog
      ensures State() == AppendTx(old(State()), f, t)
    {
      rollbackLog := rollbackLog[f := (if f in rollbackLog then rollbackLog[f] else []) + [t]];
    }

    /** The first locked section of a rollback: `None` refuses, a finished record ends the call. */
    method PrepareRollback(a: R.Attempt) returns (r: Option<(Rollback, Option<Promotion>)>)
      requires trail != []
      modifies this`log, this`rollbackLog
      ensures var t := Do(cfg, old(State()), R.Steps(a)[0]);
        if r.Some? && r.value.1.Some? then State().(stage := RollingBack(a.b, a.f, r.value.0.id, r.value.1.value)) == t
        else State() == t
      ensures var own := RollbackByGrant(Inspect(cfg, old(log)).rollbacks, a.b.id);
        r.Some? && r.value.1.None? ==> own == Some(r.value.0) && r.value.0.receipt.Some? && Closed(a)
      ensures r.Some? && r.value.1.Some? ==>
        && r.value.1.value in Inspect(cfg, old(log)).promotions && r.value.1.value.id == a.b.promotion
        && Unfinished(log, a.b.id)
    {
      var snapshot := InspectUnlocked();
      var existing := RollbackByGrant(snapshot.rollbacks, a.b.id);
      if existing.Some? && existing.value.receipt.Some? {
        var t := TransactionOf(a.f);
        if t.None? || t.value.grant != a.b.id {
          return None;
        }
        if t.value.state != TxCompleted {
          AppendTransaction(a.f, t.value.(state := TxCompleted));
        }
        return Some((existing.value, None));
      }
      var found := PromotionById(snapshot.promotions, a.b.promotion);
      if found.None? || found.value.receipt.None? || a.b.current != found.value.accepted
        || a.b.target != found.value.predecessor {
        return None;
      }
      var p := found.value;
      var id := if existing.Some? then existing.value.id else a.newId;
      if existing.None? {
        RollbackPreparedIsInvisible(cfg, log, RollbackPrepared(a.b.id, p.id, id));
        log := log + [RollbackPrepared(a.b.id, p.id, id)];
      }
      r := Some((Rollback(id, a.b.id, p.id, p.predecessor, p.accepted, None), Some(p)));
    }

    /** `_restore_exact_predecessor`: write the intention down, move HEAD back, write that down. */
    method RestoreExactPredecessor(a: R.Attempt, rollback: string, p: Promotion) returns (restored: bool)
      requires trail != []
      modifies this`trail, this`rollbackLog
      ensures trail != []
      ensures DoLogRestored(DoMoveBack(DoLogRollback(old(State()).(stage := RollingBack(a.b, a.f, rollback, p)),
                                                     a.valid)))
        == State().(stage := if restored then Restored(a.b, a.f, rollback, p) else Free)
    {
      var t := TransactionOf(a.f);
      if t.Some? && !TxMatches(t.value, a.b, p) {
        return false;
      }
      var head := trail[|trail| - 1];
      if head == p.predecessor {
        AppendTransaction(a.f, Tx(p.predecessor, p.accepted, a.b.id, PostRef));
        return true;
      }
      if head != p.accepted || !a.valid {
        return false;
      }
      if t.None? {
        AppendTransaction(a.f, Tx(p.predecessor, p.accepted, a.b.id, PreRef));
      }
      trail := trail + [p.predecessor];
      AppendTransaction(a.f, Tx(p.predecessor, p.accepted, a.b.id, PostRef));
      restored := true;
    }

    /** The last locked section of a rollback. */
    method CompleteRollback(a: R.Attempt, rollback: string, p: Promotion) returns (r: Result<Rollback, Refusal>)
      requires trail != []
      modifies this`log, this`rollbackLog
      ensures State() == DoFinishRollback(cfg, old(State()).(stage := Restored(a.b, a.f, rollback, p)), a.receipt, 0)
      ensures r.Ok? ==> r.value.grant == a.b.id && r.value.receipt.Some?
      ensures r.Ok? && Unfinished(old(log), a.b.id) ==>
        r.value.promotion == p.id && r.value.receipt == Some(a.receipt) && Closed(a)
      ensures r.Ok? ==>
        RollbackCompleted(r.value) in log || RollbackByGrant(Inspect(cfg, old(log)).rollbacks, a.b.id) == Some(r.value)
    {
      var snapshot := InspectUnlocked();
      var found := PromotionById(snapshot.promotions, p.id);
      if found.None? {
        return Err(Refused);
      }
      var q := found.value;
      var current := RollbackByGrant(snapshot.rollbacks, a.b.id);
      if current.None? || current.value.predecessor != q.predecessor {
        current := Some(Rollback(rollback, a.b.id, q.id, q.predecessor, q.accepted, None));
        log := log + [RollbackEffectApplied(current.value)];
      }
      if current.value.receipt.Some? {
        return Ok(current.value);
      }
      var done := Rollback(current.value.id, a.b.id, q.id, q.predecessor, q.accepted, Some(a.receipt));
      log := log + [RollbackCompleted(done)];
      AppendTransaction(a.f, Tx(q.predecessor, q.accepted, a.b.id, TxCompleted));
      r := Ok(done);
    }

    /**
     `rollback_promotion`: the five steps of a rollback attempt.  A grant that has its rollback gets
     it again; the record returned is in the log, names the two revisions HEAD went between, and its
     transaction is closed.
     */
    method RollbackPromotion(a: R.Attempt) returns (r: Result<Rollback, Refusal>)
      requires Inv(cfg, State()) && Records(cfg, State())
      modifies this`log, this`trail, this`rollbackLog
      ensures Inv(cfg, State()) && Records(cfg, State())
      ensures State() == Run(cfg, old(State()), R.Steps(a))
      ensures r.Ok? ==> RollbackCompleted(r.value) in log && r.value.grant == a.b.id && |trail| == 3
      ensures r.Ok? ==> r.value.replaced == trail[1] && r.value.predecessor == trail[2] && Closed(a)
      ensures r.Ok? ==> RollbackPrepared(a.b.id, r.value.promotion, r.value.id) in log
      ensures r.Ok? && Unfinished(old(log), a.b.id) ==>
        r.value.promotion == a.b.promotion && r.value.receipt == Some(a.receipt)
    {
      ghost var s := State();
      RunKeepsInv(cfg, s, R.Steps(a));
      RunKeepsRecords(cfg, s, R.Steps(a));
      hide Inv, Run, Records, Closed, Unfinished, R.Steps;
      r := AttemptRollback(a);
      if r.Ok? {
        RollbackOnRecordNow(cfg, State(), r.value);
      }
    }

    /** The five steps of a rollback attempt. */
    method AttemptRollback(a: R.Attempt) returns (r: Result<Rollback, Refusal>)
      requires Inv(cfg, State())
      modifies this`log, this`trail, this`rollbackLog
      ensures State() == Run(cfg, old(State()), R.Steps(a))
      ensures r.Ok? ==> RollbackCompleted(r.value) in log && r.value.grant == a.b.id && Closed(a)
      ensures r.Ok? && Unfinished(old(log), a.b.id) ==>
        r.value.promotion == a.b.promotion && r.value.receipt == Some(a.receipt)
    {
      ghost var s := State();
      InvHasTrail(cfg, s);
      R.RunsStepByStep(cfg, s, a);
      R.StepsAre(cfg, s, a);
      hide Inv, Run, Closed, Unfinished, Do, Inspect, PromotionById, RollbackByGrant, DoFinishRollback, DoLogRollback,
        DoMoveBack, DoLogRestored, DoBeginRollback;
      var opening := PrepareRollback(a);
      if opening.None? {
        R.FreeStepsDoNothing(cfg, State(), a);
        return Err(Refused);
      }
      if opening.value.1.None? {
        R.FreeStepsDoNothing(cfg, State(), a);
        r := Ok(opening.value.0);
        CompleteRollbackInLog(cfg, s, r.value);
        LogOnlyGrows(cfg, s, R.Steps(a)[0]);
        FinishedIsNot(s, a, r.value);
      } else {
        StepKeepsInv(cfg, s, R.Steps(a)[0]);
        r := FinishRollbackAttempt(a, opening.value.0.id, opening.value.1.value);
      }
    }

    lemma FinishedIsNot(s: System, a: R.Attempt, b: Rollback)
      requires RollbackByGrant(Inspect(cfg, s.log).rollbacks, a.b.id) == Some(b) && b.receipt.Some?
      ensures !Unfinished(s.log, a.b.id)
    {
    }

    /** The rest of a prepared rollback, from outside the lock to the last locked section. */
    method FinishRollbackAttempt(a: R.Attempt, rollback: string, p: Promotion) returns (r: Result<Rollback, Refusal>)
      requires trail != [] && Inv(cfg, State().(stage := RollingBack(a.b, a.f, rollback, p)))
      requires Unfinished(log, a.b.id)
      modifies this`log, this`trail, this`rollbackLog
      ensures var locked := old(State()).(stage := RollingBack(a.b, a.f, rollback, p));
        State() == DoFinishRollback(cfg, DoLogRestored(DoMoveBack(DoLogRollback(locked, a.valid))), a.receipt, 0)
      ensures r.Ok? ==> RollbackCompleted(r.value) in log && r.value.grant == a.b.id
      ensures r.Ok? ==> r.value.promotion == p.id && r.value.receipt == Some(a.receipt) && Closed(a)
    {
      ghost var locked := State().(stage := RollingBack(a.b, a.f, rollback, p));
      LogRollbackKeepsInv(cfg, locked, a.valid);
      MoveBackKeepsInv(cfg, DoLogRollback(locked, a.valid));
      LogRestoredKeepsInv(cfg, DoMoveBack(DoLogRollback(locked, a.valid)));
      hide Inv, Inspect, RollbackByGrant, DoFinishRollback, DoLogRollback, DoMoveBack, DoLogRestored;
      var restored := RestoreExactPredecessor(a, rollback, p);
      if !restored {
        R.FreeFinishDoesNothing(cfg, State(), a);
        return Err(Refused);
      }
      r := CompleteRollback(a, rollback, p);
    }
  }

  /** A completed promotion names its preparation and the lease that was integrated for it. */
  lemma CompletionOnRecord(cfg: Config, s: System, p: Promotion)
    requires Inv(cfg, s) && Records(cfg, s) && PromotionCompleted(p) in s.log
    ensures OnLease(s.leases, p) && PreparedIn(s.log, p.grant, p.id, cfg.accepted)
  {
    CompletedIsHeads(cfg, s, p);
    EventOnRecord(cfg, s.log, PromotionCompleted(p));
    assert PromotionEvent(PromotionCompleted(p));
    hide Inv, PreparedIn, OnLease;
  }

  /** A completed rollback names its preparation and the revisions HEAD went between. */
  lemma RollbackOnRecordNow(cfg: Config, s: System, b: Rollback)
    requires Inv(cfg, s) && Records(cfg, s) && RollbackCompleted(b) in s.log
    ensures |s.trail| == 3 && b.replaced == s.trail[1] && b.predecessor == s.trail[2]
    ensures RollbackPrepared(b.grant, b.promotion, b.id) in s.log
  {
    R.CompletedMeansBack(cfg, s, b);
    EventOnRecord(cfg, s.log, RollbackCompleted(b));
    var p := RollbackNamesCompletion(s.log, RollbackCompleted(b));
    CompletedIsHeads(cfg, s, p);
  }

  lemma RollbackPreparedIsInvisible(cfg: Config, log: seq<Event>, e: Event)
    requires e.RollbackPrepared?
    ensures Inspect(cfg, log + [e]) == Inspect(cfg, log)
  {
    assert (log + [e])[..|log|] == log;
  }

  lemma LogOnlyGrows(cfg: Config, s: System, action: Action)
    requires s.trail != []
    ensures forall e :: e in s.log ==> e in Do(cfg, s, action).log
  {
    hide Do;
  }

  lemma MergedHead(cfg: Config, s: System)
    requires Inv(cfg, s) && s.stage.Merged?
    ensures |s.trail| == 2 && s.stage.i.accepted == s.trail[1]
  {
  }

  lemma InvHasTrail(cfg: Config, s: System)
    requires Inv(cfg, s)
    ensures s.trail != []
  {
  }

  lemma CompleteRollbackInLog(cfg: Config, s: System, b: Rollback)
    requires Inv(cfg, s) && b in Inspect(cfg, s.log).rollbacks && b.receipt.Some?
    ensures RollbackCompleted(b) in s.log
  {
    InspectRollbacks(cfg, s.log);
    hide AllBacked, Inspect, FlightsOk;
  }
}
