/**
 The rollback transaction log over every run: the intention is written down before HEAD moves
 back, the finding only once HEAD is back, and a transaction is closed only under a completed
 rollback.
 */
module RollbackTransactions {
  import opened Wrappers
  import opened Campaign
  import opened CampaignLog
  import opened CampaignSystem
  import opened CampaignRuns
  import opened CampaignRollback

  predicate Has(s: System, f: string, t: Tx) {
    f in s.rollbackLog && t in s.rollbackLog[f]
  }

  /** What a recorded transaction says is so. */
  ghost predicate TxHolds(cfg: Config, s: System, t: Tx) {
    && |s.trail| >= 2 && t.expectedNew == cfg.accepted && t.expectedOld == s.trail[1]
    && (t.state != PreRef ==> |s.trail| == 3)
    && (t.state == TxCompleted ==> Done(s.log, t.grant))
  }

  ghost predicate AllTxHold(cfg: Config, s: System) {
    forall f, t :: Has(s, f, t) ==> TxHolds(cfg, s, t)
  }

  /** HEAD is back only if somebody wrote down that it would be moved back. */
  ghost predicate WrittenAhead(s: System) {
    |s.trail| == 3 ==> exists f, t :: Has(s, f, t) && t.state == PreRef
  }

  ghost predicate FoundBack(s: System, b: Rollback) {
    exists f :: Has(s, f, Tx(b.predecessor, b.replaced, b.grant, PostRef))
  }

  ghost predicate CompletionsFoundBack(s: System) {
    forall b :: RollbackCompleted(b) in s.log ==> FoundBack(s, b)
  }

  ghost predicate StageLogged(s: System) {
    match s.stage
    case RollbackLogged(b, f, _, p) => Has(s, f, Tx(p.predecessor, p.accepted, b.id, PreRef))
    case HeadRestored(b, f, _, p) => Has(s, f, Tx(p.predecessor, p.accepted, b.id, PreRef))
    case Restored(b, f, _, p) => Has(s, f, Tx(p.predecessor, p.accepted, b.id, PostRef))
    case _ => true
  }

  ghost predicate TxInv(cfg: Config, s: System) {
    AllTxHold(cfg, s) && WrittenAhead(s) && CompletionsFoundBack(s) && StageLogged(s)
  }

  // ---------- What stays ----------

  lemma LastTxIsThere(s: System, f: string)
    ensures LastTx(s, f).Some? ==> Has(s, f, LastTx(s, f).value)
  {
  }

  lemma AppendedTx(s: System, f: string, t: Tx)
    ensures forall g, u :: Has(AppendTx(s, f, t), g, u) <==> Has(s, g, u) || (g == f && u == t)
  {
  }

  lemma DoneStays(before: seq<Event>, after: seq<Event>, grant: string)
    requires before <= after && Done(before, grant)
    ensures Done(after, grant)
  {
    var b :| RollbackCompleted(b) in before && b.grant == grant;
    assert RollbackCompleted(b) in after;
  }

  /** Everything but the transaction log, HEAD and completed rollbacks may change. */
  lemma QuietKeepsTx(cfg: Config, s: System, t: System)
    requires TxInv(cfg, s) && t.rollbackLog == s.rollbackLog && s.log <= t.log && s.trail <= t.trail
    requires |t.trail| == 3 <==> |s.trail| == 3
    requires forall b :: RollbackCompleted(b) in t.log ==> RollbackCompleted(b) in s.log
    requires StageLogged(t)
    ensures TxInv(cfg, t)
  {
    forall f, x | Has(t, f, x) ensures TxHolds(cfg, t, x) {
      assert Has(s, f, x) && TxHolds(cfg, s, x);
      if x.state == TxCompleted { DoneStays(s.log, t.log, x.grant); }
    }
    if |t.trail| == 3 {
      var f, x :| Has(s, f, x) && x.state == PreRef;
      assert Has(t, f, x);
    }
    forall b | RollbackCompleted(b) in t.log ensures FoundBack(t, b) {
      assert FoundBack(s, b);
      var f :| Has(s, f, Tx(b.predecessor, b.replaced, b.grant, PostRef));
      assert Has(t, f, Tx(b.predecessor, b.replaced, b.grant, PostRef));
    }
  }

  /** A transaction that says what is so may be recorded. */
  lemma RecordKeepsTx(cfg: Config, s: System, f: string, x: Tx, stage: Stage)
    requires TxInv(cfg, s) && TxHolds(cfg, s, x)
    requires StageLogged(AppendTx(s, f, x).(stage := stage))
    ensures TxInv(cfg, AppendTx(s, f, x).(stage := stage))
  {
    var t := AppendTx(s, f, x).(stage := stage);
    AppendedTx(s, f, x);
    assert forall g, u :: Has(t, g, u) <==> Has(AppendTx(s, f, x), g, u);
    hide AppendTx, Has;
    forall g, u | Has(t, g, u) ensures TxHolds(cfg, t, u) {
      assert TxHolds(cfg, s, u);
    }
    if |t.trail| == 3 {
      var g, u :| Has(s, g, u) && u.state == PreRef;
      assert Has(t, g, u);
    }
    forall b | RollbackCompleted(b) in t.log ensures FoundBack(t, b) {
      assert FoundBack(s, b);
      var g :| Has(s, g, Tx(b.predecessor, b.replaced, b.grant, PostRef));
      assert Has(t, g, Tx(b.predecessor, b.replaced, b.grant, PostRef));
    }
  }

  // ---------- Steps ----------

  predicate OfRollback(action: Action) {
    action.BeginRollback? || action.LogRollback? || action.MoveBack? || action.LogRestored? || action.FinishRollback?
  }

  predicate RollbackStage(stage: Stage) {
    stage.RollbackLogged? || stage.HeadRestored? || stage.Restored?
  }

  lemma CandidateIsNoRollback(cfg: Config, s: Snapshot, args: CandidateArgs, lease: Lease)
    ensures !CandidateEvent(cfg, s, args, lease).RollbackCompleted?
  {
    hide StateOf, FindCandidate;
  }

  predicate Evidence(action: Action) {
    action.AddCandidate? || action.BeginEvaluation? || action.FinishEvaluation? || action.BeginReview?
    || action.FinishReview?
  }

  /** No other operation records a transaction, completes a rollback or takes HEAD back. */
  lemma OthersAreQuiet(cfg: Config, s: System, action: Action)
    requires Inv(cfg, s) && s.trail != [] && !OfRollback(action)
    ensures QuietStep(s, Do(cfg, s, action))
  {
    hide Inv, Do, QuietStep;
    if Evidence(action) {
      EvidenceIsQuiet(cfg, s, action);
    } else {
      PromotionIsQuiet(cfg, s, action);
    }
  }

  ghost predicate QuietStep(s: System, t: System) {
    && t.rollbackLog == s.rollbackLog && (|t.trail| == 3 <==> |s.trail| == 3)
    && (forall b :: RollbackCompleted(b) in t.log ==> RollbackCompleted(b) in s.log)
    && (t.stage == s.stage || !RollbackStage(t.stage))
  }

  lemma EvidenceIsQuiet(cfg: Config, s: System, action: Action)
    requires s.trail != [] && Evidence(action)
    ensures QuietStep(s, Do(cfg, s, action))
  {
    hide Inspect, CandidateEvent, FindCandidate, FindEvaluation, FindReview, StateOf, EvaluationResult, ReviewResult;
    if action.AddCandidate? && action.args.lease in s.leases {
      CandidateIsNoRollback(cfg, Inspect(cfg, s.log), action.args, s.leases[action.args.lease]);
    }
  }

  lemma PromotionIsQuiet(cfg: Config, s: System, action: Action)
    requires Inv(cfg, s) && s.trail != [] && !OfRollback(action) && !Evidence(action)
    ensures QuietStep(s, Do(cfg, s, action))
  {
    hide Inv, Inspect, StateOf, PromotionInputs, PromotionByGrant, DoFinishPromotion, DoMoveHead;
    match action
    case MoveHead => MovingOnIsQuiet(cfg, s);
    case FinishPromotion(receipt, dies) => FinishingIsQuiet(cfg, s, receipt, dies);
    case _ =>
  }

  lemma MovingOnIsQuiet(cfg: Config, s: System)
    requires Inv(cfg, s) && s.trail != []
    ensures var t := DoMoveHead(s);
      && t.rollbackLog == s.rollbackLog && t.log == s.log && (|t.trail| == 3 <==> |s.trail| == 3)
      && (t.stage == s.stage || !RollbackStage(t.stage))
  {
    hide AllBacked, FlightsOk, EventsOk, LeasesOk, HasPromotion;
  }

  lemma FinishingIsQuiet(cfg: Config, s: System, receipt: string, dies: bool)
    ensures var t := DoFinishPromotion(cfg, s, receipt, dies);
      && t.rollbackLog == s.rollbackLog && t.trail == s.trail
      && (forall b :: RollbackCompleted(b) in t.log ==> RollbackCompleted(b) in s.log)
      && (t.stage == s.stage || !RollbackStage(t.stage))
  {
    hide Inspect, PromotionInputs, PromotionByGrant;
  }

  lemma OtherKeepsTx(cfg: Config, s: System, action: Action)
    requires s.trail != [] && Inv(cfg, s) && TxInv(cfg, s) && !OfRollback(action)
    ensures TxInv(cfg, Do(cfg, s, action))
  {
    OthersAreQuiet(cfg, s, action);
    hide Inv, Do, AllTxHold, WrittenAhead, CompletionsFoundBack;
    QuietKeepsTx(cfg, s, Do(cfg, s, action));
  }

  lemma BeginKeepsTx(cfg: Config, s: System, b: RollbackGrant, f: string, newId: string)
    requires Inv(cfg, s) && TxInv(cfg, s)
    ensures TxInv(cfg, DoBeginRollback(cfg, s, b, f, newId))
  {
    var own := RollbackByGrant(Inspect(cfg, s.log).rollbacks, b.id);
    var t := DoBeginRollback(cfg, s, b, f, newId);
    BeginsQuietly(cfg, s, b, f, newId);
    hide DoBeginRollback, Inspect, AllTxHold, WrittenAhead, CompletionsFoundBack;
    if t.rollbackLog == s.rollbackLog {
      hide Inv;
      QuietKeepsTx(cfg, s, t);
    } else {
      ClosedIsDone(cfg, s, own.value);
      hide Inv, LastTx;
      LastTxIsThere(s, f);
      LastTxHolds(cfg, s, f);
      RecordKeepsTx(cfg, s, f, LastTx(s, f).value.(state := TxCompleted), s.stage);
    }
  }

  lemma LastTxHolds(cfg: Config, s: System, f: string)
    requires TxInv(cfg, s) && LastTx(s, f).Some?
    ensures TxHolds(cfg, s, LastTx(s, f).value)
  {
    assert Has(s, f, LastTx(s, f).value);
  }

  lemma ClosedIsDone(cfg: Config, s: System, own: Rollback)
    requires Inv(cfg, s) && own in Inspect(cfg, s.log).rollbacks && own.receipt.Some?
    ensures Done(s.log, own.grant) && |s.trail| == 3
  {
    InspectRollbacks(cfg, s.log);
    assert RollbackCompleted(own) in s.log;
    DoneMeansBack(cfg, s, own.grant);
  }

  lemma BeginsQuietly(cfg: Config, s: System, b: RollbackGrant, f: string, newId: string)
    ensures var t := DoBeginRollback(cfg, s, b, f, newId);
      var own := RollbackByGrant(Inspect(cfg, s.log).rollbacks, b.id);
      && t.trail == s.trail && (t.stage == s.stage || t.stage.RollingBack?)
      && (forall q :: RollbackCompleted(q) in t.log ==> RollbackCompleted(q) in s.log)
      && (t.rollbackLog == s.rollbackLog
          || (own.Some? && own.value.receipt.Some? && LastTx(s, f).Some? && LastTx(s, f).value.grant == b.id
              && t == AppendTx(s, f, LastTx(s, f).value.(state := TxCompleted))))
  {
    hide Inspect, LastTx, PromotionById;
  }

  lemma LogKeepsTx(cfg: Config, s: System, valid: bool)
    requires s.trail != [] && Inv(cfg, s) && TxInv(cfg, s)
    ensures TxInv(cfg, DoLogRollback(s, valid))
  {
    var t := DoLogRollback(s, valid);
    if s.stage.RollingBack? {
      var b, f, r, p := s.stage.b, s.stage.f, s.stage.rollback, s.stage.p;
      RollsBackCompletion(cfg, s);
      InvTrail(cfg, s, p);
      CompletedIsHeads(cfg, s, p);
      hide Inv, AllTxHold, WrittenAhead, CompletionsFoundBack;
      if Head(s) == p.predecessor && t.stage.Restored? {
        AppendedTx(s, f, Tx(p.predecessor, p.accepted, b.id, PostRef));
        RecordKeepsTx(cfg, s, f, Tx(p.predecessor, p.accepted, b.id, PostRef), Restored(b, f, r, p));
      } else if t.stage.RollbackLogged? && LastTx(s, f).None? {
        AppendedTx(s, f, Tx(p.predecessor, p.accepted, b.id, PreRef));
        RecordKeepsTx(cfg, s, f, Tx(p.predecessor, p.accepted, b.id, PreRef), RollbackLogged(b, f, r, p));
      } else {
        if t.stage.RollbackLogged? {
          IntentionStands(cfg, s, f, b, p);
        }
        QuietKeepsTx(cfg, s, t);
      }
    }
  }

  lemma RollsBackCompletion(cfg: Config, s: System)
    requires Inv(cfg, s) && s.stage.RollingBack?
    ensures PromotionCompleted(s.stage.p) in s.log
  {
  }

  /** While HEAD is not back, what is written down for it is the intention. */
  lemma IntentionStands(cfg: Config, s: System, f: string, b: RollbackGrant, p: Promotion)
    requires TxInv(cfg, s) && |s.trail| == 2 && LastTx(s, f).Some? && TxMatches(LastTx(s, f).value, b, p)
    ensures Has(s, f, Tx(p.predecessor, p.accepted, b.id, PreRef))
  {
    LastTxHolds(cfg, s, f);
    LastTxIsThere(s, f);
    hide LastTx, TxInv;
  }

  lemma MoveBackKeepsTx(cfg: Config, s: System)
    requires s.trail != [] && TxInv(cfg, s) && Inv(cfg, s)
    ensures TxInv(cfg, DoMoveBack(s))
  {
    var t := DoMoveBack(s);
    if t.stage.HeadRestored? && s.stage.RollbackLogged? {
      LoggedIsHalfway(cfg, s);
      hide Inv;
      var intended := Tx(s.stage.p.predecessor, s.stage.p.accepted, s.stage.b.id, PreRef);
      assert Has(t, s.stage.f, intended);
      forall f, x | Has(t, f, x) ensures TxHolds(cfg, t, x) {
        assert Has(s, f, x) && TxHolds(cfg, s, x);
      }
      NothingFoundBack(cfg, s);
    } else {
      hide Inv, AllTxHold, WrittenAhead, CompletionsFoundBack;
      QuietKeepsTx(cfg, s, t);
    }
  }

  lemma NothingFoundBack(cfg: Config, s: System)
    requires AllTxHold(cfg, s) && |s.trail| != 3
    ensures forall b :: !FoundBack(s, b)
  {
    forall b: Rollback, f: string ensures !Has(s, f, Tx(b.predecessor, b.replaced, b.grant, PostRef)) {
      assert !TxHolds(cfg, s, Tx(b.predecessor, b.replaced, b.grant, PostRef));
    }
  }

  lemma LoggedIsHalfway(cfg: Config, s: System)
    requires Inv(cfg, s) && s.stage.RollbackLogged?
    ensures |s.trail| == 2
  {
  }

  lemma LogRestoredKeepsTx(cfg: Config, s: System)
    requires Inv(cfg, s) && TxInv(cfg, s)
    ensures TxInv(cfg, DoLogRestored(s))
  {
    if s.stage.HeadRestored? {
      var b, f, p := s.stage.b, s.stage.f, s.stage.p;
      RestoredIsBack(cfg, s);
      CompletedIsHeads(cfg, s, p);
      hide Inv, AllTxHold, WrittenAhead, CompletionsFoundBack;
      AppendedTx(s, f, Tx(p.predecessor, p.accepted, b.id, PostRef));
      RecordKeepsTx(cfg, s, f, Tx(p.predecessor, p.accepted, b.id, PostRef), Restored(b, f, s.stage.rollback, p));
    }
  }

  lemma RestoredIsBack(cfg: Config, s: System)
    requires Inv(cfg, s) && (s.stage.HeadRestored? || s.stage.Restored?)
    ensures |s.trail| == 3 && PromotionCompleted(s.stage.p) in s.log
  {
  }

  lemma FinishKeepsTx(cfg: Config, s: System, receipt: string, diesAfter: nat)
    requires Inv(cfg, s) && TxInv(cfg, s)
    ensures TxInv(cfg, DoFinishRollback(cfg, s, receipt, diesAfter))
  {
    var snap := Inspect(cfg, s.log);
    hide Inspect, PromotionById, RollbackByGrant, Inv, AllTxHold, WrittenAhead, CompletionsFoundBack;
    QuietKeepsTx(cfg, s, s.(stage := Free));
    if s.stage.Restored? && PromotionById(snap.promotions, s.stage.p.id).Some? {
      RestoredFacts(cfg, s);
      RestoredIsBack(cfg, s);
      CompletedIsHeads(cfg, s, s.stage.p);
      var b, f, p, done := s.stage.b, s.stage.f, s.stage.p, s.(stage := Free);
      var current := RollbackByGrant(snap.rollbacks, b.id);
      assert Has(s, f, Tx(p.predecessor, p.accepted, b.id, PostRef));
      if current.None? {
        var effect := RollbackEffectApplied(Rollback(s.stage.rollback, b.id, p.id, p.predecessor, p.accepted, None));
        QuietKeepsTx(cfg, done, Append(done, effect));
        EndKeepsTx(cfg, Append(done, effect), f,
                   Rollback(s.stage.rollback, b.id, p.id, p.predecessor, p.accepted, Some(receipt)));
      } else if current.value.receipt.None? {
        EndKeepsTx(cfg, done, f, Rollback(current.value.id, b.id, p.id, p.predecessor, p.accepted, Some(receipt)));
      }
    }
  }

  /** The completion, with or without the closing transaction. */
  lemma EndKeepsTx(cfg: Config, s: System, f: string, b: Rollback)
    requires TxInv(cfg, s) && s.stage == Free && |s.trail| == 3
    requires b.predecessor == cfg.accepted && b.replaced == s.trail[1]
    requires Has(s, f, Tx(b.predecessor, b.replaced, b.grant, PostRef))
    ensures var t := Append(s, RollbackCompleted(b));
      TxInv(cfg, t) && TxInv(cfg, AppendTx(t, f, Tx(b.predecessor, b.replaced, b.grant, TxCompleted)))
  {
    var t := Append(s, RollbackCompleted(b));
    assert RollbackCompleted(b) in t.log;
    CompletionKeepsTx(cfg, s, f, b);
    hide AllTxHold, WrittenAhead, CompletionsFoundBack;
    RecordKeepsTx(cfg, t, f, Tx(b.predecessor, b.replaced, b.grant, TxCompleted), Free);
    assert AppendTx(t, f, Tx(b.predecessor, b.replaced, b.grant, TxCompleted)).stage == Free;
  }

  lemma CompletionKeepsTx(cfg: Config, s: System, f: string, b: Rollback)
    requires TxInv(cfg, s) && s.stage == Free && Has(s, f, Tx(b.predecessor, b.replaced, b.grant, PostRef))
    ensures TxInv(cfg, Append(s, RollbackCompleted(b)))
  {
    var t := Append(s, RollbackCompleted(b));
    forall g, x | Has(t, g, x) ensures TxHolds(cfg, t, x) {
      assert Has(s, g, x) && TxHolds(cfg, s, x);
      if x.state == TxCompleted { DoneStays(s.log, t.log, x.grant); }
    }
    if |t.trail| == 3 {
      var g, x :| Has(s, g, x) && x.state == PreRef;
      assert Has(t, g, x);
    }
    forall q | RollbackCompleted(q) in t.log ensures FoundBack(t, q) {
      var g := f;
      if RollbackCompleted(q) in s.log {
        assert FoundBack(s, q);
        g :| Has(s, g, Tx(q.predecessor, q.replaced, q.grant, PostRef));
      }
      assert Has(t, g, Tx(q.predecessor, q.replaced, q.grant, PostRef));
    }
  }

  // ---------- Every run ----------

  lemma StepKeepsTx(cfg: Config, s: System, action: Action)
    requires s.trail != [] && Inv(cfg, s) && TxInv(cfg, s)
    ensures TxInv(cfg, Do(cfg, s, action))
  {
    hide Inv, TxInv, DoBeginRollback, DoLogRollback, DoMoveBack, DoLogRestored, DoFinishRollback;
    if !OfRollback(action) {
      hide Do;
      OtherKeepsTx(cfg, s, action);
    } else {
      match action {
        case BeginRollback(b, f, newId) => BeginKeepsTx(cfg, s, b, f, newId);
        case LogRollback(valid) => LogKeepsTx(cfg, s, valid);
        case MoveBack => MoveBackKeepsTx(cfg, s);
        case LogRestored => LogRestoredKeepsTx(cfg, s);
        case FinishRollback(receipt, diesAfter) => FinishKeepsTx(cfg, s, receipt, diesAfter);
      }
    }
  }

  lemma {:induction false} RunKeepsTx(cfg: Config, s: System, actions: seq<Action>)
    requires s.trail != [] && Inv(cfg, s) && TxInv(cfg, s)
    ensures TxInv(cfg, Run(cfg, s, actions))
  {
    hide Inv, TxInv, Do;
    if actions == [] {
    } else {
      var n := |actions| - 1;
      RunKeepsTx(cfg, s, actions[..n]);
      RunKeepsInv(cfg, s, actions[..n]);
      StepKeepsTx(cfg, Run(cfg, s, actions[..n]), actions[n]);
    }
  }

  /**
   In every reachable state every transaction on record says what is so, HEAD is back only with
   the intention on record, and a rollback is completed only with the finding on record.
   */
  lemma TransactionsAreTrue(cfg: Config, s: System, actions: seq<Action>)
    requires Opened(cfg, s)
    ensures var r := Run(cfg, s, actions);
      && (forall f, t :: Has(r, f, t) ==> TxHolds(cfg, r, t))
      && (|r.trail| == 3 ==> exists f, t :: Has(r, f, t) && t.state == PreRef)
      && (forall b :: RollbackCompleted(b) in r.log ==> FoundBack(r, b))
  {
    OpenedHasInv(cfg, s);
    OpenedHasTx(cfg, s);
    hide Run, Inv, Opened;
    RunKeepsTx(cfg, s, actions);
  }

  lemma OpenedHasTx(cfg: Config, s: System)
    requires Opened(cfg, s)
    ensures s.trail != [] && TxInv(cfg, s)
  {
  }
}
