/**
 What a crash costs a rollback: nothing.  Wherever it dies, the retry with the same grant and
 fingerprint completes as soon as the predecessor validates, because the intention is written
 down before HEAD moves and HEAD is looked at again.
 */
module CampaignRollback {
  import opened Wrappers
  import opened Campaign
  import opened CampaignLog
  import opened CampaignSystem
  import opened CampaignRuns

  /** One call of `rollback_promotion`; `valid` is the verdict on the predecessor's tree. */
  datatype Attempt = Attempt(b: RollbackGrant, f: string, newId: string, valid: bool, receipt: string)

  function Steps(a: Attempt): (r: seq<Action>)
    ensures |r| == 5
  {
    [BeginRollback(a.b, a.f, a.newId), LogRollback(a.valid), MoveBack, LogRestored, FinishRollback(a.receipt, 0)]
  }

  /** The grant names a completed promotion with its two revisions. */
  predicate Entitled(log: seq<Event>, b: RollbackGrant, p: Promotion) {
    PromotionCompleted(p) in log && b.promotion == p.id && b.current == p.accepted && b.target == p.predecessor
  }

  /** The transaction log of this fingerprint is empty or this grant's. */
  predicate TxOk(s: System, a: Attempt, p: Promotion) {
    LastTx(s, a.f).Some? ==> TxMatches(LastTx(s, a.f).value, a.b, p)
  }

  ghost predicate Done(log: seq<Event>, grant: string) {
    exists b :: RollbackCompleted(b) in log && b.grant == grant
  }

  /** The attempt may run: nobody holds the lock, and its grant and fingerprint fit. */
  ghost predicate Ready(cfg: Config, s: System, a: Attempt, p: Promotion) {
    Inv(cfg, s) && s.stage == Free && Entitled(s.log, a.b, p) && TxOk(s, a, p)
  }

  /** The operation under way is this one. */
  predicate Holds(s: System, a: Attempt, p: Promotion) {
    match s.stage
    case RollingBack(b, f, _, q) => b == a.b && f == a.f && q == p
    case RollbackLogged(b, f, _, q) => b == a.b && f == a.f && q == p
    case HeadRestored(b, f, _, q) => b == a.b && f == a.f && q == p
    case Restored(b, f, _, q) => b == a.b && f == a.f && q == p
    case _ => false
  }

  // ---------- What the snapshot shows ----------

  lemma OnlyPromotion(log: seq<Event>, ps: seq<Promotion>, p: Promotion)
    requires PromotionsAgree(log, ps) && PromotionCompleted(p) in log
    ensures ps == [p]
  {
    assert p in ps;
  }

  /** The grant is done exactly when its record in the snapshot is complete. */
  lemma OwnRollback(log: seq<Event>, bs: seq<Rollback>, grant: string)
    requires RollbacksAgree(log, bs)
    requires var own := RollbackByGrant(bs, grant);
      own.Some? && own.value.receipt.None? ==> forall q :: q in log && q.RollbackCompleted? ==> q.b.grant != grant
    ensures var own := RollbackByGrant(bs, grant); Done(log, grant) <==> own.Some? && own.value.receipt.Some?
  {
    var own := RollbackByGrant(bs, grant);
    if own.Some? && own.value.receipt.Some? {
      assert RollbackCompleted(own.value) in log;
    }
    if r :| RollbackCompleted(r) in log && r.grant == grant {
      assert r in bs;
      assert RollbackCompleted(r).RollbackCompleted?;
    }
  }

  /**
   The completed promotion is what the grant's id finds, and the grant is done exactly when its
   record is complete.
   */
  lemma SnapshotShows(cfg: Config, s: System, b: RollbackGrant, p: Promotion)
    requires Inv(cfg, s) && Entitled(s.log, b, p)
    ensures var snap := Inspect(cfg, s.log);
      && PromotionById(snap.promotions, b.promotion) == Some(p) && PromotionById(snap.promotions, p.id) == Some(p)
      && p.receipt.Some?
    ensures var own := RollbackByGrant(Inspect(cfg, s.log).rollbacks, b.id);
      (Done(s.log, b.id) <==> own.Some? && own.value.receipt.Some?)
        && (own.Some? ==> own.value.predecessor == p.predecessor)
  {
    CompletedIsHeads(cfg, s, p);
    InspectPromotions(cfg, s.log);
    InspectRollbacks(cfg, s.log);
    var snap := Inspect(cfg, s.log);
    hide Inv, Inspect, PromotionsAgree, RollbacksAgree, Done;
    RollbackOnRecord(cfg, s, snap.rollbacks, b.id, p);
    OnlyPromotion(s.log, snap.promotions, p);
    OwnRollback(s.log, snap.rollbacks, b.id);
  }

  // ---------- Every step leaves a retry possible ----------

  /** What every step of an attempt leaves true, and a crash too. */
  predicate Fits(s: System, a: Attempt, p: Promotion) {
    Entitled(s.log, a.b, p) && TxOk(s, a, p) && (s.stage == Free || Holds(s, a, p))
  }

  /** The last transaction of a fingerprint is read from the transaction log alone. */
  lemma LastTxAfter(s: System, t: System, f: string)
    ensures t.rollbackLog == s.rollbackLog ==> LastTx(t, f) == LastTx(s, f)
    ensures forall tx :: t.rollbackLog == AppendTx(s, f, tx).rollbackLog ==> LastTx(t, f) == Some(tx)
  {
  }

  lemma BeginKeepsFit(cfg: Config, s: System, a: Attempt, p: Promotion)
    requires Inv(cfg, s) && Fits(s, a, p)
    ensures Fits(DoBeginRollback(cfg, s, a.b, a.f, a.newId), a, p)
  {
    SnapshotShows(cfg, s, a.b, p);
    BeginShape(cfg, s, a, p);
    var t := DoBeginRollback(cfg, s, a.b, a.f, a.newId);
    LastTxAfter(s, t, a.f);
    hide Inv, Inspect, PromotionById, RollbackByGrant, Done, DoBeginRollback, LastTx, AppendTx;
  }

  /** The first section closes a finished transaction, or takes the lock, or refuses. */
  lemma BeginShape(cfg: Config, s: System, a: Attempt, p: Promotion)
    requires PromotionById(Inspect(cfg, s.log).promotions, a.b.promotion) == Some(p)
    ensures var t := DoBeginRollback(cfg, s, a.b, a.f, a.newId);
      || t == s
      || (s.stage == Free && t.stage == Free && LastTx(s, a.f).Some?
          && t.rollbackLog == AppendTx(s, a.f, LastTx(s, a.f).value.(state := TxCompleted)).rollbackLog)
      || (t.rollbackLog == s.rollbackLog && t.stage.RollingBack? && t.stage.b == a.b && t.stage.f == a.f
          && t.stage.p == p)
  {
    hide Inspect, PromotionById, RollbackByGrant, LastTx;
  }

  lemma LogKeepsFit(s: System, a: Attempt, p: Promotion)
    requires s.trail != [] && Fits(s, a, p)
    ensures Fits(DoLogRollback(s, a.valid), a, p)
  {
    var t := DoLogRollback(s, a.valid);
    LogShape(s, a.valid);
    LastTxAfter(s, t, a.f);
    hide DoLogRollback, LastTx, AppendTx;
  }

  predicate LogsMatchingTx(s: System, t: System)
    requires s.stage.RollingBack?
  {
    var b, f, p := s.stage.b, s.stage.f, s.stage.p;
    || t.rollbackLog == AppendTx(s, f, Tx(p.predecessor, p.accepted, b.id, PreRef)).rollbackLog
    || t.rollbackLog == AppendTx(s, f, Tx(p.predecessor, p.accepted, b.id, PostRef)).rollbackLog
  }

  /** The intention and the finding are logged under the operation's own fingerprint, matching its grant. */
  lemma LogShape(s: System, valid: bool)
    requires s.trail != []
    ensures var t := DoLogRollback(s, valid);
      && t.log == s.log
      && (!s.stage.RollingBack? ==> t == s)
      && (s.stage.RollingBack? ==>
            && (t.stage == Free || t.stage == RollbackLogged(s.stage.b, s.stage.f, s.stage.rollback, s.stage.p)
                || t.stage == Restored(s.stage.b, s.stage.f, s.stage.rollback, s.stage.p))
            && (t.rollbackLog == s.rollbackLog || LogsMatchingTx(s, t)))
  {
    hide LastTx;
  }

  lemma MoveKeepsFit(s: System, a: Attempt, p: Promotion)
    requires s.trail != [] && Fits(s, a, p)
    ensures Fits(DoMoveBack(s), a, p)
  {
    LastTxAfter(s, DoMoveBack(s), a.f);
    hide LastTx, AppendTx, TxMatches;
  }

  lemma RestoredKeepsFit(s: System, a: Attempt, p: Promotion)
    requires Fits(s, a, p)
    ensures Fits(DoLogRestored(s), a, p)
  {
    LastTxAfter(s, DoLogRestored(s), a.f);
  }

  /** The last section touches the transaction log only to close it. */
  lemma FinishShape(cfg: Config, s: System, p: Promotion, receipt: string, diesAfter: nat)
    requires s.stage.Restored? && PromotionById(Inspect(cfg, s.log).promotions, s.stage.p.id) == Some(p)
    ensures var t := DoFinishRollback(cfg, s, receipt, diesAfter);
      var closing := Tx(p.predecessor, p.accepted, s.stage.b.id, TxCompleted);
      && t.stage == Free
      && (t.rollbackLog == s.rollbackLog || t.rollbackLog == AppendTx(s, s.stage.f, closing).rollbackLog)
  {
    hide Inspect, PromotionById, RollbackByGrant;
  }

  lemma FinishKeepsFit(cfg: Config, s: System, a: Attempt, p: Promotion, receipt: string, diesAfter: nat)
    requires Inv(cfg, s) && Fits(s, a, p)
    ensures Fits(DoFinishRollback(cfg, s, receipt, diesAfter), a, p)
  {
    if s.stage.Restored? {
      SnapshotShows(cfg, s, a.b, p);
      FinishShape(cfg, s, p, receipt, diesAfter);
      LastTxAfter(s, DoFinishRollback(cfg, s, receipt, diesAfter), a.f);
      hide Inv, Inspect, PromotionById, RollbackByGrant, Done, DoFinishRollback, LastTx, AppendTx;
    }
  }

  lemma StepKeepsFit(cfg: Config, s: System, a: Attempt, p: Promotion, k: nat)
    requires k < 5 && s.trail != [] && Inv(cfg, s) && Fits(s, a, p)
    ensures Fits(Do(cfg, s, Steps(a)[k]), a, p)
  {
    hide Inv, Fits, DoBeginRollback, DoLogRollback, DoMoveBack, DoLogRestored, DoFinishRollback;
    if k == 0 {
      BeginKeepsFit(cfg, s, a, p);
    } else if k == 4 {
      FinishKeepsFit(cfg, s, a, p, a.receipt, 0);
    } else if k == 1 {
      LogKeepsFit(s, a, p);
    } else if k == 2 {
      MoveKeepsFit(s, a, p);
    } else {
      RestoredKeepsFit(s, a, p);
    }
  }

  /** After any prefix of an attempt, its grant and fingerprint still fit. */
  lemma {:induction false} PrefixKeepsFit(cfg: Config, s: System, a: Attempt, p: Promotion, k: nat)
    requires s.trail != [] && k <= 5 && Inv(cfg, s) && Fits(s, a, p)
    ensures var t := Run(cfg, s, Steps(a)[..k]); Inv(cfg, t) && Fits(t, a, p)
  {
    RunKeepsInv(cfg, s, Steps(a)[..k]);
    hide Inv, Do, Fits;
    if k == 0 {
      assert Steps(a)[..0] == [];
    } else {
      PrefixKeepsFit(cfg, s, a, p, k - 1);
      RunOneMore(cfg, s, Steps(a), k - 1);
      StepKeepsFit(cfg, Run(cfg, s, Steps(a)[..k - 1]), a, p, k - 1);
    }
  }

  // ---------- An attempt by itself ----------

  lemma InvTrail(cfg: Config, s: System, p: Promotion)
    requires Inv(cfg, s) && PromotionCompleted(p) in s.log
    ensures s.trail != [] && (Head(s) == p.predecessor <==> |s.trail| == 3)
      && (Head(s) == p.accepted <==> |s.trail| == 2)
  {
    hide Inv, TrailOk;
    CompletedIsHeads(cfg, s, p);
    InvTrailOk(cfg, s);
    LastOfTrail(cfg, s.trail);
  }

  lemma InvTrailOk(cfg: Config, s: System)
    requires Inv(cfg, s)
    ensures TrailOk(cfg, s.trail)
  {
  }

  lemma LastOfTrail(cfg: Config, trail: seq<string>)
    requires TrailOk(cfg, trail) && |trail| >= 2
    ensures trail[1] != cfg.accepted
    ensures (trail[|trail| - 1] == cfg.accepted <==> |trail| == 3) && (trail[|trail| - 1] == trail[1] <==> |trail| == 2)
  {
  }

  lemma DoneMeansBack(cfg: Config, s: System, grant: string)
    requires Inv(cfg, s) && Done(s.log, grant)
    ensures |s.trail| == 3
  {
    var b :| RollbackCompleted(b) in s.log && b.grant == grant;
    assert EventOk(cfg, s.trail, s.leases, RollbackCompleted(b));
    hide AllBacked, FlightsOk, LeasesOk, HasPromotion;
  }

  /** The middle of an attempt: HEAD is back, or validation refused it and nothing moved. */
  lemma MiddleRuns(s: System, a: Attempt, p: Promotion)
    requires s.trail != [] && Fits(s, a, p) && s.stage.RollingBack? && p.accepted != p.predecessor
    requires Head(s) == p.predecessor || Head(s) == p.accepted
    ensures var t := DoLogRestored(DoMoveBack(DoLogRollback(s, a.valid)));
      if Head(s) == p.predecessor || a.valid
      then t.stage.Restored? && Fits(t, a, p) && Head(t) == p.predecessor && t.log == s.log
      else t.stage == Free && t.log == s.log && t.trail == s.trail
  {
    hide Fits, TxOk;
    var logged := DoLogRollback(s, a.valid);
    LogKeepsFit(s, a, p);
    LogRuns(s, a, p);
    MoveKeepsFit(logged, a, p);
    RestoredKeepsFit(DoMoveBack(logged), a, p);
    hide DoLogRollback;
  }

  lemma LogRuns(s: System, a: Attempt, p: Promotion)
    requires s.trail != [] && Fits(s, a, p) && s.stage.RollingBack? && p.accepted != p.predecessor
    requires Head(s) == p.predecessor || Head(s) == p.accepted
    ensures var t := DoLogRollback(s, a.valid);
      && t.trail == s.trail && t.log == s.log
      && (Head(s) == p.predecessor ==> t.stage.Restored?)
      && (Head(s) == p.accepted ==> if a.valid then t.stage.RollbackLogged? && t.stage.p == p else t.stage == Free)
  {
    hide LastTx;
  }

  /** The last section records the completion of this grant. */
  lemma FinishRecords(cfg: Config, s: System, a: Attempt, p: Promotion)
    requires s.stage.Restored? && Holds(s, a, p) && PromotionById(Inspect(cfg, s.log).promotions, p.id) == Some(p)
    requires var own := RollbackByGrant(Inspect(cfg, s.log).rollbacks, a.b.id);
      own.Some? ==> own.value.predecessor == p.predecessor && own.value.receipt.None?
    ensures Done(DoFinishRollback(cfg, s, a.receipt, 0).log, a.b.id)
  {
    var own := RollbackByGrant(Inspect(cfg, s.log).rollbacks, a.b.id);
    var id := if own.None? then s.stage.rollback else own.value.id;
    var last := RollbackCompleted(Rollback(id, a.b.id, p.id, p.predecessor, p.accepted, Some(a.receipt)));
    var t := DoFinishRollback(cfg, s, a.receipt, 0);
    hide Inspect, PromotionById, RollbackByGrant;
    assert t.log[|t.log| - 1] == last;
  }

  lemma StepsAre(cfg: Config, s: System, a: Attempt)
    requires s.trail != []
    ensures Do(cfg, s, Steps(a)[0]) == DoBeginRollback(cfg, s, a.b, a.f, a.newId)
    ensures Do(cfg, s, Steps(a)[1]) == DoLogRollback(s, a.valid) && Do(cfg, s, Steps(a)[2]) == DoMoveBack(s)
    ensures Do(cfg, s, Steps(a)[3]) == DoLogRestored(s)
      && Do(cfg, s, Steps(a)[4]) == DoFinishRollback(cfg, s, a.receipt, 0)
  {
    hide Do, DoBeginRollback, DoLogRollback, DoMoveBack, DoLogRestored, DoFinishRollback;
    RollbackStepsAre(cfg, s, a);
  }

  lemma RollbackStepsAre(cfg: Config, s: System, a: Attempt)
    requires s.trail != []
    ensures Do(cfg, s, BeginRollback(a.b, a.f, a.newId)) == DoBeginRollback(cfg, s, a.b, a.f, a.newId)
    ensures Do(cfg, s, LogRollback(a.valid)) == DoLogRollback(s, a.valid)
    ensures Do(cfg, s, MoveBack) == DoMoveBack(s) && Do(cfg, s, LogRestored) == DoLogRestored(s)
    ensures Do(cfg, s, FinishRollback(a.receipt, 0)) == DoFinishRollback(cfg, s, a.receipt, 0)
  {
    hide Do, DoBeginRollback, DoLogRollback, DoMoveBack, DoLogRestored, DoFinishRollback;
    OuterStepsAre(cfg, s, a);
    MiddleStepsAre(cfg, s, a);
  }

  lemma OuterStepsAre(cfg: Config, s: System, a: Attempt)
    requires s.trail != []
    ensures Do(cfg, s, BeginRollback(a.b, a.f, a.newId)) == DoBeginRollback(cfg, s, a.b, a.f, a.newId)
    ensures Do(cfg, s, FinishRollback(a.receipt, 0)) == DoFinishRollback(cfg, s, a.receipt, 0)
  {
    hide DoBeginRollback, DoFinishRollback;
  }

  lemma MiddleStepsAre(cfg: Config, s: System, a: Attempt)
    requires s.trail != []
    ensures Do(cfg, s, LogRollback(a.valid)) == DoLogRollback(s, a.valid)
    ensures Do(cfg, s, MoveBack) == DoMoveBack(s) && Do(cfg, s, LogRestored) == DoLogRestored(s)
  {
    hide DoLogRollback, DoMoveBack, DoLogRestored;
  }

  lemma RunsStepByStep(cfg: Config, s: System, a: Attempt)
    requires s.trail != []
    ensures Run(cfg, s, Steps(a)) ==
      DoFinishRollback(cfg,
                       DoLogRestored(DoMoveBack(DoLogRollback(DoBeginRollback(cfg, s, a.b, a.f, a.newId), a.valid))),
                       a.receipt, 0)
  {
    hide DoBeginRollback, DoLogRollback, DoMoveBack, DoLogRestored, DoFinishRollback, Do, Steps, Run;
    RunFive(cfg, s, Steps(a));
    var r1 := Do(cfg, s, Steps(a)[0]);
    var r2 := Do(cfg, r1, Steps(a)[1]);
    var r3 := Do(cfg, r2, Steps(a)[2]);
    var r4 := Do(cfg, r3, Steps(a)[3]);
    StepsAre(cfg, s, a);
    StepsAre(cfg, r1, a);
    StepsAre(cfg, r2, a);
    StepsAre(cfg, r3, a);
    StepsAre(cfg, r4, a);
  }

  lemma QuietKeepsUndone(log: seq<Event>, e: Event, grant: string)
    requires e.RollbackPrepared? && !Done(log, grant)
    ensures !Done(log + [e], grant)
  {
    forall b | RollbackCompleted(b) in log + [e] ensures RollbackCompleted(b) in log {
    }
  }

  /** The first section of a grant not done yet takes the lock and changes nothing but the log. */
  lemma BeginTakesLock(cfg: Config, s: System, a: Attempt, p: Promotion)
    requires Inv(cfg, s) && s.stage == Free && Fits(s, a, p) && !Done(s.log, a.b.id)
    ensures var t := DoBeginRollback(cfg, s, a.b, a.f, a.newId);
      t.stage.RollingBack? && t.trail == s.trail && !Done(t.log, a.b.id)
  {
    SnapshotShows(cfg, s, a.b, p);
    QuietKeepsUndone(s.log, RollbackPrepared(a.b.id, p.id, a.newId), a.b.id);
    hide Inv, Inspect, PromotionById, RollbackByGrant, Done;
  }

  /** The first section of a grant that is done returns its record. */
  lemma BeginFindsDone(cfg: Config, s: System, a: Attempt, p: Promotion)
    requires Inv(cfg, s) && s.stage == Free && Fits(s, a, p) && Done(s.log, a.b.id)
    ensures var t := DoBeginRollback(cfg, s, a.b, a.f, a.newId); t.stage == Free && t.trail == s.trail && t.log == s.log
  {
    SnapshotShows(cfg, s, a.b, p);
    hide Inv, Inspect, PromotionById, RollbackByGrant, Done;
  }

  lemma FreeStepsDoNothing(cfg: Config, s: System, a: Attempt)
    requires s.trail != [] && s.stage == Free
    ensures DoFinishRollback(cfg, DoLogRestored(DoMoveBack(DoLogRollback(s, a.valid))), a.receipt, 0) == s
  {
  }

  lemma FreeFinishDoesNothing(cfg: Config, s: System, a: Attempt)
    requires s.trail != [] && s.stage == Free
    ensures DoFinishRollback(cfg, s, a.receipt, 0) == s
  {
  }

  lemma CompletedMeansBack(cfg: Config, s: System, b: Rollback)
    requires Inv(cfg, s) && RollbackCompleted(b) in s.log
    ensures |s.trail| == 3
  {
    DoneMeansBack(cfg, s, b.grant);
  }

  /** An attempt completes exactly when it was complete, or HEAD is back already, or the predecessor validates. */
  lemma RollbackCompletes(cfg: Config, s: System, a: Attempt, p: Promotion)
    requires s.trail != [] && Inv(cfg, s) && s.stage == Free && Fits(s, a, p)
    ensures var r := Run(cfg, s, Steps(a));
      && (Done(r.log, a.b.id) <==> Head(s) == p.predecessor || a.valid)
      && (Done(r.log, a.b.id) ==> |r.trail| == 3)
  {
    FitNamesPromotion(s, a, p);
    InvTrail(cfg, s, p);
    RunsStepByStep(cfg, s, a);
    RunKeepsInv(cfg, s, Steps(a));
    hide *;
    var t := DoBeginRollback(cfg, s, a.b, a.f, a.newId);
    if Done(s.log, a.b.id) {
      DoneMeansBack(cfg, s, a.b.id);
      BeginFindsDone(cfg, s, a, p);
      FreeStepsDoNothing(cfg, t, a);
    } else {
      BeginTakesLock(cfg, s, a, p);
      BeginRollbackKeepsInv(cfg, s, a.b, a.f, a.newId);
      BeginKeepsFit(cfg, s, a, p);
      FromLock(cfg, t, a, p);
      SameHead(s, t);
    }
    if Done(Run(cfg, s, Steps(a)).log, a.b.id) {
      DoneMeansBack(cfg, Run(cfg, s, Steps(a)), a.b.id);
    }
  }

  /**
   A rollback is never lost: in every reachable state that nobody holds, a grant naming the
   completed promotion, under a fingerprint not used before, completes exactly when HEAD is back
   already or the predecessor validates.
   */
  lemma RollbackAlwaysPossible(cfg: Config, s: System, actions: seq<Action>, a: Attempt, p: Promotion)
    requires Opened(cfg, s)
    requires var r := Run(cfg, s, actions); r.stage == Free && Entitled(r.log, a.b, p) && a.f !in r.rollbackLog
    ensures var r := Run(cfg, s, actions);
      r.trail != [] && var t := Run(cfg, r, Steps(a));
      && (Done(t.log, a.b.id) <==> Head(r) == p.predecessor || a.valid)
      && (Done(t.log, a.b.id) ==> |t.trail| == 3)
  {
    ReachableHasInv(cfg, s, actions);
    hide Inv, Run, Done, Entitled;
    RollbackCompletes(cfg, Run(cfg, s, actions), a, p);
  }

  lemma FitNamesPromotion(s: System, a: Attempt, p: Promotion)
    requires Fits(s, a, p)
    ensures PromotionCompleted(p) in s.log
  {
  }

  lemma SameHead(s: System, t: System)
    requires s.trail != [] && t.trail == s.trail
    ensures Head(t) == Head(s)
  {
  }

  lemma FromLock(cfg: Config, t: System, a: Attempt, p: Promotion)
    requires t.trail != [] && Inv(cfg, t) && Fits(t, a, p) && t.stage.RollingBack? && !Done(t.log, a.b.id)
    ensures Done(DoFinishRollback(cfg, DoLogRestored(DoMoveBack(DoLogRollback(t, a.valid))), a.receipt, 0).log, a.b.id)
      <==> Head(t) == p.predecessor || a.valid
  {
    TwoRevisions(cfg, t, p);
    MiddleRuns(t, a, p);
    var u := DoLogRestored(DoMoveBack(DoLogRollback(t, a.valid)));
    LogRollbackKeepsInv(cfg, t, a.valid);
    MoveBackKeepsInv(cfg, DoLogRollback(t, a.valid));
    LogRestoredKeepsInv(cfg, DoMoveBack(DoLogRollback(t, a.valid)));
    hide Inv, Inspect, PromotionById, RollbackByGrant, Done, DoLogRollback, DoMoveBack, DoLogRestored;
    if u.stage.Restored? {
      SnapshotShows(cfg, u, a.b, p);
      hide DoFinishRollback;
      FinishRecords(cfg, u, a, p);
    }
  }

  lemma TwoRevisions(cfg: Config, s: System, p: Promotion)
    requires Inv(cfg, s) && PromotionCompleted(p) in s.log
    ensures s.trail != [] && p.accepted != p.predecessor && (Head(s) == p.predecessor || Head(s) == p.accepted)
  {
    InvTrail(cfg, s, p);
    CompletedIsHeads(cfg, s, p);
    assert TrailOk(cfg, s.trail);
    hide Inv;
  }

  // ---------- Crashes ----------

  /** A crash after `k` steps, or in the last one after its first or second record. */
  function Crashed(cfg: Config, s: System, a: Attempt, k: nat, diesAfter: nat): System
    requires s.trail != [] && k <= 5
  {
    if k <= 4 then Run(cfg, s, Steps(a)[..k]).(stage := Free)
    else DoFinishRollback(cfg, Run(cfg, s, Steps(a)[..4]), a.receipt, diesAfter).(stage := Free)
  }

  lemma CrashKeepsFit(cfg: Config, s: System, a: Attempt, p: Promotion, k: nat, diesAfter: nat)
    requires s.trail != [] && k <= 5 && Inv(cfg, s) && s.stage == Free && Fits(s, a, p)
    ensures var t := Crashed(cfg, s, a, k, diesAfter); t.trail != [] && Inv(cfg, t) && t.stage == Free && Fits(t, a, p)
  {
    var n := if k <= 4 then k else 4;
    PrefixKeepsFit(cfg, s, a, p, n);
    var r := Run(cfg, s, Steps(a)[..n]);
    FinishRollbackKeepsInv(cfg, r, a.receipt, diesAfter);
    FinishKeepsFit(cfg, r, a, p, a.receipt, diesAfter);
    ReleaseKeepsInv(cfg, r);
    ReleaseKeepsInv(cfg, DoFinishRollback(cfg, r, a.receipt, diesAfter));
    hide Inv, Run, DoFinishRollback;
  }

  /**
   A rollback that died anywhere, retried with the same grant and fingerprint and nothing else
   in between, completes as soon as the predecessor validates; it needs no validation once HEAD
   was back.
   */
  lemma RetryAfterCrash(cfg: Config, s: System, a: Attempt, p: Promotion, k: nat, diesAfter: nat, again: Attempt)
    requires s.trail != [] && k <= 5 && Inv(cfg, s) && s.stage == Free && Fits(s, a, p)
    requires again.b == a.b && again.f == a.f
    ensures var t := Crashed(cfg, s, a, k, diesAfter);
      var r := Run(cfg, t, Steps(again));
      && t.trail != []
      && (Done(r.log, a.b.id) <==> Head(t) == p.predecessor || again.valid)
      && (Done(r.log, a.b.id) ==> |r.trail| == 3)
  {
    CrashKeepsFit(cfg, s, a, p, k, diesAfter);
    var t := Crashed(cfg, s, a, k, diesAfter);
    assert Fits(t, again, p);
    hide Crashed, Fits, Inv, Run, Done;
    RollbackCompletes(cfg, t, again, p);
  }
}
