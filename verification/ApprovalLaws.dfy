/**
 What the relay and its binding decide, one decision at a time: when the last turn counts as
 settled, when a submission is let through, when it arms the continuation, what an acknowledgement
 is, and which frames pass in either direction.
 */
module ApprovalLaws {
  import opened Wrappers
  import opened Sorting
  import opened CanonicalJson
  import opened ApprovalNative
  import opened ApprovalRouting
  import opened ApprovalRelay

  // ---------- The last turn ----------

  /** The frame starts a turn of the binding's thread, when none is open. */
  predicate StartsTurn(b: Binding, op: Op) {
    && op.Feed? && op.frame.name == Some("turn/started") && op.frame.body.TurnBody?
    && op.frame.body.thread == b.thread && (b.settled || b.turn == None || b.turn == Some(""))
  }

  /** The frame completes the binding's own turn. */
  predicate CompletesTurn(b: Binding, op: Op) {
    && op.Feed? && op.frame.name == Some("turn/completed") && op.frame.body.TurnBody?
    && op.frame.body.thread == b.thread && op.frame.body.turn == b.turn
  }

  predicate StartsAt(ops: seq<Op>, k: nat) {
    k < |ops| && StartsTurn(Fed(UNBOUND, ops[..k]), ops[k])
  }

  predicate CompletesAt(ops: seq<Op>, k: nat) {
    k < |ops| && CompletesTurn(Fed(UNBOUND, ops[..k]), ops[k])
  }

  /** A turn was completed and none has been started since. */
  ghost predicate LastCompleted(ops: seq<Op>) {
    exists k: nat :: CompletesAt(ops, k) && forall j: nat :: k < j ==> !StartsAt(ops, j)
  }

  ghost predicate LastStartedAt(ops: seq<Op>, k: nat) {
    StartsAt(ops, k) && forall j: nat :: k < j ==> !StartsAt(ops, j)
  }

  lemma TurnStep(b: Binding, op: Op)
    ensures var after := if op.Feed? then Consumed(b, op.frame) else Erased(b);
      && after.settled == (CompletesTurn(b, op) || (b.settled && !StartsTurn(b, op)))
      && after.turn == (if StartsTurn(b, op) then op.frame.body.turn else b.turn)
      && !(StartsTurn(b, op) && CompletesTurn(b, op))
  {
    hide Fits;
  }

  lemma OneMoreOp(ops: seq<Op>, k: nat)
    requires ops != [] && k < |ops| - 1
    ensures StartsAt(ops[..|ops| - 1], k) <==> StartsAt(ops, k)
    ensures CompletesAt(ops[..|ops| - 1], k) <==> CompletesAt(ops, k)
  {
    hide StartsTurn, CompletesTurn, Fed;
    assert ops[..|ops| - 1][..k] == ops[..k];
  }

  /**
   Over any life of a binding it counts as settled exactly when a turn of its thread was completed
   under the turn's own id and none was started since; and its turn is the last one started.
   */
  lemma {:induction false} SettledExactly(ops: seq<Op>)
    ensures Fed(UNBOUND, ops).settled <==> LastCompleted(ops)
    ensures forall k: nat :: LastStartedAt(ops, k) ==> Fed(UNBOUND, ops).turn == ops[k].frame.body.turn
  {
    if ops == [] {
    } else {
      var n := |ops| - 1;
      SettledExactly(ops[..n]);
      TurnStep(Fed(UNBOUND, ops[..n]), ops[n]);
      CompletionsMove(ops);
      StartsMove(ops);
    }
  }

  lemma CompletionsMove(ops: seq<Op>)
    requires ops != []
    ensures var n := |ops| - 1;
      LastCompleted(ops) <==> CompletesAt(ops, n) || (LastCompleted(ops[..n]) && !StartsAt(ops, n))
  {
    hide StartsAt, CompletesAt;
    var n := |ops| - 1;
    BeyondTheEnd(ops);
    BeyondTheEnd(ops[..n]);
    forall k: nat | k < n
      ensures StartsAt(ops[..n], k) <==> StartsAt(ops, k)
      ensures CompletesAt(ops[..n], k) <==> CompletesAt(ops, k)
    {
      OneMoreOp(ops, k);
    }
    if k: nat :| CompletesAt(ops, k) && forall j: nat :: k < j ==> !StartsAt(ops, j) {
      if k < n {
        assert CompletesAt(ops[..n], k) && forall j: nat :: k < j ==> !StartsAt(ops[..n], j);
      }
    }
    if k: nat :| CompletesAt(ops[..n], k) && forall j: nat :: k < j ==> !StartsAt(ops[..n], j) {
      if !StartsAt(ops, n) {
        assert CompletesAt(ops, k);
        forall j: nat | k < j ensures !StartsAt(ops, j) {
          if j < n { assert !StartsAt(ops[..n], j); }
        }
      }
    }
    if CompletesAt(ops, n) {
      assert forall j: nat :: n < j ==> !StartsAt(ops, j);
    }
  }

  lemma BeyondTheEnd(ops: seq<Op>)
    ensures forall j: nat :: |ops| <= j ==> !StartsAt(ops, j) && !CompletesAt(ops, j)
  {
  }

  lemma StartsMove(ops: seq<Op>)
    requires ops != []
    ensures var n := |ops| - 1;
      forall k: nat :: LastStartedAt(ops, k) ==>
        k <= n && (k < n ==> LastStartedAt(ops[..n], k) && !StartsAt(ops, n)) && (k == n ==> StartsAt(ops, n))
  {
    hide StartsAt;
    var n := |ops| - 1;
    forall k: nat | LastStartedAt(ops, k)
      ensures k <= n && (k < n ==> LastStartedAt(ops[..n], k) && !StartsAt(ops, n)) && (k == n ==> StartsAt(ops, n))
    {
      BeyondTheEnd(ops);
      if k < n {
        forall j: nat | k <= j ensures StartsAt(ops[..n], j) ==> StartsAt(ops, j) {
          BeyondTheEnd(ops[..n]);
          if j < n { OneMoreOp(ops, j); }
        }
        OneMoreOp(ops, k);
      }
    }
  }

  /** No binding ever keeps more than 64 reviews open. */
  lemma {:induction false} OpenReviewsAreBounded(ops: seq<Op>)
    ensures |Fed(UNBOUND, ops).started| <= 64
  {
    if ops == [] {
    } else {
      var n := |ops| - 1;
      OpenReviewsAreBounded(ops[..n]);
      OpenReviewsStep(Fed(UNBOUND, ops[..n]), ops[n]);
    }
  }

  lemma OpenReviewsStep(b: Binding, op: Op)
    requires |b.started| <= 64
    ensures var after := if op.Feed? then Consumed(b, op.frame) else Erased(b); |after.started| <= 64
  {
    hide Consumed;
    if op.Feed? {
      OpenReviewsAre(b, op.frame);
      if op.frame.body.ReviewBody? {
        MapSizes(b.started, op.frame.body.review.id, op.frame.body.review.immutable);
        MapSizes(b.started, op.frame.body.review.id, "");
      }
    }
  }

  /** A frame leaves the open reviews, takes its own off, forgets them all, or adds its own to fewer than 64. */
  ghost predicate OpenReviewsMove(b: Binding, f: Frame, started: map<string, string>) {
    || started == b.started || started == map[]
    || (f.body.ReviewBody? && started == b.started - {f.body.review.id})
    || (f.body.ReviewBody? && started == b.started[f.body.review.id := f.body.review.immutable]
        && |b.started| < 64 && f.body.review.id !in b.started)
  }

  lemma OpenReviewsAre(b: Binding, f: Frame)
    ensures OpenReviewsMove(b, f, Consumed(b, f).started)
  {
    hide Consumed, OpenReviewsMove;
    if f.name == Some(REVIEW_STARTED) {
      ReviewStarts(b, f);
    } else if f.name == Some(REVIEW_COMPLETED) {
      ReviewCompletes(b, f);
    } else {
      NoReview(b, f);
    }
  }

  lemma NoReview(b: Binding, f: Frame)
    requires f.name != Some(REVIEW_STARTED) && f.name != Some(REVIEW_COMPLETED)
    ensures OpenReviewsMove(b, f, Consumed(b, f).started)
  {
    hide REVIEW_STARTED, REVIEW_COMPLETED, THREAD_STARTED, TURN_STARTED, TURN_COMPLETED;
  }

  lemma ReviewStarts(b: Binding, f: Frame)
    requires f.name == Some(REVIEW_STARTED)
    ensures OpenReviewsMove(b, f, Consumed(b, f).started)
  {
    assert REVIEW_STARTED[0] == 'i' && THREAD_STARTED[0] == 't' && TURN_STARTED[0] == 't' && TURN_COMPLETED[0] == 't';
    hide REVIEW_STARTED, REVIEW_COMPLETED, THREAD_STARTED, TURN_STARTED, TURN_COMPLETED;
  }

  lemma ReviewCompletes(b: Binding, f: Frame)
    requires f.name == Some(REVIEW_COMPLETED) && f.name != Some(REVIEW_STARTED)
    ensures OpenReviewsMove(b, f, Consumed(b, f).started)
  {
    assert REVIEW_COMPLETED[0] == 'i' && THREAD_STARTED[0] == 't' && TURN_STARTED[0] == 't' && TURN_COMPLETED[0] == 't';
    hide REVIEW_STARTED, REVIEW_COMPLETED, THREAD_STARTED, TURN_STARTED, TURN_COMPLETED;
  }

  // ---------- Which frames invalidate the binding ----------

  predicate WrongThread(b: Binding, f: Frame) {
    f.name == Some("thread/started") && (!f.body.ThreadBody? || (b.thread.Some? && f.body.thread != b.thread))
  }

  /** A start while a turn is open, or of another thread. */
  predicate WrongStart(b: Binding, f: Frame) {
    f.name == Some("turn/started")
    && (!f.body.TurnBody? || f.body.thread != b.thread || (!b.settled && b.turn != None && b.turn != Some("")))
  }

  predicate WrongCompletion(b: Binding, f: Frame) {
    f.name == Some("turn/completed") && (!f.body.TurnBody? || f.body.thread != b.thread || f.body.turn != b.turn)
  }

  /** A review that is no notification, or is not of the open turn, or has not the closed shape. */
  predicate Stray(b: Binding, f: Frame) {
    f.id.Some? || !f.reply.NoReply? || !f.body.ReviewBody?
    || Some(f.body.review.thread) != b.thread || Some(f.body.review.turn) != b.turn || !f.body.review.wellShaped
  }

  predicate WrongAnnouncement(b: Binding, f: Frame) {
    f.name == Some("item/autoApprovalReview/started")
    && (Stray(b, f) || !f.body.review.status.InProgress? || f.body.review.id in b.started || |b.started| >= 64)
  }

  /** A verdict on no announced review, or none at all, or a second denial, or one that cannot be appealed. */
  predicate WrongVerdict(b: Binding, f: Frame) {
    f.name == Some("item/autoApprovalReview/completed")
    && (Stray(b, f) || f.body.review.id !in b.started || b.started[f.body.review.id] != f.body.review.immutable
        || f.body.review.status.InProgress?
        || (f.body.review.status.Denied? && (b.count != 0 || !f.body.review.appealable)))
  }

  /** A frame with parameters invalidates the binding exactly when it contradicts what is known. */
  lemma InvalidatedExactly(b: Binding, f: Frame)
    requires !b.invalid
    ensures Consumed(b, f).invalid <==>
      && !f.body.Missing? && !f.body.NotAnObject?
      && (WrongThread(b, f) || WrongStart(b, f) || WrongCompletion(b, f) || WrongAnnouncement(b, f)
          || WrongVerdict(b, f))
    ensures Consumed(b, f).invalid ==> Consumed(b, f).event == None && Consumed(b, f).started == map[]
    ensures f.body.Missing? || f.body.NotAnObject? ==> Consumed(b, f) == b
  {
  }

  // ---------- Submitting the approval ----------

  /** What the control message needs, whoever sent it. */
  predicate MaySubmit(s: Relay, wellFormed: bool, command: string) {
    && wellFormed && command == "submit" && !s.used && !s.binding.invalid && s.binding.settled
    && s.routes.adapter == map[] && s.routes.serverIds == {} && s.binding.event.Some?
    && |s.routes.native| < 128
  }

  /**
   A message to a ready control reader is taken up exactly when it is the one well-formed
   submission, the binding is valid and settled with a denial on record, and nothing is
   outstanding either way.  The approval is of that denial, under an id of the relay's own.
   */
  lemma SubmissionExactly(s: Relay, wellFormed: bool, command: string)
    requires s.control == Ready
    ensures var t := Next(s, ControlMessage(wellFormed, command));
      if MaySubmit(s, wellFormed, command) then
        && t.control.Submitting? && t.used
        && t.control.approval == Approval(t.control.key, s.binding.thread, s.binding.event.value)
        && t.control.key in t.routes.native && OutcomeOf(t.routes, t.control.key) == Pending
      else t.control == ControlDead && t.routes.native == s.routes.native
    ensures var t := Next(s, ControlMessage(wellFormed, command));
      && t.sent == s.sent && t.armed == s.armed && t.binding == s.binding && t.routes.adapter == s.routes.adapter
      && (s.used ==> t.used)
  {
    hide KeyText;
  }

  /** The submission arms the continuation exactly on an acknowledgement while the binding is valid and settled. */
  lemma ArmingExactly(s: Relay)
    requires s.control.Awaiting? && !s.armed
    ensures var t := Next(s, Resume);
      && (t.armed <==> OutcomeOf(s.routes, s.control.key) == Acknowledged && !s.binding.invalid && s.binding.settled)
      && (t.armed ==> t.binding.event == None && t.binding.started == map[] && t.control == Reporting)
      && (!t.armed ==> if OutcomeOf(s.routes, s.control.key) == Pending then t == s else t.control == ControlDead)
  {
  }

  /**
   An id is given out exactly while fewer than 128 are outstanding, and for the adapter only when
   its own id is a proper one that is not in use.  It says whose request it stands for, and its number.
   */
  lemma AllocationExactly(r: Routes, original: Option<Id>, native: bool)
    ensures var (t, key) := Allocated(r, original, native);
      && (key.Some? <==>
          && |r.adapter| + |r.native| < 128
          && (native || (original.Some? && !original.value.OtherId?
                         && !exists k :: k in r.adapter && r.adapter[k] == original.value)))
      && (key.Some? ==> key.value == Codes(if native then "unrest-native:" else "unrest-adapter:")
                                     + Digits(r.sequence + 1))
      && (key.Some? ==> t.native == r.native + if native then {key.value} else {})
      && (key.Some? ==> t.adapter == if native then r.adapter else r.adapter[key.value := original.value])
      && (key.Some? ==> t.sequence == r.sequence + 1)
      && (key.Some? && native ==> OutcomeOf(t, key.value) == Pending)
  {
  }

  /** A reader that has died stays so, whatever the others do. */
  lemma DeathIsFinal(s: Relay, step: Step)
    ensures var t := Next(s, step);
      && (s.backend == BackendDead || step == KillBackend || step == TearDown ==> t.backend == BackendDead)
      && (s.adapter == AdapterDead || step == KillAdapter || step == TearDown ==> t.adapter == AdapterDead)
      && (s.control == ControlDead || step == KillControl || step == TearDown ==> t.control == ControlDead)
  {
    hide OnBackendFrame, OnPassFrame, OnAdapterFrame, OnControlMessage;
    match step
    case BackendFrame(f) => BackendMovesItself(s, f);
    case PassFrame => PassingMovesItself(s);
    case AdapterFrame(f) => AdapterMovesItself(s, f);
    case ControlMessage(wellFormed, command) => ControlMovesItself(s, wellFormed, command);
    case _ =>
  }

  lemma BackendMovesItself(s: Relay, f: Frame)
    ensures var t := OnBackendFrame(s, f);
      && t.adapter == s.adapter && t.control == s.control && (s.backend == BackendDead ==> t.backend == BackendDead)
  {
    hide Consumed;
  }

  lemma PassingMovesItself(s: Relay)
    ensures var t := OnPassFrame(s);
      && t.adapter == s.adapter && t.control == s.control && (s.backend == BackendDead ==> t.backend == BackendDead)
  {
    hide Passed;
  }

  lemma AdapterMovesItself(s: Relay, f: Frame)
    ensures var t := OnAdapterFrame(s, f);
      && t.backend == s.backend && t.control == s.control && (s.adapter == AdapterDead ==> t.adapter == AdapterDead)
  {
    hide Admitted, MayContinue;
  }

  lemma ControlMovesItself(s: Relay, wellFormed: bool, command: string)
    ensures var t := OnControlMessage(s, wellFormed, command);
      && t.backend == s.backend && t.adapter == s.adapter && (s.control == ControlDead ==> t.control == ControlDead)
  {
    hide Allocated;
  }

  /** Each thing to be written is written once, and its writer is ready for the next. */
  lemma WritersExactly(s: Relay)
    ensures s.adapter.Writing? ==>
      && Next(s, WriteFrame).sent == s.sent + [Forwarded(s.adapter.frame)]
      && Next(s, WriteFrame) == s.(sent := Next(s, WriteFrame).sent, adapter := Listening)
    ensures s.control.Submitting? ==>
      && Next(s, SubmitApproval).sent == s.sent + [s.control.approval]
      && Next(s, SubmitApproval) == s.(sent := Next(s, SubmitApproval).sent, control := Awaiting(s.control.key))
    ensures s.control == Reporting ==> Next(s, Report) == s.(control := Ready)
  {
  }

  /** A control reader that dies awaiting its request cancels it, so that no answer acknowledges it any more. */
  lemma DyingCancels(s: Relay, step: Step, key: Text)
    requires step == KillControl || step == TearDown
    ensures var t := Next(s, step);
      && (s.control == Awaiting(key) && OutcomeOf(s.routes, key) == Pending ==> OutcomeOf(t.routes, key) == Cancelled)
      && (s.control != Awaiting(key) || OutcomeOf(s.routes, key) != Pending ==>
            OutcomeOf(t.routes, key) == OutcomeOf(s.routes, key))
      && t.routes.native == s.routes.native && t.routes.adapter == s.routes.adapter
      && (step == TearDown ==> t.binding.event == None)
  {
  }

  // ---------- What an acknowledgement is ----------

  /** At this step the backend's empty result under this id is passed on. */
  predicate AcknowledgedAt(steps: seq<Step>, i: nat, key: Text) {
    && i < |steps| && steps[i] == PassFrame && PassingReply(Run(START, steps[..i]), key)
    && Run(START, steps[..i]).backend.frame.reply == EmptyResult
  }

  lemma OutcomeStep(s: Relay, step: Step, key: Text)
    ensures OutcomeOf(Next(s, step).routes, key) == Acknowledged ==>
      || OutcomeOf(s.routes, key) == Acknowledged
      || (step == PassFrame && PassingReply(s, key) && s.backend.frame.reply == EmptyResult)
  {
    hide OnBackendFrame, OnPassFrame, OnAdapterFrame, OnControlMessage, Approvals;
    match step
    case BackendFrame(f) => FramesSettleNothing(s, f, key);
    case PassFrame => PassingSettles(s, key);
    case AdapterFrame(f) => FramesSettleNothing(s, f, key);
    case ControlMessage(wellFormed, command) => SubmissionSettlesNothing(s, wellFormed, command, key);
    case _ =>
  }

  lemma FramesSettleNothing(s: Relay, f: Frame, key: Text)
    ensures OnBackendFrame(s, f).routes == s.routes
    ensures OutcomeOf(OnAdapterFrame(s, f).routes, key) == OutcomeOf(s.routes, key)
  {
    hide Consumed, MayContinue, Barred, Admitted, OutcomeOf;
    AdmittingSettlesNothing(s.routes, f);
    SameOutcomes(s.routes, OnAdapterFrame(s, f).routes, key);
  }

  lemma AdmittingSettlesNothing(r: Routes, f: Frame)
    ensures Admitted(r, f).0.outcomes == r.outcomes
  {
    hide KeyText, InUse;
  }

  lemma SameOutcomes(r: Routes, s: Routes, key: Text)
    requires r.outcomes == s.outcomes
    ensures OutcomeOf(r, key) == OutcomeOf(s, key)
  {
  }

  lemma SubmissionSettlesNothing(s: Relay, wellFormed: bool, command: string, key: Text)
    ensures OutcomeOf(OnControlMessage(s, wellFormed, command).routes, key) == Acknowledged ==>
      OutcomeOf(s.routes, key) == Acknowledged
  {
    hide KeyText;
  }

  lemma PassingSettles(s: Relay, key: Text)
    ensures OutcomeOf(OnPassFrame(s).routes, key) == Acknowledged ==>
      || OutcomeOf(s.routes, key) == Acknowledged
      || (PassingReply(s, key) && s.backend.frame.reply == EmptyResult)
  {
  }

  /** An acknowledgement is the backend's empty result to that very request, and nothing else. */
  lemma {:induction false} AcknowledgementIsEmptyResult(steps: seq<Step>, key: Text)
    requires OutcomeOf(Run(START, steps).routes, key) == Acknowledged
    ensures exists i: nat :: AcknowledgedAt(steps, i, key)
  {
    if steps == [] {
    } else {
      var n := |steps| - 1;
      var before := Run(START, steps[..n]);
      OutcomeStep(before, steps[n], key);
      hide Next;
      if OutcomeOf(before.routes, key) == Acknowledged {
        AcknowledgementIsEmptyResult(steps[..n], key);
        var i: nat :| AcknowledgedAt(steps[..n], i, key);
        assert steps[..n][..i] == steps[..i];
        assert AcknowledgedAt(steps, i, key);
      } else {
        assert AcknowledgedAt(steps, n, key);
      }
    }
  }

  /** A start passes a frozen session only after the backend answered the one approval with an empty result. */
  lemma ContinuationFollowsEmptyResult(steps: seq<Step>)
    requires |Run(START, steps).starts| == 1
    ensures exists i: nat, a :: a in Approvals(Run(START, steps).sent) && a.Approval? && AcknowledgedAt(steps, i, a.key)
  {
    AtMostOneRecovery(steps);
    hide Run, Approvals, AcknowledgedAt;
    var a := Approvals(Run(START, steps).sent)[0];
    AcknowledgementIsEmptyResult(steps, a.key);
    var i: nat :| AcknowledgedAt(steps, i, a.key);
    assert a in Approvals(Run(START, steps).sent);
  }

  // ---------- Frames from the adapter ----------

  /** What the adapter may not say at all, and what it may not say to a frozen session. */
  predicate Forbidden(s: Relay, f: Frame) {
    || f.name == Some("thread/approveGuardianDeniedAction")
    || (s.frozen && (f.name == Some("thread/start") || f.name == Some("thread/resume") || f.name == Some("thread/fork")
                     || f.name == Some("turn/steer")))
    || (s.frozen && f.name == Some("turn/start")
        && !(s.armed && !s.continued && s.binding.settled && NamesThread(f, s.binding.thread)))
  }

  /** The parameters of the frame name this thread; `None` is what no parameters, or others, name. */
  predicate NamesThread(f: Frame, thread: Option<string>) {
    match f.body
    case NotAnObject => false
    case ThreadBody(t) => t == thread
    case TurnBody(t, _) => t == thread
    case ReviewBody(review) => Some(review.thread) == thread
    case Missing => thread == None
    case Incomplete => thread == None
  }

  predicate OwnIdRefused(r: Routes, f: Frame) {
    || (f.name.Some? && f.id.Some?
        && (f.id.value.OtherId? || |r.adapter| + |r.native| >= 128
            || exists k :: k in r.adapter && r.adapter[k] == f.id.value))
    || (f.name.None? && f.id.Some? && f.id.value !in r.serverIds)
    || (f.name.None? && f.id.None? && OtherId("null") !in r.serverIds)
  }

  /**
   A frame of the adapter is written to the backend exactly unless it is forbidden or its id is
   refused: a request under an id of the relay's own, everything else as it is.
   */
  lemma AdapterFrameExactly(s: Relay, f: Frame)
    requires s.adapter == Listening
    ensures var t := Next(s, AdapterFrame(f));
      if Forbidden(s, f) || OwnIdRefused(s.routes, f) then t.adapter == AdapterDead
      else if f.name.Some? && f.id.Some? then
        exists key :: t.adapter == Writing(f.(id := Some(TextId(key)))) && key in t.routes.adapter
                      && t.routes.adapter[key] == f.id.value
      else t.adapter == Writing(f)
    ensures var t := Next(s, AdapterFrame(f)); t.sent == s.sent && t.shown == s.shown && t.control == s.control
  {
    hide KeyText;
    if f.name.Some? && f.id.Some? {
      var (routes, key) := Allocated(s.routes, Some(f.id.value), false);
      if key.Some? && !Forbidden(s, f) {
        var t := Next(s, AdapterFrame(f));
        assert t.adapter == Writing(f.(id := Some(TextId(key.value)))) && key.value in t.routes.adapter
          && t.routes.adapter[key.value] == f.id.value;
      }
    }
  }

  // ---------- Frames from the backend ----------

  /** A frame that does not invalidate the binding is passed on; the first denial freezes the session. */
  lemma BackendFrameExactly(s: Relay, f: Frame)
    requires s.backend == Reading
    ensures var t := Next(s, BackendFrame(f));
      && t.binding == Consumed(s.binding, f)
      && (if t.binding.invalid then t.backend == BackendDead && t.frozen == s.frozen && t.denials == s.denials
          else
            && t.backend == Passing(f)
            && (t.frozen <==> s.frozen || (t.binding.event.Some? && s.binding.event.None?))
            && (t.denials != s.denials <==> t.binding.event.Some? && s.binding.event.None?))
  {
    hide Consumed;
  }

  /** What is not a reply is shown as it is, unless it is a request under an id already open or one too many. */
  lemma NotificationsPass(s: Relay, f: Frame)
    requires s.backend == Passing(f) && f.name.Some?
    ensures var t := Next(s, PassFrame);
      if f.id.Some? && (|s.routes.serverIds| >= 128 || f.id.value in s.routes.serverIds) then
        t.backend == BackendDead && t.shown == s.shown
      else
        && t.backend == Reading && t.shown == s.shown + [f]
        && t.routes.serverIds == s.routes.serverIds + (if f.id.Some? then {f.id.value} else {})
  {
  }

  /** What makes a frame without a method no reply to anything outstanding. */
  predicate AnswersNothing(r: Routes, f: Frame) {
    || !(f.id.Some? && f.id.value.TextId?) || f.reply.NoReply? || f.reply.BothReplies?
    || (f.id.value.s !in r.native && f.id.value.s !in r.adapter)
  }

  /**
   A reply that answers nothing ends the reader.  The answer to the relay's own request is shown to
   nobody and settles it, as acknowledged exactly when it is an empty result; the answer to a
   request of the adapter is shown under that request's own id.
   */
  lemma RepliesExactly(s: Relay, f: Frame)
    requires s.backend == Passing(f) && f.name.None?
    ensures var t := Next(s, PassFrame);
      if AnswersNothing(s.routes, f) then t.backend == BackendDead && t.shown == s.shown
      else
        var key := f.id.value.s;
        && t.backend == Reading && t.routes.serverIds == s.routes.serverIds
        && t.routes.native == s.routes.native - {key}
        && if key in s.routes.native then
             && t.shown == s.shown && t.routes.adapter == s.routes.adapter
             && (key in s.routes.outcomes && s.routes.outcomes[key] == Pending ==>
                   OutcomeOf(t.routes, key) == if f.reply == EmptyResult then Acknowledged else Refused)
           else
             && t.shown == s.shown + [f.(id := Some(s.routes.adapter[key]))]
             && t.routes.adapter == s.routes.adapter - {key} && t.routes.outcomes == s.routes.outcomes
  {
  }
}
