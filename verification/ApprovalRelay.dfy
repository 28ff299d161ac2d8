/**
 The approval relay as three concurrent readers over shared flags (`run` in
 `approval_relay.py`).  A step is one stretch between awaits; any reader may run next, and any
 reader may die at an await.  A reader that dies stops for good; the others may still run until
 everything is torn down.
 */
module ApprovalRelay {
  import opened Wrappers
  import opened CanonicalJson
  import opened ApprovalNative
  import opened ApprovalRouting

  const APPROVE := "thread/approveGuardianDeniedAction"
  const TURN_START := "turn/start"
  const FROZEN_OUT := {"thread/start", "thread/resume", "thread/fork", "turn/steer"}

  /** What was written to the backend: the private approval, or an adapter frame. */
  datatype Sent = Approval(key: Text, thread: Option<string>, review: Review) | Forwarded(frame: Frame)

  datatype BackendReader = Reading | Passing(frame: Frame) | BackendDead

  datatype AdapterReader = Listening | Writing(frame: Frame) | AdapterDead

  datatype ControlReader =
    | Ready
    | Submitting(key: Text, approval: Sent)
    | Awaiting(key: Text)
    | Reporting
    | ControlDead

  /**
   `sent` is the history of backend frames, `shown` that of the adapter's frames,
   `starts` counts the `turn/start` frames admitted
   after the freeze, with the thread of the last one, and `denials` the recorded denials.
   */
  datatype Relay = Relay(
    binding: Binding, routes: Routes,
    used: bool, armed: bool, continued: bool, frozen: bool,
    backend: BackendReader, adapter: AdapterReader, control: ControlReader,
    sent: seq<Sent>, shown: seq<Frame>, starts: seq<Option<string>>, denials: seq<Review>)

  const START := Relay(UNBOUND, NO_ROUTES, false, false, false, false, Reading, Listening, Ready, [], [], [], [])

  datatype Step =
    | BackendFrame(frame: Frame)
    | PassFrame
    | AdapterFrame(frame: Frame)
    | WriteFrame
    | ControlMessage(wellFormed: bool, command: string)
    | SubmitApproval
    | Resume
    | Report
    | KillBackend
    | KillAdapter
    | KillControl
    | TearDown

  // ---------- The backend reader ----------

  function OnBackendFrame(s: Relay, f: Frame): Relay {
    if s.backend != Reading then s
    else
      var b := Consumed(s.binding, f);
      var t := s.(binding := b);
      if b.invalid then t.(backend := BackendDead)
      else if b.event.Some? && s.binding.event.None?
        then t.(frozen := true, denials := s.denials + [b.event.value], backend := Passing(f))
      else t.(backend := Passing(f))
  }

  /**
   What is written to the adapter for a frame: a reply goes to its own request or is swallowed;
   `None` ends the reader.
   */
  function Passed(r: Routes, f: Frame): (Routes, Option<seq<Frame>>) {
    if f.name.None? then
      match Replied(r, f).1
      case Unroutable => (r, None)
      case Swallowed => (Replied(r, f).0, Some([]))
      case Routed(reply) => (Replied(r, f).0, Some([reply]))
    else if f.id.None? then (r, Some([f]))
    else if |r.serverIds| >= MAX_OUTSTANDING || f.id.value in r.serverIds then (r, None)
    else (r.(serverIds := r.serverIds + {f.id.value}), Some([f]))
  }

  function OnPassFrame(s: Relay): Relay {
    if !s.backend.Passing? then s
    else
      var (routes, written) := Passed(s.routes, s.backend.frame);
      if written.None? then s.(routes := routes, backend := BackendDead)
      else s.(routes := routes, backend := Reading, shown := s.shown + written.value)
  }

  // ---------- The adapter reader ----------

  /** `frame.get("params", {}).get("threadId")`; `None` when the parameters are no object. */
  function ThreadParameter(f: Frame): Option<Option<string>> {
    match f.body
    case NotAnObject => None
    case ThreadBody(thread) => Some(thread)
    case TurnBody(thread, _) => Some(thread)
    case ReviewBody(review) => Some(Some(review.thread))
    case _ => Some(Option<string>.None)
  }

  predicate MayContinue(s: Relay, f: Frame) {
    s.armed && !s.continued && s.binding.settled && ThreadParameter(f) == Some(s.binding.thread)
  }

  /** Taking up the continuation, where the frame is a start after the freeze. */
  function TakeUp(s: Relay, f: Frame): Relay {
    if s.frozen && f.name == Some(TURN_START) && MayContinue(s, f)
    then s.(armed := false, continued := true, starts := s.starts + [ThreadParameter(f).value]) else s
  }

  /** A request gets an id of the relay's own, a reply must answer a request of the backend; `None` ends the reader. */
  function Admitted(r: Routes, f: Frame): (Routes, Option<Frame>) {
    if f.name.Some? && f.id.Some? then
      var (routes, key) := Allocated(r, Some(f.id.value), false);
      (routes, if key.None? then None else Some(f.(id := Some(TextId(key.value)))))
    else if f.name.None? then
      var id := if f.id.Some? then f.id.value else OtherId("null");
      if id !in r.serverIds then (r, None) else (r.(serverIds := r.serverIds - {id}), Some(f))
    else (r, Some(f))
  }

  predicate Barred(s: Relay, f: Frame) {
    || f.name == Some(APPROVE)
    || (s.frozen && f.name.Some? && f.name.value in FROZEN_OUT)
    || (s.frozen && f.name == Some(TURN_START) && !MayContinue(s, f))
  }

  function OnAdapterFrame(s: Relay, f: Frame): Relay {
    if s.adapter != Listening then s
    else if Barred(s, f) then s.(adapter := AdapterDead)
    else
      var (routes, admitted) := Admitted(s.routes, f);
      TakeUp(s, f).(routes := routes, adapter := if admitted.None? then AdapterDead else Writing(admitted.value))
  }

  function OnWriteFrame(s: Relay): Relay {
    if !s.adapter.Writing? then s else s.(sent := s.sent + [Forwarded(s.adapter.frame)], adapter := Listening)
  }

  // ---------- The control reader ----------

  function OnControlMessage(s: Relay, wellFormed: bool, command: string): Relay {
    if s.control != Ready then s
    else if !wellFormed || command != "submit" || s.used || s.binding.invalid || !s.binding.settled
            || s.routes.adapter != map[] || s.routes.serverIds != {} || s.binding.event.None?
    then s.(control := ControlDead)
    else
      var (routes, key) := Allocated(s.routes, None, true);
      var t := s.(used := true, routes := routes);
      if key.None? then t.(control := ControlDead)
      else t.(control := Submitting(key.value, Approval(key.value, s.binding.thread, s.binding.event.value)))
  }

  function OnSubmit(s: Relay): Relay {
    if !s.control.Submitting? then s else s.(sent := s.sent + [s.control.approval], control := Awaiting(s.control.key))
  }

  function OutcomeOf(r: Routes, key: Text): Outcome {
    if key in r.outcomes then r.outcomes[key] else Pending
  }

  /** The control reader resumes once its future is done. */
  function OnResume(s: Relay): Relay {
    if !s.control.Awaiting? || OutcomeOf(s.routes, s.control.key) == Pending then s
    else if OutcomeOf(s.routes, s.control.key) != Acknowledged || s.binding.invalid || !s.binding.settled
      then s.(control := ControlDead)
    else s.(armed := true, binding := Erased(s.binding), control := Reporting)
  }

  /** A timeout or a lost peer; the request being awaited is cancelled. */
  function OnKillControl(s: Relay): Relay {
    var t := s.(control := ControlDead);
    if s.control.Awaiting? && OutcomeOf(s.routes, s.control.key) == Pending
    then t.(routes := s.routes.(outcomes := s.routes.outcomes[s.control.key := Cancelled])) else t
  }

  // ---------- Steps and runs ----------

  function Next(s: Relay, step: Step): Relay {
    match step
    case BackendFrame(f) => OnBackendFrame(s, f)
    case PassFrame => OnPassFrame(s)
    case AdapterFrame(f) => OnAdapterFrame(s, f)
    case WriteFrame => OnWriteFrame(s)
    case ControlMessage(wellFormed, command) => OnControlMessage(s, wellFormed, command)
    case SubmitApproval => OnSubmit(s)
    case Resume => OnResume(s)
    case Report => if s.control == Reporting then s.(control := Ready) else s
    case KillBackend => s.(backend := BackendDead)
    case KillAdapter => s.(adapter := AdapterDead)
    case KillControl => OnKillControl(s)
    case TearDown => OnKillControl(s).(binding := Erased(s.binding), backend := BackendDead, adapter := AdapterDead)
  }

  function Run(s: Relay, steps: seq<Step>): Relay {
    if steps == [] then s else Next(Run(s, steps[..|steps| - 1]), steps[|steps| - 1])
  }

  // ---------- The invariant ----------

  function Approvals(sent: seq<Sent>): (r: seq<Sent>)
    ensures forall a :: a in r ==> a.Approval? && a in sent
  {
    if sent == [] then []
    else Approvals(sent[..|sent| - 1]) + (if sent[|sent| - 1].Approval? then [sent[|sent| - 1]] else [])
  }

  /** At most one denial, which froze the session, and what is known of it stays bound to its thread. */
  predicate DenialOk(s: Relay) {
    && |s.denials| <= 1 && (s.frozen <==> |s.denials| == 1)
    && (|s.denials| == 1 ==>
        s.binding.count >= 1 && s.binding.thread == Some(s.denials[0].thread) && s.denials[0].status == Denied
          && s.denials[0].appealable)
    && (s.binding.event.Some? ==> s.denials == [s.binding.event.value])
    && (s.binding.invalid ==> s.backend == BackendDead)
  }

  predicate ApprovalOf(s: Relay, a: Sent) {
    a.Approval? && |s.denials| == 1 && a.review == s.denials[0] && a.thread == Some(s.denials[0].thread)
  }

  predicate Acked(s: Relay) {
    |Approvals(s.sent)| == 1 && Approvals(s.sent)[0].Approval?
      && OutcomeOf(s.routes, Approvals(s.sent)[0].key) == Acknowledged
  }

  /** Where the one submission stands. */
  predicate SubmissionOk(s: Relay) {
    && |Approvals(s.sent)| <= 1
    && (forall i :: 0 <= i < |Approvals(s.sent)| ==> ApprovalOf(s, Approvals(s.sent)[i]))
    && (!s.used ==>
        Approvals(s.sent) == [] && !s.armed && !s.continued && (s.control == Ready || s.control == ControlDead))
    && (s.control.Submitting? ==> Approvals(s.sent) == [] && !s.armed && !s.continued
                                  && ApprovalOf(s, s.control.approval) && s.control.approval.key == s.control.key
                                  && s.control.key in s.routes.outcomes)
    && (s.control.Awaiting? ==>
        |Approvals(s.sent)| == 1 && Approvals(s.sent)[0].Approval? && Approvals(s.sent)[0].key == s.control.key
          && !s.armed && !s.continued
                                && s.control.key in s.routes.outcomes)
    && (s.armed || s.continued ==> Acked(s))
  }

  /** After the freeze one start, for the denied review's thread, and then nothing more. */
  predicate ContinuationOk(s: Relay) {
    && !(s.armed && s.continued)
    && |s.starts| == (if s.continued then 1 else 0)
    && (s.continued ==> |s.denials| == 1 && s.starts[0] == Some(s.denials[0].thread))
  }

  predicate TableOk(r: Routes) {
    WellRouted(r) && |r.serverIds| <= MAX_OUTSTANDING
  }

  predicate RelayInv(s: Relay) {
    TableOk(s.routes) && DenialOk(s) && SubmissionOk(s) && ContinuationOk(s)
  }

  // ---------- Each reader keeps it ----------

  lemma BindingStep(b: Binding, f: Frame)
    ensures b.thread.Some? && !Consumed(b, f).invalid ==> Consumed(b, f).thread == b.thread
    ensures Consumed(b, f).thread == b.thread || b.thread.None?
    ensures b.count <= Consumed(b, f).count
    ensures Consumed(b, f).event.None? || Consumed(b, f).event == b.event || Records(b, f)
    ensures Consumed(b, f).invalid && !b.invalid ==> Consumed(b, f).event.None?
  {
  }

  lemma BackendFrameKeepsInv(s: Relay, f: Frame)
    requires RelayInv(s)
    ensures RelayInv(OnBackendFrame(s, f))
  {
    hide Consumed, TableOk, Approvals;
    BindingStep(s.binding, f);
    if Records(s.binding, f) {
      RecordedDenial(s.binding, f);
    }
  }

  /** Futures that are done stay as they are, and none is forgotten. */
  ghost predicate Settles(before: Routes, after: Routes) {
    forall k :: (OutcomeOf(before, k) != Pending ==> OutcomeOf(after, k) == OutcomeOf(before, k))
      && (k in before.outcomes ==> k in after.outcomes)
  }

  lemma RoutesMayMove(s: Relay, r: Routes)
    requires RelayInv(s) && Settles(s.routes, r) && TableOk(r)
    ensures RelayInv(s.(routes := r))
  {
    hide TableOk, Approvals;
  }

  lemma ReadersMayMove(s: Relay, backend: BackendReader, adapter: AdapterReader)
    requires RelayInv(s) && (s.binding.invalid ==> backend == BackendDead)
    ensures forall shown :: RelayInv(s.(backend := backend, adapter := adapter, shown := shown))
    ensures RelayInv(s.(backend := backend, adapter := adapter))
  {
    hide TableOk, Approvals;
  }

  /** The server ids are no part of the request table. */
  lemma ServerIdsAreFree(r: Routes, ids: set<Id>)
    requires WellRouted(r)
    ensures WellRouted(r.(serverIds := ids)) && Settles(r, r.(serverIds := ids))
  {
    IssuedLater(r, r.(serverIds := ids));
  }

  lemma ReplySettles(r: Routes, f: Frame)
    ensures Settles(r, Replied(r, f).0) && Replied(r, f).0.serverIds == r.serverIds
  {
  }

  lemma PassedKeepsTable(r: Routes, f: Frame)
    requires TableOk(r)
    ensures TableOk(Passed(r, f).0) && Settles(r, Passed(r, f).0)
  {
    hide WellRouted, Replied, Settles;
    ReplyKeepsTable(r, f);
    ReplySettles(r, f);
    ServerIdsAreFree(r, r.serverIds);
    if f.id.Some? {
      ServerIdsAreFree(r, r.serverIds + {f.id.value});
    }
  }

  lemma PassFrameKeepsInv(s: Relay)
    requires RelayInv(s)
    ensures RelayInv(OnPassFrame(s))
  {
    if s.backend.Passing? {
      PassedKeepsTable(s.routes, s.backend.frame);
      var t := OnPassFrame(s);
      assert !s.binding.invalid;
      hide Passed, RelayInv, TableOk;
      RoutesMayMove(s, t.routes);
      ReadersMayMove(s.(routes := t.routes), t.backend, s.adapter);
    }
  }

  lemma AllocationSettles(r: Routes, original: Option<Id>, native: bool)
    requires TableOk(r)
    ensures Settles(r, Allocated(r, original, native).0) && TableOk(Allocated(r, original, native).0)
    ensures var (s, key) := Allocated(r, original, native); native && key.Some? ==> key.value in s.outcomes
  {
    AllocationKeepsTable(r, original, native);
    hide WellRouted, KeyText;
  }

  lemma AdmittedKeepsTable(r: Routes, f: Frame)
    requires TableOk(r)
    ensures TableOk(Admitted(r, f).0) && Settles(r, Admitted(r, f).0)
  {
    if f.name.Some? && f.id.Some? {
      AllocationSettles(r, Some(f.id.value), false);
    } else if f.name.None? {
      ServerIdsAreFree(r, Admitted(r, f).0.serverIds);
    }
    hide WellRouted, Allocated;
  }

  lemma TakeUpKeepsInv(s: Relay, f: Frame)
    requires RelayInv(s)
    ensures RelayInv(TakeUp(s, f))
  {
    hide TableOk, Approvals;
  }

  lemma AdapterFrameKeepsInv(s: Relay, f: Frame)
    requires RelayInv(s)
    ensures RelayInv(OnAdapterFrame(s, f))
  {
    InvalidIsDead(s);
    RelayTableOk(s);
    hide RelayInv, Admitted, Barred, MayContinue, TableOk;
    TakeUpKeepsInv(s, f);
    AdmittedKeepsTable(s.routes, f);
    var t, u := TakeUp(s, f), OnAdapterFrame(s, f);
    if Barred(s, f) {
      ReadersMayMove(s, s.backend, u.adapter);
    } else {
      RoutesMayMove(t, Admitted(s.routes, f).0);
      ReadersMayMove(t.(routes := Admitted(s.routes, f).0), s.backend, u.adapter);
    }
  }

  lemma InvalidIsDead(s: Relay)
    requires RelayInv(s)
    ensures s.binding.invalid ==> s.backend == BackendDead
  {
  }

  lemma RelayTableOk(s: Relay)
    requires RelayInv(s)
    ensures TableOk(s.routes)
  {
  }

  lemma ForwardingAddsNoApproval(sent: seq<Sent>, f: Frame)
    ensures Approvals(sent + [Forwarded(f)]) == Approvals(sent)
  {
    assert (sent + [Forwarded(f)])[..|sent|] == sent;
  }

  lemma SubmissionAddsOne(sent: seq<Sent>, a: Sent)
    requires a.Approval? && Approvals(sent) == []
    ensures Approvals(sent + [a]) == [a]
  {
    assert (sent + [a])[..|sent|] == sent;
  }

  lemma WriteFrameKeepsInv(s: Relay)
    requires RelayInv(s)
    ensures RelayInv(OnWriteFrame(s))
  {
    hide TableOk, Approvals;
    if s.adapter.Writing? {
      ForwardingAddsNoApproval(s.sent, s.adapter.frame);
    }
  }

  lemma ControlMessageKeepsInv(s: Relay, wellFormed: bool, command: string)
    requires RelayInv(s)
    ensures RelayInv(OnControlMessage(s, wellFormed, command))
  {
    RelayTableOk(s);
    AllocationSettles(s.routes, None, true);
    var (routes, key) := Allocated(s.routes, None, true);
    hide RelayInv, TableOk, Allocated, Settles;
    ControlMayDie(s, s.used);
    RoutesMayMove(s, routes);
    ControlMayDie(s.(routes := routes), true);
    if s.control == Ready && s.binding.event.Some? && key.Some? && !s.used {
      SubmissionMayBegin(s.(routes := routes), key.value);
    }
  }

  lemma ControlMayDie(s: Relay, used: bool)
    requires RelayInv(s) && (s.used ==> used)
    ensures RelayInv(s.(used := used, control := ControlDead))
  {
    hide TableOk, Approvals;
  }

  lemma SubmissionMayBegin(s: Relay, key: Text)
    requires RelayInv(s) && !s.used && s.binding.event.Some? && key in s.routes.outcomes
    ensures RelayInv(s.(used := true,
                        control := Submitting(key, Approval(key, s.binding.thread, s.binding.event.value))))
  {
    hide TableOk, Approvals;
  }

  lemma SubmitKeepsInv(s: Relay)
    requires RelayInv(s)
    ensures RelayInv(OnSubmit(s))
  {
    hide TableOk, Approvals;
    if s.control.Submitting? {
      SubmissionAddsOne(s.sent, s.control.approval);
    }
  }

  lemma ResumeKeepsInv(s: Relay)
    requires RelayInv(s)
    ensures RelayInv(OnResume(s))
  {
    hide TableOk, Approvals;
  }

  lemma KillKeepsInv(s: Relay)
    requires RelayInv(s)
    ensures RelayInv(OnKillControl(s))
  {
    hide TableOk, Approvals;
    if s.control.Awaiting? {
      RelayCancels(s);
    }
  }

  lemma RelayCancels(s: Relay)
    requires RelayInv(s) && s.control.Awaiting?
    ensures TableOk(s.routes.(outcomes := s.routes.outcomes[s.control.key := Cancelled]))
  {
    hide WellRouted, Approvals;
    CancelKeepsTable(s.routes, s.control.key);
  }

  lemma CancelKeepsTable(r: Routes, key: Text)
    requires WellRouted(r) && key in r.outcomes
    ensures WellRouted(r.(outcomes := r.outcomes[key := Cancelled]))
  {
    IssuedLater(r, r.(outcomes := r.outcomes[key := Cancelled]));
  }

  // ---------- Every interleaving ----------

  lemma StepKeepsRelay(s: Relay, step: Step)
    requires RelayInv(s)
    ensures RelayInv(Next(s, step))
  {
    hide RelayInv, OnBackendFrame, OnPassFrame, OnAdapterFrame, OnWriteFrame, OnControlMessage, OnSubmit, OnResume;
    match step {
      case BackendFrame(f) => BackendFrameKeepsInv(s, f);
      case PassFrame => PassFrameKeepsInv(s);
      case AdapterFrame(f) => AdapterFrameKeepsInv(s, f);
      case WriteFrame => WriteFrameKeepsInv(s);
      case ControlMessage(wellFormed, command) => ControlMessageKeepsInv(s, wellFormed, command);
      case SubmitApproval => SubmitKeepsInv(s);
      case Resume => ResumeKeepsInv(s);
      case Report => ReportKeepsInv(s);
      case KillBackend => ReadersMayMove(s, BackendDead, s.adapter);
      case KillAdapter => InvalidIsDead(s); ReadersMayMove(s, s.backend, AdapterDead);
      case KillControl => KillKeepsInv(s);
      case TearDown => {
        KillKeepsInv(s);
        TearDownKeepsInv(s, OnKillControl(s));
      }
    }
  }

  lemma ReportKeepsInv(s: Relay)
    requires RelayInv(s)
    ensures RelayInv(Next(s, Report))
  {
    hide TableOk, Approvals;
  }

  lemma TearDownKeepsInv(s: Relay, killed: Relay)
    requires RelayInv(killed) && killed.binding == s.binding
    ensures RelayInv(killed.(binding := Erased(s.binding), backend := BackendDead, adapter := AdapterDead))
  {
    hide TableOk, Approvals;
  }

  lemma StartHasRelay()
    ensures RelayInv(START)
  {
    assert Approvals([]) == [];
  }

  lemma {:induction false} RunKeepsRelay(s: Relay, steps: seq<Step>)
    requires RelayInv(s)
    ensures RelayInv(Run(s, steps))
  {
    if steps == [] {
    } else {
      RunKeepsRelay(s, steps[..|steps| - 1]);
      hide RelayInv;
      StepKeepsRelay(Run(s, steps[..|steps| - 1]), steps[|steps| - 1]);
    }
  }

  lemma EveryRunKeepsRelay(steps: seq<Step>)
    ensures RelayInv(Run(START, steps))
  {
    StartHasRelay();
    RunKeepsRelay(START, steps);
  }

  /**
   In every interleaving the backend gets at most one approval frame, of the one denial ever
   recorded and for its thread; after the freeze at most one start is admitted, for that same
   thread, and only once that approval was acknowledged; and at most 128 requests are outstanding.
   */
  lemma AtMostOneRecovery(steps: seq<Step>)
    ensures var s := Run(START, steps);
      && |Approvals(s.sent)| <= 1 && |s.denials| <= 1 && |s.starts| <= 1
      && (forall a :: a in Approvals(s.sent) ==> ApprovalOf(s, a))
      && (|s.starts| == 1 ==> Acked(s) && |s.denials| == 1 && s.starts[0] == Some(s.denials[0].thread))
      && |s.routes.adapter| + |s.routes.native| <= 128 && |s.routes.serverIds| <= 128
  {
    EveryRunKeepsRelay(steps);
    var s := Run(START, steps);
    forall a | a in Approvals(s.sent) ensures ApprovalOf(s, a) {
      var i :| 0 <= i < |Approvals(s.sent)| && Approvals(s.sent)[i] == a;
    }
  }

  /**
   The exact moment a start is let through a frozen session: the approval was acknowledged
   before, the backend's turn is settled, the thread is the denied one, and no start came before.
   */
  lemma ContinuationNeedsAcknowledgement(steps: seq<Step>, f: Frame)
    requires var s := Run(START, steps); s.frozen && s.adapter == Listening && f.name == Some(TURN_START)
    ensures var s, t := Run(START, steps), Next(Run(START, steps), AdapterFrame(f));
      && (|t.starts| > |s.starts| <==> MayContinue(s, f))
      && (MayContinue(s, f) ==>
          Acked(s) && s.starts == [] && s.binding.settled && s.denials != []
            && ThreadParameter(f) == Some(Some(s.denials[0].thread)))
      && (!MayContinue(s, f) ==> t.adapter == AdapterDead && t.sent == s.sent && t.routes == s.routes)
  {
    EveryRunKeepsRelay(steps);
    hide TableOk, Approvals, Run;
  }

  /** Nothing the adapter says ever reaches the backend as an approval, frozen or not. */
  lemma {:induction false} AdapterNeverApproves(steps: seq<Step>)
    ensures var s := Run(START, steps);
      && (forall i :: 0 <= i < |s.sent| && s.sent[i].Forwarded? ==> s.sent[i].frame.name != Some(APPROVE))
      && (s.adapter.Writing? ==> s.adapter.frame.name != Some(APPROVE))
      && (s.control.Submitting? ==> s.control.approval.Approval?)
  {
    if steps == [] {
    } else {
      AdapterNeverApproves(steps[..|steps| - 1]);
      AdapterStep(Run(START, steps[..|steps| - 1]), steps[|steps| - 1]);
    }
  }

  lemma AdapterStep(s: Relay, step: Step)
    ensures var t := Next(s, step);
      && (t.sent == s.sent || (s.adapter.Writing? && t.sent == s.sent + [Forwarded(s.adapter.frame)])
                           || (s.control.Submitting? && t.sent == s.sent + [s.control.approval]))
      && (t.adapter.Writing? ==> t.adapter == s.adapter || t.adapter.frame.name != Some(APPROVE))
      && (t.control.Submitting? ==> t.control == s.control || t.control.approval.Approval?)
  {
    hide OnBackendFrame, OnPassFrame, OnAdapterFrame, OnControlMessage, OnResume, OnKillControl;
    match step
    case AdapterFrame(f) => AdapterFrameStep(s, f);
    case BackendFrame(f) => BackendSendsNothing(s, f);
    case PassFrame => BackendSendsNothing(s, Frame(None, None, Missing, NoReply));
    case ControlMessage(wellFormed, command) => ControlSendsNothing(s, wellFormed, command);
    case Resume => ControlSendsNothing(s, false, "");
    case KillControl => ControlSendsNothing(s, false, "");
    case TearDown => ControlSendsNothing(s, false, "");
    case _ =>
  }

  lemma BackendSendsNothing(s: Relay, f: Frame)
    ensures var t := OnBackendFrame(s, f); t.sent == s.sent && t.adapter == s.adapter && t.control == s.control
    ensures var t := OnPassFrame(s); t.sent == s.sent && t.adapter == s.adapter && t.control == s.control
  {
    hide Consumed, Passed;
  }

  lemma ControlSendsNothing(s: Relay, wellFormed: bool, command: string)
    ensures var t := OnControlMessage(s, wellFormed, command);
      && t.sent == s.sent && t.adapter == s.adapter
      && (t.control.Submitting? ==> t.control == s.control || t.control.approval.Approval?)
    ensures var t := OnResume(s); t == s || (t.sent == s.sent && t.adapter == s.adapter && !t.control.Submitting?)
    ensures var t := OnKillControl(s); t.sent == s.sent && t.adapter == s.adapter && !t.control.Submitting?
  {
    hide Allocated;
  }

  lemma AdapterFrameStep(s: Relay, f: Frame)
    ensures var t := Next(s, AdapterFrame(f));
      && t.sent == s.sent && t.control == s.control
      && (t.adapter.Writing? ==> t.adapter == s.adapter || t.adapter.frame.name != Some(APPROVE))
  {
    hide Allocated, MayContinue;
  }

  // ---------- Replies in a running relay ----------

  /** A well-formed reply under this id. */
  predicate ReplyTo(f: Frame, key: Text) {
    f.name.None? && f.id == Some(TextId(key)) && !f.reply.NoReply? && !f.reply.BothReplies?
  }

  /** The backend reader is about to pass on a reply under this id. */
  predicate PassingReply(s: Relay, key: Text) {
    s.backend.Passing? && s.backend.frame.name.None? && s.backend.frame.id == Some(TextId(key))
  }

  /** Along this run no reply under this id is passed on. */
  predicate NotAnswered(s: Relay, steps: seq<Step>, key: Text) {
    forall i :: 0 <= i < |steps| && steps[i].PassFrame? ==> !PassingReply(Run(s, steps[..i]), key)
  }

  /** Requests outstanding under this id, or under none: the entry stays as it is. */
  predicate SameEntry(r: Routes, s: Routes, key: Text) {
    (key in r.adapter <==> key in s.adapter) && (key in r.adapter ==> s.adapter[key] == r.adapter[key])
      && r.sequence <= s.sequence
  }

  lemma AllocationSparesEntry(r: Routes, original: Option<Id>, native: bool, key: Text)
    requires WellRouted(r) && Issued(r, key, false)
    ensures SameEntry(r, Allocated(r, original, native).0, key)
  {
    hide WellRouted, KeyText, Issued;
    IssuedIsNotNext(r, key);
  }

  lemma IssuedIsNotNext(r: Routes, key: Text)
    requires Issued(r, key, false)
    ensures key != KeyText(false, r.sequence + 1)
  {
    var n :| 1 <= n <= r.sequence && key == KeyText(false, n);
    if key == KeyText(false, r.sequence + 1) {
      KeysDiffer(false, n, false, r.sequence + 1);
    }
  }

  lemma AdapterFrameSparesEntry(s: Relay, f: Frame, key: Text)
    requires TableOk(s.routes) && Issued(s.routes, key, false)
    ensures SameEntry(s.routes, OnAdapterFrame(s, f).routes, key)
  {
    hide Allocated, Barred, MayContinue, KeyText, Issued, AllIssued, Separate;
    if f.id.Some? {
      AllocationSparesEntry(s.routes, Some(f.id.value), false, key);
    }
  }

  lemma ControlSparesEntry(s: Relay, wellFormed: bool, command: string, key: Text)
    requires TableOk(s.routes) && Issued(s.routes, key, false)
    ensures SameEntry(s.routes, OnControlMessage(s, wellFormed, command).routes, key)
  {
    hide Allocated, KeyText, Issued, AllIssued, Separate;
    AllocationSparesEntry(s.routes, None, true, key);
  }

  lemma PassFrameSparesEntry(s: Relay, key: Text)
    requires !PassingReply(s, key)
    ensures SameEntry(s.routes, OnPassFrame(s).routes, key)
  {
  }

  /** Only passing on a reply under an issued id touches the request outstanding under it. */
  lemma StepSparesEntry(s: Relay, step: Step, key: Text)
    requires TableOk(s.routes) && Issued(s.routes, key, false)
    requires step.PassFrame? ==> !PassingReply(s, key)
    ensures SameEntry(s.routes, Next(s, step).routes, key)
  {
    hide OnAdapterFrame, OnControlMessage, OnPassFrame, Consumed, TableOk, Issued;
    match step
    case AdapterFrame(f) => AdapterFrameSparesEntry(s, f, key);
    case ControlMessage(wellFormed, command) => ControlSparesEntry(s, wellFormed, command, key);
    case PassFrame => PassFrameSparesEntry(s, key);
    case _ =>
  }

  lemma StillIssued(r: Routes, s: Routes, key: Text)
    requires Issued(r, key, false) && r.sequence <= s.sequence
    ensures Issued(s, key, false)
  {
    hide KeyText;
    var n :| 1 <= n <= r.sequence && key == KeyText(false, n);
  }

  lemma {:induction false} RunSparesEntry(s: Relay, steps: seq<Step>, key: Text)
    requires RelayInv(s) && Issued(s.routes, key, false) && NotAnswered(s, steps, key)
    ensures var t := Run(s, steps); RelayInv(t) && Issued(t.routes, key, false) && SameEntry(s.routes, t.routes, key)
  {
    hide RelayInv, Issued, Next, PassingReply, TableOk;
    RunKeepsRelay(s, steps);
    if steps == [] {
    } else {
      var n := |steps| - 1;
      forall i | 0 <= i < n && steps[..n][i].PassFrame? ensures !PassingReply(Run(s, steps[..n][..i]), key) {
        assert steps[..n][..i] == steps[..i];
      }
      RunSparesEntry(s, steps[..n], key);
      var before := Run(s, steps[..n]);
      RelayTableOk(before);
      StepSparesEntry(before, steps[n], key);
      StillIssued(before.routes, Run(s, steps).routes, key);
    }
  }

  lemma NothingUnderKey(s: Relay, key: Text)
    requires RelayInv(s) && Issued(s.routes, key, false)
    ensures key !in s.routes.native
  {
    hide KeyText, Approvals;
    if key in s.routes.native {
      assert Issued(s.routes, key, true);
      var n :| 1 <= n <= s.routes.sequence && key == KeyText(false, n);
      var m :| 1 <= m <= s.routes.sequence && key == KeyText(true, m);
      KeysDiffer(false, n, true, m);
    }
  }

  /** An adapter's request is forwarded under an id issued for it, which stands for its own id in the table. */
  lemma RequestIsIssued(s: Relay, f: Frame)
    requires RelayInv(s) && s.adapter == Listening && f.name.Some? && f.id.Some?
      && Next(s, AdapterFrame(f)).adapter.Writing?
    ensures var t := Next(s, AdapterFrame(f));
      exists key :: t.adapter.frame == f.(id := Some(TextId(key))) && Issued(t.routes, key, false)
                    && key in t.routes.adapter && t.routes.adapter[key] == f.id.value
  {
    hide RelayInv, MayContinue, KeyText;
    var (routes, key) := Allocated(s.routes, Some(f.id.value), false);
    assert Issued(routes, key.value, false);
  }

  /**
   In a running relay, whatever cancellations, native requests and requests of the backend come
   in between, the first reply passed on under the id a request was forwarded with is shown to
   the adapter under the request's own id; any later reply under it ends the backend reader and
   is shown to nobody.
   */
  lemma ReplyGoesHome(before: seq<Step>, f: Frame, between: seq<Step>, later: seq<Step>)
    requires Run(START, before).adapter == Listening && f.name.Some? && f.id.Some?
    requires Next(Run(START, before), AdapterFrame(f)).adapter.Writing?
    ensures var t := Next(Run(START, before), AdapterFrame(f));
      exists key :: t.adapter.frame == f.(id := Some(TextId(key)))
                    && (NotAnswered(t, between, key) && PassingReply(Run(t, between), key) ==>
                        GoesHome(Run(t, between), f.id.value, key, later))
  {
    hide RelayInv, Next, Issued, NotAnswered, GoesHome;
    EveryRunKeepsRelay(before);
    var s := Run(START, before);
    RequestIsIssued(s, f);
    var t := Next(s, AdapterFrame(f));
    StepKeepsRelay(s, AdapterFrame(f));
    var key :| t.adapter.frame == f.(id := Some(TextId(key))) && Issued(t.routes, key, false)
               && key in t.routes.adapter && t.routes.adapter[key] == f.id.value;
    if NotAnswered(t, between, key) && PassingReply(Run(t, between), key) {
      RunSparesEntry(t, between, key);
      AnswersOnce(Run(t, between), f.id.value, key, later);
    }
  }

  /** A reply about to be passed on comes out under the original id, and no second one does. */
  predicate GoesHome(s: Relay, original: Id, key: Text, later: seq<Step>)
    requires s.backend.Passing?
  {
    var reply, t := s.backend.frame, Next(s, PassFrame);
    if !ReplyTo(reply, key) then t.backend == BackendDead && t.shown == s.shown
    else
      && t.backend == Reading && t.shown == s.shown + [reply.(id := Some(original))]
      && (NotAnswered(t, later, key) && PassingReply(Run(t, later), key) ==>
            Next(Run(t, later), PassFrame).backend == BackendDead
              && Next(Run(t, later), PassFrame).shown == Run(t, later).shown)
  }

  lemma PassesReply(s: Relay, key: Text)
    requires PassingReply(s, key) && key !in s.routes.native
    ensures var t := Next(s, PassFrame);
      if ReplyTo(s.backend.frame, key) && key in s.routes.adapter
      then t.backend == Reading && t.shown == s.shown + [s.backend.frame.(id := Some(s.routes.adapter[key]))]
           && key !in t.routes.adapter && t.routes.sequence == s.routes.sequence
      else t.backend == BackendDead && t.shown == s.shown
  {
  }

  lemma AnswersOnce(s: Relay, original: Id, key: Text, later: seq<Step>)
    requires RelayInv(s) && Issued(s.routes, key, false) && PassingReply(s, key)
    requires key in s.routes.adapter && s.routes.adapter[key] == original
    ensures GoesHome(s, original, key, later)
  {
    hide RelayInv, Next, Issued, NotAnswered, Run;
    NothingUnderKey(s, key);
    PassesReply(s, key);
    var t := Next(s, PassFrame);
    StepKeepsRelay(s, PassFrame);
    if ReplyTo(s.backend.frame, key) && NotAnswered(t, later, key) && PassingReply(Run(t, later), key) {
      StillIssued(s.routes, t.routes, key);
      RunSparesEntry(t, later, key);
      NothingUnderKey(Run(t, later), key);
      PassesReply(Run(t, later), key);
    }
  }
}
