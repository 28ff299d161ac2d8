/** One recovery from beginning to end: a denial, its approval, the acknowledgement and the continuation. */
module ApprovalExample {
  import opened Wrappers
  import opened ApprovalNative
  import opened ApprovalRouting
  import opened ApprovalRelay

  function Notice(name: string, body: Body): Frame {
    Frame(Some(name), None, body, NoReply)
  }

  function Denial(status: ReviewStatus): Review {
    Review("T", "U", "R", status, "action", "", true, true)
  }

  const KEY := KeyText(true, 1)

  /** What the backend says before the approval. */
  const BEFORE := [
    BackendFrame(Notice(THREAD_STARTED, ThreadBody(Some("T")))), PassFrame,
    BackendFrame(Notice(TURN_STARTED, TurnBody(Some("T"), Some("U")))), PassFrame,
    BackendFrame(Notice(REVIEW_STARTED, ReviewBody(Denial(InProgress)))), PassFrame,
    BackendFrame(Notice(REVIEW_COMPLETED, ReviewBody(Denial(Denied)))), PassFrame,
    BackendFrame(Notice(TURN_COMPLETED, TurnBody(Some("T"), Some("U")))), PassFrame]

  const CONTINUATION := Frame(Some(TURN_START), Some(IntId(7)), ThreadBody(Some("T")), NoReply)

  /** The submission, its acknowledgement and the one start that follows. */
  const RECOVERY := [
    ControlMessage(true, "submit"), SubmitApproval,
    BackendFrame(Frame(None, Some(TextId(KEY)), Missing, EmptyResult)), PassFrame,
    Resume, Report, AdapterFrame(CONTINUATION), WriteFrame]

  const BOUND := UNBOUND.(thread := Some("T"))
  const IN_TURN := BOUND.(turn := Some("U"))
  const REVIEWED := IN_TURN.(started := map["R" := "action"])
  const DENIED := IN_TURN.(event := Some(Denial(Denied)), count := 1)
  const SETTLED := DENIED.(settled := true)

  lemma Frames()
    ensures Consumed(UNBOUND, BEFORE[0].frame) == BOUND && Consumed(BOUND, BEFORE[2].frame) == IN_TURN
    ensures Consumed(IN_TURN, BEFORE[4].frame) == REVIEWED && Consumed(REVIEWED, BEFORE[6].frame) == DENIED
    ensures Consumed(DENIED, BEFORE[8].frame) == SETTLED
  {
    assert map["R" := "action"] - {"R"} == map[];
  }

  const FRAMES := [BEFORE[0].frame, BEFORE[2].frame, BEFORE[4].frame, BEFORE[6].frame, BEFORE[8].frame]

  const FROZEN := START.(binding := SETTLED, frozen := true, denials := [Denial(Denied)], shown := FRAMES)

  /** A list of states that the steps lead through. */
  predicate Leads(states: seq<Relay>, steps: seq<Step>) {
    |states| == |steps| + 1 && forall k :: 0 <= k < |steps| ==> Next(states[k], steps[k]) == states[k + 1]
  }

  lemma {:induction false} RunThrough(states: seq<Relay>, steps: seq<Step>)
    requires Leads(states, steps)
    ensures Run(states[0], steps) == states[|steps|]
  {
    hide Next;
    if steps == [] {
    } else {
      var n := |steps| - 1;
      RunThrough(states[..n + 1], steps[..n]);
    }
  }

  /** One frame without a reply, read and passed on. */
  lemma Passes(s: Relay, f: Frame, b: Binding)
    requires s.backend == Reading && Consumed(s.binding, f) == b && !b.invalid && f.name.Some? && f.id.None?
    ensures Next(Next(s, BackendFrame(f)), PassFrame) ==
      if b.event.Some? && s.binding.event.None?
      then s.(binding := b, frozen := true, denials := s.denials + [b.event.value], shown := s.shown + [f])
      else s.(binding := b, shown := s.shown + [f])
  {
    hide Consumed;
  }

  lemma {:induction false} RunAppends(s: Relay, a: seq<Step>, b: seq<Step>)
    ensures Run(s, a + b) == Run(Run(s, a), b)
  {
    hide Next;
    if b == [] {
      assert a + b == a;
    } else {
      var n := |b| - 1;
      RunAppends(s, a, b[..n]);
      assert (a + b)[..|a + b| - 1] == a + b[..n];
    }
  }

  lemma BeforeFreezes()
    ensures Run(START, BEFORE) == FROZEN
  {
    Frames();
    hide Consumed, Next;
    var s1, s2 := START.(binding := BOUND, shown := FRAMES[..1]), START.(binding := IN_TURN, shown := FRAMES[..2]);
    var s3 := START.(binding := REVIEWED, shown := FRAMES[..3]);
    var s4 := START.(binding := DENIED, frozen := true, denials := [Denial(Denied)], shown := FRAMES[..4]);
    assert FRAMES[..5] == FRAMES;
    Passes(START, BEFORE[0].frame, BOUND);
    Passes(s1, BEFORE[2].frame, IN_TURN);
    Passes(s2, BEFORE[4].frame, REVIEWED);
    Passes(s3, BEFORE[6].frame, DENIED);
    Passes(s4, BEFORE[8].frame, SETTLED);
    assert [] + [Denial(Denied)] == [Denial(Denied)];
    RunThrough([START, Next(START, BEFORE[0]), s1, Next(s1, BEFORE[2]), s2, Next(s2, BEFORE[4]), s3,
                Next(s3, BEFORE[6]), s4,
                Next(s4, BEFORE[8]), FROZEN], BEFORE);
  }

  const ASKED := NO_ROUTES.(sequence := 1, native := {KEY}, outcomes := map[KEY := Pending])
  const ANSWERED := NO_ROUTES.(sequence := 1, outcomes := map[KEY := Acknowledged])
  const SUBMISSION := Approval(KEY, Some("T"), Denial(Denied))

  const WAITING := FROZEN.(used := true, routes := ASKED, control := Awaiting(KEY), sent := [SUBMISSION])
  const ACKNOWLEDGED := WAITING.(routes := ANSWERED)
  const ARMED := ACKNOWLEDGED.(armed := true, binding := Erased(SETTLED), control := Ready)

  lemma Submits()
    ensures Next(Next(FROZEN, RECOVERY[0]), RECOVERY[1]) == WAITING
  {
    assert Allocated(NO_ROUTES, None, true) == (ASKED, Some(KEY));
    hide Allocated, KeyText;
  }

  lemma Acknowledges()
    ensures Next(Next(WAITING, RECOVERY[2]), RECOVERY[3]) == ACKNOWLEDGED
  {
    assert Replied(ASKED, RECOVERY[2].frame) == (ANSWERED, Swallowed) by {
      assert {KEY} - {KEY} == {};
      assert map[KEY := Pending][KEY := Acknowledged] == map[KEY := Acknowledged];
    }
    hide Replied, KeyText;
  }

  lemma Arms()
    ensures Next(Next(ACKNOWLEDGED, RECOVERY[4]), RECOVERY[5]) == ARMED
  {
    hide KeyText;
  }

  lemma Continues()
    ensures var t := Next(ARMED, RECOVERY[6]);
      && t.starts == [Some("T")] && t.continued && t.adapter.Writing?
      && t.denials == [Denial(Denied)] && t.sent == [SUBMISSION]
  {
    assert |ANSWERED.adapter| + |ANSWERED.native| == 0;
    hide KeyText;
  }

  /** The one approval and the one continuation that are allowed do happen. */
  lemma OneRecoveryHappens()
    ensures var s := Run(START, BEFORE + RECOVERY);
      |Approvals(s.sent)| == 1 && s.starts == [Some("T")] && s.denials == [Denial(Denied)]
  {
    hide Next, KeyText, Run, Approvals;
    BeforeFreezes();
    Submits();
    Acknowledges();
    Arms();
    Continues();
    RunAppends(START, BEFORE, RECOVERY);
    var started := Next(ARMED, RECOVERY[6]);
    var finished := Next(started, RECOVERY[7]);
    Writes(started);
    RunThrough([FROZEN, Next(FROZEN, RECOVERY[0]), WAITING, Next(WAITING, RECOVERY[2]), ACKNOWLEDGED,
                Next(ACKNOWLEDGED, RECOVERY[4]), ARMED, started, finished], RECOVERY);
    OneApproval(started.adapter.frame);
  }

  lemma Writes(s: Relay)
    requires s.adapter.Writing?
    ensures var t := Next(s, WriteFrame);
      t.starts == s.starts && t.denials == s.denials && t.sent == s.sent + [Forwarded(s.adapter.frame)]
  {
  }

  lemma OneApproval(f: Frame)
    ensures |Approvals([SUBMISSION] + [Forwarded(f)])| == 1
  {
    assert [] + [SUBMISSION] == [SUBMISSION] && Approvals([]) == [];
    SubmissionAddsOne([], SUBMISSION);
    ForwardingAddsNoApproval([SUBMISSION], f);
  }
}
