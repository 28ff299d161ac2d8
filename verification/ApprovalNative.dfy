/**
 The native binding (`approval_native.py`): what the backend's own notifications tell about
 the thread, the turn and the one denied review.  A frame's parsed parameters are classified
 by `Body`; whether a review has the closed shape, and whether its action can be appealed, are
 facts of the frame.
 */
module ApprovalNative {
  import opened Wrappers

  const MAX_STARTED := 64

  datatype Id = IntId(i: int) | TextId(s: seq<int>) | OtherId(rendering: string)

  datatype ReviewStatus = InProgress | Approved | Denied | OtherVerdict

  /** `immutable` stands for the fields that must not change between start and completion. */
  datatype Review = Review(thread: string, turn: string, id: string, status: ReviewStatus, immutable: string,
                           rationale: string, wellShaped: bool, appealable: bool)

  datatype Body =
    | Missing                      // no parameters
    | NotAnObject
    | Incomplete                   // an object without the members its method needs
    | ThreadBody(thread: Option<string>)
    | TurnBody(thread: Option<string>, turn: Option<string>)
    | ReviewBody(review: Review)

  datatype ReplyBody = NoReply | EmptyResult | OtherResult | ErrorReply | BothReplies

  datatype Frame = Frame(name: Option<string>, id: Option<Id>, body: Body, reply: ReplyBody)

  const THREAD_STARTED := "thread/started"
  const TURN_STARTED := "turn/started"
  const TURN_COMPLETED := "turn/completed"
  const REVIEW_STARTED := "item/autoApprovalReview/started"
  const REVIEW_COMPLETED := "item/autoApprovalReview/completed"

  datatype Binding = Binding(thread: Option<string>, turn: Option<string>, settled: bool, invalid: bool,
                             event: Option<Review>, started: map<string, string>, count: nat)

  const UNBOUND := Binding(None, None, false, false, None, map[], 0)

  function Erased(b: Binding): Binding {
    b.(event := None, started := map[])
  }

  function Invalidated(b: Binding): Binding {
    Erased(b.(invalid := true))
  }

  /** A review that belongs to the current turn and arrives as a plain notification. */
  predicate Fits(b: Binding, f: Frame) {
    && f.body.ReviewBody? && f.id.None? && f.reply.NoReply?
    && b.thread == Some(f.body.review.thread) && b.turn == Some(f.body.review.turn) && f.body.review.wellShaped
  }

  /** The binding after one backend frame. */
  function Consumed(b: Binding, f: Frame): Binding {
    if f.body.Missing? || f.body.NotAnObject? then b
    else if f.name == Some(THREAD_STARTED) then
      if !f.body.ThreadBody? || (b.thread.Some? && f.body.thread != b.thread) then Invalidated(b)
      else b.(thread := f.body.thread)
    else if f.name == Some(TURN_STARTED) then
      if !f.body.TurnBody? || f.body.thread != b.thread || (!b.settled && b.turn.Some? && b.turn != Some(""))
        then Invalidated(b)
      else b.(turn := f.body.turn, settled := false)
    else if f.name == Some(TURN_COMPLETED) then
      if !f.body.TurnBody? || f.body.thread != b.thread || f.body.turn != b.turn then Invalidated(b)
      else b.(settled := true)
    else if f.name == Some(REVIEW_STARTED) then
      if !Fits(b, f) || f.body.review.status != InProgress || f.body.review.id in b.started
        || |b.started| >= MAX_STARTED then Invalidated(b)
      else b.(started := b.started[f.body.review.id := f.body.review.immutable])
    else if f.name == Some(REVIEW_COMPLETED) then
      if !Fits(b, f) then Invalidated(b)
      else
        var r := f.body.review;
        var popped := b.(started := b.started - {r.id});
        if r.id !in b.started || b.started[r.id] != r.immutable || r.status == InProgress then Invalidated(popped)
        else if r.status != Denied then popped
        else
          var counted := popped.(count := b.count + 1);
          if counted.count != 1 || !r.appealable then Invalidated(counted) else counted.(event := Some(r))
    else b
  }

  class NativeBinding {
    var thread: Option<string>
    var turn: Option<string>
    var settled: bool
    var invalid: bool
    var event: Option<Review>
    var started: map<string, string>
    var count: nat

    constructor ()
      ensures Value() == UNBOUND
    {
      thread, turn, settled, invalid, event, started, count := None, None, false, false, None, map[], 0;
    }

    ghost function Value(): Binding
      reads this
    {
      Binding(thread, turn, settled, invalid, event, started, count)
    }

    method Erase()
      modifies this
      ensures Value() == Erased(old(Value()))
    {
      event := None;
      started := map[];
    }

    method Consume(f: Frame)
      modifies this
      ensures Value() == Consumed(old(Value()), f)
    {
      if f.body.Missing? || f.body.NotAnObject? {
        return;
      }
      var fine := true;
      if f.name == Some(THREAD_STARTED) {
        fine := StartThread(f);
      } else if f.name == Some(TURN_STARTED) {
        fine := StartTurn(f);
      } else if f.name == Some(TURN_COMPLETED) {
        fine := f.body.TurnBody? && f.body.thread == thread && f.body.turn == turn;
        if fine {
          settled := true;
        }
      } else if f.name == Some(REVIEW_STARTED) || f.name == Some(REVIEW_COMPLETED) {
        fine := f.body.ReviewBody? && f.id.None? && f.reply.NoReply? && thread == Some(f.body.review.thread)
        && turn == Some(f.body.review.turn) && f.body.review.wellShaped;
        if fine && f.name == Some(REVIEW_STARTED) {
          fine := StartReview(f.body.review);
        } else if fine {
          fine := CompleteReview(f.body.review);
        }
      }
      if !fine {
        invalid := true;
        Erase();
      }
    }

    method StartThread(f: Frame) returns (fine: bool)
      modifies this`thread
      ensures fine == (f.body.ThreadBody? && (old(thread).None? || f.body.thread == old(thread)))
      ensures thread == if fine then f.body.thread else old(thread)
    {
      fine := f.body.ThreadBody? && (thread.None? || f.body.thread == thread);
      if fine {
        thread := f.body.thread;
      }
    }

    method StartTurn(f: Frame) returns (fine: bool)
      modifies this`turn, this`settled
      ensures fine == (f.body.TurnBody? && f.body.thread == thread
                       && (old(settled) || old(turn).None? || old(turn) == Some("")))
      ensures if fine then turn == f.body.turn && !settled else turn == old(turn) && settled == old(settled)
    {
      fine := f.body.TurnBody? && f.body.thread == thread && (settled || turn.None? || turn == Some(""));
      if fine {
        turn := f.body.turn;
        settled := false;
      }
    }

    method StartReview(r: Review) returns (fine: bool)
      modifies this`started
      ensures fine == (r.status == InProgress && r.id !in old(started) && |old(started)| < MAX_STARTED)
      ensures started == if fine then old(started)[r.id := r.immutable] else old(started)
    {
      fine := r.status == InProgress && r.id !in started && |started| < MAX_STARTED;
      if fine {
        started := started[r.id := r.immutable];
      }
    }

    method CompleteReview(r: Review) returns (fine: bool)
      modifies this`started, this`count, this`event
      ensures started == old(started) - {r.id}
      ensures var matched := r.id in old(started) && old(started)[r.id] == r.immutable && r.status != InProgress;
        && count == old(count) + (if matched && r.status == Denied then 1 else 0)
        && fine == (matched && (r.status == Denied ==> count == 1 && r.appealable))
        && event == if fine && r.status == Denied then Some(r) else old(event)
    {
      fine := r.id in started && started[r.id] == r.immutable && r.status != InProgress;
      started := started - {r.id};
      if fine && r.status == Denied {
        count := count + 1;
        fine := count == 1 && r.appealable;
        if fine {
          event := Some(r);
        }
      }
    }
  }

  // ---------- What the binding promises ----------

  /** The frame that records a denial. */
  predicate Records(b: Binding, f: Frame) {
    Consumed(b, f).event.Some? && Consumed(b, f).event != b.event
  }

  /**
   A recorded denial is the completion of a review announced earlier on the same thread and
   turn with the same immutable fields, appealable, and the first one ever counted.
   */
  lemma RecordedDenial(b: Binding, f: Frame)
    requires Records(b, f)
    ensures var r := Consumed(b, f).event.value;
      && f.name == Some("item/autoApprovalReview/completed") && f.id.None? && f.reply.NoReply?
      && r.status == Denied && r.appealable && r.wellShaped
      && r.id in b.started && b.started[r.id] == r.immutable
      && b.thread == Some(r.thread) && b.turn == Some(r.turn)
      && b.count == 0 && Consumed(b, f).count == 1
  {
  }

  /** One thing that happens to a binding: a frame, or the erasure after an acknowledgement. */
  datatype Op = Feed(frame: Frame) | Wipe

  function Fed(b: Binding, ops: seq<Op>): Binding {
    if ops == [] then b
    else
      var before := Fed(b, ops[..|ops| - 1]);
      match ops[|ops| - 1] case Feed(f) => Consumed(before, f) case Wipe => Erased(before)
  }

  lemma {:induction false} CountOnlyGrows(b: Binding, ops: seq<Op>, n: nat)
    requires n <= |ops|
    ensures Fed(b, ops[..n]).count <= Fed(b, ops).count
    ensures Fed(b, ops[..n]).invalid ==> Fed(b, ops).invalid
    ensures Fed(b, ops[..n]).thread.Some? ==> Fed(b, ops).thread == Fed(b, ops[..n]).thread
    decreases |ops|
  {
    if n == |ops| {
      assert ops[..n] == ops;
    } else {
      var before := ops[..|ops| - 1];
      CountOnlyGrows(b, before, n);
      assert before[..n] == ops[..n];
      hide Consumed, Erased;
      OpKeeps(Fed(b, before), ops[|ops| - 1]);
    }
  }

  /** Whatever happens to a binding, its count and its thread stay known and an invalid one stays invalid. */
  lemma OpKeeps(b: Binding, op: Op)
    ensures var after := if op.Feed? then Consumed(b, op.frame) else Erased(b);
      b.count <= after.count && (b.invalid ==> after.invalid) && (b.thread.Some? ==> after.thread == b.thread)
  {
    hide Fits;
  }

  /** Over any life of a binding, erasures included, a denial is recorded at most once. */
  lemma AtMostOneDenial(b: Binding, ops: seq<Op>, i: nat, j: nat)
    requires i < j < |ops| && ops[i].Feed? && ops[j].Feed?
    requires Records(Fed(b, ops[..i]), ops[i].frame)
    ensures !Records(Fed(b, ops[..j]), ops[j].frame)
  {
    RecordedDenial(Fed(b, ops[..i]), ops[i].frame);
    assert ops[..i + 1][..i] == ops[..i];
    assert Fed(b, ops[..i + 1]).count == 1;
    CountOnlyGrows(b, ops[..j], i + 1);
    assert ops[..j][..i + 1] == ops[..i + 1];
    if Records(Fed(b, ops[..j]), ops[j].frame) {
      RecordedDenial(Fed(b, ops[..j]), ops[j].frame);
    }
  }
}
