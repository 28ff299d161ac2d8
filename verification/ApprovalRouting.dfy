/** The id table of the approval relay (`Routing` in `approval_relay.py`). */
module ApprovalRouting {
  import opened Wrappers
  import opened Graphs
  import opened Sorting
  import opened CanonicalJson
  import opened CanonicalRoundTrip
  import opened ApprovalNative

  const MAX_OUTSTANDING := 128

  /** The state of a native request's future. */
  datatype Outcome = Pending | Acknowledged | Refused | Cancelled

  datatype Routes = Routes(sequence: nat, adapter: map<Text, Id>, native: set<Text>, outcomes: map<Text, Outcome>,
                           serverIds: set<Id>)

  const NO_ROUTES := Routes(0, map[], {}, map[], {})

  datatype Delivery = Unroutable | Swallowed | Routed(frame: Frame)

  function KeyText(native: bool, n: nat): Text {
    (if native then Codes("unrest-native:") else Codes("unrest-adapter:")) + Digits(n)
  }

  lemma KeysDiffer(a: bool, m: nat, b: bool, n: nat)
    requires KeyText(a, m) == KeyText(b, n)
    ensures a == b && m == n
  {
    DigitsAreDigits(m);
    DigitsAreDigits(n);
    assert KeyText(a, m)[7] == if a then 'n' as int else 'a' as int;
    assert KeyText(b, n)[7] == if b then 'n' as int else 'a' as int;
    var prefix := if a then |"unrest-native:"| else |"unrest-adapter:"|;
    assert KeyText(a, m)[prefix..] == Digits(m) && KeyText(b, n)[prefix..] == Digits(n);
  }

  // ---------- What the two operations do ----------

  predicate InUse(r: Routes, original: Id) {
    exists k :: k in r.adapter && r.adapter[k] == original
  }

  /** A refused allocation may still have spent a number. */
  function Allocated(r: Routes, original: Option<Id>, native: bool): (Routes, Option<Text>) {
    if |r.adapter| + |r.native| >= MAX_OUTSTANDING then (r, None)
    else
      var n := r.sequence + 1;
      var key := KeyText(native, n);
      if native then (r.(sequence := n, native := r.native + {key}, outcomes := r.outcomes[key := Pending]), Some(key))
      else if original.None? || original.value.OtherId? || InUse(r, original.value) then (r.(sequence := n), None)
      else (r.(sequence := n, adapter := r.adapter[key := original.value]), Some(key))
  }

  function Replied(r: Routes, f: Frame): (Routes, Delivery) {
    if f.id.None? || !f.id.value.TextId? || f.reply.NoReply? || f.reply.BothReplies? then (r, Unroutable)
    else
      var key := f.id.value.s;
      if key in r.native then
        var done := key !in r.outcomes || r.outcomes[key] != Pending;
        var outcome := if f.reply.EmptyResult? then Acknowledged else Refused;
        (r.(native := r.native - {key}, outcomes := if done then r.outcomes else r.outcomes[key := outcome]), Swallowed)
      else if key !in r.adapter then (r, Unroutable)
      else (r.(adapter := r.adapter - {key}), Routed(f.(id := Some(r.adapter[key]))))
  }

  // ---------- The class ----------

  class Routing {
    var sequence: nat
    var adapter: map<Text, Id>
    var native: set<Text>
    var outcomes: map<Text, Outcome>
    var serverIds: set<Id>

    constructor ()
      ensures Value() == NO_ROUTES
    {
      sequence, adapter, native, outcomes, serverIds := 0, map[], {}, map[], {};
    }

    ghost function Value(): Routes
      reads this
    {
      Routes(sequence, adapter, native, outcomes, serverIds)
    }

    method Allocate(original: Option<Id>, isNative: bool) returns (key: Option<Text>)
      modifies this
      ensures (Value(), key) == Allocated(old(Value()), original, isNative)
    {
      if |adapter| + |native| >= MAX_OUTSTANDING {
        return None;
      }
      sequence := sequence + 1;
      var made := KeyText(isNative, sequence);
      if isNative {
        native := native + {made};
        outcomes := outcomes[made := Pending];
      } else {
        if original.None? || original.value.OtherId? {
          return None;
        }
        if exists k :: k in adapter && adapter[k] == original.value {
          return None;
        }
        adapter := adapter[made := original.value];
      }
      return Some(made);
    }

    method Reply(f: Frame) returns (r: Delivery)
      modifies this
      ensures (Value(), r) == Replied(old(Value()), f)
    {
      if f.id.None? || !f.id.value.TextId? || f.reply.NoReply? || f.reply.BothReplies? {
        return Unroutable;
      }
      var key := f.id.value.s;
      if key in native {
        native := native - {key};
        if key in outcomes && outcomes[key] == Pending {
          outcomes := outcomes[key := if f.reply.EmptyResult? then Acknowledged else Refused];
        }
        return Swallowed;
      }
      if key !in adapter {
        return Unroutable;
      }
      r := Routed(f.(id := Some(adapter[key])));
      adapter := adapter - {key};
    }
  }

  // ---------- What every table keeps ----------

  predicate Issued(r: Routes, key: Text, native: bool) {
    exists n :: 1 <= n <= r.sequence && key == KeyText(native, n)
  }

  /** Outstanding requests of one side never share an original id. */
  predicate Separate(adapter: map<Text, Id>) {
    forall k, l :: k in adapter && l in adapter && adapter[k] == adapter[l] ==> k == l
  }

  predicate AllIssued(r: Routes) {
    && (forall k :: k in r.adapter ==> Issued(r, k, false))
    && (forall k :: k in r.native ==> Issued(r, k, true))
    && (forall k :: k in r.outcomes ==> Issued(r, k, true))
  }

  predicate WellRouted(r: Routes) {
    |r.adapter| + |r.native| <= MAX_OUTSTANDING && AllIssued(r) && Separate(r.adapter)
  }

  lemma NextIsUnused(r: Routes, native: bool)
    requires AllIssued(r)
    ensures var key := KeyText(native, r.sequence + 1); key !in r.adapter && key !in r.native && key !in r.outcomes
  {
    var key := KeyText(native, r.sequence + 1);
    forall other: bool | Issued(r, key, other) ensures false {
      var n :| 1 <= n <= r.sequence && key == KeyText(other, n);
      KeysDiffer(native, r.sequence + 1, other, n);
    }
  }

  /** Numbers only grow, so what was issued stays issued. */
  lemma IssuedLater(r: Routes, s: Routes)
    requires r.sequence <= s.sequence && AllIssued(r)
    requires forall k :: k in s.adapter ==> k in r.adapter || Issued(s, k, false)
    requires forall k :: k in s.native || k in s.outcomes ==> k in r.native || k in r.outcomes || Issued(s, k, true)
    ensures AllIssued(s)
  {
    forall k, which: bool | Issued(r, k, which) ensures Issued(s, k, which) {
      var n :| 1 <= n <= r.sequence && k == KeyText(which, n);
    }
    hide KeyText, Issued;
  }

  lemma MapSizes<K, V>(m: map<K, V>, k: K, v: V)
    ensures k !in m ==> |m[k := v]| == |m| + 1
    ensures |m - {k}| <= |m|
  {
    assert m[k := v].Keys == m.Keys + {k};
    assert (m - {k}).Keys == m.Keys - {k};
  }

  lemma AddKeepsSeparate(adapter: map<Text, Id>, key: Text, original: Id)
    requires Separate(adapter) && key !in adapter && forall k :: k in adapter ==> adapter[k] != original
    ensures Separate(adapter[key := original])
  {
  }

  lemma AddKeepsTable(r: Routes, key: Text, original: Id)
    requires WellRouted(r) && |r.adapter| + |r.native| < MAX_OUTSTANDING
    requires key == KeyText(false, r.sequence + 1) && key !in r.adapter && forall k :: k in r.adapter ==>
      r.adapter[k] != original
    ensures WellRouted(r.(sequence := r.sequence + 1, adapter := r.adapter[key := original]))
  {
    var s := r.(sequence := r.sequence + 1, adapter := r.adapter[key := original]);
    assert Issued(s, key, false);
    hide Issued, KeyText, AllIssued, Separate;
    IssuedLater(r, s);
    AddKeepsSeparate(r.adapter, key, original);
    MapSizes(r.adapter, key, original);
  }

  lemma AddNativeKeepsTable(r: Routes, key: Text)
    requires WellRouted(r) && |r.adapter| + |r.native| < MAX_OUTSTANDING
    requires key == KeyText(true, r.sequence + 1)
    ensures WellRouted(r.(sequence := r.sequence + 1, native := r.native + {key},
                          outcomes := r.outcomes[key := Pending]))
  {
    var s := r.(sequence := r.sequence + 1, native := r.native + {key}, outcomes := r.outcomes[key := Pending]);
    assert Issued(s, key, true);
    hide Issued, KeyText, AllIssued;
    IssuedLater(r, s);
    assert |s.native| <= |r.native| + 1;
  }

  /** Every id handed out is new, original ids stay apart, and at most 128 requests are outstanding. */
  lemma AllocationKeepsTable(r: Routes, original: Option<Id>, native: bool)
    requires WellRouted(r)
    ensures WellRouted(Allocated(r, original, native).0)
    ensures var (s, key) := Allocated(r, original, native);
      && (key.Some? ==> key.value !in r.adapter && key.value !in r.native && key.value !in r.outcomes)
      && (forall k :: k in r.adapter ==> k in s.adapter && s.adapter[k] == r.adapter[k])
  {
    hide WellRouted, AllIssued, KeyText;
    RoutedIsIssued(r);
    NextIsUnused(r, native);
    SpentKeepsTable(r);
    var key := KeyText(native, r.sequence + 1);
    var room := |r.adapter| + |r.native| < MAX_OUTSTANDING;
    if room && native {
      AddNativeKeepsTable(r, key);
    } else if room && original.Some? && !InUse(r, original.value) {
      AddKeepsTable(r, key, original.value);
    }
  }

  lemma RoutedIsIssued(r: Routes)
    requires WellRouted(r)
    ensures AllIssued(r)
  {
  }

  /** A refused request may have spent a number. */
  lemma SpentKeepsTable(r: Routes)
    requires WellRouted(r)
    ensures WellRouted(r.(sequence := r.sequence + 1))
  {
    hide Issued, AllIssued, Separate;
    IssuedLater(r, r.(sequence := r.sequence + 1));
  }

  lemma DropKeepsTable(r: Routes, key: Text, outcomes: map<Text, Outcome>)
    requires WellRouted(r) && outcomes.Keys == r.outcomes.Keys
    ensures WellRouted(r.(native := r.native - {key}, outcomes := outcomes))
    ensures WellRouted(r.(adapter := r.adapter - {key}))
  {
    MapSizes(r.adapter, key, IntId(0));
    SubsetSizeLe(r.native - {key}, r.native);
    hide Issued, AllIssued;
    IssuedLater(r, r.(native := r.native - {key}, outcomes := outcomes));
    IssuedLater(r, r.(adapter := r.adapter - {key}));
  }

  lemma ReplyKeepsTable(r: Routes, f: Frame)
    requires WellRouted(r)
    ensures WellRouted(Replied(r, f).0)
    ensures var s := Replied(r, f).0;
      forall k :: k in r.adapter && f.id != Some(TextId(k)) ==> k in s.adapter && s.adapter[k] == r.adapter[k]
  {
    var s := Replied(r, f).0;
    hide WellRouted;
    if f.id.Some? && f.id.value.TextId? {
      var key := f.id.value.s;
      if s.outcomes != r.outcomes {
        assert key in r.outcomes;
        assert s.outcomes.Keys == r.outcomes.Keys;
      }
      DropKeepsTable(r, key, s.outcomes);
    }
  }

  // ---------- A reply finds its own request ----------

  datatype RouteOp = Ask(original: Option<Id>, native: bool) | Answer(frame: Frame)

  function After(r: Routes, ops: seq<RouteOp>): Routes {
    if ops == [] then r
    else
      var before := After(r, ops[..|ops| - 1]);
      match ops[|ops| - 1]
      case Ask(original, native) => Allocated(before, original, native).0
      case Answer(f) => Replied(before, f).0
  }

  lemma {:induction false} RequestStaysOutstanding(r: Routes, ops: seq<RouteOp>, key: Text)
    requires WellRouted(r) && key in r.adapter
    requires forall i :: 0 <= i < |ops| && ops[i].Answer? ==> ops[i].frame.id != Some(TextId(key))
    ensures var s := After(r, ops); WellRouted(s) && key in s.adapter && s.adapter[key] == r.adapter[key]
  {
    if ops != [] {
      var rest := ops[..|ops| - 1];
      RequestStaysOutstanding(r, rest, key);
      var before := After(r, rest);
      match ops[|ops| - 1] {
        case Ask(original, native) => AllocationKeepsTable(before, original, native);
        case Answer(f) => ReplyKeepsTable(before, f);
      }
    }
  }

  /**
   Whatever other requests and replies come in between, the first reply that carries an issued
   key goes back under the id of the request that key was issued for, and a second is refused.
   */
  lemma OwnReply(r: Routes, original: Id, ops: seq<RouteOp>, reply: Frame)
    requires WellRouted(r) && Allocated(r, Some(original), false).1.Some?
    requires var key := Allocated(r, Some(original), false).1.value;
      && (forall i :: 0 <= i < |ops| && ops[i].Answer? ==> ops[i].frame.id != Some(TextId(key)))
      && reply.id == Some(TextId(key)) && !reply.reply.NoReply? && !reply.reply.BothReplies?
    ensures var s := After(Allocated(r, Some(original), false).0, ops);
      && Replied(s, reply).1 == Routed(reply.(id := Some(original)))
      && Replied(Replied(s, reply).0, reply).1 == Unroutable
  {
    var (asked, key) := Allocated(r, Some(original), false);
    AllocationKeepsTable(r, Some(original), false);
    RequestStaysOutstanding(asked, ops, key.value);
    var s := After(asked, ops);
    NativeKeysAreNotAdapters(s, key.value);
    hide KeyText, Issued, Allocated, After, WellRouted;
  }

  lemma NativeKeysAreNotAdapters(r: Routes, key: Text)
    requires WellRouted(r) && key in r.adapter
    ensures key !in r.native
  {
    var n :| 1 <= n <= r.sequence && key == KeyText(false, n);
    if key in r.native {
      assert Issued(r, key, true);
      var m :| 1 <= m <= r.sequence && key == KeyText(true, m);
      KeysDiffer(false, n, true, m);
    }
  }
}
