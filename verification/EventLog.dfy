/**
 The append-only hash chain of a campaign (`evolution.py`).  A file holds one canonical
 record; the digest function is a parameter, and collision freedom is a hypothesis.
 */
module EventLog {
  import opened Wrappers
  import opened Sorting
  import opened CanonicalJson
  import opened CanonicalRoundTrip

  type Digest = Text -> Text

  /** A file of the campaign directory: the number in its zero-padded name, and its content. */
  datatype EventFile = EventFile(number: nat, content: Text)

  datatype LogError = IntegrityError | InvalidRecord

  /** Every digest is a canonical string. */
  ghost predicate DigestStrings(nfc: Text -> bool, sha: Digest) {
    forall t :: ValidString(nfc, sha(t))
  }

  ghost predicate CollisionFree(sha: Digest) {
    forall s, t :: sha(s) == sha(t) ==> s == t
  }

  function Key(name: string): Text { Codes(name) }

  function Get(v: Value, key: Text): Option<Value> {
    if v.Obj? && key in v.members then Some(v.members[key]) else None
  }

  function Previous(predecessor: Option<Text>): Value {
    match predecessor
    case None => Obj(map[Key("state") := Str(Codes("absent"))])
    case Some(d) => Obj(map[Key("state") := Str(Codes("present")), Key("value") := Str(d)])
  }

  lemma PreviousInjective(a: Option<Text>, b: Option<Text>)
    requires Previous(a) == Previous(b)
    ensures a == b
  {
    assert Codes("absent")[0] == 97 && Codes("present")[0] == 112;
    assert |Key("state")| == 5 && Key("state")[0] == 115 && Key("value")[0] == 118;
    assert Previous(a).members[Key("state")] == Previous(b).members[Key("state")];
    match a {
      case Some(d) => assert b.Some? ==> Previous(a).members[Key("value")] == Previous(b).members[Key("value")];
      case None =>
    }
  }

  /** The digested part of a record. */
  function SignedText(unsigned: Value): Text
    requires Encodable(unsigned)
  {
    Codes("unrest.evolution-event.v1") + [0] + Canonical(unsigned)
  }

  function Unsigned(campaign: Text, kind: Text, observedAt: Text, payload: Value, predecessor: Option<Text>,
                    sequence: nat): (r: Value)
    ensures r.Obj?
  {
    Obj(map[
      Key("campaign_id") := Str(campaign),
      Key("event_kind") := Str(kind),
      Key("observed_at") := Str(observedAt),
      Key("payload") := payload,
      Key("previous_event_digest") := Previous(predecessor),
      Key("schema_version") := Int(1),
      Key("sequence") := Int(sequence)])
  }

  function Sign(sha: Digest, unsigned: Value): (r: Value)
    requires unsigned.Obj? && Encodable(unsigned)
    ensures r.Obj?
  {
    Obj(unsigned.members[Key("event_digest") := Str(sha(SignedText(unsigned)))])
  }

  /** `{key: value for key, value in parsed.items() if key != "event_digest"}`. */
  function WithoutDigest(v: Value): Value
    requires v.Obj?
  {
    Obj(v.members - {Key("event_digest")})
  }

  /** Python compares `True == 1`. */
  predicate EqualsNumber(v: Option<Value>, n: nat) {
    v == Some(Int(n)) || (v == Some(Bool(true)) && n == 1)
  }

  /** The checks of the loading loop on one parsed record. */
  predicate Links(sha: Digest, campaign: Text, v: Value, expected: nat, predecessor: Option<Text>)
    requires Encodable(v)
  {
    && v.Obj?
    && Get(v, Key("campaign_id")) == Some(Str(campaign))
    && EqualsNumber(Get(v, Key("sequence")), expected)
    && Get(v, Key("previous_event_digest")) == Some(Previous(predecessor))
    && Get(v, Key("event_digest")) == Some(Str(sha(SignedText(WithoutDigest(v)))))
  }

  function DigestOf(v: Value): Text {
    match Get(v, Key("event_digest"))
    case Some(Str(d)) => d
    case _ => []
  }

  function LastDigest(events: seq<Value>): Option<Text> {
    if events == [] then None else Some(DigestOf(events[|events| - 1]))
  }

  /** One pass of the loading loop: a canonical record in its place, or nothing. */
  function ReadRecord(nfc: Text -> bool, sha: Digest, campaign: Text, file: EventFile, expected: nat,
                      predecessor: Option<Text>): Option<Value> {
    if file.number != expected then None
    else
      match Verify(nfc, file.content)
      case Err(_) => None
      case Ok(v) =>
        ValidOf(nfc, file.content, v);
        if Links(sha, campaign, v, expected, predecessor) then Some(v) else None
  }

  /** `_load_events`: every file verified, in order, each linked to the one before. */
  function Load(nfc: Text -> bool, sha: Digest, campaign: Text, files: seq<EventFile>): Result<seq<Value>, LogError> {
    if files == [] then Ok([])
    else
      var n := |files| - 1;
      match Load(nfc, sha, campaign, files[..n])
      case Err(e) => Err(e)
      case Ok(events) =>
        match ReadRecord(nfc, sha, campaign, files[n], n + 1, LastDigest(events))
        case None => Err(IntegrityError)
        case Some(v) => Ok(events + [v])
  }

  lemma ReadRecordMeaning(nfc: Text -> bool, sha: Digest, campaign: Text, file: EventFile, expected: nat,
                          predecessor: Option<Text>, v: Value)
    ensures ReadRecord(nfc, sha, campaign, file, expected, predecessor) == Some(v) <==>
      (Valid(nfc, v) && Encodable(v) && file == EventFile(expected, Canonical(v))
       && Links(sha, campaign, v, expected, predecessor))
  {
    VerifierAcceptsExactlyTheImage(nfc, file.content, v);
    hide Verify, Canonical, Links, Valid, Encodable;
  }

  lemma ValidOf(nfc: Text -> bool, content: Text, v: Value)
    requires Verify(nfc, content) == Ok(v)
    ensures Valid(nfc, v) && Encodable(v) && content == Canonical(v)
  {
    VerifierAcceptsExactlyTheImage(nfc, content, v);
  }

  /** What a loaded log knows about its last record. */
  lemma LoadLast(nfc: Text -> bool, sha: Digest, campaign: Text, files: seq<EventFile>)
    requires Load(nfc, sha, campaign, files).Ok? && files != []
    ensures var n := |files| - 1;
      var events := Load(nfc, sha, campaign, files).value;
      && |events| == |files|
      && Load(nfc, sha, campaign, files[..n]) == Ok(events[..n])
      && ReadRecord(nfc, sha, campaign, files[n], n + 1, LastDigest(events[..n])) == Some(events[n])
  {
    hide ReadRecord, LastDigest;
    var n := |files| - 1;
    LoadLength(nfc, sha, campaign, files);
    LoadLength(nfc, sha, campaign, files[..n]);
    var events := Load(nfc, sha, campaign, files).value;
    var before := Load(nfc, sha, campaign, files[..n]).value;
    assert events[..n] == before;
  }

  lemma {:induction false} LoadLength(nfc: Text -> bool, sha: Digest, campaign: Text, files: seq<EventFile>)
    requires Load(nfc, sha, campaign, files).Ok?
    ensures |Load(nfc, sha, campaign, files).value| == |files|
  {
    if files == [] {
    } else {
      LoadLength(nfc, sha, campaign, files[..|files| - 1]);
    }
  }

  // ---------- What a record holds ----------

  predicate Holds(v: Value, name: string, x: Value) {
    v.Obj? && Codes(name) in v.members && v.members[Codes(name)] == x
  }

  /** The predecessor is absent for the first record, and else the digest the record before carries. */
  ghost predicate HoldsPrevious(v: Value, before: seq<Value>) {
    if before == [] then Holds(v, "previous_event_digest", Obj(map[Codes("state") := Str(Codes("absent"))]))
    else exists d ::
      && Holds(before[|before| - 1], "event_digest", Str(d))
      && Holds(v, "previous_event_digest",
               Obj(map[Codes("state") := Str(Codes("present")), Codes("value") := Str(d)]))
  }

  /** The digest is that of the event prefix, a zero byte and the canonical text of all other members. */
  ghost predicate HoldsDigest(sha: Digest, v: Value) {
    && v.Obj? && Encodable(Obj(v.members - {Codes("event_digest")}))
    && Holds(v, "event_digest", Str(sha(Codes("unrest.evolution-event.v1") + [0]
                                        + Canonical(Obj(v.members - {Codes("event_digest")})))))
  }

  /** The eight members of an appended record, and no other. */
  ghost predicate IsRecord(sha: Digest, campaign: Text, before: seq<Value>, kind: Text, observedAt: Text,
                           payload: Value, v: Value) {
    && Holds(v, "campaign_id", Str(campaign)) && Holds(v, "event_kind", Str(kind))
    && Holds(v, "observed_at", Str(observedAt)) && Holds(v, "payload", payload)
    && Holds(v, "schema_version", Int(1)) && Holds(v, "sequence", Int(|before| + 1))
    && HoldsPrevious(v, before) && HoldsDigest(sha, v)
    && v.members.Keys == {Codes("campaign_id"), Codes("event_kind"), Codes("observed_at"), Codes("payload"),
                          Codes("schema_version"), Codes("sequence"), Codes("previous_event_digest"),
                          Codes("event_digest")}
  }

  lemma UnsignedHolds(campaign: Text, kind: Text, observedAt: Text, payload: Value, predecessor: Option<Text>,
                      sequence: nat)
    ensures var v := Unsigned(campaign, kind, observedAt, payload, predecessor, sequence);
      && Holds(v, "campaign_id", Str(campaign)) && Holds(v, "event_kind", Str(kind))
      && Holds(v, "observed_at", Str(observedAt)) && Holds(v, "payload", payload)
      && Holds(v, "schema_version", Int(1)) && Holds(v, "sequence", Int(sequence))
      && Holds(v, "previous_event_digest", Previous(predecessor))
      && v.members.Keys == {Codes("campaign_id"), Codes("event_kind"), Codes("observed_at"), Codes("payload"),
                            Codes("schema_version"), Codes("sequence"), Codes("previous_event_digest")}
  {
    NamesDiffer();
    hide Codes, Previous;
  }

  lemma NamesDiffer()
    ensures |Codes("campaign_id")| == 11 && |Codes("event_kind")| == 10 && |Codes("observed_at")| == 11
    ensures |Codes("payload")| == 7 && |Codes("previous_event_digest")| == 21 && |Codes("schema_version")| == 14
    ensures |Codes("sequence")| == 8 && |Codes("event_digest")| == 12
    ensures Codes("campaign_id") != Codes("observed_at")
  {
    assert Codes("campaign_id")[0] == 99 && Codes("observed_at")[0] == 111;
  }

  /** Signing adds the digest and changes nothing else. */
  lemma SignedHolds(sha: Digest, unsigned: Value)
    requires unsigned.Obj? && Encodable(unsigned) && Codes("event_digest") !in unsigned.members
    ensures var v := Sign(sha, unsigned);
      && HoldsDigest(sha, v) && v.members.Keys == unsigned.members.Keys + {Codes("event_digest")}
      && forall name: string, x :: Holds(unsigned, name, x) ==> Holds(v, name, x)
  {
    hide Codes, Canonical;
    assert Sign(sha, unsigned).members - {Codes("event_digest")} == unsigned.members;
  }

  lemma PreviousHolds(v: Value, before: seq<Value>)
    requires Holds(v, "previous_event_digest", Previous(LastDigest(before)))
    requires before != [] ==> exists d :: Holds(before[|before| - 1], "event_digest", Str(d))
    ensures HoldsPrevious(v, before)
  {
    PreviousIs(v, before);
  }

  /** The record signed for the next place holds what it was given. */
  lemma SignedIsRecord(sha: Digest, campaign: Text, before: seq<Value>, kind: Text, observedAt: Text, payload: Value)
    requires before != [] ==> exists d :: Holds(before[|before| - 1], "event_digest", Str(d))
    requires Encodable(Unsigned(campaign, kind, observedAt, payload, LastDigest(before), |before| + 1))
    ensures var unsigned := Unsigned(campaign, kind, observedAt, payload, LastDigest(before), |before| + 1);
      IsRecord(sha, campaign, before, kind, observedAt, payload, Sign(sha, unsigned))
  {
    hide Codes, Sign, Unsigned, Previous, Encodable, HoldsPrevious, HoldsDigest, LastDigest, Holds;
    var unsigned := Unsigned(campaign, kind, observedAt, payload, LastDigest(before), |before| + 1);
    UnsignedHolds(campaign, kind, observedAt, payload, LastDigest(before), |before| + 1);
    NamesDiffer();
    SignedHolds(sha, unsigned);
    PreviousHolds(Sign(sha, unsigned), before);
  }

  // ---------- Which files are a log ----------

  /** The file after `before`: numbered, canonical, of this campaign, linked and signed. */
  ghost predicate InPlace(nfc: Text -> bool, sha: Digest, campaign: Text, file: EventFile, before: seq<Value>,
                          v: Value) {
    && Valid(nfc, v) && Encodable(v) && file.number == |before| + 1 && file.content == Canonical(v)
    && Holds(v, "campaign_id", Str(campaign))
    && (Holds(v, "sequence", Int(|before| + 1)) || (before == [] && Holds(v, "sequence", Bool(true))))
    && HoldsPrevious(v, before) && HoldsDigest(sha, v)
  }

  ghost predicate IsLog(nfc: Text -> bool, sha: Digest, campaign: Text, files: seq<EventFile>, events: seq<Value>) {
    && |files| == |events|
    && forall i :: 0 <= i < |files| ==> InPlace(nfc, sha, campaign, files[i], events[..i], events[i])
  }

  lemma InPlaceMeaning(nfc: Text -> bool, sha: Digest, campaign: Text, file: EventFile, before: seq<Value>, v: Value)
    requires before != [] ==> exists d :: Holds(before[|before| - 1], "event_digest", Str(d))
    ensures ReadRecord(nfc, sha, campaign, file, |before| + 1, LastDigest(before)) == Some(v) <==>
      InPlace(nfc, sha, campaign, file, before, v)
  {
    ReadRecordMeaning(nfc, sha, campaign, file, |before| + 1, LastDigest(before), v);
    hide ReadRecord, Valid, Encodable, Canonical, Links, Holds, HoldsPrevious, HoldsDigest, LastDigest, Previous;
    PreviousIs(v, before);
    if Encodable(v) {
      LinksByHolding(sha, campaign, v, |before| + 1, LastDigest(before));
    }
  }

  lemma LinksByHolding(sha: Digest, campaign: Text, v: Value, expected: nat, predecessor: Option<Text>)
    requires Encodable(v)
    ensures Links(sha, campaign, v, expected, predecessor) <==>
      && Holds(v, "campaign_id", Str(campaign))
      && (Holds(v, "sequence", Int(expected)) || (expected == 1 && Holds(v, "sequence", Bool(true))))
      && Holds(v, "previous_event_digest", Previous(predecessor)) && HoldsDigest(sha, v)
  {
    if v.Obj? { WithoutDigestEncodes(v); }
    hide Codes, Previous, Canonical, Encodable;
  }

  lemma WithoutDigestEncodes(v: Value)
    requires v.Obj? && Encodable(v)
    ensures Encodable(WithoutDigest(v))
  {
  }

  lemma PreviousIs(v: Value, before: seq<Value>)
    requires before != [] ==> exists d :: Holds(before[|before| - 1], "event_digest", Str(d))
    ensures Holds(v, "previous_event_digest", Previous(LastDigest(before))) <==> HoldsPrevious(v, before)
  {
    hide Codes;
    if before != [] {
      var d :| Holds(before[|before| - 1], "event_digest", Str(d));
      assert LastDigest(before) == Some(d);
    }
  }

  /** The loading loop accepts exactly the logs, and returns their records. */
  lemma {:induction false} LoadExactly(nfc: Text -> bool, sha: Digest, campaign: Text, files: seq<EventFile>,
                                       events: seq<Value>)
    ensures Load(nfc, sha, campaign, files) == Ok(events) <==> IsLog(nfc, sha, campaign, files, events)
  {
    hide ReadRecord, InPlace, LastDigest;
    if |files| != |events| {
      if Load(nfc, sha, campaign, files).Ok? { LoadLength(nfc, sha, campaign, files); }
    } else if files == [] {
    } else {
      var n := |files| - 1;
      var before, v := events[..n], events[n];
      assert events == before + [v];
      LoadExactly(nfc, sha, campaign, files[..n], before);
      LogSplits(nfc, sha, campaign, files, events);
      if IsLog(nfc, sha, campaign, files[..n], before) {
        LogIsSigned(nfc, sha, campaign, files[..n], before);
        InPlaceMeaning(nfc, sha, campaign, files[n], before, v);
      }
    }
  }

  lemma LogSplits(nfc: Text -> bool, sha: Digest, campaign: Text, files: seq<EventFile>, events: seq<Value>)
    requires |files| == |events| && files != []
    ensures var n := |files| - 1;
      IsLog(nfc, sha, campaign, files, events) <==>
        IsLog(nfc, sha, campaign, files[..n], events[..n])
        && InPlace(nfc, sha, campaign, files[n], events[..n], events[n])
  {
    hide InPlace;
    var n := |files| - 1;
    assert forall i :: 0 <= i < n ==> events[..n][..i] == events[..i];
  }

  lemma LogIsSigned(nfc: Text -> bool, sha: Digest, campaign: Text, files: seq<EventFile>, events: seq<Value>)
    requires IsLog(nfc, sha, campaign, files, events)
    ensures events != [] ==> exists d :: Holds(events[|events| - 1], "event_digest", Str(d))
  {
    hide Valid, Encodable, Canonical, HoldsPrevious;
    if events != [] {
      var n := |events| - 1;
      assert InPlace(nfc, sha, campaign, files[n], events[..n], events[n]);
    }
  }

  lemma LastIsSigned(nfc: Text -> bool, sha: Digest, campaign: Text, files: seq<EventFile>, events: seq<Value>)
    requires Load(nfc, sha, campaign, files) == Ok(events)
    ensures events != [] ==> exists d :: Holds(events[|events| - 1], "event_digest", Str(d))
  {
    hide *;
    LoadExactly(nfc, sha, campaign, files, events);
    LogIsSigned(nfc, sha, campaign, files, events);
  }

  lemma NoLog(nfc: Text -> bool, sha: Digest, campaign: Text, files: seq<EventFile>)
    requires Load(nfc, sha, campaign, files).Err?
    ensures forall events :: !IsLog(nfc, sha, campaign, files, events)
  {
    hide *;
    forall events ensures !IsLog(nfc, sha, campaign, files, events) {
      LoadExactly(nfc, sha, campaign, files, events);
    }
  }

  // ---------- Appending ----------

  class CampaignLog {
    const nfc: Text -> bool
    const sha: Digest
    const campaign: Text
    var files: seq<EventFile>

    constructor (nfc: Text -> bool, sha: Digest, campaign: Text)
      ensures this.nfc == nfc && this.sha == sha && this.campaign == campaign && files == []
    {
      this.nfc, this.sha, this.campaign := nfc, sha, campaign;
      files := [];
    }

    /** The loading loop. */
    method LoadEvents() returns (r: Result<seq<Value>, LogError>)
      ensures r == Load(nfc, sha, campaign, files)
      ensures r.Ok? ==> IsLog(nfc, sha, campaign, files, r.value)
      ensures r.Err? ==> r.error == IntegrityError && forall events :: !IsLog(nfc, sha, campaign, files, events)
    {
      hide ReadRecord, DigestOf, IsLog;
      var events: seq<Value> := [];
      var predecessor: Option<Text> := None;
      for i := 0 to |files|
        invariant Load(nfc, sha, campaign, files[..i]) == Ok(events)
        invariant predecessor == LastDigest(events)
      {
        assert files[..i + 1][..i] == files[..i];
        var parsed := ReadRecord(nfc, sha, campaign, files[i], i + 1, predecessor);
        if parsed.None? {
          LoadFails(nfc, sha, campaign, files, i + 1);
          NoLog(nfc, sha, campaign, files);
          return Err(IntegrityError);
        }
        predecessor := Some(DigestOf(parsed.value));
        events := events + [parsed.value];
      }
      assert files[..|files|] == files;
      LoadExactly(nfc, sha, campaign, files, events);
      r := Ok(events);
    }

    /**
     `_append_event`: refused when the log does not load or the record is not canonical,
     otherwise the loaded log grows by exactly this record.
     */
    method AppendEvent(kind: Text, observedAt: Text, payload: Value) returns (r: Result<Value, LogError>)
      requires DigestStrings(nfc, sha)
      modifies this`files
      ensures r.Err? ==> files == old(files)
      ensures var loaded := Load(nfc, sha, campaign, old(files));
        && (r.Ok? <==> loaded.Ok? && Valid(nfc, NextUnsigned(loaded.value, kind, observedAt, payload)))
        && (r.Ok? ==> Load(nfc, sha, campaign, files) == Ok(loaded.value + [r.value]))
        && (r.Ok? ==> Encodable(r.value) && files == old(files) + [EventFile(|loaded.value| + 1, Canonical(r.value))])
        && (r.Ok? ==> IsRecord(sha, campaign, loaded.value, kind, observedAt, payload, r.value))
        && (r.Err? ==> r.error == if loaded.Ok? then InvalidRecord else IntegrityError)
    {
      hide IsRecord, IsLog, Load, Valid, Encodable, Canonical, Sign, DigestStrings;
      var loaded := LoadEvents();
      if loaded.Err? { return Err(loaded.error); }
      var events := loaded.value;
      LoadLength(nfc, sha, campaign, files);
      var unsigned := NextUnsigned(events, kind, observedAt, payload);
      if !Valid(nfc, unsigned) { return Err(InvalidRecord); }
      ValidIsEncodable(nfc, unsigned);
      var record := Sign(sha, unsigned);
      LastIsSigned(nfc, sha, campaign, files, events);
      SignedIsRecord(sha, campaign, events, kind, observedAt, payload);
      AppendedLoads(nfc, sha, campaign, files, events, kind, observedAt, payload);
      files := files + [EventFile(|events| + 1, Canonical(record))];
      r := Ok(record);
    }

    function NextUnsigned(events: seq<Value>, kind: Text, observedAt: Text, payload: Value): Value {
      Unsigned(campaign, kind, observedAt, payload, LastDigest(events), |events| + 1)
    }
  }

  lemma {:induction false} LoadFails(nfc: Text -> bool, sha: Digest, campaign: Text, files: seq<EventFile>, n: nat)
    requires n <= |files| && Load(nfc, sha, campaign, files[..n]) == Err(IntegrityError)
    ensures Load(nfc, sha, campaign, files) == Err(IntegrityError)
    decreases |files|
  {
    if n == |files| {
      assert files[..n] == files;
    } else {
      assert files[..|files| - 1][..n] == files[..n];
      LoadFails(nfc, sha, campaign, files[..|files| - 1], n);
    }
  }

  lemma SignedIsValid(nfc: Text -> bool, sha: Digest, unsigned: Value)
    requires DigestStrings(nfc, sha) && unsigned.Obj? && Valid(nfc, unsigned) && Encodable(unsigned)
    ensures Valid(nfc, Sign(sha, unsigned)) && Encodable(Sign(sha, unsigned))
  {
    assert ValidString(nfc, sha(SignedText(unsigned)));
    assert ValidString(nfc, Key("event_digest"));
    ValidIsEncodable(nfc, Sign(sha, unsigned));
  }

  /** A log built by appending always loads, and grows by exactly the appended record. */
  lemma AppendedLoads(nfc: Text -> bool, sha: Digest, campaign: Text, files: seq<EventFile>, events: seq<Value>,
                      kind: Text, observedAt: Text, payload: Value)
    requires DigestStrings(nfc, sha) && Load(nfc, sha, campaign, files) == Ok(events)
    requires Valid(nfc, Unsigned(campaign, kind, observedAt, payload, LastDigest(events), |events| + 1))
    ensures var unsigned := Unsigned(campaign, kind, observedAt, payload, LastDigest(events), |events| + 1);
      && Encodable(unsigned) && Encodable(Sign(sha, unsigned))
      && Load(nfc, sha, campaign, files + [EventFile(|events| + 1, Canonical(Sign(sha, unsigned)))]) ==
        Ok(events + [Sign(sha, unsigned)])
  {
    hide *;
    var unsigned := Unsigned(campaign, kind, observedAt, payload, LastDigest(events), |events| + 1);
    ValidIsEncodable(nfc, unsigned);
    SignedIsValid(nfc, sha, unsigned);
    LoadLength(nfc, sha, campaign, files);
    FieldsSurviveSigning(sha, campaign, kind, observedAt, payload, LastDigest(events), |events| + 1);
    var record := Sign(sha, unsigned);
    var file := EventFile(|events| + 1, Canonical(record));
    ReadRecordMeaning(nfc, sha, campaign, file, |events| + 1, LastDigest(events), record);
    LoadOneMore(nfc, sha, campaign, files, events, file, record);
  }

  lemma LoadOneMore(nfc: Text -> bool, sha: Digest, campaign: Text, files: seq<EventFile>, events: seq<Value>,
                    file: EventFile, record: Value)
    requires Load(nfc, sha, campaign, files) == Ok(events)
    requires ReadRecord(nfc, sha, campaign, file, |files| + 1, LastDigest(events)) == Some(record)
    ensures Load(nfc, sha, campaign, files + [file]) == Ok(events + [record])
  {
    hide ReadRecord, LastDigest;
    assert (files + [file])[..|files|] == files;
  }

  lemma FieldsSurviveSigning(sha: Digest, campaign: Text, kind: Text, observedAt: Text, payload: Value,
                             predecessor: Option<Text>, sequence: nat)
    requires Encodable(Unsigned(campaign, kind, observedAt, payload, predecessor, sequence))
    requires Encodable(Sign(sha, Unsigned(campaign, kind, observedAt, payload, predecessor, sequence)))
    ensures Links(sha, campaign, Sign(sha, Unsigned(campaign, kind, observedAt, payload, predecessor, sequence)),
                  sequence, predecessor)
  {
    hide Codes, Previous, Encodable, Unsigned, Sign, Links, Holds, HoldsDigest;
    var unsigned := Unsigned(campaign, kind, observedAt, payload, predecessor, sequence);
    NamesDiffer();
    UnsignedHolds(campaign, kind, observedAt, payload, predecessor, sequence);
    SignedHolds(sha, unsigned);
    LinksByHolding(sha, campaign, Sign(sha, unsigned), sequence, predecessor);
  }

  // ---------- The chain determines the log ----------

  lemma SignedTextInjective(nfc: Text -> bool, a: Value, b: Value)
    requires Valid(nfc, a) && Valid(nfc, b) && Encodable(a) && Encodable(b)
    requires SignedText(a) == SignedText(b)
    ensures a == b
  {
    var head := Codes("unrest.evolution-event.v1") + [0];
    EncoderInjective(nfc, a, b);
    hide Canonical, Valid, Encodable;
    assert SignedText(a)[|head|..] == Canonical(a) && SignedText(b)[|head|..] == Canonical(b);
  }

  lemma WithoutDigestIsValid(nfc: Text -> bool, v: Value)
    requires v.Obj? && Valid(nfc, v)
    ensures Valid(nfc, WithoutDigest(v)) && Encodable(WithoutDigest(v))
  {
    ValidIsEncodable(nfc, WithoutDigest(v));
  }

  /** A record is its digested part and its digest. */
  lemma DigestCompletes(v: Value, w: Value)
    requires v.Obj? && w.Obj? && WithoutDigest(v) == WithoutDigest(w)
    requires Get(v, Key("event_digest")).Some? && Get(v, Key("event_digest")) == Get(w, Key("event_digest"))
    ensures v == w
  {
    hide Key;
    var key := Key("event_digest");
    var a, b := v.members - {key}, w.members - {key};
    forall k | k in v.members || k in w.members
      ensures k in v.members && k in w.members && v.members[k] == w.members[k]
    {
      if k != key { assert k in a || k in b; assert k in a && a[k] == b[k]; }
    }
  }

  /** Two records with the same digest are the same record, at the same place, behind the same digest. */
  lemma SameDigestSameRecord(nfc: Text -> bool, sha: Digest, campaign: Text, v: Value, w: Value,
                             n: nat, m: nat, p: Option<Text>, q: Option<Text>)
    requires CollisionFree(sha) && Valid(nfc, v) && Valid(nfc, w) && Encodable(v) && Encodable(w)
    requires Links(sha, campaign, v, n, p) && Links(sha, campaign, w, m, q)
    requires DigestOf(v) == DigestOf(w)
    ensures v == w && n == m && p == q
  {
    var a, b := WithoutDigest(v), WithoutDigest(w);
    WithoutDigestIsValid(nfc, v);
    WithoutDigestIsValid(nfc, w);
    hide Key, Valid, Encodable, SignedText, Previous, WithoutDigest;
    assert SignedText(a) == SignedText(b);
    SignedTextInjective(nfc, a, b);
    DigestCompletes(v, w);
    PreviousInjective(p, q);
  }

  lemma LastDigestIs(events: seq<Value>)
    requires events != []
    ensures LastDigest(events) == Some(DigestOf(events[|events| - 1]))
  {
  }

  /** Logs that end in the same digest end in the same file, and their beginnings do too. */
  lemma SameLastFile(nfc: Text -> bool, sha: Digest, campaign: Text, a: seq<EventFile>, b: seq<EventFile>)
    requires CollisionFree(sha) && a != [] && b != []
    requires Load(nfc, sha, campaign, a).Ok? && Load(nfc, sha, campaign, b).Ok?
    requires LastDigest(Load(nfc, sha, campaign, a).value) == LastDigest(Load(nfc, sha, campaign, b).value)
    ensures a[|a| - 1] == b[|b| - 1]
    ensures Load(nfc, sha, campaign, a[..|a| - 1]).Ok? && Load(nfc, sha, campaign, b[..|b| - 1]).Ok?
    ensures LastDigest(Load(nfc, sha, campaign, a[..|a| - 1]).value) ==
      LastDigest(Load(nfc, sha, campaign, b[..|b| - 1]).value)
  {
    hide *;
    LoadLast(nfc, sha, campaign, a);
    LoadLast(nfc, sha, campaign, b);
    var n, m := |a| - 1, |b| - 1;
    var x, y := Load(nfc, sha, campaign, a).value, Load(nfc, sha, campaign, b).value;
    var p, q := LastDigest(x[..n]), LastDigest(y[..m]);
    LastDigestIs(x);
    LastDigestIs(y);
    ReadRecordMeaning(nfc, sha, campaign, a[n], n + 1, p, x[n]);
    ReadRecordMeaning(nfc, sha, campaign, b[m], m + 1, q, y[m]);
    SameDigestSameRecord(nfc, sha, campaign, x[n], y[m], n + 1, m + 1, p, q);
  }

  lemma NoDigestOnlyWhenEmpty(nfc: Text -> bool, sha: Digest, campaign: Text, a: seq<EventFile>)
    requires Load(nfc, sha, campaign, a).Ok?
    ensures LastDigest(Load(nfc, sha, campaign, a).value) == None <==> a == []
  {
    LoadLength(nfc, sha, campaign, a);
  }

  /**
   Hash chain: with a collision-free digest, two logs of one campaign that both load and
   end in the same event digest are equal in full.
   */
  lemma {:induction false} ChainDeterminesLog(nfc: Text -> bool, sha: Digest, campaign: Text, a: seq<EventFile>,
                                              b: seq<EventFile>)
    requires CollisionFree(sha)
    requires Load(nfc, sha, campaign, a).Ok? && Load(nfc, sha, campaign, b).Ok?
    requires LastDigest(Load(nfc, sha, campaign, a).value) == LastDigest(Load(nfc, sha, campaign, b).value)
    ensures a == b
    decreases |a|
  {
    hide *;
    NoDigestOnlyWhenEmpty(nfc, sha, campaign, a);
    NoDigestOnlyWhenEmpty(nfc, sha, campaign, b);
    if a == [] || b == [] {
    } else {
      SameLastFile(nfc, sha, campaign, a, b);
      ChainDeterminesLog(nfc, sha, campaign, a[..|a| - 1], b[..|b| - 1]);
      assert a == a[..|a| - 1] + [a[|a| - 1]] && b == b[..|b| - 1] + [b[|b| - 1]];
    }
  }
}
