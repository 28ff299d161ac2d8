/**
 Exact-value credential redaction (`capability_policy.py`).

 A text is cut into segments: a plain character, or one whole credential that is
 replaced by a marker naming it.  `Segments` is the one-shot reading of a text;
 `StreamingRedactor` computes the same segments while it is fed chunk by chunk.
 Which characters are alphanumeric is a parameter: everything holds for any table.
 */
module Redaction {
  import opened Wrappers

  type CharClass = char -> bool

  datatype Pattern = Pattern(secret: string, name: string)

  datatype Segment = Plain(c: char) | Redacted(p: Pattern)

  // ---------- Token boundaries ----------

  predicate IsTokenCharacter(alnum: CharClass, c: Option<char>) {
    match c
    case None => false
    case Some(x) => alnum(x) || x == '_' || x == '-' || x == '.'
  }

  /** Short secrets made of token characters only match as a whole token. */
  predicate RequiresTokenBoundaries(alnum: CharClass, value: string) {
    |value| < 8 && forall i :: 0 <= i < |value| ==> IsTokenCharacter(alnum, Some(value[i]))
  }

  function LastOf(text: string): Option<char> {
    if text == "" then None else Some(text[|text| - 1])
  }

  function FirstOf(text: string): Option<char> {
    if text == "" then None else Some(text[0])
  }

  /** `secret` starts `rest`, and its token boundaries hold when it needs them. */
  predicate Matches(alnum: CharClass, secret: string, left: Option<char>, rest: string) {
    && secret <= rest
    && (RequiresTokenBoundaries(alnum, secret) ==>
          !IsTokenCharacter(alnum, left) && !IsTokenCharacter(alnum, FirstOf(rest[|secret|..])))
  }

  /** An occurrence inside a whole text, with the boundaries read from that text. */
  predicate EligibleAt(alnum: CharClass, secret: string, text: string, i: int) {
    0 <= i <= |text| && Matches(alnum, secret, LastOf(text[..i]), text[i..])
  }

  // ---------- One-shot redaction ----------

  predicate NonEmptySecrets(patterns: seq<Pattern>) {
    forall k :: 0 <= k < |patterns| ==> patterns[k].secret != ""
  }

  /** The first pattern in priority order that matches here. */
  function Decide(alnum: CharClass, patterns: seq<Pattern>, left: Option<char>, rest: string): Option<Pattern> {
    if patterns == [] then None
    else if Matches(alnum, patterns[0].secret, left, rest) then Some(patterns[0])
    else Decide(alnum, patterns[1..], left, rest)
  }

  lemma {:induction false} DecideMeaning(alnum: CharClass, patterns: seq<Pattern>, left: Option<char>, rest: string)
    ensures match Decide(alnum, patterns, left, rest)
      case None => forall k :: 0 <= k < |patterns| ==> !Matches(alnum, patterns[k].secret, left, rest)
      case Some(p) =>
        exists k :: 0 <= k < |patterns| && patterns[k] == p && Matches(alnum, p.secret, left, rest)
                    && forall j :: 0 <= j < k ==> !Matches(alnum, patterns[j].secret, left, rest)
  {
    if patterns != [] && !Matches(alnum, patterns[0].secret, left, rest) {
      DecideMeaning(alnum, patterns[1..], left, rest);
      match Decide(alnum, patterns[1..], left, rest)
      case None =>
        forall k | 0 <= k < |patterns| ensures !Matches(alnum, patterns[k].secret, left, rest) {
          if k > 0 { assert patterns[k] == patterns[1..][k - 1]; }
        }
      case Some(p) =>
        var k :| 0 <= k < |patterns| - 1 && patterns[1..][k] == p && Matches(alnum, p.secret, left, rest)
          && forall j :: 0 <= j < k ==> !Matches(alnum, patterns[1..][j].secret, left, rest);
        assert patterns[k + 1] == p;
        forall j | 0 <= j < k + 1 ensures !Matches(alnum, patterns[j].secret, left, rest) {
          if j > 0 { assert patterns[j] == patterns[1..][j - 1]; }
        }
    }
  }

  /** Pins down `Decide` from the facts a scan of the list collects. */
  lemma {:induction false} DecideIs(alnum: CharClass, patterns: seq<Pattern>, left: Option<char>, rest: string, k: nat)
    requires k <= |patterns|
    requires forall j :: 0 <= j < k ==> !Matches(alnum, patterns[j].secret, left, rest)
    requires k < |patterns| ==> Matches(alnum, patterns[k].secret, left, rest)
    ensures Decide(alnum, patterns, left, rest) == if k < |patterns| then Some(patterns[k]) else None
  {
    if k == 0 {
    } else {
      assert !Matches(alnum, patterns[0].secret, left, rest);
      forall j | 0 <= j < k - 1 ensures !Matches(alnum, patterns[1..][j].secret, left, rest) {
        assert patterns[1..][j] == patterns[j + 1];
      }
      DecideIs(alnum, patterns[1..], left, rest, k - 1);
    }
  }

  function Segments(alnum: CharClass, patterns: seq<Pattern>, left: Option<char>, rest: string): seq<Segment>
    requires NonEmptySecrets(patterns)
    decreases |rest|
  {
    if rest == "" then []
    else match Decide(alnum, patterns, left, rest)
      case Some(p) =>
        DecideMeaning(alnum, patterns, left, rest);
        [Redacted(p)] + Segments(alnum, patterns, LastOf(p.secret), rest[|p.secret|..])
      case None =>
        [Plain(rest[0])] + Segments(alnum, patterns, Some(rest[0]), rest[1..])
  }

  /** The text a segmentation stands for. */
  function Source(segments: seq<Segment>): string {
    if segments == [] then ""
    else (match segments[0] case Plain(c) => [c] case Redacted(p) => p.secret) + Source(segments[1..])
  }

  function Marker(name: string): string { "<redacted:" + name + ">" }

  function Shown(s: Segment): string {
    match s case Plain(c) => [c] case Redacted(p) => Marker(p.name)
  }

  /** The text a segmentation is shown as. */
  function Render(segments: seq<Segment>): string {
    if segments == [] then "" else Shown(segments[0]) + Render(segments[1..])
  }

  lemma {:induction false} RenderConcat(a: seq<Segment>, b: seq<Segment>)
    ensures Render(a + b) == Render(a) + Render(b)
  {
    if a == [] {
      assert a + b == b;
    } else {
      assert (a + b)[1..] == a[1..] + b;
      RenderConcat(a[1..], b);
    }
  }

  lemma {:induction false} SourceConcat(a: seq<Segment>, b: seq<Segment>)
    ensures Source(a + b) == Source(a) + Source(b)
  {
    if a == [] {
      assert a + b == b;
    } else {
      assert (a + b)[1..] == a[1..] + b;
      SourceConcat(a[1..], b);
    }
  }

  /** `redact_credential_values` on a whole text. */
  function RedactAll(alnum: CharClass, patterns: seq<Pattern>, text: string): string
    requires NonEmptySecrets(patterns)
  {
    Render(Segments(alnum, patterns, None, text))
  }

  // ---------- Streaming ----------

  /** Some left-eligible secret could still be completed by the next chunk. */
  predicate AwaitsMore(alnum: CharClass, patterns: seq<Pattern>, left: Option<char>, remainder: string) {
    exists k :: 0 <= k < |patterns|
      && (!IsTokenCharacter(alnum, left) || !RequiresTokenBoundaries(alnum, patterns[k].secret))
      && |remainder| < |patterns[k].secret| && remainder <= patterns[k].secret
  }

  /** A bounded secret fills the buffer, so its right boundary is not known yet. */
  predicate Unresolved(alnum: CharClass, p: Pattern, left: Option<char>, remainder: string) {
    RequiresTokenBoundaries(alnum, p.secret) && !IsTokenCharacter(alnum, left) && p.secret == remainder
  }

  /** What the scan accepts now: a match that is not deferred. */
  predicate MatchesNow(alnum: CharClass, p: Pattern, left: Option<char>, remainder: string, isFinal: bool) {
    Matches(alnum, p.secret, left, remainder) && (isFinal || !Unresolved(alnum, p, left, remainder))
  }

  /**
   A deferred short secret and an accepted one exclude each other: whatever matches
   below it is itself a short token, and the character after it is a token character.
   */
  lemma DeferredExcludesMatch(alnum: CharClass, p: Pattern, q: Pattern, left: Option<char>, remainder: string)
    requires Unresolved(alnum, p, left, remainder)
    ensures !MatchesNow(alnum, q, left, remainder, false)
  {
    if q.secret <= remainder {
      assert RequiresTokenBoundaries(alnum, q.secret) by {
        forall i | 0 <= i < |q.secret| ensures IsTokenCharacter(alnum, Some(q.secret[i])) {
          assert q.secret[i] == p.secret[i];
        }
      }
      if |q.secret| < |remainder| {
        assert FirstOf(remainder[|q.secret|..]) == Some(p.secret[|q.secret|]);
      } else {
        assert q.secret == remainder;
      }
    }
  }

  /** A decision the stream takes on its buffer is the decision on every longer text. */
  lemma DecisionIsStable(alnum: CharClass, patterns: seq<Pattern>, left: Option<char>, remainder: string, rest: string,
                         k: nat)
    requires k <= |patterns|
    requires !AwaitsMore(alnum, patterns, left, remainder)
    requires forall j :: 0 <= j < k ==> !MatchesNow(alnum, patterns[j], left, remainder, false)
    requires k < |patterns| ==> MatchesNow(alnum, patterns[k], left, remainder, false)
    requires k == |patterns| ==> forall j :: 0 <= j < k ==> !Unresolved(alnum, patterns[j], left, remainder)
    ensures Decide(alnum, patterns, left, remainder + rest) == if k < |patterns| then Some(patterns[k]) else None
  {
    forall j | 0 <= j < |patterns| && j <= k
      ensures Matches(alnum, patterns[j].secret, left, remainder + rest) <==> j == k
    {
      var s := patterns[j].secret;
      if k < |patterns| && Unresolved(alnum, patterns[j], left, remainder) {
        DeferredExcludesMatch(alnum, patterns[j], patterns[k], left, remainder);
        assert false;
      }
      if |s| > |remainder| {
        if s <= remainder + rest {
          assert remainder <= s by { assert forall i :: 0 <= i < |remainder| ==> s[i] == (remainder + rest)[i]; }
        }
      } else {
        assert (remainder + rest)[..|s|] == remainder[..|s|];
        assert s <= remainder + rest <==> s <= remainder;
        assert (remainder + rest)[|s|..] == remainder[|s|..] + rest;
      }
    }
    DecideIs(alnum, patterns, left, remainder + rest, k);
  }

  /** `done` followed by the one-shot reading of what is left is the reading of everything fed. */
  ghost predicate AgreesOn(alnum: CharClass, patterns: seq<Pattern>, fed: string, done: seq<Segment>,
                           left: Option<char>, buffer: string, rest: string)
    requires NonEmptySecrets(patterns)
  {
    Segments(alnum, patterns, None, fed + rest) == done + Segments(alnum, patterns, left, buffer + rest)
  }

  ghost predicate Agrees(alnum: CharClass, patterns: seq<Pattern>, fed: string, done: seq<Segment>,
                         left: Option<char>, buffer: string)
    requires NonEmptySecrets(patterns)
  {
    forall rest :: AgreesOn(alnum, patterns, fed, done, left, buffer, rest)
  }

  lemma AgreesAfterFeed(alnum: CharClass, patterns: seq<Pattern>, fed: string, done: seq<Segment>,
                        left: Option<char>, buffer: string, text: string)
    requires NonEmptySecrets(patterns)
    requires Agrees(alnum, patterns, fed, done, left, buffer)
    ensures Agrees(alnum, patterns, fed + text, done, left, buffer + text)
  {
    forall rest ensures AgreesOn(alnum, patterns, fed + text, done, left, buffer + text, rest) {
      assert AgreesOn(alnum, patterns, fed, done, left, buffer, text + rest);
      assert fed + (text + rest) == fed + text + rest;
      assert buffer + (text + rest) == buffer + text + rest;
    }
  }

  lemma AdvanceOn(alnum: CharClass, patterns: seq<Pattern>, fed: string, done: seq<Segment>,
                  left: Option<char>, buffer: string, rest: string, m: Option<Pattern>)
    requires NonEmptySecrets(patterns)
    requires buffer != ""
    requires Decide(alnum, patterns, left, buffer + rest) == m
    requires m.Some? ==> m.value.secret <= buffer && m.value.secret != ""
    requires AgreesOn(alnum, patterns, fed, done, left, buffer, rest)
    ensures m.Some? ==>
      AgreesOn(alnum, patterns, fed, done + [Redacted(m.value)], LastOf(m.value.secret), buffer[|m.value.secret|..],
               rest)
    ensures m.None? ==> AgreesOn(alnum, patterns, fed, done + [Plain(buffer[0])], Some(buffer[0]), buffer[1..], rest)
  {
    var n := if m.Some? then |m.value.secret| else 1;
    assert (buffer + rest)[n..] == buffer[n..] + rest;
  }

  /** The loop invariant: a final call only has to be right about the text it has. */
  ghost predicate Progress(alnum: CharClass, patterns: seq<Pattern>, fed: string, done: seq<Segment>,
                           left: Option<char>, buffer: string, isFinal: bool)
    requires NonEmptySecrets(patterns)
  {
    if isFinal then AgreesOn(alnum, patterns, fed, done, left, buffer, "")
    else Agrees(alnum, patterns, fed, done, left, buffer)
  }

  /** The outcome of a scan that the loop acts upon. */
  ghost predicate Scanned(alnum: CharClass, patterns: seq<Pattern>, left: Option<char>, buffer: string, isFinal: bool,
                          k: nat) {
    && k <= |patterns|
    && (forall j :: 0 <= j < k ==> !MatchesNow(alnum, patterns[j], left, buffer, isFinal))
    && (k < |patterns| ==> MatchesNow(alnum, patterns[k], left, buffer, isFinal))
    && (k == |patterns| && !isFinal ==> forall j :: 0 <= j < k ==> !Unresolved(alnum, patterns[j], left, buffer))
  }

  function Step(patterns: seq<Pattern>, buffer: string, k: nat): (s: Segment)
    requires buffer != "" && k <= |patterns|
  {
    if k < |patterns| then Redacted(patterns[k]) else Plain(buffer[0])
  }

  function Width(s: Segment): nat {
    match s case Plain(_) => 1 case Redacted(p) => |p.secret|
  }

  lemma Advance(alnum: CharClass, patterns: seq<Pattern>, fed: string, done: seq<Segment>,
                left: Option<char>, buffer: string, isFinal: bool, k: nat)
    requires NonEmptySecrets(patterns) && buffer != ""
    requires isFinal || !AwaitsMore(alnum, patterns, left, buffer)
    requires Scanned(alnum, patterns, left, buffer, isFinal, k)
    requires Progress(alnum, patterns, fed, done, left, buffer, isFinal)
    ensures var s := Step(patterns, buffer, k);
      && Width(s) <= |buffer|
      && Render(done + [s]) == Render(done) + Shown(s)
      && Progress(alnum, patterns, fed, done + [s], LastOf(buffer[..Width(s)]), buffer[Width(s)..], isFinal)
  {
    var m := if k < |patterns| then Some(patterns[k]) else None;
    var s := Step(patterns, buffer, k);
    RenderConcat(done, [s]);
    assert k < |patterns| ==> buffer[..Width(s)] == patterns[k].secret;
    forall rest | isFinal ==> rest == ""
      ensures AgreesOn(alnum, patterns, fed, done + [s], LastOf(buffer[..Width(s)]), buffer[Width(s)..], rest)
    {
      if isFinal {
        assert buffer + rest == buffer;
        DecideIs(alnum, patterns, left, buffer, k);
      } else {
        DecisionIsStable(alnum, patterns, left, buffer, rest, k);
        assert AgreesOn(alnum, patterns, fed, done, left, buffer, rest);
      }
      AdvanceOn(alnum, patterns, fed, done, left, buffer, rest, m);
    }
  }

  lemma StartProgress(alnum: CharClass, patterns: seq<Pattern>, fed: string, done: seq<Segment>,
                      left: Option<char>, buffer: string, text: string, isFinal: bool)
    requires NonEmptySecrets(patterns)
    requires Agrees(alnum, patterns, fed, done, left, buffer)
    ensures Progress(alnum, patterns, fed + text, done, left, (buffer + text)[0..], isFinal)
  {
    AgreesAfterFeed(alnum, patterns, fed, done, left, buffer, text);
    assert (buffer + text)[0..] == buffer + text;
    assert AgreesOn(alnum, patterns, fed + text, done, left, buffer + text, "");
  }

  lemma EndProgress(alnum: CharClass, patterns: seq<Pattern>, fed: string, done: seq<Segment>,
                    left: Option<char>, buffer: string, isFinal: bool)
    requires NonEmptySecrets(patterns)
    requires Progress(alnum, patterns, fed, done, left, buffer, isFinal)
    requires isFinal ==> buffer == ""
    ensures isFinal ==> done == Segments(alnum, patterns, None, fed)
    ensures !isFinal ==> Agrees(alnum, patterns, fed, done, left, buffer)
  {
    assert fed + "" == fed && buffer + "" == buffer && done + [] == done;
  }

  function LeftAfter(s: Segment): Option<char> {
    match s case Plain(c) => Some(c) case Redacted(p) => LastOf(p.secret)
  }

  /** One loop iteration at `cursor`, in the terms the loop uses. */
  lemma AdvanceCursor(alnum: CharClass, patterns: seq<Pattern>, fed: string, done: seq<Segment>,
                      left: Option<char>, buffer: string, cursor: nat, isFinal: bool, k: nat,
                      shown: string, output: string)
    requires NonEmptySecrets(patterns) && cursor < |buffer|
    requires isFinal || !AwaitsMore(alnum, patterns, left, buffer[cursor..])
    requires Scanned(alnum, patterns, left, buffer[cursor..], isFinal, k)
    requires Progress(alnum, patterns, fed, done, left, buffer[cursor..], isFinal)
    requires Render(done) == shown + output
    ensures var s := Step(patterns, buffer[cursor..], k);
      && 0 < Width(s) <= |buffer| - cursor
      && LeftAfter(s) == Some(buffer[cursor + Width(s) - 1])
      && Progress(alnum, patterns, fed, done + [s], LeftAfter(s), buffer[cursor + Width(s)..], isFinal)
      && Render(done + [s]) == shown + (output + Shown(s))
  {
    hide Segments, AwaitsMore, AgreesOn, Agrees, Progress, Render;
    var remainder := buffer[cursor..];
    var s := Step(patterns, remainder, k);
    Advance(alnum, patterns, fed, done, left, remainder, isFinal, k);
    assert remainder[Width(s)..] == buffer[cursor + Width(s)..];
    assert k < |patterns| ==> patterns[k].secret == remainder[..Width(s)];
    assert shown + output + Shown(s) == shown + (output + Shown(s));
  }

  datatype FeedError = AlreadyFinished

  class StreamingRedactor {
    const alnum: CharClass
    const patterns: seq<Pattern>
    var pending: string
    var leftCharacter: Option<char>
    var finished: bool

    ghost var fed: string          // every character accepted so far
    ghost var done: seq<Segment>   // the segments already shown
    ghost var shown: string        // the concatenation of all outputs

    ghost predicate Valid()
      reads this
    {
      && NonEmptySecrets(patterns)
      && shown == Render(done)
      && (finished ==> pending == "" && done == Segments(alnum, patterns, None, fed))
      && (!finished ==> Agrees(alnum, patterns, fed, done, leftCharacter, pending))
      && (pending != "" ==> exists k :: 0 <= k < |patterns| && pending <= patterns[k].secret)
    }

    constructor (alnum: CharClass, patterns: seq<Pattern>)
      requires NonEmptySecrets(patterns)
      ensures Valid() && !finished && fed == "" && shown == ""
      ensures this.alnum == alnum && this.patterns == patterns
    {
      this.alnum := alnum;
      this.patterns := patterns;
      pending := "";
      leftCharacter := None;
      finished := false;
      fed := "";
      done := [];
      shown := "";
      new;
      forall rest ensures AgreesOn(alnum, patterns, "", [], None, "", rest) {
        assert "" + rest == rest;
      }
    }

    /** The inner `for` over the patterns: the first acceptable match, or whether one was deferred. */
    method Scan(left: Option<char>, remainder: string, isFinal: bool) returns (k: nat, unresolvedBoundary: bool)
      requires NonEmptySecrets(patterns)
      ensures (k == |patterns| && unresolvedBoundary) || Scanned(alnum, patterns, left, remainder, isFinal, k)
      ensures k <= |patterns|
      ensures k == |patterns| ==>
        (unresolvedBoundary <==>
         !isFinal && exists j :: 0 <= j < |patterns| && Unresolved(alnum, patterns[j], left, remainder))
    {
      var leftBoundary := !IsTokenCharacter(alnum, left);
      unresolvedBoundary := false;
      k := 0;
      while k < |patterns|
        invariant 0 <= k <= |patterns|
        invariant forall j :: 0 <= j < k ==> !MatchesNow(alnum, patterns[j], left, remainder, isFinal)
        invariant unresolvedBoundary <==>
          !isFinal && exists j :: 0 <= j < k && Unresolved(alnum, patterns[j], left, remainder)
      {
        var secret := patterns[k].secret;
        var bounded := RequiresTokenBoundaries(alnum, secret);
        if (bounded && !leftBoundary) || !(secret <= remainder) {
          // skipped: not here, or glued to a token on its left
        } else if |secret| == |remainder| && !isFinal && bounded {
          assert secret == remainder;
          assert Unresolved(alnum, patterns[k], left, remainder);
          unresolvedBoundary := true;
        } else {
          var right := if |secret| < |remainder| then Some(remainder[|secret|]) else None;
          assert right == FirstOf(remainder[|secret|..]);
          if !bounded || !IsTokenCharacter(alnum, right) {
            return;
          }
        }
        k := k + 1;
      }
    }

    /** The cursor loop over the buffer: what is shown, and where the retained suffix starts. */
    method Drain(isFinal: bool) returns (cursor: nat, output: string)
      requires NonEmptySecrets(patterns)
      requires Progress(alnum, patterns, fed, done, leftCharacter, pending[0..], isFinal)
      requires shown == Render(done)
      modifies this`leftCharacter, this`done
      ensures cursor <= |pending| && (isFinal ==> cursor == |pending|)
      ensures Progress(alnum, patterns, fed, done, leftCharacter, pending[cursor..], isFinal)
      ensures Render(done) == shown + output
      ensures cursor < |pending| ==> exists k :: 0 <= k < |patterns| && pending[cursor..] <= patterns[k].secret
    {
      hide Agrees, AgreesOn, Progress, Segments, Scanned, Render;
      output := "";
      cursor := 0;
      while cursor < |pending|
        invariant cursor <= |pending|
        invariant cursor > 0 ==> leftCharacter == Some(pending[cursor - 1])
        invariant Render(done) == shown + output
        invariant Progress(alnum, patterns, fed, done, leftCharacter, pending[cursor..], isFinal)
        decreases |pending| - cursor
      {
        var left := if cursor > 0 then Some(pending[cursor - 1]) else leftCharacter;
        var remainder := pending[cursor..];
        if !isFinal && AwaitsMore(alnum, patterns, left, remainder) {
          assert exists j :: 0 <= j < |patterns| && remainder <= patterns[j].secret;
          break;
        }
        var k, unresolvedBoundary := Scan(left, remainder, isFinal);
        if k == |patterns| && unresolvedBoundary {
          break;
        }
        AdvanceCursor(alnum, patterns, fed, done, left, pending, cursor, isFinal, k, shown, output);
        done := done + [Step(patterns, remainder, k)];
        if k < |patterns| {
          output := output + Marker(patterns[k].name);
          cursor := cursor + |patterns[k].secret|;
          leftCharacter := LastOf(patterns[k].secret);
        } else {
          leftCharacter := Some(pending[cursor]);
          output := output + [pending[cursor]];
          cursor := cursor + 1;
        }
      }
    }

    method Feed(text: string, isFinal: bool) returns (r: Result<string, FeedError>)
      requires Valid()
      modifies this
      ensures Valid()
      ensures old(finished) && text != "" ==>
        r == Err(AlreadyFinished) && fed == old(fed) && shown == old(shown) && finished
      ensures !(old(finished) && text != "") ==>
        r.Ok? && fed == old(fed) + text && shown == old(shown) + r.value && finished == (old(finished) || isFinal)
    {
      hide Agrees, AgreesOn, Progress, Segments, Render;
      if finished {
        if text != "" {
          return Err(AlreadyFinished);
        }
        assert fed + text == fed && shown + "" == shown;
        return Ok("");
      }
      StartProgress(alnum, patterns, fed, done, leftCharacter, pending, text, isFinal);
      pending := pending + text;
      fed := fed + text;
      var cursor, output := Drain(isFinal);
      pending := pending[cursor..];
      shown := shown + output;
      EndProgress(alnum, patterns, fed, done, leftCharacter, pending, isFinal);
      if isFinal {
        finished := true;
        assert pending == "";  // the assertion of the source: a final call leaves nothing behind
      }
      r := Ok(output);
    }

    method Finish() returns (r: Result<string, FeedError>)
      requires Valid()
      modifies this
      ensures Valid() && finished
      ensures r.Ok? && fed == old(fed) && shown == old(shown) + r.value
    {
      r := Feed("", true);
      assert old(fed) + "" == old(fed);
    }
  }
}
