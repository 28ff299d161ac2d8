/**
 What credential redaction means for a whole text: the segmentation is the unique
 leftmost, first-priority one, no eligible occurrence escapes it, and it agrees with
 the separately written `contains_credential_token`.
 */
module RedactionLaws {
  import opened Wrappers
  import opened Redaction
  import opened Sorting

  function Offset(segments: seq<Segment>, k: nat): nat
    requires k <= |segments|
  {
    |Source(segments[..k])|
  }

  lemma OffsetShift(s: Segment, rest: seq<Segment>, k: nat)
    requires 0 < k <= |rest| + 1
    ensures Offset([s] + rest, k) == Width(s) + Offset(rest, k - 1)
  {
    assert ([s] + rest)[..k] == [s] + rest[..k - 1];
    SourceConcat([s], rest[..k - 1]);
    assert Source([s]) == (match s case Plain(c) => [c] case Redacted(p) => p.secret) + "";
  }

  /** The segment `Segments` puts first, and the rest of its work. */
  lemma SegmentsUnfold(alnum: CharClass, patterns: seq<Pattern>, pre: string, rest: string)
    returns (s: Segment, tail: string)
    requires NonEmptySecrets(patterns) && rest != ""
    ensures 0 < Width(s) <= |rest| && tail == rest[Width(s)..]
    ensures Segments(alnum, patterns, LastOf(pre), rest) == [s]
      + Segments(alnum, patterns, LastOf(pre + rest[..Width(s)]), tail)
    ensures Source([s]) == rest[..Width(s)]
    ensures Decide(alnum, patterns, LastOf(pre), rest) == (match s case Plain(_) => None case Redacted(p) => Some(p))
    ensures s.Redacted? ==> s.p in patterns && Matches(alnum, s.p.secret, LastOf(pre), rest)
  {
    DecideMeaning(alnum, patterns, LastOf(pre), rest);
    match Decide(alnum, patterns, LastOf(pre), rest) {
      case None => s := Plain(rest[0]);
      case Some(p) => s := Redacted(p);
    }
    tail := rest[Width(s)..];
    assert Source([s]) == rest[..Width(s)];
  }

  /** Un-rendering the segments gives the text back. */
  lemma {:induction false} SourceOfSegments(alnum: CharClass, patterns: seq<Pattern>, pre: string, rest: string)
    requires NonEmptySecrets(patterns)
    ensures Source(Segments(alnum, patterns, LastOf(pre), rest)) == rest
    decreases |rest|
  {
    if rest == "" {
    } else {
      var s, tail := SegmentsUnfold(alnum, patterns, pre, rest);
      SourceOfSegments(alnum, patterns, pre + rest[..Width(s)], tail);
      SourceConcat([s], Segments(alnum, patterns, LastOf(pre + rest[..Width(s)]), tail));
    }
  }

  /** Segment `k` starts at offset `o`: it is what the inventory decides at that place of the text. */
  ghost predicate DecidedAt(alnum: CharClass, patterns: seq<Pattern>, text: string, o: nat, s: Segment)
    requires o <= |text|
  {
    Decide(alnum, patterns, LastOf(text[..o]), text[o..]) == (match s case Plain(_) => None case Redacted(p) => Some(p))
  }

  lemma {:induction false} SegmentDecided(alnum: CharClass, patterns: seq<Pattern>, pre: string, rest: string, k: nat)
    requires NonEmptySecrets(patterns)
    requires k < |Segments(alnum, patterns, LastOf(pre), rest)|
    ensures var segments := Segments(alnum, patterns, LastOf(pre), rest);
      var o := Offset(segments, k);
      && o + Width(segments[k]) <= |rest|
      && DecidedAt(alnum, patterns, pre + rest, |pre| + o, segments[k])
    decreases |rest|
  {
    hide Segments, Decide, Matches, RequiresTokenBoundaries, Source, Width, LastOf, DecidedAt, Offset;
    NoSegments(alnum, patterns, pre);
    var s, tail := SegmentsUnfold(alnum, patterns, pre, rest);
    var segments := Segments(alnum, patterns, LastOf(pre), rest);
    if k == 0 {
      FirstDecided(alnum, patterns, pre, rest, s);
      NothingBefore(segments);
    } else {
      var pre' := pre + rest[..Width(s)];
      SegmentDecided(alnum, patterns, pre', tail, k - 1);
      OffsetShift(s, segments[1..], k);
      assert pre' + tail == pre + rest;
    }
  }

  lemma FirstDecided(alnum: CharClass, patterns: seq<Pattern>, pre: string, rest: string, s: Segment)
    requires Decide(alnum, patterns, LastOf(pre), rest) == (match s case Plain(_) => None case Redacted(p) => Some(p))
    ensures DecidedAt(alnum, patterns, pre + rest, |pre|, s)
  {
    hide Decide, LastOf;
    assert (pre + rest)[..|pre|] == pre && (pre + rest)[|pre|..] == rest;
  }

  lemma NoSegments(alnum: CharClass, patterns: seq<Pattern>, pre: string)
    requires NonEmptySecrets(patterns)
    ensures Segments(alnum, patterns, LastOf(pre), "") == []
  {
  }

  lemma NothingBefore(segments: seq<Segment>)
    ensures Offset(segments, 0) == 0
  {
    assert segments[..0] == [];
  }

  lemma {:induction false} SegmentCovering(alnum: CharClass, patterns: seq<Pattern>, pre: string, rest: string, i: nat)
    returns (k: nat)
    requires NonEmptySecrets(patterns) && i < |rest|
    ensures var segments := Segments(alnum, patterns, LastOf(pre), rest);
      k < |segments| && Offset(segments, k) <= i < Offset(segments, k) + Width(segments[k])
    decreases |rest|
  {
    var s, tail := SegmentsUnfold(alnum, patterns, pre, rest);
    if i < Width(s) {
      k := 0;
    } else {
      k := SegmentCovering(alnum, patterns, pre + rest[..Width(s)], tail, i - Width(s));
      k := k + 1;
      OffsetShift(s, Segments(alnum, patterns, LastOf(pre), rest)[1..], k);
    }
  }

  /**
   The declarative reading: the segments spell the text, a plain character starts no
   eligible occurrence, and a redacted one is the first eligible pattern at its place.
   */
  ghost predicate IsSegmentation(alnum: CharClass, patterns: seq<Pattern>, text: string, segments: seq<Segment>) {
    && Source(segments) == text
    && forall k :: 0 <= k < |segments| ==>
         Offset(segments, k) <= |text| && DecidedAt(alnum, patterns, text, Offset(segments, k), segments[k])
  }

  lemma DecidedFromStart(alnum: CharClass, patterns: seq<Pattern>, text: string, k: nat)
    requires NonEmptySecrets(patterns) && k < |Segments(alnum, patterns, None, text)|
    ensures var segments := Segments(alnum, patterns, None, text);
      Offset(segments, k) <= |text| && DecidedAt(alnum, patterns, text, Offset(segments, k), segments[k])
  {
    hide Segments, DecidedAt, Offset;
    assert "" + text == text;
    SegmentDecided(alnum, patterns, "", text, k);
  }

  lemma SegmentsAreASegmentation(alnum: CharClass, patterns: seq<Pattern>, text: string)
    requires NonEmptySecrets(patterns)
    ensures IsSegmentation(alnum, patterns, text, Segments(alnum, patterns, None, text))
  {
    SourceOfSegments(alnum, patterns, "", text);
    assert "" + text == text;
    var segments := Segments(alnum, patterns, None, text);
    hide Segments, DecidedAt, Offset;
    forall k | 0 <= k < |segments|
      ensures Offset(segments, k) <= |text| && DecidedAt(alnum, patterns, text, Offset(segments, k), segments[k])
    {
      DecidedFromStart(alnum, patterns, text, k);
    }
  }

  lemma {:induction false} SourceSplit(a: seq<Segment>, k: nat)
    requires k < |a|
    ensures Source(a) == Source(a[..k]) + Source([a[k]]) + Source(a[k + 1..])
  {
    assert a == a[..k] + [a[k]] + a[k + 1..];
    SourceConcat(a[..k] + [a[k]], a[k + 1..]);
    SourceConcat(a[..k], [a[k]]);
  }

  lemma PlainIsTextCharacter(text: string, a: seq<Segment>, k: nat)
    requires Source(a) == text && k < |a| && a[k].Plain?
    ensures Offset(a, k) < |text| && text[Offset(a, k)] == a[k].c
  {
    SourceSplit(a, k);
    assert Source([a[k]]) == [a[k].c];
  }

  /** The first `n` segments of any two segmentations agree. */
  lemma {:induction false} SegmentationPrefixUnique(alnum: CharClass, patterns: seq<Pattern>, text: string,
                                                    a: seq<Segment>, b: seq<Segment>, n: nat)
    requires IsSegmentation(alnum, patterns, text, a) && IsSegmentation(alnum, patterns, text, b)
    requires n <= |a| && n <= |b|
    ensures a[..n] == b[..n]
  {
    hide Decide, LastOf, Source, Width;
    if n == 0 {
    } else {
      SegmentationPrefixUnique(alnum, patterns, text, a, b, n - 1);
      assert DecidedAt(alnum, patterns, text, Offset(a, n - 1), a[n - 1])
        && DecidedAt(alnum, patterns, text, Offset(b, n - 1), b[n - 1]);
      if a[n - 1].Plain? && b[n - 1].Plain? {
        PlainIsTextCharacter(text, a, n - 1);
        PlainIsTextCharacter(text, b, n - 1);
      }
      assert a[..n] == a[..n - 1] + [a[n - 1]] && b[..n] == b[..n - 1] + [b[n - 1]];
    }
  }

  /** A segmentation stops when its text is used up. */
  lemma OffsetInsideText(alnum: CharClass, patterns: seq<Pattern>, text: string, a: seq<Segment>, k: nat)
    requires NonEmptySecrets(patterns)
    requires IsSegmentation(alnum, patterns, text, a) && k < |a|
    ensures Offset(a, k) < |text|
  {
    if a[k].Plain? {
      PlainIsTextCharacter(text, a, k);
    } else {
      var o := Offset(a, k);
      assert DecidedAt(alnum, patterns, text, o, a[k]);
      DecideMeaning(alnum, patterns, LastOf(text[..o]), text[o..]);
    }
  }

  /** The segmentation is determined by the inventory and the text alone. */
  lemma SegmentationUnique(alnum: CharClass, patterns: seq<Pattern>, text: string, a: seq<Segment>)
    requires NonEmptySecrets(patterns)
    requires IsSegmentation(alnum, patterns, text, a)
    ensures a == Segments(alnum, patterns, None, text)
  {
    var b := Segments(alnum, patterns, None, text);
    SegmentsAreASegmentation(alnum, patterns, text);
    var n := if |a| < |b| then |a| else |b|;
    SegmentationPrefixUnique(alnum, patterns, text, a, b, n);
    assert a[..|a|] == a && b[..|b|] == b;
    if n < |a| { OffsetInsideText(alnum, patterns, text, a, n); }
    if n < |b| { OffsetInsideText(alnum, patterns, text, b, n); }
  }

  // ---------- Nothing eligible escapes ----------

  ghost predicate Overlaps(segments: seq<Segment>, k: nat, i: nat, n: nat)
    requires k < |segments|
  {
    segments[k].Redacted? && Offset(segments, k) < i + n && i < Offset(segments, k) + Width(segments[k])
  }

  /** Every boundary-eligible occurrence of every credential overlaps a redacted segment. */
  lemma NoEligibleOccurrenceEscapes(alnum: CharClass, patterns: seq<Pattern>, text: string, p: Pattern, i: nat)
    requires NonEmptySecrets(patterns) && p in patterns
    requires EligibleAt(alnum, p.secret, text, i)
    ensures exists k :: 0 <= k < |Segments(alnum, patterns, None, text)|
                        && Overlaps(Segments(alnum, patterns, None, text), k, i, |p.secret|)
  {
    hide Segments, Decide, Source;
    var segments := Segments(alnum, patterns, None, text);
    assert "" + text == text;
    assert i < |text|;
    var k := SegmentCovering(alnum, patterns, "", text, i);
    SegmentDecided(alnum, patterns, "", text, k);
    var o := Offset(segments, k);
    DecideMeaning(alnum, patterns, LastOf(text[..o]), text[o..]);
    assert DecidedAt(alnum, patterns, text, o, segments[k]);
    var j :| 0 <= j < |patterns| && patterns[j] == p;
    assert segments[k].Plain? ==> o == i;
    assert o == i ==> Matches(alnum, patterns[j].secret, LastOf(text[..o]), text[o..]);
    assert Overlaps(segments, k, i, |p.secret|);
  }

  /** A redacted segment stands on an eligible occurrence of its own credential. */
  lemma RedactedSegmentIsEligible(alnum: CharClass, patterns: seq<Pattern>, text: string, k: nat)
    requires NonEmptySecrets(patterns)
    requires k < |Segments(alnum, patterns, None, text)| && Segments(alnum, patterns, None, text)[k].Redacted?
    ensures var segments := Segments(alnum, patterns, None, text);
      segments[k].p in patterns && EligibleAt(alnum, segments[k].p.secret, text, Offset(segments, k))
  {
    var segments := Segments(alnum, patterns, None, text);
    SegmentDecided(alnum, patterns, "", text, k);
    assert "" + text == text;
    var o := Offset(segments, k);
    DecideMeaning(alnum, patterns, LastOf(text[..o]), text[o..]);
  }

  // ---------- contains_credential_token ----------

  ghost predicate OccursAt(text: string, s: string, i: int) {
    0 <= i && i + |s| <= |text| && text[i..i + |s|] == s
  }

  /** `str.find`: the first occurrence at or after `start`, or -1. */
  method Find(text: string, s: string, start: nat) returns (index: int)
    ensures index == -1 || (start <= index && OccursAt(text, s, index))
    ensures forall i :: start <= i && (index == -1 || i < index) ==> !OccursAt(text, s, i)
  {
    index := start;
    while index + |s| <= |text|
      invariant start <= index
      invariant forall i :: start <= i < index ==> !OccursAt(text, s, i)
    {
      if text[index..index + |s|] == s { return; }
      index := index + 1;
    }
    index := -1;
  }

  lemma EligibleMeansBounded(alnum: CharClass, s: string, text: string, i: int)
    ensures EligibleAt(alnum, s, text, i) <==>
      && OccursAt(text, s, i)
      && (RequiresTokenBoundaries(alnum, s) ==>
            && !IsTokenCharacter(alnum, if i > 0 then Some(text[i - 1]) else None)
            && !IsTokenCharacter(alnum, if i + |s| < |text| then Some(text[i + |s|]) else None))
  {
    if 0 <= i <= |text| {
      assert s <= text[i..] <==> OccursAt(text, s, i) by {
        if i + |s| <= |text| { assert text[i..][..|s|] == text[i..i + |s|]; }
      }
      if OccursAt(text, s, i) {
        assert text[i..][|s|..] == text[i + |s|..];
      }
    }
  }

  method ContainsCredentialToken(alnum: CharClass, text: string, credential: string) returns (found: bool)
    ensures found <==> credential != "" && exists i :: EligibleAt(alnum, credential, text, i)
  {
    if credential == "" { return false; }
    if !RequiresTokenBoundaries(alnum, credential) {
      var at := Find(text, credential, 0);
      if at >= 0 { EligibleMeansBounded(alnum, credential, text, at); }
      forall i | EligibleAt(alnum, credential, text, i) ensures at >= 0 {
        EligibleMeansBounded(alnum, credential, text, i);
      }
      return at >= 0;
    }
    var start := 0;
    var index := Find(text, credential, start);
    while index >= 0
      invariant 0 <= start
      invariant index == -1 || (start <= index && OccursAt(text, credential, index))
      invariant forall i :: start <= i && (index == -1 || i < index) ==> !OccursAt(text, credential, i)
      invariant forall i :: 0 <= i < start ==> !EligibleAt(alnum, credential, text, i)
      decreases |text| + 1 - start, index >= 0
    {
      var end := index + |credential|;
      var left := if index > 0 then Some(text[index - 1]) else None;
      var right := if end < |text| then Some(text[end]) else None;
      EligibleMeansBounded(alnum, credential, text, index);
      if !IsTokenCharacter(alnum, left) && !IsTokenCharacter(alnum, right) {
        return true;
      }
      forall i | start <= i < index ensures !EligibleAt(alnum, credential, text, i) {
        EligibleMeansBounded(alnum, credential, text, i);
      }
      start := index + 1;
      index := Find(text, credential, start);
    }
    forall i ensures !EligibleAt(alnum, credential, text, i) {
      EligibleMeansBounded(alnum, credential, text, i);
    }
    return false;
  }

  /** The two independently written matchers agree on every text. */
  lemma RedactsExactlyWhenContained(alnum: CharClass, patterns: seq<Pattern>, text: string)
    requires NonEmptySecrets(patterns)
    ensures (exists s :: s in Segments(alnum, patterns, None, text) && s.Redacted?)
       <==> (exists p, i :: p in patterns && EligibleAt(alnum, p.secret, text, i))
  {
    var segments := Segments(alnum, patterns, None, text);
    if s :| s in segments && s.Redacted? {
      var k :| 0 <= k < |segments| && segments[k] == s;
      RedactedSegmentIsEligible(alnum, patterns, text, k);
    }
    if p, i :| p in patterns && EligibleAt(alnum, p.secret, text, i) {
      NoEligibleOccurrenceEscapes(alnum, patterns, text, p, i);
      var k :| 0 <= k < |segments| && Overlaps(segments, k, i, |p.secret|);
      assert segments[k].Redacted?;
    }
  }

  // ---------- The inventory's priority order ----------

  /** Longer secrets first, then names in code-point order. */
  predicate Before(a: Pattern, b: Pattern) {
    if |a.secret| != |b.secret| then |a.secret| > |b.secret|
    else if a.name != b.name then LexLess(Codes(a.name), Codes(b.name))
    else LexLess(Codes(a.secret), Codes(b.secret))
  }

  lemma BeforeTransitive(x: Pattern, y: Pattern, z: Pattern)
    requires Before(x, y) && Before(y, z)
    ensures Before(x, z)
  {
    if LexLess(Codes(x.name), Codes(y.name)) && LexLess(Codes(y.name), Codes(z.name)) {
      LexTransitive(Codes(x.name), Codes(y.name), Codes(z.name));
    }
    if LexLess(Codes(x.secret), Codes(y.secret)) && LexLess(Codes(y.secret), Codes(z.secret)) {
      LexTransitive(Codes(x.secret), Codes(y.secret), Codes(z.secret));
    }
    LexTrichotomy(Codes(x.name), Codes(y.name));
    LexAsymmetric(Codes(x.name), Codes(y.name));
  }

  lemma BeforeIsStrictTotal()
    ensures StrictTotal(Before)
  {
    forall x, y, z ensures Ordered(Before, x, y, z) {
      LexTrichotomy(Codes(x.name), Codes(y.name));
      LexTrichotomy(Codes(x.secret), Codes(y.secret));
      if Codes(x.name) == Codes(y.name) { CodesInjective(x.name, y.name); }
      if Codes(x.secret) == Codes(y.secret) { CodesInjective(x.secret, y.secret); }
      if Before(x, y) && Before(y, z) { BeforeTransitive(x, y, z); }
    }
  }

  /** `_patterns`: the non-empty values with their names, sorted. */
  function Patterns(credentials: map<string, string>): (patterns: seq<Pattern>)
    ensures NonEmptySecrets(patterns) && Sorted(Before, patterns)
    ensures forall p :: p in patterns <==> p.name in credentials && p.secret == credentials[p.name] && p.secret != ""
  {
    BeforeIsStrictTotal();
    var sorted := SortSet(Before, set name | name in credentials
                          && credentials[name] != "" :: Pattern(credentials[name], name));
    assert forall k :: 0 <= k < |sorted| ==> sorted[k] in sorted;
    sorted
  }

  lemma DecidedIsFirst(alnum: CharClass, patterns: seq<Pattern>, left: Option<char>, rest: string, p: Pattern,
                       q: Pattern)
    requires Sorted(Before, patterns)
    requires Decide(alnum, patterns, left, rest) == Some(p)
    requires q in patterns && Matches(alnum, q.secret, left, rest)
    ensures p == q || Before(p, q)
    ensures |p.secret| == |q.secret| ==> p.secret == q.secret
  {
    DecideMeaning(alnum, patterns, left, rest);
    var i :| 0 <= i < |patterns| && patterns[i] == p
      && forall j :: 0 <= j < i ==> !Matches(alnum, patterns[j].secret, left, rest);
    var j :| 0 <= j < |patterns| && patterns[j] == q;
    assert i <= j;
  }

  /** The redacted credential is a longest eligible one; equal values go to the first name. */
  lemma RedactsTheLongestEligible(alnum: CharClass, credentials: map<string, string>, text: string, k: nat, q: Pattern)
    requires k < |Segments(alnum, Patterns(credentials), None, text)|
    requires Segments(alnum, Patterns(credentials), None, text)[k].Redacted?
    requires q in Patterns(credentials)
    requires EligibleAt(alnum, q.secret, text, Offset(Segments(alnum, Patterns(credentials), None, text), k))
    ensures var p := Segments(alnum, Patterns(credentials), None, text)[k].p;
      && |q.secret| <= |p.secret|
      && (|q.secret| == |p.secret| ==>
          q.secret == p.secret && (q.name == p.name || LexLess(Codes(p.name), Codes(q.name))))
  {
    hide Segments, Source, Decide;
    var patterns := Patterns(credentials);
    var segments := Segments(alnum, patterns, None, text);
    SegmentDecided(alnum, patterns, "", text, k);
    assert "" + text == text;
    var o := Offset(segments, k);
    DecidedIsFirst(alnum, patterns, LastOf(text[..o]), text[o..], segments[k].p, q);
  }

  // ---------- Chunk invariance ----------

  function Join(chunks: seq<string>): string {
    if chunks == [] then "" else Join(chunks[..|chunks| - 1]) + chunks[|chunks| - 1]
  }

  /** Before the end, what was shown is a prefix of the redaction of every continuation. */
  lemma ShownIsAPrefix(r: StreamingRedactor, rest: string)
    requires r.Valid() && !r.finished
    ensures r.shown <= RedactAll(r.alnum, r.patterns, r.fed + rest)
  {
    assert AgreesOn(r.alnum, r.patterns, r.fed, r.done, r.leftCharacter, r.pending, rest);
    RenderConcat(r.done, Segments(r.alnum, r.patterns, r.leftCharacter, r.pending + rest));
  }

  /** The buffer never grows past the longest secret. */
  lemma PendingIsBounded(r: StreamingRedactor, longest: nat)
    requires r.Valid()
    requires forall k :: 0 <= k < |r.patterns| ==> |r.patterns[k].secret| <= longest
    ensures |r.pending| <= longest
    ensures r.pending != "" ==> exists k :: 0 <= k < |r.patterns| && r.pending <= r.patterns[k].secret
  {
    if r.pending != "" {
      var k :| 0 <= k < |r.patterns| && r.pending <= r.patterns[k].secret;
    }
  }

  /** However a text is split into chunks, the outputs spell its one-shot redaction. */
  method RedactChunks(alnum: CharClass, patterns: seq<Pattern>, chunks: seq<string>) returns (outputs: seq<string>)
    requires NonEmptySecrets(patterns)
    ensures |outputs| == |chunks| + 1
    ensures Join(outputs) == RedactAll(alnum, patterns, Join(chunks))
  {
    var r := new StreamingRedactor(alnum, patterns);
    outputs := [];
    for i := 0 to |chunks|
      invariant fresh(r) && r.Valid() && !r.finished && r.alnum == alnum && r.patterns == patterns
      invariant |outputs| == i && r.fed == Join(chunks[..i]) && r.shown == Join(outputs)
    {
      var out := r.Feed(chunks[i], false);
      assert chunks[..i + 1][..i] == chunks[..i];
      outputs := outputs + [out.value];
      assert outputs[..i] + [out.value] == outputs;
    }
    var out := r.Finish();
    assert chunks[..|chunks|] == chunks;
    outputs := outputs + [out.value];
    assert outputs[..|chunks|] + [out.value] == outputs;
  }

  /** `redact_credential_values`: one final feed of the whole text. */
  method RedactCredentialValues(alnum: CharClass, patterns: seq<Pattern>, text: string) returns (out: string)
    requires NonEmptySecrets(patterns)
    ensures out == RedactAll(alnum, patterns, text)
  {
    var r := new StreamingRedactor(alnum, patterns);
    var fed := r.Feed(text, true);
    assert "" + text == text && "" + fed.value == fed.value;
    out := fed.value;
  }
}
