/**
 What a redacted text is, said by text positions alone: which stretches of a text are redacted,
 what is put in their place, and that nothing else is changed.
 */
module RedactionMeaning {
  import opened Wrappers
  import opened Sorting
  import opened Redaction
  import opened RedactionLaws
  import opened SensitiveText

  /** The credential called `name` is redacted from `from` up to `to`. */
  datatype Span = Span(from: nat, to: nat, name: string)

  predicate TokenCharacter(alnum: CharClass, c: char) {
    alnum(c) || c in "_-."
  }

  /** Fewer than eight token characters and nothing else. */
  predicate ShortToken(alnum: CharClass, s: string) {
    |s| < 8 && forall k :: 0 <= k < |s| ==> TokenCharacter(alnum, s[k])
  }

  /** `s` is found at `i`; a short token only where no token character touches it. */
  predicate Stands(alnum: CharClass, text: string, i: int, s: string) {
    && 0 <= i && i + |s| <= |text| && text[i..i + |s|] == s
    && (ShortToken(alnum, s) ==>
          && (i == 0 || !TokenCharacter(alnum, text[i - 1]))
          && (i + |s| == |text| || !TokenCharacter(alnum, text[i + |s|])))
  }

  predicate StandsNamed(alnum: CharClass, credentials: map<string, string>, text: string, i: int, name: string) {
    name in credentials && credentials[name] != "" && Stands(alnum, text, i, credentials[name])
  }

  predicate NoneStands(alnum: CharClass, credentials: map<string, string>, text: string, i: int) {
    forall name :: name in credentials ==> !StandsNamed(alnum, credentials, text, i, name)
  }

  /** The longest credential that stands here; of two names for one value the smaller. */
  predicate Wins(alnum: CharClass, credentials: map<string, string>, text: string, i: int, name: string) {
    && StandsNamed(alnum, credentials, text, i, name)
    && forall other :: other in credentials && other != name && StandsNamed(alnum, credentials, text, i, other) ==>
         |credentials[other]| < |credentials[name]|
         || (|credentials[other]| == |credentials[name]| && LexLess(Codes(name), Codes(other)))
  }

  /** From `from` on: these spans, in order, each the winner at its place, and no credential between them. */
  predicate IsReading(alnum: CharClass, credentials: map<string, string>, text: string, from: nat, spans: seq<Span>)
    decreases |spans|
  {
    from <= |text| &&
    if spans == [] then forall i :: from <= i < |text| ==> NoneStands(alnum, credentials, text, i)
    else
      var s := spans[0];
      && from <= s.from < s.to <= |text|
      && (forall i :: from <= i < s.from ==> NoneStands(alnum, credentials, text, i))
      && Wins(alnum, credentials, text, s.from, s.name) && s.to == s.from + |credentials[s.name]|
      && IsReading(alnum, credentials, text, s.to, spans[1..])
  }

  predicate InText(text: string, from: nat, spans: seq<Span>)
    decreases |spans|
  {
    from <= |text| && (spans != [] ==> from <= spans[0].from <= spans[0].to && InText(text, spans[0].to, spans[1..]))
  }

  /** Character by character what the text says, with a marker in the place of each span. */
  function Displayed(text: string, from: nat, spans: seq<Span>): string
    requires InText(text, from, spans)
    decreases |spans|
  {
    if spans == [] then text[from..]
    else
      assert InText(text, spans[0].to, spans[1..]);
      text[from..spans[0].from] + "<redacted:" + spans[0].name + ">" + Displayed(text, spans[0].to, spans[1..])
  }

  lemma {:induction false} ReadingIsInText(alnum: CharClass, credentials: map<string, string>, text: string, from: nat,
                                           spans: seq<Span>)
    requires IsReading(alnum, credentials, text, from, spans)
    ensures InText(text, from, spans)
    decreases |spans|
  {
    if spans == [] {
    } else {
      ReadingIsInText(alnum, credentials, text, spans[0].to, spans[1..]);
    }
  }

  // ---------- The same places ----------

  lemma StandsIsEligible(alnum: CharClass, text: string, i: int, s: string)
    ensures Stands(alnum, text, i, s) <==> EligibleAt(alnum, s, text, i)
  {
    EligibleMeansBounded(alnum, s, text, i);
    hide EligibleAt;
  }

  lemma Decides(alnum: CharClass, credentials: map<string, string>, text: string, i: nat)
    requires i <= |text|
    ensures match Decide(alnum, Patterns(credentials), LastOf(text[..i]), text[i..])
      case None => NoneStands(alnum, credentials, text, i)
      case Some(p) => Wins(alnum, credentials, text, i, p.name) && credentials[p.name] == p.secret
  {
    hide Decide, Stands, Matches, Before, LastOf;
    var patterns := Patterns(credentials);
    var found := Decide(alnum, patterns, LastOf(text[..i]), text[i..]);
    DecideMeaning(alnum, patterns, LastOf(text[..i]), text[i..]);
    forall name | name in credentials && credentials[name] != ""
      ensures var p := Pattern(credentials[name], name);
        && p in patterns
        && (StandsNamed(alnum, credentials, text, i, name) <==> Matches(alnum, p.secret, LastOf(text[..i]), text[i..]))
    {
      StandsIsEligible(alnum, text, i, credentials[name]);
    }
    match found {
      case None =>
        forall name | name in credentials ensures !StandsNamed(alnum, credentials, text, i, name) {
          if credentials[name] != "" {
            var k :| 0 <= k < |patterns| && patterns[k] == Pattern(credentials[name], name);
          }
        }
      case Some(p) =>
        forall other | other in credentials && other != p.name && StandsNamed(alnum, credentials, text, i, other)
          ensures |credentials[other]| < |p.secret|
            || (|credentials[other]| == |p.secret| && LexLess(Codes(p.name), Codes(other)))
        {
          var q := Pattern(credentials[other], other);
          DecidedIsFirst(alnum, patterns, LastOf(text[..i]), text[i..], p, q);
          BeforeMeans(p, q);
        }
    }
  }

  lemma BeforeMeans(p: Pattern, q: Pattern)
    requires Before(p, q) && p.name != q.name
    ensures |q.secret| < |p.secret| || (|q.secret| == |p.secret| && LexLess(Codes(p.name), Codes(q.name)))
  {
  }

  // ---------- The reading of a text ----------

  /** A character that starts no credential goes before any reading of what follows. */
  lemma OneCharacterMore(alnum: CharClass, credentials: map<string, string>, text: string, from: nat,
                         spans: seq<Span>)
    requires from < |text| && NoneStands(alnum, credentials, text, from)
    requires IsReading(alnum, credentials, text, from + 1, spans)
    ensures IsReading(alnum, credentials, text, from, spans)
  {
    hide NoneStands, Wins;
  }

  lemma OneCharacterIsKept(text: string, from: nat, spans: seq<Span>)
    requires from < |text| && InText(text, from + 1, spans)
    ensures InText(text, from, spans)
    ensures Displayed(text, from, spans) == [text[from]] + Displayed(text, from + 1, spans)
  {
    if spans == [] {
      assert text[from..] == [text[from]] + text[from + 1..];
    } else {
      var to := spans[0].from;
      assert text[from..to] == [text[from]] + text[from + 1..to];
      Prepend([text[from]], text[from + 1..to], spans[0].name, Displayed(text, spans[0].to, spans[1..]));
    }
  }

  lemma Prepend(c: string, gap: string, name: string, rest: string)
    ensures (c + gap) + "<redacted:" + name + ">" + rest == c + (gap + "<redacted:" + name + ">" + rest)
  {
  }

  lemma ShownCharacter(alnum: CharClass, patterns: seq<Pattern>, text: string, from: nat)
    requires NonEmptySecrets(patterns) && from < |text|
    requires Decide(alnum, patterns, LastOf(text[..from]), text[from..]).None?
    ensures Render(Segments(alnum, patterns, LastOf(text[..from]), text[from..])) ==
      [text[from]] + Render(Segments(alnum, patterns, LastOf(text[..from + 1]), text[from + 1..]))
  {
    hide Decide, LastOf;
    LastOfTaken(text, from, from + 1);
    var rest := text[from..];
    assert rest[1..] == text[from + 1..];
    var tail := Segments(alnum, patterns, Some(rest[0]), rest[1..]);
    RenderConcat([Plain(rest[0])], tail);
  }

  lemma ShownMarker(alnum: CharClass, patterns: seq<Pattern>, text: string, from: nat, p: Pattern)
    requires NonEmptySecrets(patterns) && from + |p.secret| <= |text|
    requires p.secret != "" && text[from..from + |p.secret|] == p.secret
    requires Decide(alnum, patterns, LastOf(text[..from]), text[from..]) == Some(p)
    ensures var to := from + |p.secret|;
      Render(Segments(alnum, patterns, LastOf(text[..from]), text[from..])) ==
        "<redacted:" + p.name + ">" + Render(Segments(alnum, patterns, LastOf(text[..to]), text[to..]))
  {
    hide Decide, LastOf, Matches;
    var to := from + |p.secret|;
    LastOfTaken(text, from, to);
    var rest := text[from..];
    assert rest[|p.secret|..] == text[to..];
    var tail := Segments(alnum, patterns, LastOf(p.secret), rest[|p.secret|..]);
    RenderConcat([Redacted(p)], tail);
  }

  /** The segments are shown as the reading is displayed. */
  lemma {:induction false} ReadingOfSegments(alnum: CharClass, credentials: map<string, string>, text: string,
                                             from: nat)
    returns (spans: seq<Span>)
    requires from <= |text|
    ensures IsReading(alnum, credentials, text, from, spans) && InText(text, from, spans)
    ensures Render(Segments(alnum, Patterns(credentials), LastOf(text[..from]), text[from..])) ==
      Displayed(text, from, spans)
    decreases |text| - from
  {
    hide Decide, NoneStands, Wins, LastOf, Stands, Segments, Displayed, IsReading, InText, Render;
    var patterns := Patterns(credentials);
    if from == |text| {
      spans := [];
      NothingShown(alnum, credentials, text);
    } else {
      Decides(alnum, credentials, text, from);
      match Decide(alnum, patterns, LastOf(text[..from]), text[from..]) {
        case None =>
          spans := ReadingOfSegments(alnum, credentials, text, from + 1);
          OneCharacterMore(alnum, credentials, text, from, spans);
          OneCharacterIsKept(text, from, spans);
          ShownCharacter(alnum, patterns, text, from);
        case Some(p) =>
          WinnerIsThere(alnum, credentials, text, from, p.name);
          var to := from + |p.secret|;
          var rest := ReadingOfSegments(alnum, credentials, text, to);
          spans := [Span(from, to, p.name)] + rest;
          OneMarkerMore(alnum, credentials, text, spans, rest);
          ShownMarker(alnum, patterns, text, from, p);
      }
    }
  }

  lemma NothingShown(alnum: CharClass, credentials: map<string, string>, text: string)
    ensures IsReading(alnum, credentials, text, |text|, []) && InText(text, |text|, [])
    ensures Displayed(text, |text|, []) == ""
    ensures Render(Segments(alnum, Patterns(credentials), LastOf(text[..|text|]), text[|text|..])) == ""
  {
    hide NoneStands, LastOf;
    assert text[|text|..] == "";
  }

  lemma OneMarkerMore(alnum: CharClass, credentials: map<string, string>, text: string, spans: seq<Span>,
                      rest: seq<Span>)
    requires spans != [] && spans[1..] == rest
    requires var s := spans[0];
      && Wins(alnum, credentials, text, s.from, s.name) && s.to == s.from + |credentials[s.name]| <= |text|
      && IsReading(alnum, credentials, text, s.to, rest) && InText(text, s.to, rest)
    ensures var s := spans[0];
      && IsReading(alnum, credentials, text, s.from, spans) && InText(text, s.from, spans)
      && Displayed(text, s.from, spans) == "<redacted:" + s.name + ">" + Displayed(text, s.to, rest)
  {
    WinnerIsThere(alnum, credentials, text, spans[0].from, spans[0].name);
    hide NoneStands, Wins;
    assert text[spans[0].from..spans[0].from] == "";
  }

  lemma LastOfTaken(text: string, from: nat, to: nat)
    requires from < to <= |text|
    ensures LastOf(text[..to]) == LastOf(text[from..to]) == Some(text[to - 1])
  {
  }

  lemma WinnerIsThere(alnum: CharClass, credentials: map<string, string>, text: string, i: int, name: string)
    requires Wins(alnum, credentials, text, i, name)
    ensures name in credentials && 0 <= i < i + |credentials[name]| <= |text|
    ensures text[i..i + |credentials[name]|] == credentials[name]
  {
  }

  lemma OneWinner(alnum: CharClass, credentials: map<string, string>, text: string, i: int, a: string, b: string)
    requires Wins(alnum, credentials, text, i, a) && Wins(alnum, credentials, text, i, b)
    ensures a == b
  {
    hide Stands;
    LexAsymmetric(Codes(a), Codes(b));
  }

  lemma WinnersStand(alnum: CharClass, credentials: map<string, string>, text: string, i: int, name: string)
    requires Wins(alnum, credentials, text, i, name)
    ensures !NoneStands(alnum, credentials, text, i)
  {
    hide Stands;
  }

  lemma {:induction false} OneReading(alnum: CharClass, credentials: map<string, string>, text: string, from: nat,
                                      a: seq<Span>, b: seq<Span>)
    requires IsReading(alnum, credentials, text, from, a) && IsReading(alnum, credentials, text, from, b)
    ensures a == b
    decreases |a|
  {
    hide Wins, NoneStands;
    if a == [] || b == [] {
      if a != [] { WinnersStand(alnum, credentials, text, a[0].from, a[0].name); }
      if b != [] { WinnersStand(alnum, credentials, text, b[0].from, b[0].name); }
    } else {
      WinnersStand(alnum, credentials, text, a[0].from, a[0].name);
      WinnersStand(alnum, credentials, text, b[0].from, b[0].name);
      OneWinner(alnum, credentials, text, a[0].from, a[0].name, b[0].name);
      OneReading(alnum, credentials, text, a[0].to, a[1..], b[1..]);
      assert a == [a[0]] + a[1..] && b == [b[0]] + b[1..];
    }
  }

  // ---------- What is shown ----------

  ghost predicate DisplaysAs(alnum: CharClass, credentials: map<string, string>, text: string, spans: seq<Span>,
                             out: string) {
    IsReading(alnum, credentials, text, 0, spans) && InText(text, 0, spans) && out == Displayed(text, 0, spans)
  }

  /**
   The redaction of a text is the text with each winning credential replaced by the marker that
   names it, and every other character kept: this output and no other.
   */
  lemma RedactionIsTheReading(alnum: CharClass, credentials: map<string, string>, text: string, out: string)
    ensures out == RedactAll(alnum, Patterns(credentials), text) <==>
      exists spans :: DisplaysAs(alnum, credentials, text, spans, out)
  {
    hide IsReading, InText, Displayed, Segments, Render;
    var spans := ReadingOfSegments(alnum, credentials, text, 0);
    assert text[..0] == "" && text[0..] == text;
    assert DisplaysAs(alnum, credentials, text, spans, RedactAll(alnum, Patterns(credentials), text));
    if other :| DisplaysAs(alnum, credentials, text, other, out) {
      OneReading(alnum, credentials, text, 0, spans, other);
    }
  }

  /** The same characters kept and the same names, whatever the credentials are. */
  predicate ShownAlike(a: seq<Segment>, b: seq<Segment>) {
    && |a| == |b|
    && forall k :: 0 <= k < |a| ==>
         || (a[k].Plain? && b[k].Plain? && a[k].c == b[k].c)
         || (a[k].Redacted? && b[k].Redacted? && a[k].p.name == b[k].p.name)
  }

  /** Nothing of a redacted credential but its name reaches the output. */
  lemma {:induction false} CredentialsDoNotShow(a: seq<Segment>, b: seq<Segment>)
    requires ShownAlike(a, b)
    ensures Render(a) == Render(b)
  {
    if a == [] {
    } else {
      assert forall k :: 0 <= k < |a| - 1 ==> a[1..][k] == a[k + 1] && b[1..][k] == b[k + 1];
      CredentialsDoNotShow(a[1..], b[1..]);
    }
  }

  // ---------- Markers ----------

  predicate NameCharacter(c: char) {
    || 65 <= c as int <= 90 || 97 <= c as int <= 122 || 48 <= c as int <= 57
    || c == '_' || c == '.' || c == '[' || c == ']' || c == '#' || c == '-'
  }

  predicate NameCharacters(name: string) {
    name != "" && forall i :: 0 <= i < |name| ==> NameCharacter(name[i])
  }

  lemma SameNameCharacters(c: char)
    ensures IsNameCharacter(c) <==> NameCharacter(c)
  {
  }

  predicate BeginsWithMarker(s: string, name: string) {
    "<redacted:" + name + ">" <= s
  }

  /** A marker is recognised exactly where one is shown for a name of marker characters, and in full. */
  lemma MarkersAreRecognised(s: string)
    ensures forall name :: NameCharacters(name) && BeginsWithMarker(s, name) ==> MarkerLength(s) == |name| + 11
    ensures MarkerLength(s) > 0 ==> exists name :: NameCharacters(name) && BeginsWithMarker(s, name)
  {
    hide MarkerLength, NameCharacters, BeginsWithMarker;
    forall name | NameCharacters(name) && BeginsWithMarker(s, name) ensures MarkerLength(s) == |name| + 11 {
      MarkerIsRecognised(s, name);
    }
    if MarkerLength(s) > 0 {
      var name := RecognisedIsMarker(s);
    }
  }

  lemma RecognisedIsMarker(s: string) returns (name: string)
    requires MarkerLength(s) > 0
    ensures NameCharacters(name) && BeginsWithMarker(s, name)
  {
    hide IsNameCharacter, NameCharacter;
    var end := MarkerLength(s) - 1;
    name := s[10..end];
    forall i | 0 <= i < |name| ensures NameCharacter(name[i]) {
      assert name[i] == s[10..][i];
      SameNameCharacters(name[i]);
    }
    assert s[..10] == OPENING;
    assert s[..end + 1] == s[..10] + name + [s[end]];
  }

  lemma MarkerIsRecognised(s: string, name: string)
    requires NameCharacters(name) && BeginsWithMarker(s, name)
    ensures MarkerLength(s) == |name| + 11
  {
    hide NameCharacter, IsNameCharacter;
    var marker := "<redacted:" + name + ">";
    assert s[..|marker|] == marker;
    assert s[..10] == OPENING by { assert s[..10] == s[..|marker|][..10]; }
    var tail := s[10..];
    forall i | 0 <= i < |name| ensures tail[i] == name[i] && IsNameCharacter(tail[i]) {
      assert tail[i] == s[..|marker|][10 + i];
      SameNameCharacters(name[i]);
    }
    assert tail[|name|] == s[..|marker|][10 + |name|] == '>';
    SameNameCharacters('>');
    CloseIsNoName();
    RunStopsAt(tail, |name|);
  }

  lemma CloseIsNoName()
    ensures !NameCharacter('>')
  {
  }

  lemma RunStopsAt(s: string, n: nat)
    requires n < |s| && !IsNameCharacter(s[n]) && forall i :: 0 <= i < n ==> IsNameCharacter(s[i])
    ensures NameRun(s) == n
  {
    hide IsNameCharacter;
  }
}
