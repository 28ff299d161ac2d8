/** Redacting a text that may already carry markers (`redact_text` inside `redact_sensitive_value`). */
module SensitiveText {
  import opened Redaction
  import opened RedactionLaws

  /** What is known: the table of alphanumeric characters and the patterns of the inventory. */
  datatype Known = Known(alnum: CharClass, patterns: seq<Pattern>)

  const OPENING := "<redacted:"

  predicate IsNameCharacter(c: char) {
    'A' <= c <= 'Z' || 'a' <= c <= 'z' || '0' <= c <= '9' || c in "_.[]#-"
  }

  function NameRun(s: string): (n: nat)
    ensures n <= |s| && (forall i :: 0 <= i < n ==> IsNameCharacter(s[i])) && (n < |s| ==> !IsNameCharacter(s[n]))
  {
    if s != "" && IsNameCharacter(s[0]) then 1 + NameRun(s[1..]) else 0
  }

  /** The length of the marker that starts here, or zero. */
  function MarkerLength(s: string): (n: nat)
    ensures n <= |s|
  {
    if !(OPENING <= s) then 0
    else
      var run := NameRun(s[|OPENING|..]);
      var end := |OPENING| + run;
      if run > 0 && end < |s| && s[end] == '>' then end + 1 else 0
  }

  datatype Piece = Gap(text: string) | Mark(text: string)

  /** The leftmost markers, with the gaps around them; `pos` is how far the gap has been searched. */
  function Pieces(text: string, pos: nat): seq<Piece>
    requires pos <= |text|
    decreases |text|, |text| - pos
  {
    if pos == |text| then [Gap(text)]
    else
      var n := MarkerLength(text[pos..]);
      if n == 0 then Pieces(text, pos + 1)
      else [Gap(text[..pos]), Mark(text[pos..pos + n])] + Pieces(text[pos + n..], 0)
  }

  /** The text the pieces were cut from. */
  function Whole(pieces: seq<Piece>): string {
    if pieces == [] then "" else pieces[0].text + Whole(pieces[1..])
  }

  /** Gaps are redacted, markers stay. */
  function Redrawn(k: Known, pieces: seq<Piece>): string
    requires NonEmptySecrets(k.patterns)
  {
    if pieces == [] then ""
    else (match pieces[0] case Gap(t) => RedactAll(k.alnum, k.patterns, t) case Mark(t) => t) + Redrawn(k, pieces[1..])
  }

  function RedactedText(k: Known, text: string): string
    requires NonEmptySecrets(k.patterns)
  {
    Redrawn(k, Pieces(text, 0))
  }

  ghost predicate MarkerFree(text: string) {
    forall i :: 0 <= i <= |text| ==> MarkerLength(text[i..]) == 0
  }

  ghost predicate PieceOk(p: Piece) {
    match p case Gap(t) => MarkerFree(t) case Mark(t) => t != "" && MarkerLength(t) == |t|
  }

  lemma {:induction false} NameRunExtends(s: string, more: string)
    requires NameRun(s) < |s|
    ensures NameRun(s + more) == NameRun(s)
  {
    if !IsNameCharacter(s[0]) {
    } else {
      assert (s + more)[1..] == s[1..] + more;
      NameRunExtends(s[1..], more);
    }
  }

  /** A complete marker is recognised whatever follows it. */
  lemma MarkerIsLocal(s: string, more: string)
    requires MarkerLength(s) > 0
    ensures MarkerLength(s + more) == MarkerLength(s)
  {
    NameRunExtends(s[|OPENING|..], more);
    assert (s + more)[|OPENING|..] == s[|OPENING|..] + more;
  }

  lemma MarkerAlone(s: string)
    requires MarkerLength(s) > 0
    ensures MarkerLength(s[..MarkerLength(s)]) == MarkerLength(s)
  {
    var n := MarkerLength(s);
    var name := s[|OPENING|..n];
    assert s[..n][|OPENING|..] == name;
    NameRunOfPrefix(s[|OPENING|..], |name|);
    assert s[|OPENING|..][..|name|] == name;
  }

  lemma {:induction false} NameRunOfPrefix(s: string, n: nat)
    requires NameRun(s) < n <= |s|
    ensures NameRun(s[..n]) == NameRun(s)
  {
    assert s[..n][0] == s[0] && s[..n][1..] == s[1..][..n - 1];
    if !IsNameCharacter(s[0]) {
    } else {
      NameRunOfPrefix(s[1..], n - 1);
    }
  }

  lemma WholeOfTwo(gap: string, mark: string, rest: seq<Piece>)
    ensures Whole([Gap(gap), Mark(mark)] + rest) == gap + (mark + Whole(rest))
  {
    assert ([Gap(gap), Mark(mark)] + rest)[1..] == [Mark(mark)] + rest;
    assert ([Mark(mark)] + rest)[1..] == rest;
  }

  lemma GapIsMarkerFree(text: string, pos: nat)
    requires pos <= |text| && forall i :: 0 <= i < pos ==> MarkerLength(text[i..]) == 0
    ensures MarkerFree(text[..pos])
  {
    var gap := text[..pos];
    forall i | 0 <= i <= pos ensures MarkerLength(gap[i..]) == 0 {
      assert gap[i..] + text[pos..] == text[i..];
      assert i == pos ==> MarkerLength(gap[i..]) == 0;
      if i < pos && MarkerLength(gap[i..]) > 0 {
        MarkerIsLocal(gap[i..], text[pos..]);
      }
    }
  }

  /** The pieces spell the text, the marks are its markers and no gap holds a marker of its own. */
  lemma {:induction false} PiecesCoverText(text: string, pos: nat)
    requires pos <= |text| && forall i :: 0 <= i < pos ==> MarkerLength(text[i..]) == 0
    ensures Whole(Pieces(text, pos)) == text
    ensures forall p :: p in Pieces(text, pos) ==> PieceOk(p)
    decreases |text|, |text| - pos
  {
    hide MarkerLength, MarkerFree, Pieces, Whole, PieceOk;
    PiecesUnfold(text, pos);
    if pos == |text| {
      LastGap(text);
    } else {
      var n := MarkerLength(text[pos..]);
      if n == 0 {
        PiecesCoverText(text, pos + 1);
      } else {
        var gap, mark, rest := text[..pos], text[pos..pos + n], text[pos + n..];
        PiecesCoverText(rest, 0);
        GapAndMark(text, pos);
        WholeOfTwo(gap, mark, Pieces(rest, 0));
        assert text == gap + (mark + rest);
      }
    }
  }

  lemma PiecesUnfold(text: string, pos: nat)
    requires pos <= |text|
    ensures pos == |text| ==> Pieces(text, pos) == [Gap(text)]
    ensures pos < |text| && MarkerLength(text[pos..]) == 0 ==> Pieces(text, pos) == Pieces(text, pos + 1)
    ensures pos < |text| && MarkerLength(text[pos..]) > 0 ==>
      var n := MarkerLength(text[pos..]);
      Pieces(text, pos) == [Gap(text[..pos]), Mark(text[pos..pos + n])] + Pieces(text[pos + n..], 0)
  {
    hide MarkerLength;
  }

  lemma LastGap(text: string)
    requires forall i :: 0 <= i < |text| ==> MarkerLength(text[i..]) == 0
    ensures Whole([Gap(text)]) == text && PieceOk(Gap(text))
  {
    hide MarkerLength, MarkerFree;
    GapIsMarkerFree(text, |text|);
    assert text[..|text|] == text;
  }

  lemma GapAndMark(text: string, pos: nat)
    requires pos <= |text| && MarkerLength(text[pos..]) > 0
    requires forall i :: 0 <= i < pos ==> MarkerLength(text[i..]) == 0
    ensures PieceOk(Gap(text[..pos])) && PieceOk(Mark(text[pos..pos + MarkerLength(text[pos..])]))
  {
    hide MarkerLength, MarkerFree;
    MarkerAlone(text[pos..]);
    assert text[pos..][..MarkerLength(text[pos..])] == text[pos..pos + MarkerLength(text[pos..])];
    GapIsMarkerFree(text, pos);
  }

  /** The position of the next marker, or the end of the text. */
  function NextMarker(text: string, pos: nat): (r: nat)
    requires pos <= |text|
    ensures pos <= r <= |text|
    ensures Pieces(text, pos) == Pieces(text, r)
    ensures r < |text| ==> MarkerLength(text[r..]) > 0
    decreases |text| - pos
  {
    if pos == |text| || MarkerLength(text[pos..]) > 0 then pos else NextMarker(text, pos + 1)
  }

  /** The last round: no marker is left. */
  lemma LastRound(k: Known, text: string)
    requires NonEmptySecrets(k.patterns) && NextMarker(text, 0) == |text|
    ensures RedactedText(k, text) == RedactAll(k.alnum, k.patterns, text)
  {
    hide RedactAll, MarkerLength;
    assert Pieces(text, 0) == [Gap(text)];
    OneMore(k, [], text);
    assert [] + [Gap(text)] == [Gap(text)];
    RedrawnNothing(k);
    assert "" + RedactAll(k.alnum, k.patterns, text) == RedactAll(k.alnum, k.patterns, text);
  }

  /** One round of the iteration: the gap before the next marker is redacted, the marker kept. */
  lemma MarkerRound(k: Known, text: string, gap: string, mark: string, rest: string)
    requires NonEmptySecrets(k.patterns) && NextMarker(text, 0) == |gap| < |text|
    requires gap == text[..|gap|]
    requires var n := MarkerLength(text[|gap|..]); mark == text[|gap|..|gap| + n] && rest == text[|gap| + n..]
    ensures RedactedText(k, text) == RedactAll(k.alnum, k.patterns, gap) + (mark + RedactedText(k, rest))
  {
    hide RedactAll, MarkerLength;
    assert Pieces(text, |gap|) == [Gap(gap), Mark(mark)] + Pieces(rest, 0);
    hide Pieces;
    RedrawnOfTwo(k, gap, mark, Pieces(rest, 0));
    hide *;
  }

  /** The scan: markers are copied, what lies between is redacted on its own. */
  method RedactText(k: Known, text: string) returns (out: string)
    requires NonEmptySecrets(k.patterns)
    ensures out == RedactedText(k, text)
  {
    out := "";
    var rest := text;
    assert "" + RedactedText(k, text) == RedactedText(k, text) by { hide *; }
    hide *;
    while NextMarker(rest, 0) < |rest|
      invariant out + RedactedText(k, rest) == RedactedText(k, text)
      decreases |rest|
    {
      var i := NextMarker(rest, 0);
      var n := MarkerLength(rest[i..]);
      var gap, mark, tail := rest[..i], rest[i..i + n], rest[i + n..];
      var shown := RedactCredentialValues(k.alnum, k.patterns, gap);
      MarkerRound(k, rest, gap, mark, tail);
      Reassociate(out, shown, mark, RedactedText(k, tail));
      out := out + shown + mark;
      rest := tail;
    }
    var shown := RedactCredentialValues(k.alnum, k.patterns, rest);
    LastRound(k, rest);
    out := out + shown;
  }

  lemma Reassociate(a: string, b: string, c: string, d: string)
    ensures a + (b + (c + d)) == (a + b + c) + d
  {
  }

  lemma RedrawnOfTwo(k: Known, gap: string, mark: string, rest: seq<Piece>)
    requires NonEmptySecrets(k.patterns)
    ensures Redrawn(k, [Gap(gap), Mark(mark)] + rest) == RedactAll(k.alnum, k.patterns, gap) + (mark + Redrawn(k, rest))
  {
    assert ([Gap(gap), Mark(mark)] + rest)[1..] == [Mark(mark)] + rest;
    assert ([Mark(mark)] + rest)[1..] == rest;
  }

  lemma RedrawnNothing(k: Known)
    requires NonEmptySecrets(k.patterns)
    ensures Redrawn(k, []) == ""
  {
  }

  lemma {:induction false} RedrawnConcat(k: Known, a: seq<Piece>, b: seq<Piece>)
    requires NonEmptySecrets(k.patterns)
    ensures Redrawn(k, a + b) == Redrawn(k, a) + Redrawn(k, b)
  {
    if a == [] {
      assert a + b == b;
    } else {
      assert (a + b)[1..] == a[1..] + b;
      RedrawnConcat(k, a[1..], b);
    }
  }

  lemma OneMore(k: Known, done: seq<Piece>, gap: string)
    requires NonEmptySecrets(k.patterns)
    ensures Redrawn(k, done + [Gap(gap)]) == Redrawn(k, done) + RedactAll(k.alnum, k.patterns, gap)
  {
    RedrawnConcat(k, done, [Gap(gap)]);
  }
}
