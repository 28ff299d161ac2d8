/**
 The grammar of RFC 8259, sections 2 to 7, as a relation between texts and values, and the proof
 that the strict parser reads exactly what it allows.
 */
module JsonGrammar {
  import opened Wrappers
  import opened Sorting
  import opened CanonicalJson
  import opened CanonicalRoundTrip

  // ---------- The grammar ----------

  predicate Space(c: int) {
    c == 32 || c == 9 || c == 10 || c == 13
  }

  predicate Spaces(t: Text) {
    forall i :: 0 <= i < |t| ==> Space(t[i])
  }

  /** A hexadecimal digit of either case. */
  predicate HexSpells(c: int, d: int) {
    (48 <= c <= 57 && d == c - 48) || (97 <= c <= 102 && d == 10 + c - 97) || (65 <= c <= 70 && d == 10 + c - 65)
  }

  predicate FourHex(t: Text, a: int, b: int, c: int, d: int) {
    |t| == 4 && HexSpells(t[0], a) && HexSpells(t[1], b) && HexSpells(t[2], c) && HexSpells(t[3], d)
  }

  /** A backslash, a `u` and four digits. */
  ghost predicate UnitSpells(t: Text, u: int) {
    && |t| == 6 && t[0] == 92 && t[1] == 117
    && exists a, b, c, d :: FourHex(t[2..], a, b, c, d) && u == 0x1000 * a + 0x100 * b + 0x10 * c + d
  }

  predicate ShortEscape(x: int, c: int) {
    || ((x == 34 || x == 92 || x == 47) && c == x)
    || (x == 98 && c == 8) || (x == 102 && c == 12) || (x == 110 && c == 10) || (x == 114 && c == 13)
    || (x == 116 && c == 9)
  }

  /** A character above the basic plane as its two halves. */
  ghost predicate PairSpells(t: Text, c: int) {
    && |t| == 12
    && exists high, low ::
         && UnitSpells(t[..6], high) && UnitSpells(t[6..], low)
         && 0xD800 <= high <= 0xDBFF && 0xDC00 <= low <= 0xDFFF
         && c == 0x1_0000 + 0x400 * (high - 0xD800) + (low - 0xDC00)
  }

  /** One character of a string: itself, or any of its escapes. */
  ghost predicate CharacterSpells(t: Text, c: int) {
    || (t == [c] && c >= 32 && c != 34 && c != 92)
    || (|t| == 2 && t[0] == 92 && ShortEscape(t[1], c))
    || UnitSpells(t, c)
    || PairSpells(t, c)
  }

  ghost predicate HighHalf(t: Text) {
    exists u :: UnitSpells(t, u) && 0xD800 <= u <= 0xDBFF
  }

  ghost predicate BeginsWithLowHalf(t: Text) {
    |t| >= 6 && exists u :: UnitSpells(t[..6], u) && 0xDC00 <= u <= 0xDFFF
  }

  /** One character after the other; two halves that meet are one. */
  ghost predicate CharactersSpell(t: Text, s: Text)
    decreases |s|
  {
    if s == [] then t == []
    else exists k :: 0 < k <= |t| && CutsCharacter(t, k, s[0]) && CharactersSpell(t[k..], s[1..])
  }

  ghost predicate CutsCharacter(t: Text, k: nat, c: int)
    requires k <= |t|
  {
    CharacterSpells(t[..k], c) && !(HighHalf(t[..k]) && BeginsWithLowHalf(t[k..]))
  }

  ghost predicate StringSpells(t: Text, s: Text) {
    |t| >= 2 && t[0] == 34 && t[|t| - 1] == 34 && CharactersSpell(t[1..|t| - 1], s)
  }

  predicate DecimalSpells(t: Text, n: nat)
    decreases |t|
  {
    && t != [] && 48 <= t[|t| - 1] <= 57 && n % 10 == t[|t| - 1] - 48
    && if |t| == 1 then n < 10 else DecimalSpells(t[..|t| - 1], n / 10)
  }

  /** No fraction, no exponent, no leading zero. */
  predicate NumberSpells(t: Text, n: int) {
    if t != [] && t[0] == 45 then n <= 0 && UnsignedSpells(t[1..], -n) else n >= 0 && UnsignedSpells(t, n)
  }

  predicate UnsignedSpells(t: Text, n: nat) {
    DecimalSpells(t, n) && (t[0] == 48 ==> |t| == 1)
  }

  ghost predicate Spells(t: Text, v: Value)
    decreases |t|, 0
  {
    match v
    case Null => t == Codes("null")
    case Bool(b) => t == Codes(if b then "true" else "false")
    case Int(n) => NumberSpells(t, n)
    case Str(s) => StringSpells(t, s)
    case Arr(items) =>
      && |t| >= 2 && t[0] == 91 && t[|t| - 1] == 93
      && if items == [] then Spaces(t[1..|t| - 1]) else ItemsSpell(t[1..|t| - 1], items)
    case Obj(members) =>
      && |t| >= 2 && t[0] == 123 && t[|t| - 1] == 125
      && if members == map[] then Spaces(t[1..|t| - 1])
         else exists pairs ::
           pairs != [] && DistinctNames(pairs) && HoldsPairs(members, pairs) && MembersSpell(t[1..|t| - 1], pairs)
  }

  /** A value with any white space around it. */
  ghost predicate Padded(t: Text, v: Value)
    decreases |t|, 1
  {
    exists a, b :: 0 <= a <= b <= |t| && Spaces(t[..a]) && Spells(t[a..b], v) && Spaces(t[b..])
  }

  ghost predicate ItemsSpell(t: Text, items: seq<Value>)
    requires items != []
    decreases |t|, 2
  {
    if |items| == 1 then Padded(t, items[0])
    else exists k :: 0 <= k < |t| && t[k] == 44 && Padded(t[..k], items[0]) && ItemsSpell(t[k + 1..], items[1..])
  }

  ghost predicate MemberSpells(t: Text, key: Text, v: Value)
    decreases |t|, 2
  {
    exists k :: 0 <= k < |t| && t[k] == 58 && Padded(t[..k], Str(key)) && Padded(t[k + 1..], v)
  }

  ghost predicate MembersSpell(t: Text, pairs: seq<(Text, Value)>)
    requires pairs != []
    decreases |t|, 3
  {
    if |pairs| == 1 then MemberSpells(t, pairs[0].0, pairs[0].1)
    else exists k ::
      && 0 <= k < |t| && t[k] == 44
      && MemberSpells(t[..k], pairs[0].0, pairs[0].1) && MembersSpell(t[k + 1..], pairs[1..])
  }

  // ---------- White space ----------

  predicate Starts(t: Text) {
    t == [] || !Space(t[0])
  }

  lemma {:induction false} SkipsSpaces(w: Text, t: Text)
    requires Spaces(w) && Starts(t)
    ensures SkipWs(w + t) == t
  {
    if w == [] {
      assert w + t == t;
    } else {
      assert (w + t)[1..] == w[1..] + t;
      SkipsSpaces(w[1..], t);
    }
  }

  lemma {:induction false} Skipped(s: Text) returns (w: Text)
    ensures s == w + SkipWs(s) && Spaces(w) && Starts(SkipWs(s))
  {
    if s == [] || !Space(s[0]) {
      w := [];
    } else {
      w := Skipped(s[1..]);
      w := [s[0]] + w;
    }
  }

  // ---------- Strings: what is spelled is read ----------

  lemma UnitIsRead(t: Text, u: int, rest: Text)
    requires UnitSpells(t, u)
    ensures |t| == 6 && (t + rest)[0] == 92 && (t + rest)[1] == 117 && (t + rest)[6..] == rest
    ensures ParseHex4((t + rest)[2..]) == Some(u) && 0 <= u <= 0xFFFF
  {
    var h := (t + rest)[2..];
    assert h[..4] == t[2..];
    assert h[0] == h[..4][0] && h[1] == h[..4][1] && h[2] == h[..4][2] && h[3] == h[..4][3];
  }

  /** What may follow a character: nothing that a high half would join or choke on. */
  predicate FollowsCharacter(tail: Text) {
    |tail| >= 2 && tail[0] == 92 && tail[1] == 117 ==>
      ParseHex4(tail[2..]).Some? && !(0xDC00 <= ParseHex4(tail[2..]).value <= 0xDFFF)
  }

  lemma CharacterIsRead(t: Text, c: int, tail: Text)
    requires CharacterSpells(t, c) && (HighHalf(t) ==> FollowsCharacter(tail))
    ensures t != []
    ensures var next := ParseString(tail);
      ParseString(t + tail) == if next.Parsed? then Parsed([c] + next.value, next.rest) else next
  {
    hide ParseString, ParseHex4, UnitSpells, PairSpells, HighHalf, FollowsCharacter;
    if t == [c] && c >= 32 && c != 34 && c != 92 {
      ParsePlain(c, tail);
    } else {
      if |t| == 2 && t[0] == 92 && ShortEscape(t[1], c) {
        assert (t + tail)[1..] == [t[1]] + tail;
      } else if PairSpells(t, c) {
        PairIsRead(t, c, tail);
      } else {
        UnitEscapeIsRead(t, c, tail);
      }
      ParseAfterEscape(t + tail, c, tail);
    }
  }

  lemma UnitEscapeIsRead(t: Text, c: int, tail: Text)
    requires UnitSpells(t, c) && (HighHalf(t) ==> FollowsCharacter(tail))
    ensures t != [] && t[0] == 92 && ParseEscape((t + tail)[1..]) == Parsed(c, tail)
  {
    hide ParseHex4, UnitSpells;
    UnitIsRead(t, c, tail);
    var s := (t + tail)[1..];
    assert s[1..] == (t + tail)[2..] && s[5..] == (t + tail)[6..] && s[0] == (t + tail)[1];
  }

  lemma FollowingCharacters(t: Text, s: Text, rest: Text)
    requires CharactersSpell(t, s) && !BeginsWithLowHalf(t)
    ensures FollowsCharacter(t + [34] + rest)
  {
    hide CharactersSpell, UnitSpells, ParseHex4;
    var tail := t + [34] + rest;
    if tail[0] == 92 && |tail| >= 2 && tail[1] == 117 {
      FirstUnit(t, s, rest);
      var u :| UnitSpells(t[..6], u);
      UnitIsRead(t[..6], u, t[6..] + [34] + rest);
      assert tail == t[..6] + (t[6..] + [34] + rest);
    }
  }

  lemma FirstUnit(t: Text, s: Text, rest: Text)
    requires CharactersSpell(t, s)
    requires var tail := t + [34] + rest; |tail| >= 2 && tail[0] == 92 && tail[1] == 117
    ensures |t| >= 6 && exists u :: UnitSpells(t[..6], u)
  {
    hide UnitSpells, CharactersSpell;
    assert t != [];
    var k := FirstCharacter(t, s);
    var a := t[..k];
    assert a[0] == t[0] == 92 && (|a| > 1 ==> a[1] == t[1] == 117);
    if PairSpells(a, s[0]) {
      assert a[..6] == t[..6];
    } else {
      assert UnitSpells(a, s[0]);
      UnitIsRead(a, s[0], []);
      assert a == t[..6];
    }
  }

  lemma FirstCharacter(t: Text, s: Text) returns (k: nat)
    requires CharactersSpell(t, s) && t != []
    ensures s != [] && 0 < k <= |t| && CutsCharacter(t, k, s[0]) && CharactersSpell(t[k..], s[1..])
  {
    hide CutsCharacter;
    k :| 0 < k <= |t| && CutsCharacter(t, k, s[0]) && CharactersSpell(t[k..], s[1..]);
  }

  lemma PairIsRead(t: Text, c: int, tail: Text)
    requires PairSpells(t, c)
    ensures t != [] && t[0] == 92 && ParseEscape((t + tail)[1..]) == Parsed(c, tail)
  {
    hide ParseHex4, UnitSpells;
    var high, low :| UnitSpells(t[..6], high) && UnitSpells(t[6..], low)
      && 0xD800 <= high <= 0xDBFF && 0xDC00 <= low <= 0xDFFF
      && c == 0x1_0000 + 0x400 * (high - 0xD800) + (low - 0xDC00);
    var all, rest := t + tail, t[6..] + tail;
    assert all == t[..6] + rest;
    UnitIsRead(t[..6], high, rest);
    UnitIsRead(t[6..], low, tail);
    assert all[1..][1..] == all[2..];
    assert all[1..][5..] == all[6..];
  }

  lemma {:induction false} CharactersAreRead(t: Text, s: Text, rest: Text)
    requires CharactersSpell(t, s)
    ensures ParseString(t + [34] + rest) == Parsed(s, rest)
    decreases |s|
  {
    hide ParseString, CharacterSpells, HighHalf, BeginsWithLowHalf, FollowsCharacter;
    if s == [] {
      assert t + [34] + rest == [34] + rest && ([34] + rest)[1..] == rest;
      ClosingQuote(rest);
    } else {
      var k :| 0 < k <= |t| && CutsCharacter(t, k, s[0]) && CharactersSpell(t[k..], s[1..]);
      CharactersAreRead(t[k..], s[1..], rest);
      if HighHalf(t[..k]) {
        FollowingCharacters(t[k..], s[1..], rest);
      }
      CharacterIsRead(t[..k], s[0], t[k..] + [34] + rest);
      assert t + [34] + rest == t[..k] + (t[k..] + [34] + rest);
      assert s == [s[0]] + s[1..];
    }
  }

  lemma ClosingQuote(rest: Text)
    ensures ParseString([34] + rest) == Parsed([], rest)
  {
    assert ([34] + rest)[1..] == rest;
  }

  lemma StringIsRead(t: Text, s: Text, rest: Text)
    requires StringSpells(t, s)
    ensures t[0] == 34 && ParseString((t + rest)[1..]) == Parsed(s, rest)
  {
    hide ParseString, CharactersSpell;
    var inner := t[1..|t| - 1];
    CharactersAreRead(inner, s, rest);
    assert (t + rest)[1..] == inner + [34] + rest;
  }

  // ---------- Strings: what is read is spelled ----------

  lemma HexIsSpelled(c: int)
    requires HexValue(c) >= 0
    ensures HexSpells(c, HexValue(c))
  {
  }

  lemma UnitIsSpelled(h: Text)
    requires ParseHex4(h).Some?
    ensures |h| >= 4 && UnitSpells([92, 117] + h[..4], ParseHex4(h).value)
  {
    HexIsSpelled(h[0]);
    HexIsSpelled(h[1]);
    HexIsSpelled(h[2]);
    HexIsSpelled(h[3]);
    var t := [92, 117] + h[..4];
    assert t[2..] == h[..4];
    assert FourHex(t[2..], HexValue(h[0]), HexValue(h[1]), HexValue(h[2]), HexValue(h[3]));
  }

  lemma OtherLengths(t: Text)
    requires |t| != 6
    ensures !HighHalf(t)
  {
  }

  lemma OneUnit(t: Text, u: int)
    requires UnitSpells(t, u) && HighHalf(t)
    ensures 0xD800 <= u <= 0xDBFF
  {
    hide ParseHex4, UnitSpells;
    var high :| UnitSpells(t, high) && 0xD800 <= high <= 0xDBFF;
    UnitIsRead(t, u, []);
    UnitIsRead(t, high, []);
  }

  lemma EscapeIsSpelled(s: Text, c: int, rest: Text) returns (t: Text)
    requires ParseEscape(s) == Parsed(c, rest)
    ensures [92] + s == t + rest && CharacterSpells(t, c)
    ensures HighHalf(t) ==> FollowsCharacter(rest)
  {
    hide ParseHex4, UnitSpells, HexValue;
    if s[0] != 117 {
      t := [92, s[0]];
      OtherLengths(t);
    } else {
      UnitIsSpelled(s[1..]);
      var u, h := ParseHex4(s[1..]).value, s[1..][..4];
      t := [92, 117] + h;
      assert [92] + s == t + s[5..];
      if HighHalf(t) {
        OneUnit(t, u);
      }
      if c != u {
        var more := s[5..];
        UnitIsSpelled(more[2..]);
        var low := [92, 117] + more[2..][..4];
        assert more == low + more[6..];
        var pair := t + low;
        assert pair[..6] == t && pair[6..] == low;
        t := pair;
        OtherLengths(t);
      }
    }
  }

  lemma CharactersCons(a: Text, c: int, t: Text, s: Text)
    requires a != [] && CharacterSpells(a, c) && !(HighHalf(a) && BeginsWithLowHalf(t)) && CharactersSpell(t, s)
    ensures CharactersSpell(a + t, [c] + s)
  {
    hide CharacterSpells, HighHalf, BeginsWithLowHalf;
    var all := a + t;
    assert all[..|a|] == a && all[|a|..] == t && ([c] + s)[1..] == s;
    assert CutsCharacter(all, |a|, c);
  }

  /** What the parser did not join are no two halves. */
  lemma NoHalvesMeet(t: Text, rest: Text)
    requires FollowsCharacter(t + [34] + rest)
    ensures !BeginsWithLowHalf(t)
  {
    hide ParseHex4, UnitSpells;
    if BeginsWithLowHalf(t) {
      var u :| UnitSpells(t[..6], u) && 0xDC00 <= u <= 0xDFFF;
      assert t + [34] + rest == t[..6] + (t[6..] + [34] + rest);
      UnitIsRead(t[..6], u, t[6..] + [34] + rest);
    }
  }

  lemma {:induction false} CharactersAreSpelled(s: Text, chars: Text, rest: Text) returns (t: Text)
    requires ParseString(s) == Parsed(chars, rest)
    ensures s == t + [34] + rest && CharactersSpell(t, chars)
    decreases |s|
  {
    hide ParseEscape, CharacterSpells, HighHalf, BeginsWithLowHalf, FollowsCharacter, CharactersSpell;
    if s[0] == 34 {
      t := [];
      NoCharacters();
    } else if s[0] == 92 {
      var c, after := ParseEscape(s[1..]).value, ParseEscape(s[1..]).rest;
      assert chars[0] == c && ParseString(after) == Parsed(chars[1..], rest);
      var a := EscapeIsSpelled(s[1..], c, after);
      var more := CharactersAreSpelled(after, chars[1..], rest);
      CharacterIsLong(a, c);
      if HighHalf(a) {
        NoHalvesMeet(more, rest);
      }
      CharactersCons(a, c, more, chars[1..]);
      t := a + more;
      assert s == [92] + s[1..] && chars == [c] + chars[1..];
    } else {
      assert ParseString(s[1..]) == Parsed(chars[1..], rest) && chars[0] == s[0];
      var more := CharactersAreSpelled(s[1..], chars[1..], rest);
      PlainIsSpelled(s[0]);
      CharactersCons([s[0]], s[0], more, chars[1..]);
      t := [s[0]] + more;
      assert s == [s[0]] + s[1..] && chars == [s[0]] + chars[1..];
    }
  }

  lemma NoCharacters()
    ensures CharactersSpell([], [])
  {
  }

  lemma PlainIsSpelled(c: int)
    requires c >= 32 && c != 34 && c != 92
    ensures CharacterSpells([c], c) && !HighHalf([c])
  {
  }

  lemma CharacterIsLong(t: Text, c: int)
    requires CharacterSpells(t, c)
    ensures t != []
  {
  }

  lemma StringIsSpelled(s: Text, chars: Text, rest: Text) returns (t: Text)
    requires s != [] && s[0] == 34 && ParseString(s[1..]) == Parsed(chars, rest)
    ensures s == t + rest && StringSpells(t, chars)
  {
    hide ParseString, CharactersSpell;
    var inner := CharactersAreSpelled(s[1..], chars, rest);
    t := [34] + inner + [34];
    assert t[1..|t| - 1] == inner;
    assert s == [34] + s[1..];
  }

  // ---------- Numbers ----------

  lemma {:induction false} DecimalIsValue(t: Text, n: nat)
    ensures DecimalSpells(t, n) <==>
      t != [] && (forall i :: 0 <= i < |t| ==> IsDigit(t[i])) && DecimalValue(t) == n
  {
    if t == [] {
    } else {
      var m := |t| - 1;
      if m > 0 {
        DecimalIsValue(t[..m], n / 10);
        assert forall i :: 0 <= i < m ==> t[..m][i] == t[i];
        if DecimalSpells(t, n) {
          assert n == 10 * (n / 10) + n % 10;
        }
        if IsDigit(t[m]) && DecimalValue(t) == n && DecimalSpells(t[..m], n / 10) {
          assert n % 10 == t[m] - 48;
        }
        if (forall i :: 0 <= i < |t| ==> IsDigit(t[i])) && DecimalValue(t) == n {
          DigitsCount(t[..m]);
          assert n == 10 * DecimalValue(t[..m]) + (t[m] - 48);
          assert n / 10 == DecimalValue(t[..m]);
        }
      } else {
        assert t[..0] == [];
      }
    }
  }

  lemma {:induction false} DigitsCount(t: Text)
    requires forall i :: 0 <= i < |t| ==> IsDigit(t[i])
    ensures DecimalValue(t) >= 0
  {
    if t == [] {
    } else {
      DigitsCount(t[..|t| - 1]);
    }
  }

  lemma NumberIsRead(t: Text, n: int, rest: Text)
    requires NumberSpells(t, n) && Delimited(rest)
    ensures ParseValue(t + rest) == Parsed(Int(n), rest)
  {
    hide ParseValue, ParseNumber, DigitRun, DecimalValue, DecimalSpells, Delimited;
    var negative := t != [] && t[0] == 45;
    var d := if negative then t[1..] else t;
    DecimalIsValue(d, if negative then -n else n);
    RunOfDigits(d, rest) by { DelimitersAreNoDigits(rest); }
    ParseDigits(d, rest, negative);
    assert t + rest == (if negative then [45] else []) + (d + rest);
    NoKeyword(t + rest);
  }

  lemma {:induction false} RunIsDigits(s: Text)
    ensures forall i :: 0 <= i < DigitRun(s) ==> IsDigit(s[i])
  {
    if s == [] || !IsDigit(s[0]) {
    } else {
      RunIsDigits(s[1..]);
    }
  }

  lemma RunIsDecimal(d: Text)
    requires d != [] && forall i :: 0 <= i < |d| ==> IsDigit(d[i])
    ensures DecimalValue(d) >= 0 && DecimalSpells(d, DecimalValue(d))
  {
    DigitsCount(d);
    DecimalIsValue(d, DecimalValue(d));
  }

  lemma NumberIsSpelled(s: Text, v: Value, rest: Text) returns (t: Text)
    requires ParseNumber(s) == Parsed(v, rest)
    ensures s == t + rest && v.Int? && NumberSpells(t, v.n)
  {
    hide ParseNumber, DecimalValue, DecimalSpells;
    var negative := s != [] && s[0] == 45;
    var d := NumberDigits(s, v, rest);
    RunIsDecimal(d);
    t := if negative then [45] + d else d;
    assert negative ==> t[1..] == d && s == [45] + s[1..];
  }

  lemma NumberDigits(s: Text, v: Value, rest: Text) returns (d: Text)
    requires ParseNumber(s) == Parsed(v, rest)
    ensures var negative := s != [] && s[0] == 45;
      && (if negative then s[1..] else s) == d + rest && d != [] && (d[0] == 48 ==> |d| == 1)
      && (forall i :: 0 <= i < |d| ==> IsDigit(d[i]))
      && v == Int(if negative then -DecimalValue(d) else DecimalValue(d))
  {
    hide DigitRun, DecimalValue, FloatTail;
    var body := if s != [] && s[0] == 45 then s[1..] else s;
    var run := if body != [] && body[0] == 48 then 1 else DigitRun(body);
    RunIsDigits(body);
    d := body[..run];
  }

  // ---------- Values: what is spelled is read ----------

  /** How a spelled value begins: not with white space, and not as what separates or closes. */
  predicate Begins(t: Text) {
    t != [] && !Space(t[0]) && t[0] != 44 && t[0] != 58 && t[0] != 93 && t[0] != 125
  }

  lemma SpelledBegins(t: Text, v: Value)
    requires Spells(t, v)
    ensures Begins(t)
  {
    if v.Int? {
      DigitsBegin(t, v.n);
    }
  }

  lemma DigitsBegin(t: Text, n: int)
    requires NumberSpells(t, n)
    ensures Begins(t)
  {
    hide DecimalSpells, DecimalValue;
    if t == [] || t[0] != 45 {
      DecimalIsValue(t, n);
    }
  }

  /** After the spaces before it a padded value is read up to the spaces behind it. */
  lemma PaddedParts(t: Text, v: Value) returns (before: Text, u: Text, after: Text)
    requires Padded(t, v)
    ensures t == before + u + after && Spaces(before) && Spells(u, v) && Spaces(after) && Begins(u)
    ensures |u| <= |t|
  {
    hide Spells, Spaces;
    var a, b :| 0 <= a <= b <= |t| && Spaces(t[..a]) && Spells(t[a..b], v) && Spaces(t[b..]);
    before, u, after := t[..a], t[a..b], t[b..];
    SpelledBegins(u, v);
  }

  lemma PaddedSkips(t: Text, before: Text, u: Text, after: Text, rest: Text)
    requires t == before + u + after && Spaces(before) && Begins(u)
    ensures SkipWs(t + rest) == u + (after + rest)
  {
    SkipsSpaces(before, u + (after + rest));
    assert t + rest == before + (u + (after + rest));
  }

  /** What closes or separates: no white space, and it may follow a value. */
  predicate Stops(rest: Text) {
    rest == [] || rest[0] == 44 || rest[0] == 93 || rest[0] == 125
  }

  lemma SpacesThenStop(after: Text, rest: Text)
    requires Spaces(after) && Stops(rest)
    ensures Delimited(after + rest) && SkipWs(after + rest) == rest
  {
    SkipsSpaces(after, rest);
  }

  /** A padded value in front of what closes or separates it. */
  lemma PaddedIsRead(t: Text, v: Value, rest: Text) returns (after: Text)
    requires Padded(t, v) && Stops(rest)
    ensures Begins(SkipWs(t + rest)) && Spaces(after)
    ensures ParseValue(SkipWs(t + rest)) == Parsed(v, after + rest) && SkipWs(after + rest) == rest
    decreases |t|, 1
  {
    hide Spells, ParseValue, SkipWs, Delimited, Spaces;
    var before, u, space := PaddedParts(t, v);
    after := space;
    PaddedSkips(t, before, u, after, rest);
    SpacesThenStop(after, rest);
    ValueIsRead(u, v, after + rest);
  }

  lemma {:induction false} ValueIsRead(t: Text, v: Value, rest: Text)
    requires Spells(t, v) && Delimited(rest)
    ensures ParseValue(t + rest) == Parsed(v, rest)
    decreases |t|, 0
  {
    hide ParseValue, NumberSpells, StringSpells, Spaces, ItemsSpell, MembersSpell, HoldsPairs, DistinctNames;
    match v
    case Null => NullIsRead(rest);
    case Bool(b) => ParseEncodedBool(b, rest);
    case Int(n) => NumberIsRead(t, n, rest);
    case Str(s) => StringValueIsRead(t, s, rest);
    case Arr(items) =>
      var inner := t[1..|t| - 1];
      assert t + rest == [91] + (inner + ([93] + rest));
      if items == [] {
        NothingInside(inner, 93, rest);
        EmptyIsRead(inner + ([93] + rest), rest);
      } else {
        ItemsAreRead(inner, items, rest);
        ItemsInside(inner + ([93] + rest), items, rest);
      }
    case Obj(members) =>
      var inner := t[1..|t| - 1];
      assert t + rest == [123] + (inner + ([125] + rest));
      if members == map[] {
        NothingInside(inner, 125, rest);
        EmptyIsRead(inner + ([125] + rest), rest);
      } else {
        var pairs :| pairs != [] && DistinctNames(pairs) && HoldsPairs(members, pairs) && MembersSpell(inner, pairs);
        MembersAreRead(inner, pairs, rest);
        OneObject(members, pairs);
        MembersInside(inner + ([125] + rest), pairs, members, rest);
      }
  }

  lemma NullIsRead(rest: Text)
    ensures ParseValue(Codes("null") + rest) == Parsed(Null, rest)
  {
    var s := Codes("null") + rest;
    assert s[..4] == Codes("null") && s[4..] == rest;
    assert s[0] == Codes("null")[0] == 110;
  }

  lemma StringValueIsRead(t: Text, s: Text, rest: Text)
    requires StringSpells(t, s)
    ensures ParseValue(t + rest) == Parsed(Str(s), rest)
  {
    StringIsRead(t, s, rest);
    hide ParseString, StringSpells;
    assert (t + rest)[0] == t[0];
  }

  lemma NothingInside(inner: Text, close: int, rest: Text)
    requires Spaces(inner) && (close == 93 || close == 125)
    ensures SkipWs(inner + ([close] + rest)) == [close] + rest
  {
    SkipsSpaces(inner, [close] + rest);
  }

  lemma EmptyIsRead(s: Text, rest: Text)
    ensures SkipWs(s) == [93] + rest ==> ParseValue([91] + s) == Parsed(Arr([]), rest)
    ensures SkipWs(s) == [125] + rest ==> ParseValue([123] + s) == Parsed(Obj(map[]), rest)
  {
    hide SkipWs, ParseItems, ParseMembers, ParseString, ParseNumber;
    assert ([91] + s)[1..] == s && ([123] + s)[1..] == s;
    assert ([93] + rest)[1..] == rest && ([125] + rest)[1..] == rest;
  }

  lemma ItemsInside(s: Text, items: seq<Value>, rest: Text)
    requires Begins(SkipWs(s)) && ParseItems(SkipWs(s)) == Parsed(items, rest)
    ensures ParseValue([91] + s) == Parsed(Arr(items), rest)
  {
    hide SkipWs, ParseItems, ParseMembers, ParseString, ParseNumber;
    assert ([91] + s)[1..] == s;
  }

  lemma MembersInside(s: Text, pairs: seq<(Text, Value)>, members: map<Text, Value>, rest: Text)
    requires Begins(SkipWs(s)) && ParseMembers(SkipWs(s)) == Parsed(pairs, rest)
    requires PairsToObject(pairs) == Some(members)
    ensures ParseValue([123] + s) == Parsed(Obj(members), rest)
  {
    hide SkipWs, ParseItems, ParseMembers, ParseString, ParseNumber, PairsToObject;
    assert ([123] + s)[1..] == s;
  }

  /** Pairs that an object holds are built into that object. */
  lemma OneObject(members: map<Text, Value>, pairs: seq<(Text, Value)>)
    requires DistinctNames(pairs) && HoldsPairs(members, pairs)
    ensures PairsToObject(pairs) == Some(members)
  {
    DuplicateKeysRefused(pairs);
    hide DistinctNames, PairsToObject;
    var built := PairsToObject(pairs).value;
    forall k ensures k in built <==> k in members {
    }
    forall k | k in built ensures built[k] == members[k] {
      var i :| 0 <= i < |pairs| && pairs[i].0 == k;
    }
    assert built == members;
  }

  lemma SplitAt(t: Text, k: nat, tail: Text)
    requires k < |t|
    ensures t + tail == t[..k] + ([t[k]] + (t[k + 1..] + tail))
  {
  }

  lemma OneItem(t: Text, items: seq<Value>)
    requires |items| == 1 && ItemsSpell(t, items)
    ensures Padded(t, items[0])
  {
    hide Padded;
  }

  lemma FirstItem(t: Text, items: seq<Value>) returns (k: nat)
    requires |items| > 1 && ItemsSpell(t, items)
    ensures k < |t| && t[k] == 44 && Padded(t[..k], items[0]) && ItemsSpell(t[k + 1..], items[1..])
  {
    hide Padded;
    k :| 0 <= k < |t| && t[k] == 44 && Padded(t[..k], items[0]) && ItemsSpell(t[k + 1..], items[1..]);
  }

  lemma OneMember(t: Text, pairs: seq<(Text, Value)>)
    requires |pairs| == 1 && MembersSpell(t, pairs)
    ensures MemberSpells(t, pairs[0].0, pairs[0].1)
  {
    hide MemberSpells;
  }

  lemma FirstMember(t: Text, pairs: seq<(Text, Value)>) returns (k: nat)
    requires |pairs| > 1 && MembersSpell(t, pairs)
    ensures k < |t| && t[k] == 44
    ensures MemberSpells(t[..k], pairs[0].0, pairs[0].1) && MembersSpell(t[k + 1..], pairs[1..])
  {
    hide MemberSpells;
    k :| 0 <= k < |t| && t[k] == 44
      && MemberSpells(t[..k], pairs[0].0, pairs[0].1) && MembersSpell(t[k + 1..], pairs[1..]);
  }

  lemma {:induction false} ItemsAreRead(t: Text, items: seq<Value>, rest: Text)
    requires items != [] && ItemsSpell(t, items)
    ensures Begins(SkipWs(t + ([93] + rest)))
    ensures ParseItems(SkipWs(t + ([93] + rest))) == Parsed(items, rest)
    decreases |t|, 2
  {
    hide Padded, SkipWs, ParseItems, ParseValue, Begins, Spaces, Delimited, ItemsSpell;
    if |items| == 1 {
      OneItem(t, items);
      var after := PaddedIsRead(t, items[0], [93] + rest);
      LastItemIsRead(SkipWs(t + ([93] + rest)), items[0], after + ([93] + rest), rest);
      assert items == [items[0]];
    } else {
      var k := FirstItem(t, items);
      var next := t[k + 1..] + ([93] + rest);
      var after := PaddedIsRead(t[..k], items[0], [44] + next);
      SplitAt(t, k, [93] + rest);
      ItemsAreRead(t[k + 1..], items[1..], rest);
      NextItemsAreRead(SkipWs(t + ([93] + rest)), items[0], after + ([44] + next), next, items[1..], rest);
      assert items == [items[0]] + items[1..];
    }
  }

  lemma LastItemIsRead(s: Text, v: Value, behind: Text, rest: Text)
    requires ParseValue(s) == Parsed(v, behind) && SkipWs(behind) == [93] + rest
    ensures ParseItems(s) == Parsed([v], rest)
  {
    hide ParseValue, SkipWs;
    assert ([93] + rest)[1..] == rest;
  }

  lemma NextItemsAreRead(s: Text, v: Value, behind: Text, next: Text, vs: seq<Value>, rest: Text)
    requires ParseValue(s) == Parsed(v, behind) && SkipWs(behind) == [44] + next
    requires ParseItems(SkipWs(next)) == Parsed(vs, rest)
    ensures ParseItems(s) == Parsed([v] + vs, rest)
  {
    hide ParseValue, SkipWs;
    assert ([44] + next)[1..] == next;
  }

  lemma {:induction false} MembersAreRead(t: Text, pairs: seq<(Text, Value)>, rest: Text)
    requires pairs != [] && MembersSpell(t, pairs)
    ensures Begins(SkipWs(t + ([125] + rest)))
    ensures ParseMembers(SkipWs(t + ([125] + rest))) == Parsed(pairs, rest)
    decreases |t|, 3
  {
    hide MemberSpells, SkipWs, ParseMembers, CutsMember, Begins, MembersSpell;
    if |pairs| == 1 {
      OneMember(t, pairs);
      var m := MemberIsRead(t, pairs[0].0, pairs[0].1, [125] + rest);
      LastMemberIsRead(SkipWs(t + ([125] + rest)), m, pairs[0].0, pairs[0].1, rest);
      assert pairs == [pairs[0]] && pairs[0] == (pairs[0].0, pairs[0].1);
    } else {
      var k := FirstMember(t, pairs);
      var next := t[k + 1..] + ([125] + rest);
      var m := MemberIsRead(t[..k], pairs[0].0, pairs[0].1, [44] + next);
      SplitAt(t, k, [125] + rest);
      MembersAreRead(t[k + 1..], pairs[1..], rest);
      NextMembersAreRead(SkipWs(t + ([125] + rest)), m, pairs[0].0, pairs[0].1, next, pairs[1..], rest);
      assert pairs == [pairs[0]] + pairs[1..] && pairs[0] == (pairs[0].0, pairs[0].1);
    }
  }

  /** How a member is taken apart: the key, the colon, and the value with the spaces behind it. */
  datatype Cut = Cut(afterKey: Text, afterColon: Text, behind: Text)

  predicate CutsMember(s: Text, m: Cut, key: Text, v: Value, rest: Text) {
    && s != [] && s[0] == 34 && ParseString(s[1..]) == Parsed(key, m.afterKey)
    && SkipWs(m.afterKey) == [58] + m.afterColon
    && ParseValue(SkipWs(m.afterColon)) == Parsed(v, m.behind) && SkipWs(m.behind) == rest
  }

  lemma MemberIsRead(t: Text, key: Text, v: Value, rest: Text) returns (m: Cut)
    requires MemberSpells(t, key, v) && Stops(rest)
    ensures Begins(SkipWs(t + rest)) && CutsMember(SkipWs(t + rest), m, key, v, rest)
    decreases |t|, 2
  {
    hide Spells, SkipWs, ParseValue, ParseString, Spaces, Padded, Begins;
    var k :| 0 <= k < |t| && t[k] == 58 && Padded(t[..k], Str(key)) && Padded(t[k + 1..], v);
    var behind := PaddedIsRead(t[k + 1..], v, rest);
    var colon := [58] + (t[k + 1..] + rest);
    var before, u, after := PaddedParts(t[..k], Str(key));
    assert t + rest == t[..k] + colon;
    PaddedSkips(t[..k], before, u, after, colon);
    KeyIsRead(u, key, after + colon);
    SpacesThenColon(after, t[k + 1..] + rest);
    BeginsStays(u, after + colon);
    m := Cut(after + colon, t[k + 1..] + rest, behind + rest);
  }

  lemma BeginsStays(u: Text, more: Text)
    requires Begins(u)
    ensures Begins(u + more)
  {
  }

  lemma SpacesThenColon(after: Text, more: Text)
    requires Spaces(after)
    ensures SkipWs(after + ([58] + more)) == [58] + more
  {
    SkipsSpaces(after, [58] + more);
  }

  lemma KeyIsRead(u: Text, key: Text, rest: Text)
    requires Spells(u, Str(key))
    ensures u != [] && (u + rest)[0] == 34 && ParseString((u + rest)[1..]) == Parsed(key, rest)
  {
    StringIsRead(u, key, rest);
    hide ParseString;
  }

  lemma LastMemberIsRead(s: Text, m: Cut, key: Text, v: Value, rest: Text)
    requires CutsMember(s, m, key, v, [125] + rest)
    ensures ParseMembers(s) == Parsed([(key, v)], rest)
  {
    hide ParseValue, SkipWs, ParseString;
    assert ([58] + m.afterColon)[1..] == m.afterColon && ([125] + rest)[1..] == rest;
  }

  lemma NextMembersAreRead(s: Text, m: Cut, key: Text, v: Value, next: Text, more: seq<(Text, Value)>, rest: Text)
    requires CutsMember(s, m, key, v, [44] + next) && ParseMembers(SkipWs(next)) == Parsed(more, rest)
    ensures ParseMembers(s) == Parsed([(key, v)] + more, rest)
  {
    hide ParseValue, SkipWs, ParseString;
    assert ([58] + m.afterColon)[1..] == m.afterColon && ([44] + next)[1..] == next;
  }

  // ---------- Values: what is read is spelled ----------

  lemma SpelledIsPadded(before: Text, u: Text, after: Text, v: Value)
    requires Spaces(before) && Spells(u, v) && Spaces(after)
    ensures Padded(before + u + after, v)
  {
    hide Spells, Spaces;
    var t := before + u + after;
    var a, b := |before|, |before| + |u|;
    assert t[..a] == before && t[a..b] == u && t[b..] == after;
  }

  lemma PaddedBefore(w: Text, t: Text, v: Value)
    requires Spaces(w) && Padded(t, v)
    ensures Padded(w + t, v)
  {
    hide Padded, Spells;
    var before, u, after := PaddedParts(t, v);
    SpelledIsPadded(w + before, u, after, v);
    assert (w + before) + u + after == w + t;
  }

  lemma ItemsBefore(w: Text, t: Text, items: seq<Value>)
    requires items != [] && Spaces(w) && ItemsSpell(t, items)
    ensures ItemsSpell(w + t, items)
  {
    hide Padded, Spaces;
    if |items| == 1 {
      PaddedBefore(w, t, items[0]);
    } else {
      var k := FirstItem(t, items);
      PaddedBefore(w, t[..k], items[0]);
      ItemsCons(w + t[..k], items[0], t[k + 1..], items[1..]);
      assert w + t == w + t[..k] + [44] + t[k + 1..] && items == [items[0]] + items[1..];
    }
  }

  lemma ItemsCons(a: Text, v: Value, t: Text, vs: seq<Value>)
    requires vs != [] && Padded(a, v) && ItemsSpell(t, vs)
    ensures ItemsSpell(a + [44] + t, [v] + vs)
  {
    hide Padded;
    var all, items := a + [44] + t, [v] + vs;
    assert all[|a|] == 44 && all[..|a|] == a && all[|a| + 1..] == t && items[1..] == vs;
  }

  lemma MembersBefore(w: Text, t: Text, pairs: seq<(Text, Value)>)
    requires pairs != [] && Spaces(w) && MembersSpell(t, pairs)
    ensures MembersSpell(w + t, pairs)
  {
    hide MemberSpells, Spaces;
    if |pairs| == 1 {
      MemberBefore(w, t, pairs[0].0, pairs[0].1);
    } else {
      var k := FirstMember(t, pairs);
      MemberBefore(w, t[..k], pairs[0].0, pairs[0].1);
      MembersCons(w + t[..k], pairs[0], t[k + 1..], pairs[1..]);
      assert w + t == w + t[..k] + [44] + t[k + 1..] && pairs == [pairs[0]] + pairs[1..];
    }
  }

  lemma MemberBefore(w: Text, t: Text, key: Text, v: Value)
    requires Spaces(w) && MemberSpells(t, key, v)
    ensures MemberSpells(w + t, key, v)
  {
    hide Padded, Spaces;
    var k :| 0 <= k < |t| && t[k] == 58 && Padded(t[..k], Str(key)) && Padded(t[k + 1..], v);
    PaddedBefore(w, t[..k], Str(key));
    MemberFrom(w + t[..k], key, t[k + 1..], v);
    assert w + t == w + t[..k] + [58] + t[k + 1..];
  }

  lemma MemberFrom(a: Text, key: Text, b: Text, v: Value)
    requires Padded(a, Str(key)) && Padded(b, v)
    ensures MemberSpells(a + [58] + b, key, v)
  {
    hide Padded;
    var all := a + [58] + b;
    assert all[|a|] == 58 && all[..|a|] == a && all[|a| + 1..] == b;
  }

  lemma MembersCons(a: Text, p: (Text, Value), t: Text, more: seq<(Text, Value)>)
    requires more != [] && MemberSpells(a, p.0, p.1) && MembersSpell(t, more)
    ensures MembersSpell(a + [44] + t, [p] + more)
  {
    hide MemberSpells;
    var all, pairs := a + [44] + t, [p] + more;
    assert all[|a|] == 44 && all[..|a|] == a && all[|a| + 1..] == t && pairs[1..] == more;
  }

  lemma {:induction false} ValueIsSpelled(s: Text, v: Value, rest: Text) returns (t: Text)
    requires ParseValue(s) == Parsed(v, rest)
    ensures s == t + rest && Spells(t, v)
    decreases |s|, 1
  {
    hide ParseString, ParseNumber, ParseItems, ParseMembers, SkipWs, PairsToObject, StringSpells,
      NumberSpells, Spaces, ItemsSpell, MembersSpell, Starts;
    if s[0] == 34 {
      t := StringIsSpelled(s, v.s, rest);
    } else if s[0] == 123 {
      t := ObjectIsSpelled(s, v, rest);
    } else if s[0] == 91 {
      t := ArrayIsSpelled(s, v, rest);
    } else if StartsWith(s, Codes("null")) {
      t := Codes("null");
    } else if StartsWith(s, Codes("true")) {
      t := Codes("true");
    } else if StartsWith(s, Codes("false")) {
      t := Codes("false");
    } else {
      t := NumberIsSpelled(s, v, rest);
    }
  }

  lemma {:induction false} ArrayIsSpelled(s: Text, v: Value, rest: Text) returns (t: Text)
    requires s != [] && s[0] == 91 && ParseValue(s) == Parsed(v, rest)
    ensures s == t + rest && Spells(t, v)
    decreases |s|, 0
  {
    hide ParseItems, SkipWs, Spaces, ItemsSpell, Starts;
    var w := Skipped(s[1..]);
    var u := SkipWs(s[1..]);
    if u != [] && u[0] == 93 {
      t := [91] + w + [93];
      assert t[1..|t| - 1] == w;
      assert s == [91] + s[1..] && u == [93] + rest;
    } else {
      assert v.Arr? && ParseItems(u) == Parsed(v.items, rest);
      var inner := ItemsAreSpelled(u, v.items, rest);
      ItemsBefore(w, inner, v.items);
      t := [91] + (w + inner) + [93];
      assert t[1..|t| - 1] == w + inner;
      assert s == [91] + s[1..];
    }
  }

  lemma {:induction false} ObjectIsSpelled(s: Text, v: Value, rest: Text) returns (t: Text)
    requires s != [] && s[0] == 123 && ParseValue(s) == Parsed(v, rest)
    ensures s == t + rest && Spells(t, v)
    decreases |s|, 0
  {
    hide ParseMembers, SkipWs, PairsToObject, Spaces, MembersSpell, Starts, DistinctNames, HoldsPairs;
    var w := Skipped(s[1..]);
    var u := SkipWs(s[1..]);
    if u != [] && u[0] == 125 {
      t := [123] + w + [125];
      assert t[1..|t| - 1] == w;
      assert s == [123] + s[1..] && u == [125] + rest;
    } else {
      var pairs := ParseMembers(u).value;
      assert ParseMembers(u) == Parsed(pairs, rest) && PairsToObject(pairs) == Some(v.members);
      DuplicateKeysRefused(pairs);
      var inner := MembersAreSpelled(u, pairs, rest);
      SomePairIsHeld(v.members, pairs);
      MembersBefore(w, inner, pairs);
      t := [123] + (w + inner) + [125];
      assert t[1..|t| - 1] == w + inner;
      assert s == [123] + s[1..];
    }
  }

  lemma SomePairIsHeld(members: map<Text, Value>, pairs: seq<(Text, Value)>)
    requires pairs != [] && HoldsPairs(members, pairs)
    ensures members != map[]
  {
    assert pairs[0].0 in members;
  }

  /** What was read up to its closing or separating character, white space skipped. */
  lemma PaddedIsSpelled(s: Text, v: Value, behind: Text, rest: Text) returns (a: Text)
    requires ParseValue(s) == Parsed(v, behind) && SkipWs(behind) == rest
    ensures s == a + rest && Padded(a, v)
    decreases |s|, 2
  {
    hide ParseValue, SkipWs, Spells, Spaces;
    var u := ValueIsSpelled(s, v, behind);
    var after := Skipped(behind);
    EmptyIsSpaces();
    SpelledIsPadded([], u, after, v);
    a := [] + u + after;
    assert s == a + rest;
  }

  lemma EmptyIsSpaces()
    ensures Spaces([])
  {
  }

  lemma LastItemSpelled(a: Text, v: Value)
    requires Padded(a, v)
    ensures ItemsSpell(a, [v])
  {
    hide Padded;
  }

  lemma {:induction false} ItemsAreSpelled(s: Text, vs: seq<Value>, rest: Text) returns (t: Text)
    requires ParseItems(s) == Parsed(vs, rest)
    ensures vs != [] && s == t + ([93] + rest) && ItemsSpell(t, vs)
    decreases |s|, 3
  {
    hide ParseValue, SkipWs, Padded, Spaces, ItemsSpell, Starts;
    var v, behind := ParseValue(s).value, ParseValue(s).rest;
    assert vs[0] == v;
    var stop := SkipWs(behind);
    var a := PaddedIsSpelled(s, v, behind, stop);
    if stop[0] == 93 {
      LastItemSpelled(a, v);
      t := a;
      assert stop == [93] + rest && vs == [v];
    } else {
      var w := Skipped(stop[1..]);
      var more := ItemsAreSpelled(SkipWs(stop[1..]), vs[1..], rest);
      ItemsBefore(w, more, vs[1..]);
      ItemsCons(a, v, w + more, vs[1..]);
      t := a + [44] + (w + more);
      assert stop == [44] + stop[1..] && vs == [v] + vs[1..];
      assert s == t + ([93] + rest);
    }
  }

  lemma {:induction false} MembersAreSpelled(s: Text, pairs: seq<(Text, Value)>, rest: Text)
    returns (t: Text)
    requires ParseMembers(s) == Parsed(pairs, rest)
    ensures pairs != [] && s == t + ([125] + rest) && MembersSpell(t, pairs)
    decreases |s|, 4
  {
    hide ParseValue, ParseString, SkipWs, MemberSpells, Spaces;
    var m := MemberIsCut(s, pairs, rest);
    var key, v := pairs[0].0, pairs[0].1;
    var stop := SkipWs(m.behind);
    var a := MemberIsSpelled(s, m, key, v, stop);
    if stop[0] == 125 {
      t := a;
      assert stop == [125] + rest;
    } else {
      var w := Skipped(stop[1..]);
      var more := MembersAreSpelled(SkipWs(stop[1..]), pairs[1..], rest);
      MembersBefore(w, more, pairs[1..]);
      MembersCons(a, pairs[0], w + more, pairs[1..]);
      t := a + [44] + (w + more);
      assert stop == [44] + stop[1..] && pairs == [pairs[0]] + pairs[1..];
      assert s == t + ([125] + rest);
    }
  }

  lemma MemberIsCut(s: Text, pairs: seq<(Text, Value)>, rest: Text) returns (m: Cut)
    requires ParseMembers(s) == Parsed(pairs, rest)
    ensures pairs != [] && CutsMember(s, m, pairs[0].0, pairs[0].1, SkipWs(m.behind))
    ensures var stop := SkipWs(m.behind);
      && stop != [] && (stop[0] == 125 || stop[0] == 44)
      && (stop[0] == 125 ==> |pairs| == 1 && rest == stop[1..])
      && (stop[0] == 44 ==> |pairs| > 1 && ParseMembers(SkipWs(stop[1..])) == Parsed(pairs[1..], rest))
    ensures |SkipWs(m.afterColon)| < |s| && |m.behind| < |s|
  {
    hide ParseValue, ParseString, SkipWs;
    var key := ParseString(s[1..]);
    var colon := SkipWs(key.rest);
    m := Cut(key.rest, colon[1..], ParseValue(SkipWs(colon[1..])).rest);
    assert colon == [58] + colon[1..];
  }

  lemma MemberIsSpelled(s: Text, m: Cut, key: Text, v: Value, rest: Text) returns (a: Text)
    requires CutsMember(s, m, key, v, rest)
    requires |SkipWs(m.afterColon)| < |s|
    ensures s == a + rest && MemberSpells(a, key, v)
    decreases |s|, 3
  {
    hide ParseValue, ParseString, SkipWs, Padded, Spaces, StringSpells;
    var k := StringIsSpelled(s, key, m.afterKey);
    var afterKey := Skipped(m.afterKey);
    EmptyIsSpaces();
    SpelledIsPadded([], k, afterKey, Str(key));
    var w := Skipped(m.afterColon);
    var b := PaddedIsSpelled(SkipWs(m.afterColon), v, m.behind, rest);
    PaddedBefore(w, b, v);
    MemberFrom([] + k + afterKey, key, w + b, v);
    a := ([] + k + afterKey) + [58] + (w + b);
    assert s == a + rest;
  }

  // ---------- Strict parsing ----------

  /**
   The strict parser accepts a text as a value exactly when the text spells that value, with no
   repeated key and any white space, and the value is one the data model allows.
   */
  lemma StrictParseExactly(nfc: Text -> bool, source: Text, v: Value)
    ensures StrictParse(nfc, source) == Ok(v) <==> Padded(source, v) && Valid(nfc, v)
  {
    hide ParseValue, SkipWs, Padded, Valid, Spells, Spaces, Starts;
    if Padded(source, v) {
      PaddedIsParsed(source, v);
      if Valid(nfc, v) {
      }
    }
    if StrictParse(nfc, source) == Ok(v) {
      var w := Skipped(source);
      var rest := ParseValue(SkipWs(source)).rest;
      var a := PaddedIsSpelled(SkipWs(source), v, rest, []);
      PaddedBefore(w, a, v);
      assert source == w + a;
    }
  }

  lemma PaddedIsParsed(source: Text, v: Value)
    requires Padded(source, v)
    ensures (source == [] || source[0] != 0xFEFF)
    ensures var p := ParseValue(SkipWs(source)); p.Parsed? && p.value == v && SkipWs(p.rest) == []
  {
    hide ParseValue, SkipWs, Spells;
    var after := PaddedIsRead(source, v, []);
    assert source + [] == source && after + [] == after;
    NoMark(source, v);
  }

  /** A byte order mark is neither white space nor the beginning of a value. */
  lemma NoMark(source: Text, v: Value)
    requires Padded(source, v)
    ensures source == [] || source[0] != 0xFEFF
  {
    var before, u, after := PaddedParts(source, v);
    MarkBeginsNothing(u, v);
    hide Spells;
    assert source[0] == if before == [] then u[0] else before[0];
  }

  lemma MarkBeginsNothing(u: Text, v: Value)
    requires Spells(u, v)
    ensures u != [] && u[0] != 0xFEFF
  {
    hide DecimalSpells;
    if v.Int? {
      DecimalIsValue(if u != [] && u[0] == 45 then u[1..] else u, if v.n < 0 then -v.n else v.n);
      hide DecimalValue;
    }
  }

  /** A text that spells a value outside the data model is refused for that. */
  lemma OutsideTheModel(nfc: Text -> bool, source: Text, v: Value)
    requires Padded(source, v) && !Valid(nfc, v)
    ensures StrictParse(nfc, source) == Err(InvalidValue)
  {
    hide ParseValue, SkipWs, Padded, Valid;
    PaddedIsParsed(source, v);
  }

  /** A text spells at most one value of the data model. */
  lemma SpellsOneValue(nfc: Text -> bool, source: Text, v: Value, w: Value)
    requires Padded(source, v) && Padded(source, w)
    ensures v == w
  {
    hide ParseValue, SkipWs, Padded;
    PaddedIsParsed(source, v);
    PaddedIsParsed(source, w);
  }

  predicate NoSurrogates(s: Text) {
    forall i :: 0 <= i < |s| ==> !(0xD800 <= s[i] <= 0xDFFF)
  }

  /** What the data model allows: integers that a double holds exactly, and texts without surrogates in NFC. */
  lemma ModelLimits(nfc: Text -> bool, n: int, s: Text)
    ensures Valid(nfc, Int(n)) <==> -0x20_0000_0000_0000 < n < 0x20_0000_0000_0000
    ensures (forall i :: 0 <= i < |s| ==> 0 <= s[i] <= 0x7F) ==> Valid(nfc, Str(s))
    ensures (exists i :: 0 <= i < |s| && s[i] > 0x7F) ==>
      (Valid(nfc, Str(s)) <==>
       NoSurrogates(s) && nfc(s) && forall i :: 0 <= i < |s| ==> 0 <= s[i] <= 0x10_FFFF)
    ensures !Valid(nfc, Null)
  {
  }
}
