/**
 Why the strict parser refuses a text: the first thing wrong in it, said in terms of the grammar,
 and the proof that exactly this is reported.
 */
module JsonRefusals {
  import opened Wrappers
  import opened Sorting
  import opened CanonicalJson
  import opened CanonicalRoundTrip
  import opened JsonGrammar

  // ---------- What can be wrong ----------

  predicate OneOfThem(c: Code) {
    c == NonJsonNumber || c == FloatNotAllowed || c == DuplicateKey
  }

  /** A fraction with a digit, or an exponent with a digit and perhaps a sign. */
  predicate FractionOrExponent(t: Text) {
    || (|t| >= 2 && t[0] == '.' as int && 48 <= t[1] <= 57)
    || (|t| >= 2 && (t[0] == 'e' as int || t[0] == 'E' as int) && 48 <= t[1] <= 57)
    || (|t| >= 3 && (t[0] == 'e' as int || t[0] == 'E' as int) && (t[1] == '+' as int || t[1] == '-' as int)
        && 48 <= t[2] <= 57)
  }

  /** Items, each with the comma behind it, and white space. */
  ghost predicate ItemsLead(u: Text)
    decreases |u|
  {
    || Spaces(u)
    || exists k, v :: 0 <= k < |u| && u[k] == 44 && Padded(u[..k], v) && ItemsLead(u[k + 1..])
  }

  /** A key with the colon behind it, and white space. */
  ghost predicate KeyLeads(u: Text) {
    exists k, key :: 0 <= k < |u| && u[k] == 58 && Padded(u[..k], Str(key)) && Spaces(u[k + 1..])
  }

  /** Members, each with the comma behind it, and the beginning of one more. */
  ghost predicate MembersLead(u: Text)
    decreases |u|
  {
    || KeyLeads(u)
    || exists k, key, v :: 0 <= k < |u| && u[k] == 44 && MemberSpells(u[..k], key, v) && MembersLead(u[k + 1..])
  }

  /** A whole object that repeats a key. */
  ghost predicate RepeatsKey(t: Text) {
    exists pairs :: |t| >= 2 && t[0] == 123 && t[|t| - 1] == 125
      && pairs != [] && !DistinctNames(pairs) && MembersSpell(t[1..|t| - 1], pairs)
  }

  ghost predicate FloatAt(t: Text, k: nat) {
    k <= |t| && FractionOrExponent(t[k..]) && exists n :: NumberSpells(t[..k], n)
  }

  /** From here on, where a value is due, this is the first thing wrong. */
  ghost predicate Wrong(t: Text, c: Code)
    decreases |t|
  {
    || (c == NonJsonNumber && (Codes("NaN") <= t || Codes("Infinity") <= t || Codes("-Infinity") <= t))
    || (c == FloatNotAllowed && exists k :: FloatAt(t, k))
    || (c == DuplicateKey && exists k :: 0 <= k <= |t| && RepeatsKey(t[..k]))
    || (exists k :: 1 <= k <= |t| && Opens(t[..k]) && Wrong(t[k..], c))
  }

  /** What may stand before a value within an array or an object. */
  ghost predicate Opens(u: Text) {
    u != [] && ((u[0] == 91 && ItemsLead(u[1..])) || (u[0] == 123 && MembersLead(u[1..])))
  }

  // ---------- What is wrong is reported ----------

  lemma ItemsFail(u: Text, t: Text, c: Code)
    requires ItemsLead(u) && Begins(t) && ParseValue(t) == Failed(c)
    ensures Begins(SkipWs(u + t)) && ParseItems(SkipWs(u + t)) == Failed(c)
    decreases |u|
  {
    hide ParseValue, SkipWs, Padded, Begins, Spaces, ParseItems;
    if Spaces(u) {
      SkipsTo(u, t);
      FirstItemFails(t, c);
    } else {
      var k, v :| 0 <= k < |u| && u[k] == 44 && Padded(u[..k], v) && ItemsLead(u[k + 1..]);
      ItemsFail(u[k + 1..], t, c);
      var next := u[k + 1..] + t;
      var after := PaddedIsRead(u[..k], v, [44] + next);
      SplitAt(u, k, t);
      LaterItemFails(SkipWs(u + t), v, after + ([44] + next), next, c);
    }
  }

  lemma SkipsTo(u: Text, t: Text)
    requires Spaces(u) && Begins(t)
    ensures SkipWs(u + t) == t
  {
    SkipsSpaces(u, t);
  }

  lemma FirstItemFails(t: Text, c: Code)
    requires ParseValue(t) == Failed(c)
    ensures ParseItems(t) == Failed(c)
  {
    hide ParseValue;
  }

  lemma LaterItemFails(s: Text, v: Value, behind: Text, next: Text, c: Code)
    requires ParseValue(s) == Parsed(v, behind) && SkipWs(behind) == [44] + next
    requires ParseItems(SkipWs(next)) == Failed(c)
    ensures ParseItems(s) == Failed(c)
  {
    hide ParseValue, SkipWs;
    assert ([44] + next)[1..] == next;
  }

  lemma MembersFail(u: Text, t: Text, c: Code)
    requires MembersLead(u) && Begins(t) && ParseValue(t) == Failed(c)
    ensures Begins(SkipWs(u + t)) && ParseMembers(SkipWs(u + t)) == Failed(c)
    decreases |u|
  {
    hide ParseValue, SkipWs, Padded, MemberSpells, Begins, Spaces, ParseMembers, KeyLeads, CutsMember;
    if KeyLeads(u) {
      ValueFails(u, t, c);
    } else {
      var k, key, v :| 0 <= k < |u| && u[k] == 44 && MemberSpells(u[..k], key, v) && MembersLead(u[k + 1..]);
      MembersFail(u[k + 1..], t, c);
      var next := u[k + 1..] + t;
      var m := MemberIsRead(u[..k], key, v, [44] + next);
      SplitAt(u, k, t);
      LaterMemberFails(SkipWs(u + t), m, key, v, next, c);
    }
  }

  lemma LaterMemberFails(s: Text, m: Cut, key: Text, v: Value, next: Text, c: Code)
    requires CutsMember(s, m, key, v, [44] + next) && ParseMembers(SkipWs(next)) == Failed(c)
    ensures ParseMembers(s) == Failed(c)
  {
    hide ParseValue, SkipWs, ParseString;
    assert ([58] + m.afterColon)[1..] == m.afterColon && ([44] + next)[1..] == next;
  }

  lemma ValueFails(u: Text, t: Text, c: Code)
    requires KeyLeads(u) && Begins(t) && ParseValue(t) == Failed(c)
    ensures Begins(SkipWs(u + t)) && ParseMembers(SkipWs(u + t)) == Failed(c)
  {
    hide ParseValue, SkipWs, Padded, Begins, Spaces, ParseMembers, Spells, ParseString;
    var k, key :| 0 <= k < |u| && u[k] == 58 && Padded(u[..k], Str(key)) && Spaces(u[k + 1..]);
    var behind := u[k + 1..] + t;
    var before, q, after := PaddedParts(u[..k], Str(key));
    var colon := [58] + behind;
    assert u + t == u[..k] + colon;
    PaddedSkips(u[..k], before, q, after, colon);
    KeyIsRead(q, key, after + colon);
    SpacesThenColon(after, behind);
    SkipsTo(u[k + 1..], t);
    BeginsStays(q, after + colon);
    ValueFailsAfter(q + (after + colon), key, after + colon, behind, t, c);
  }

  lemma ValueFailsAfter(s: Text, key: Text, afterKey: Text, behind: Text, t: Text, c: Code)
    requires s != [] && s[0] == 34 && ParseString(s[1..]) == Parsed(key, afterKey)
    requires SkipWs(afterKey) == [58] + behind && SkipWs(behind) == t && ParseValue(t) == Failed(c)
    ensures ParseMembers(s) == Failed(c)
  {
    hide ParseValue, SkipWs, ParseString;
    assert ([58] + behind)[1..] == behind;
  }

  lemma {:induction false} WrongIsReported(t: Text, c: Code)
    requires Wrong(t, c)
    ensures Begins(t) && t[0] != 0xFEFF && ParseValue(t) == Failed(c)
    decreases |t|
  {
    hide ParseValue, Opens, RepeatsKey, FloatAt, Begins;
    if c == NonJsonNumber && (Codes("NaN") <= t || Codes("Infinity") <= t || Codes("-Infinity") <= t) {
      ConstantFails(t);
    } else if k :| c == FloatNotAllowed && FloatAt(t, k) {
      FloatFails(t, k);
    } else if k :| c == DuplicateKey && 0 <= k <= |t| && RepeatsKey(t[..k]) {
      RepeatFails(t[..k], t[k..]);
      assert t == t[..k] + t[k..];
    } else {
      var k :| 1 <= k <= |t| && Opens(t[..k]) && Wrong(t[k..], c);
      WrongIsReported(t[k..], c);
      InsideFails(t[..k], t[k..], c);
      assert t == t[..k] + t[k..];
    }
  }

  lemma InsideFails(u: Text, t: Text, c: Code)
    requires Opens(u) && Begins(t) && ParseValue(t) == Failed(c)
    ensures Begins(u + t) && (u + t)[0] != 0xFEFF && ParseValue(u + t) == Failed(c)
  {
    hide ParseValue, ItemsLead, MembersLead, ParseItems, ParseMembers, SkipWs;
    var inner := u[1..] + t;
    assert u + t == [u[0]] + inner;
    if u[0] == 91 {
      ItemsFail(u[1..], t, c);
      ArrayFails(inner, c);
    } else {
      MembersFail(u[1..], t, c);
      ObjectFails(inner, c);
    }
  }

  lemma ArrayFails(s: Text, c: Code)
    requires Begins(SkipWs(s)) && ParseItems(SkipWs(s)) == Failed(c)
    ensures ParseValue([91] + s) == Failed(c)
  {
    hide SkipWs, ParseItems, ParseMembers, ParseString, ParseNumber;
    assert ([91] + s)[1..] == s;
  }

  lemma ObjectFails(s: Text, c: Code)
    requires Begins(SkipWs(s)) && ParseMembers(SkipWs(s)) == Failed(c)
    ensures ParseValue([123] + s) == Failed(c)
  {
    hide SkipWs, ParseItems, ParseMembers, ParseString, ParseNumber;
    assert ([123] + s)[1..] == s;
  }

  lemma ConstantFails(t: Text)
    requires Codes("NaN") <= t || Codes("Infinity") <= t || Codes("-Infinity") <= t
    ensures Begins(t) && t[0] != 0xFEFF && ParseValue(t) == Failed(NonJsonNumber)
  {
    hide SkipWs, ParseItems, ParseMembers, ParseString, ParseNumber;
    assert Codes("NaN")[0] == 78 && Codes("Infinity")[0] == 73 && Codes("-Infinity")[0] == 45;
    assert Codes("null")[0] == 110 && Codes("true")[0] == 116 && Codes("false")[0] == 102;
  }

  lemma RepeatFails(t: Text, rest: Text)
    requires RepeatsKey(t)
    ensures t != [] && Begins(t + rest) && (t + rest)[0] != 0xFEFF && ParseValue(t + rest) == Failed(DuplicateKey)
  {
    hide MembersSpell, ParseMembers, SkipWs, ParseValue, DistinctNames, PairsToObject;
    var inner := t[1..|t| - 1];
    var pairs :| pairs != [] && !DistinctNames(pairs) && MembersSpell(inner, pairs);
    MembersAreRead(inner, pairs, rest);
    DuplicateKeysRefused(pairs);
    RepeatInside(inner + ([125] + rest), pairs, rest);
    assert t + rest == [123] + (inner + ([125] + rest));
  }

  lemma RepeatInside(s: Text, pairs: seq<(Text, Value)>, rest: Text)
    requires Begins(SkipWs(s)) && ParseMembers(SkipWs(s)) == Parsed(pairs, rest) && PairsToObject(pairs) == None
    ensures ParseValue([123] + s) == Failed(DuplicateKey)
  {
    hide SkipWs, ParseItems, ParseMembers, ParseString, ParseNumber, PairsToObject;
    assert ([123] + s)[1..] == s;
  }

  lemma FloatFails(t: Text, k: nat)
    requires FloatAt(t, k)
    ensures Begins(t) && t[0] != 0xFEFF && ParseValue(t) == Failed(FloatNotAllowed)
  {
    hide ParseValue, ParseNumber, DecimalSpells, DecimalValue, DigitRun;
    var u, rest := t[..k], t[k..];
    var n :| NumberSpells(u, n);
    var negative := u != [] && u[0] == 45;
    var d := if negative then u[1..] else u;
    DecimalIsValue(d, if negative then -n else n);
    assert t == u + rest;
    RunOfDigits(d, rest);
    FloatNumber(t, d, rest, negative);
    NoKeyword(t);
  }

  lemma FloatNumber(t: Text, d: Text, rest: Text, negative: bool)
    requires t == (if negative then [45] else []) + (d + rest)
    requires d != [] && (forall i :: 0 <= i < |d| ==> IsDigit(d[i])) && (d[0] == 48 ==> |d| == 1)
    requires DigitRun(d + rest) == |d| && FractionOrExponent(rest)
    ensures ParseNumber(t) == Failed(FloatNotAllowed)
  {
    hide DigitRun, DecimalValue;
    var body := d + rest;
    assert negative ==> t[1..] == body;
    assert !negative ==> t == body;
    assert body[|d|..] == rest;
  }

  // ---------- What is reported is wrong ----------

  lemma {:induction false} EscapesAndStrings(s: Text)
    ensures ParseString(s).Failed? ==> ParseString(s).code == InvalidJson
    decreases |s|
  {
    if s == [] || s[0] == 34 {
    } else if s[0] == 92 {
      hide ParseHex4;
      var e := ParseEscape(s[1..]);
      if e.Parsed? {
        EscapesAndStrings(e.rest);
      }
    } else {
      EscapesAndStrings(s[1..]);
    }
  }

  lemma {:induction false} ReportedIsWrong(s: Text, c: Code)
    requires ParseValue(s) == Failed(c) && c != InvalidJson
    ensures OneOfThem(c) && Wrong(s, c)
    decreases |s|, 1
  {
    hide ParseString, ParseNumber, ParseItems, ParseMembers, SkipWs, PairsToObject, Wrong;
    assert s != [];
    if s[0] == 34 {
      EscapesAndStrings(s[1..]);
    } else if s[0] == 123 {
      ObjectIsWrong(s, c);
    } else if s[0] == 91 {
      var w := Skipped(s[1..]);
      var u := ItemsAreWrong(SkipWs(s[1..]), c);
      ItemsLeadBefore(w, u);
      OpenedIsWrong(s, [91] + (w + u), SkipWs(s[1..])[|u|..], c);
    } else if Codes("NaN") <= s || Codes("Infinity") <= s || Codes("-Infinity") <= s {
      ConstantIsWrong(s);
    } else {
      FloatIsWrong(s, c);
    }
  }

  lemma ConstantIsWrong(s: Text)
    requires Codes("NaN") <= s || Codes("Infinity") <= s || Codes("-Infinity") <= s
    ensures Wrong(s, NonJsonNumber)
  {
  }

  lemma OpenedIsWrong(s: Text, u: Text, t: Text, c: Code)
    requires s == u + t && Opens(u) && Wrong(t, c)
    ensures Wrong(s, c)
  {
    hide Opens;
    assert u == s[..|u|] && t == s[|u|..];
  }

  lemma FloatIsWrong(s: Text, c: Code)
    requires ParseNumber(s) == Failed(c) && c != InvalidJson
    ensures c == FloatNotAllowed && Wrong(s, c)
  {
    hide ParseNumber, DecimalValue, UnsignedSpells, FractionOrExponent;
    var negative := s != [] && s[0] == 45;
    var d, rest := FloatDigits(s, c);
    RunIsDecimal(d);
    var t := (if negative then [45] else []) + d;
    assert s == t + rest;
    SpelledUnsigned(d);
    NumberSigned(t, d, negative);
    FloatIsThere(s, t, rest);
  }

  lemma FloatDigits(s: Text, c: Code) returns (d: Text, rest: Text)
    requires ParseNumber(s) == Failed(c) && c != InvalidJson
    ensures c == FloatNotAllowed && FractionOrExponent(rest)
    ensures s == (if s != [] && s[0] == 45 then [45] else []) + (d + rest)
    ensures d != [] && (d[0] == 48 ==> |d| == 1) && forall i :: 0 <= i < |d| ==> IsDigit(d[i])
  {
    hide DigitRun, DecimalValue;
    var body := if s != [] && s[0] == 45 then s[1..] else s;
    var run := if body != [] && body[0] == 48 then 1 else DigitRun(body);
    RunIsDigits(body);
    d, rest := body[..run], body[run..];
  }

  lemma SpelledUnsigned(d: Text)
    requires d != [] && (d[0] == 48 ==> |d| == 1) && DecimalValue(d) >= 0 && DecimalSpells(d, DecimalValue(d))
    ensures UnsignedSpells(d, DecimalValue(d))
  {
  }

  lemma FloatIsThere(s: Text, t: Text, rest: Text)
    requires s == t + rest && FractionOrExponent(rest) && exists n :: NumberSpells(t, n)
    ensures Wrong(s, FloatNotAllowed)
  {
    hide FractionOrExponent, NumberSpells, Opens;
    assert s[..|t|] == t && s[|t|..] == rest;
    assert FloatAt(s, |t|);
  }

  lemma NumberSigned(t: Text, d: Text, negative: bool)
    requires t == (if negative then [45] else []) + d
    requires d != [] && IsDigit(d[0]) && DecimalValue(d) >= 0 && UnsignedSpells(d, DecimalValue(d))
    ensures exists n :: NumberSpells(t, n)
  {
    hide UnsignedSpells, DecimalValue;
    var n := DecimalValue(d);
    assert negative ==> t[1..] == d;
    assert !negative ==> t == d;
    assert NumberSpells(t, if negative then -n else n);
  }

  lemma {:induction false} ObjectIsWrong(s: Text, c: Code)
    requires s != [] && s[0] == 123 && ParseValue(s) == Failed(c) && c != InvalidJson
    ensures OneOfThem(c) && Wrong(s, c)
    decreases |s|, 0
  {
    hide ParseMembers, SkipWs, PairsToObject, Wrong, MembersSpell, DistinctNames, MembersLead, ParseValue, Starts;
    var w := Skipped(s[1..]);
    var t := SkipWs(s[1..]);
    ObjectFailure(s, c);
    var p := ParseMembers(t);
    if p.Failed? {
      var u := MembersAreWrong(t, c);
      MembersLeadBefore(w, u);
      var open := [123] + (w + u);
      assert open[1..] == w + u;
      OpenedIsWrong(s, open, t[|u|..], c);
    } else {
      var inner := MembersAreSpelled(t, p.value, p.rest);
      MembersBefore(w, inner, p.value);
      DuplicateKeysRefused(p.value);
      RepeatIsWrong(s, w + inner, p.value, p.rest);
    }
  }

  lemma ObjectFailure(s: Text, c: Code)
    requires s != [] && s[0] == 123 && ParseValue(s) == Failed(c)
    ensures var p := ParseMembers(SkipWs(s[1..]));
      && (p.Failed? ==> p.code == c)
      && (p.Parsed? ==> PairsToObject(p.value) == None && c == DuplicateKey)
    ensures s == [123] + s[1..]
  {
    hide ParseMembers, SkipWs, PairsToObject;
  }

  lemma RepeatIsWrong(s: Text, inner: Text, pairs: seq<(Text, Value)>, rest: Text)
    requires s == [123] + (inner + ([125] + rest))
    requires pairs != [] && !DistinctNames(pairs) && MembersSpell(inner, pairs)
    ensures Wrong(s, DuplicateKey)
  {
    hide MembersSpell, DistinctNames, Opens;
    var k := |inner| + 2;
    assert s[..k][1..k - 1] == inner;
    assert RepeatsKey(s[..k]);
  }

  lemma {:induction false} ItemsAreWrong(s: Text, c: Code) returns (u: Text)
    requires ParseItems(s) == Failed(c) && c != InvalidJson
    ensures u <= s && ItemsLead(u) && Wrong(s[|u|..], c) && OneOfThem(c)
    decreases |s|, 2
  {
    hide ParseValue, SkipWs, Padded, Spaces, Wrong;
    var p := ParseValue(s);
    if p.Failed? {
      ReportedIsWrong(s, c);
      EmptyIsSpaces();
      u := [];
    } else {
      var t := SkipWs(p.rest);
      var a := PaddedIsSpelled(s, p.value, p.rest, t);
      var w := Skipped(t[1..]);
      var more := ItemsAreWrong(SkipWs(t[1..]), c);
      ItemsLeadBefore(w, more);
      OneItemLeads(a, p.value, w + more);
      u := a + [44] + (w + more);
      assert t == [44] + t[1..];
      assert s[|u|..] == SkipWs(t[1..])[|more|..];
    }
  }

  lemma OneItemLeads(a: Text, v: Value, u: Text)
    requires Padded(a, v) && ItemsLead(u)
    ensures ItemsLead(a + [44] + u)
  {
    hide Padded, Spaces;
    var all := a + [44] + u;
    assert all[|a|] == 44 && all[..|a|] == a && all[|a| + 1..] == u;
  }

  lemma MoreSpaces(w: Text, u: Text)
    requires Spaces(w) && Spaces(u)
    ensures Spaces(w + u)
  {
  }

  lemma ItemsLeadBefore(w: Text, u: Text)
    requires Spaces(w) && ItemsLead(u)
    ensures ItemsLead(w + u)
  {
    hide Padded, Spaces;
    if Spaces(u) {
      MoreSpaces(w, u);
    } else {
      var k, v :| 0 <= k < |u| && u[k] == 44 && Padded(u[..k], v) && ItemsLead(u[k + 1..]);
      PaddedBefore(w, u[..k], v);
      OneItemLeads(w + u[..k], v, u[k + 1..]);
      assert w + u == w + u[..k] + [44] + u[k + 1..];
    }
  }

  lemma {:induction false} MembersAreWrong(s: Text, c: Code) returns (u: Text)
    requires ParseMembers(s) == Failed(c) && c != InvalidJson
    ensures u <= s && MembersLead(u) && Wrong(s[|u|..], c) && OneOfThem(c)
    decreases |s|, 2
  {
    hide ParseValue, ParseString, SkipWs, Padded, Spaces, Wrong, MemberSpells, StringSpells, KeyLeads, CutsMember;
    EscapesAndStrings(s[1..]);
    var key := ParseString(s[1..]);
    var colon := SkipWs(key.rest);
    var behind := SkipWs(colon[1..]);
    var p := ParseValue(behind);
    if p.Failed? {
      ReportedIsWrong(behind, c);
      u := KeyIsSpelled(s, key.value, key.rest, colon[1..]);
      assert s[|u|..] == behind;
    } else {
      var t := SkipWs(p.rest);
      var m := Cut(key.rest, colon[1..], p.rest);
      var a := CutIsSpelled(s, m, key.value, p.value);
      var w := Skipped(t[1..]);
      var more := MembersAreWrong(SkipWs(t[1..]), c);
      MembersLeadBefore(w, more);
      OneMemberLeads(a, key.value, p.value, w + more);
      u := a + [44] + (w + more);
      assert t == [44] + t[1..];
      assert s[|u|..] == SkipWs(t[1..])[|more|..];
    }
  }

  lemma CutIsSpelled(s: Text, m: Cut, key: Text, v: Value) returns (a: Text)
    requires s != [] && s[0] == 34 && ParseString(s[1..]) == Parsed(key, m.afterKey)
    requires SkipWs(m.afterKey) != [] && SkipWs(m.afterKey)[0] == 58 && m.afterColon == SkipWs(m.afterKey)[1..]
    requires ParseValue(SkipWs(m.afterColon)) == Parsed(v, m.behind)
    ensures s == a + SkipWs(m.behind) && MemberSpells(a, key, v)
  {
    hide ParseValue, ParseString, SkipWs, MemberSpells;
    var colon := SkipWs(m.afterKey);
    assert colon == [58] + m.afterColon;
    a := MemberIsSpelled(s, m, key, v, SkipWs(m.behind));
  }

  lemma KeyIsSpelled(s: Text, key: Text, afterKey: Text, behind: Text) returns (u: Text)
    requires s != [] && s[0] == 34 && ParseString(s[1..]) == Parsed(key, afterKey)
    requires SkipWs(afterKey) != [] && SkipWs(afterKey)[0] == 58 && behind == SkipWs(afterKey)[1..]
    ensures s == u + SkipWs(behind) && MembersLead(u)
  {
    hide ParseString, SkipWs, Padded, Spaces, StringSpells;
    var q := StringIsSpelled(s, key, afterKey);
    var w := Skipped(afterKey);
    var space := Skipped(behind);
    EmptyIsSpaces();
    SpelledIsPadded([], q, w, Str(key));
    KeyThenSpace([] + q + w, key, space);
    u := ([] + q + w) + [58] + space;
    assert SkipWs(afterKey) == [58] + behind;
    assert s == u + SkipWs(behind);
  }

  lemma KeyThenSpace(a: Text, key: Text, w: Text)
    requires Padded(a, Str(key)) && Spaces(w)
    ensures MembersLead(a + [58] + w)
  {
    hide Padded, Spaces;
    var u := a + [58] + w;
    assert u[|a|] == 58 && u[..|a|] == a && u[|a| + 1..] == w;
    assert KeyLeads(u);
  }

  lemma OneMemberLeads(a: Text, key: Text, v: Value, u: Text)
    requires MemberSpells(a, key, v) && MembersLead(u)
    ensures MembersLead(a + [44] + u)
  {
    hide MemberSpells, KeyLeads;
    var all := a + [44] + u;
    assert all[|a|] == 44 && all[..|a|] == a && all[|a| + 1..] == u;
  }

  lemma MembersLeadBefore(w: Text, u: Text)
    requires Spaces(w) && MembersLead(u)
    ensures MembersLead(w + u)
  {
    hide Padded, Spaces, MemberSpells;
    if KeyLeads(u) {
      var k, key :| 0 <= k < |u| && u[k] == 58 && Padded(u[..k], Str(key)) && Spaces(u[k + 1..]);
      PaddedBefore(w, u[..k], Str(key));
      KeyThenSpace(w + u[..k], key, u[k + 1..]);
      assert w + u == w + u[..k] + [58] + u[k + 1..];
    } else {
      var k, key, v :| 0 <= k < |u| && u[k] == 44 && MemberSpells(u[..k], key, v) && MembersLead(u[k + 1..]);
      MemberBefore(w, u[..k], key, v);
      OneMemberLeads(w + u[..k], key, v, u[k + 1..]);
      assert w + u == w + u[..k] + [44] + u[k + 1..];
    }
  }

  // ---------- Every text ----------

  /** Some value is spelled here, whether the data model has it or not. */
  ghost predicate SpellsSome(source: Text) {
    exists v :: Padded(source, v)
  }

  ghost predicate WrongSomewhere(source: Text, c: Code) {
    exists k :: 0 <= k <= |source| && Spaces(source[..k]) && Wrong(source[k..], c)
  }

  lemma WrongIsNamed(nfc: Text -> bool, source: Text, c: Code)
    requires WrongSomewhere(source, c)
    ensures StrictParse(nfc, source) == Err(c) && (source == [] || source[0] != 0xFEFF)
  {
    hide ParseValue, SkipWs, Wrong, Valid;
    var k :| 0 <= k <= |source| && Spaces(source[..k]) && Wrong(source[k..], c);
    WrongIsReported(source[k..], c);
    SkipsTo(source[..k], source[k..]);
    assert source == source[..k] + source[k..];
  }

  lemma NamedIsWrong(source: Text, c: Code)
    requires ParseValue(SkipWs(source)) == Failed(c) && c != InvalidJson
    ensures OneOfThem(c) && WrongSomewhere(source, c)
  {
    hide ParseValue, SkipWs, Wrong, Spaces;
    ReportedIsWrong(SkipWs(source), c);
    var w := Skipped(source);
    assert source[..|w|] == w && source[|w|..] == SkipWs(source);
  }

  lemma ReadIsSpelled(source: Text, v: Value)
    requires var p := ParseValue(SkipWs(source)); p.Parsed? && p.value == v && SkipWs(p.rest) == []
    ensures Padded(source, v)
  {
    hide ParseValue, SkipWs, Padded, Spaces;
    var w := Skipped(source);
    var a := PaddedIsSpelled(SkipWs(source), v, ParseValue(SkipWs(source)).rest, []);
    PaddedBefore(w, a, v);
    assert source == w + a;
  }

  /**
   Every text has one verdict: a mark at its beginning; the first constant, float or repeated key,
   where nothing before it is wrong; a value that the data model does not have; that value; and
   otherwise a text that is no JSON.
   */
  lemma RefusedExactly(nfc: Text -> bool, source: Text)
    ensures var r := StrictParse(nfc, source);
      && (r == Err(BomNotAllowed) <==> source != [] && source[0] == 0xFEFF)
      && (r == Err(NonJsonNumber) <==> WrongSomewhere(source, NonJsonNumber))
      && (r == Err(FloatNotAllowed) <==> WrongSomewhere(source, FloatNotAllowed))
      && (r == Err(DuplicateKey) <==> WrongSomewhere(source, DuplicateKey))
      && (r == Err(InvalidValue) <==> exists v :: Padded(source, v) && !Valid(nfc, v))
      && (r.Ok? <==> exists v :: Padded(source, v) && Valid(nfc, v))
      && r != Err(NonCanonicalBytes)
  {
    hide ParseValue, SkipWs, Padded, Valid, WrongSomewhere;
    var p := ParseValue(SkipWs(source));
    forall c | WrongSomewhere(source, c) ensures StrictParse(nfc, source) == Err(c) {
      WrongIsNamed(nfc, source, c);
    }
    forall v | Padded(source, v)
      ensures (source == [] || source[0] != 0xFEFF) && p.Parsed? && p.value == v && SkipWs(p.rest) == []
    {
      PaddedIsParsed(source, v);
    }
    if p.Failed? && p.code != InvalidJson {
      NamedIsWrong(source, p.code);
    }
    if p.Parsed? && SkipWs(p.rest) == [] {
      ReadIsSpelled(source, p.value);
    }
  }
}
