/** Printing and parsing canonical JSON are inverse to each other, and the verifier accepts nothing else. */
module CanonicalRoundTrip {
  import opened Wrappers
  import opened Sorting
  import opened CanonicalJson

  // ---------- Strings ----------

  lemma ParseEscaped(c: int, rest: Text)
    requires c >= 0 && EscapeChar(c) != [c]
    ensures EscapeChar(c) != [] && EscapeChar(c)[0] == 92
    ensures ParseEscape((EscapeChar(c) + rest)[1..]) == Parsed(c, rest)
  {
    var t := EscapeChar(c);
    var s := (t + rest)[1..];
    if |t| == 2 {
      assert s == [t[1]] + rest;
    } else {
      var h := s[1..];
      assert s[0] == 117 && s == [117] + h;
      assert h[..4] == [48, 48, HexDigit(c / 16), HexDigit(c % 16)] && s[5..] == rest;
      assert h[0] == h[..4][0] && h[1] == h[..4][1] && h[2] == h[..4][2] && h[3] == h[..4][3];
      assert ParseHex4(h) == Some(c);
      assert ParseEscape(s) == Parsed(c, s[5..]);
    }
  }

  /** One encoded character, then the rest of the string. */
  lemma ParseFirstCharacter(c: int, tail: Text)
    requires c >= 0
    ensures var next := ParseString(tail);
      ParseString(EscapeChar(c) + tail) == if next.Parsed? then Parsed([c] + next.value, next.rest) else next
  {
    hide EscapeChar, ParseString, ParseEscape;
    var e := EscapeChar(c);
    if e == [c] {
      PlainIsPlain(c);
      ParsePlain(c, tail);
    } else {
      ParseEscaped(c, tail);
      ParseAfterEscape(e + tail, c, tail);
    }
  }

  lemma PlainIsPlain(c: int)
    requires c >= 0 && EscapeChar(c) == [c]
    ensures c >= 32 && c != 34 && c != 92
  {
    hide HexDigit;
  }

  lemma ParsePlain(c: int, tail: Text)
    requires c >= 32 && c != 34 && c != 92
    ensures var next := ParseString(tail);
      ParseString([c] + tail) == if next.Parsed? then Parsed([c] + next.value, next.rest) else next
  {
    assert ([c] + tail)[1..] == tail;
  }

  lemma ParseAfterEscape(s: Text, c: int, tail: Text)
    requires s != [] && s[0] == 92 && ParseEscape(s[1..]) == Parsed(c, tail)
    ensures var next := ParseString(tail);
      ParseString(s) == if next.Parsed? then Parsed([c] + next.value, next.rest) else next
  {
    hide ParseEscape;
  }

  lemma EscapeUnfolds(s: Text, rest: Text)
    requires s != [] && forall i :: 0 <= i < |s| ==> s[i] >= 0
    ensures Escape(s) + [34] + rest == EscapeChar(s[0]) + (Escape(s[1..]) + [34] + rest)
  {
    hide *;
    EscapeCons(s);
    AssociateFour(EscapeChar(s[0]), Escape(s[1..]), [34], rest);
  }

  lemma EscapeCons(s: Text)
    requires s != [] && forall i :: 0 <= i < |s| ==> s[i] >= 0
    ensures Escape(s) == EscapeChar(s[0]) + Escape(s[1..])
  {
    hide EscapeChar;
  }

  lemma AssociateFour(a: Text, b: Text, c: Text, d: Text)
    ensures (a + b) + c + d == a + (b + c + d)
  {
  }

  lemma {:induction false} ParseEncodedString(s: Text, rest: Text)
    requires forall i :: 0 <= i < |s| ==> s[i] >= 0
    ensures ParseString(Escape(s) + [34] + rest) == Parsed(s, rest)
  {
    hide EscapeChar, ParseEscape;
    if s == [] {
      assert Escape(s) + [34] + rest == [34] + rest;
    } else {
      var tail := Escape(s[1..]) + [34] + rest;
      EscapeUnfolds(s, rest);
      ParseEncodedString(s[1..], rest);
      ParseFirstCharacter(s[0], tail);
      assert s == [s[0]] + s[1..];
    }
  }

  // ---------- Numbers ----------

  lemma {:induction false} DigitsAreDigits(n: nat)
    ensures Digits(n) != [] && forall i :: 0 <= i < |Digits(n)| ==> IsDigit(Digits(n)[i])
    ensures DecimalValue(Digits(n)) == n
    ensures Digits(n)[0] == 48 ==> n == 0
    ensures n == 0 ==> Digits(n) == [48]
  {
    if n < 10 {
    } else {
      DigitsAreDigits(n / 10);
      assert Digits(n)[..|Digits(n)| - 1] == Digits(n / 10);
    }
  }

  lemma {:induction false} RunOfDigits(d: Text, rest: Text)
    requires forall i :: 0 <= i < |d| ==> IsDigit(d[i])
    requires rest == [] || !IsDigit(rest[0])
    ensures DigitRun(d + rest) == |d|
  {
    if d == [] {
      assert d + rest == rest;
    } else {
      assert (d + rest)[1..] == d[1..] + rest;
      RunOfDigits(d[1..], rest);
    }
  }

  /** What may follow a value inside a text: a comma, a closing bracket or white space. */
  predicate Delimited(rest: Text) {
    || rest == [] || rest[0] == 44 || rest[0] == 93 || rest[0] == 125
    || rest[0] == 32 || rest[0] == 9 || rest[0] == 10 || rest[0] == 13
  }

  lemma ParseEncodedInt(n: int, rest: Text)
    requires Delimited(rest)
    ensures ParseNumber(EncodeInt(n) + rest) == Parsed(Int(n), rest)
  {
    hide ParseNumber, Digits, DigitRun, DecimalValue, IsDigit, Delimited;
    var m := if n < 0 then -n else n;
    DigitsAreDigits(m);
    RunOfDigits(Digits(m), rest) by { DelimitersAreNoDigits(rest); }
    ParseDigits(Digits(m), rest, n < 0);
    assert n < 0 ==> EncodeInt(n) + rest == [45] + (Digits(m) + rest);
    assert n >= 0 ==> EncodeInt(n) + rest == [] + (Digits(m) + rest);
  }

  lemma DelimitersAreNoDigits(rest: Text)
    requires Delimited(rest)
    ensures rest == [] || !IsDigit(rest[0])
  {
  }

  lemma ParseDigits(d: Text, rest: Text, negative: bool)
    requires d != [] && IsDigit(d[0]) && (d[0] == 48 ==> |d| == 1) && Delimited(rest)
    requires DigitRun(d + rest) == |d|
    ensures ParseNumber((if negative then [45] else []) + (d + rest)) ==
      Parsed(Int(if negative then -DecimalValue(d) else DecimalValue(d)), rest)
  {
    var body := d + rest;
    var s := (if negative then [45] else []) + body;
    assert body[0] == d[0] && s[0] == (if negative then 45 else d[0]);
    assert (if negative then s[1..] else s) == body;
    assert body[..|d|] == d && body[|d|..] == rest;
    hide DigitRun, DecimalValue;
    assert !FloatTail(rest);
  }

  // ---------- First characters ----------

  /** A canonical value starts with a character that is neither white space nor a closing bracket. */
  predicate Opens(c: int) {
    c == 34 || c == 45 || IsDigit(c) || c == 91 || c == 102 || c == 116 || c == 123
  }

  lemma FirstCharacter(v: Value)
    requires Encodable(v)
    ensures EncodeValue(v) != [] && Opens(EncodeValue(v)[0])
  {
    match v
    case Int(n) => DigitsAreDigits(if n < 0 then -n else n);
    case _ =>
  }

  lemma NumberIsNoKeyword(n: int, rest: Text)
    ensures ParseValue(EncodeInt(n) + rest) == ParseNumber(EncodeInt(n) + rest)
  {
    hide ParseValue, ParseNumber, Digits;
    DigitsAreDigits(if n < 0 then -n else n);
    NoKeyword(EncodeInt(n) + rest);
  }

  lemma NoKeyword(s: Text)
    requires s != [] && (IsDigit(s[0]) || (s[0] == 45 && |s| > 1 && IsDigit(s[1])))
    ensures ParseValue(s) == ParseNumber(s)
  {
    hide ParseNumber, ParseString, ParseItems, ParseMembers, SkipWs, Codes, StartsWith, PairsToObject;
    FirstCode("null", s);
    FirstCode("true", s);
    FirstCode("false", s);
    FirstCode("NaN", s);
    FirstCode("Infinity", s);
    SecondCode("-Infinity", s);
  }

  lemma FirstCode(word: string, s: Text)
    requires word != "" && s != [] && word[0] as int != s[0]
    ensures !StartsWith(s, Codes(word))
  {
    assert Codes(word)[0] == word[0] as int;
  }

  lemma SecondCode(word: string, s: Text)
    requires |word| > 1 && s != [] && (word[0] as int != s[0] || (|s| > 1 && word[1] as int != s[1]))
    ensures !StartsWith(s, Codes(word))
  {
    assert Codes(word)[0] == word[0] as int && Codes(word)[1] == word[1] as int;
  }

  // ---------- Values ----------

  lemma ParseEncodedBool(b: bool, rest: Text)
    ensures ParseValue((if b then Codes("true") else Codes("false")) + rest) == Parsed(Bool(b), rest)
  {
    var t := if b then Codes("true") else Codes("false");
    var s := t + rest;
    assert s[..|t|] == t && s[|t|..] == rest;
    assert s[0] == t[0];
    assert Codes("null")[0] == 110;
    assert !b ==> Codes("true")[0] == 116;
  }

  lemma AssociateWrapped(open: Text, body: Text, close: Text, rest: Text)
    ensures (open + body + close) + rest == open + (body + close + rest)
  {
  }

  lemma AssociateHead(head: Text, tail: Text, close: Text, rest: Text)
    ensures (head + tail) + close + rest == head + (tail + close + rest)
  {
  }

  lemma AssociateMembers(k: Text, colon: Text, v: Text, comma: Text, more: Text, close: Text, rest: Text)
    ensures (k + colon + v + comma + more) + close + rest == k + colon + (v + (comma + (more + close + rest)))
  {
  }

  predicate Solid(t: Text) {
    t != [] && Opens(t[0])
  }

  lemma ArrayStep(t: Text, items: seq<Value>, rest: Text)
    requires Solid(t) && ParseItems(t) == Parsed(items, rest)
    ensures ParseValue([91] + t) == Parsed(Arr(items), rest)
  {
    hide ParseItems, ParseString, ParseMembers, ParseNumber, PairsToObject, StartsWith, Codes;
    assert ([91] + t)[1..] == t;
  }

  lemma ObjectStep(t: Text, pairs: seq<(Text, Value)>, m: map<Text, Value>, rest: Text)
    requires Solid(t) && ParseMembers(t) == Parsed(pairs, rest) && PairsToObject(pairs) == Some(m)
    ensures ParseValue([123] + t) == Parsed(Obj(m), rest)
  {
    hide ParseItems, ParseString, ParseMembers, ParseNumber, PairsToObject, StartsWith, Codes;
    assert ([123] + t)[1..] == t;
  }

  lemma EmptyStep(rest: Text)
    ensures ParseValue([91] + ([93] + rest)) == Parsed(Arr([]), rest)
    ensures ParseValue([123] + ([125] + rest)) == Parsed(Obj(map[]), rest)
  {
    assert ([91] + ([93] + rest))[1..] == [93] + rest && ([123] + ([125] + rest))[1..] == [125] + rest;
    assert ([93] + rest)[1..] == rest && ([125] + rest)[1..] == rest;
  }

  lemma StringStep(t: Text, rest: Text)
    requires forall i :: 0 <= i < |t| ==> t[i] >= 0
    ensures ParseValue(EncodeString(t) + rest) == Parsed(Str(t), rest)
  {
    ParseEncodedString(t, rest);
    hide Escape, ParseString;
    assert EncodeString(t) + rest == [34] + (Escape(t) + [34] + rest);
  }

  lemma LastItem(s: Text, v: Value, rest: Text)
    requires ParseValue(s) == Parsed(v, [93] + rest)
    ensures ParseItems(s) == Parsed([v], rest)
  {
    assert ([93] + rest)[1..] == rest;
  }

  lemma MoreItems(s: Text, v: Value, next: Text, vs: seq<Value>, rest: Text)
    requires ParseValue(s) == Parsed(v, [44] + next) && Solid(next) && ParseItems(next) == Parsed(vs, rest)
    ensures ParseItems(s) == Parsed([v] + vs, rest)
  {
    assert ([44] + next)[1..] == next;
  }

  lemma NoSpace(s: Text)
    requires s != [] && s[0] > 32
    ensures SkipWs(s) == s
  {
  }

  lemma LastMember(k: Text, value: Text, v: Value, rest: Text)
    requires forall i :: 0 <= i < |k| ==> k[i] >= 0
    requires Solid(value) && ParseValue(value) == Parsed(v, [125] + rest)
    ensures ParseMembers(EncodeString(k) + [58] + value) == Parsed([(k, v)], rest)
  {
    hide Escape, ParseString, ParseValue, EncodeString, SkipWs, Solid;
    KeyStep(k, value);
    NoSpace([125] + rest);
    assert ([125] + rest)[1..] == rest;
  }

  lemma MoreMembers(k: Text, value: Text, v: Value, next: Text, more: seq<(Text, Value)>, rest: Text)
    requires forall i :: 0 <= i < |k| ==> k[i] >= 0
    requires Solid(value) && ParseValue(value) == Parsed(v, [44] + next) && Solid(next)
      && ParseMembers(next) == Parsed(more, rest)
    ensures ParseMembers(EncodeString(k) + [58] + value) == Parsed([(k, v)] + more, rest)
  {
    hide Escape, ParseString, ParseValue, EncodeString, SkipWs;
    KeyStep(k, value);
    NoSpace([44] + next);
    NoSpace(next);
    assert ([44] + next)[1..] == next;
  }

  lemma KeyStep(k: Text, value: Text)
    requires forall i :: 0 <= i < |k| ==> k[i] >= 0
    requires Solid(value)
    ensures var s := EncodeString(k) + [58] + value;
      s[0] == 34 && ParseString(s[1..]) == Parsed(k, [58] + value) && SkipWs([58] + value) == [58] + value
      && SkipWs(([58] + value)[1..]) == value
  {
    ParseEncodedString(k, [58] + value);
    hide Escape, ParseString;
    assert EncodeString(k) + [58] + value == [34] + (Escape(k) + [34] + ([58] + value));
    assert ([58] + value)[1..] == value;
  }

  /** Parsing what the encoder wrote gives the value back and stops exactly behind it. */
  lemma {:induction false} ParseEncoded(v: Value, rest: Text)
    requires Encodable(v) && Delimited(rest)
    ensures ParseValue(EncodeValue(v) + rest) == Parsed(v, rest)
    decreases v, 2
  {
    hide ParseValue;
    match v
    case Bool(b) => ParseEncodedBool(b, rest);
    case Int(n) =>
      NumberIsNoKeyword(n, rest);
      ParseEncodedInt(n, rest);
    case Str(t) => StringStep(t, rest);
    case Arr(_) => ParseEncodedArray(v, rest);
    case Obj(_) => ParseEncodedObject(v, rest);
  }

  lemma ArrayShape(v: Value, rest: Text)
    requires v.Arr? && Encodable(v)
    ensures EncodeValue(v) + rest == [91] + (EncodeItems(v, 0) + [93] + rest)
    ensures v.items == [] ==> EncodeItems(v, 0) + [93] + rest == [93] + rest
    ensures v.items != [] ==>
      var body := EncodeItems(v, 0) + [93] + rest;
      body == EncodeValue(v.items[0]) + (EncodeItems(v, 1) + [93] + rest) && Solid(body)
  {
    ArrayBrackets(v);
    hide EncodeValue;
    AssociateWrapped([91], EncodeItems(v, 0), [93], rest);
    if v.items != [] {
      var head := EncodeValue(v.items[0]);
      FirstCharacter(v.items[0]);
      assert EncodeItems(v, 0) == head + EncodeItems(v, 1);
      AssociateHead(head, EncodeItems(v, 1), [93], rest);
    }
  }

  lemma ArrayBrackets(v: Value)
    requires v.Arr? && Encodable(v)
    ensures EncodeValue(v) == [91] + EncodeItems(v, 0) + [93]
  {
  }

  lemma {:induction false} ParseEncodedArray(v: Value, rest: Text)
    requires v.Arr? && Encodable(v)
    ensures ParseValue(EncodeValue(v) + rest) == Parsed(v, rest)
    decreases v, 1
  {
    hide ParseValue, ParseItems, EncodeValue, EncodeItems, Encodable;
    ArrayShape(v, rest);
    EmptyStep(rest);
    if v.items != [] {
      ParseEncodedItems(v, 0, rest);
      ArrayStep(EncodeItems(v, 0) + [93] + rest, v.items[0..], rest);
      assert v.items[0..] == v.items;
    }
  }

  lemma ObjectShape(v: Value, rest: Text)
    requires v.Obj? && Encodable(v)
    ensures EncodeValue(v) + rest == [123] + (EncodeMembers(v, KeysOf(v.members)) + [125] + rest)
    ensures KeysOf(v.members) == [] ==>
      v.members == map[] && EncodeMembers(v, KeysOf(v.members)) + [125] + rest == [125] + rest
  {
    AssociateWrapped([123], EncodeMembers(v, KeysOf(v.members)), [125], rest);
    NoKeysNoMembers(v.members);
    hide KeysOf;
    assert EncodeMembers(v, []) == [];
  }

  lemma NoKeysNoMembers(members: map<Text, Value>)
    ensures KeysOf(members) == [] ==> members == map[]
  {
    assert forall k :: k in members ==> k in KeysOf(members);
  }

  lemma {:induction false} ParseEncodedObject(v: Value, rest: Text)
    requires v.Obj? && Encodable(v)
    ensures ParseValue(EncodeValue(v) + rest) == Parsed(v, rest)
    decreases v, 1
  {
    hide ParseValue, ParseMembers, PairsToObject, EncodeValue, EncodeMembers, Encodable;
    ObjectShape(v, rest);
    EmptyStep(rest);
    var keys := KeysOf(v.members);
    if keys != [] {
      ParseEncodedMembers(v, keys, rest);
      KeysAreDistinct(keys);
      PairsMakeTheMap(v.members, keys);
      assert Restrict(v.members, keys) == v.members;
      ObjectStep(EncodeMembers(v, keys) + [125] + rest, PairsOf(v.members, keys), v.members, rest);
    }
  }

  lemma {:induction false} ParseEncodedItems(v: Value, i: nat, rest: Text)
    requires v.Arr? && Encodable(v) && i < |v.items|
    ensures ParseItems(EncodeValue(v.items[i]) + (EncodeItems(v, i + 1) + [93] + rest)) == Parsed(v.items[i..], rest)
    decreases v, 0, |v.items| - i
  {
    hide *;
    var w := v.items[i];
    var after := EncodeItems(v, i + 1) + [93] + rest;
    ItemIsEncodable(v, i);
    ItemsShape(v, i, rest);
    ParseEncoded(w, after);
    if i + 1 == |v.items| {
      LastItem(EncodeValue(w) + after, w, rest);
      assert v.items[i..] == [w];
    } else {
      ItemIsEncodable(v, i + 1);
      var next := EncodeValue(v.items[i + 1]) + (EncodeItems(v, i + 2) + [93] + rest);
      ParseEncodedItems(v, i + 1, rest);
      MoreItems(EncodeValue(w) + after, w, next, v.items[i + 1..], rest);
      assert v.items[i..] == [w] + v.items[i + 1..];
    }
  }

  lemma ItemIsEncodable(v: Value, i: nat)
    requires v.Arr? && Encodable(v) && i < |v.items|
    ensures Encodable(v.items[i])
  {
  }

  /** What follows an item: the closing bracket, or a comma and the next item. */
  lemma ItemsShape(v: Value, i: nat, rest: Text)
    requires v.Arr? && Encodable(v) && i < |v.items|
    ensures var after := EncodeItems(v, i + 1) + [93] + rest;
      && Delimited(after)
      && (i + 1 == |v.items| ==> after == [93] + rest)
      && (i + 1 < |v.items| ==>
            var next := EncodeValue(v.items[i + 1]) + (EncodeItems(v, i + 2) + [93] + rest);
            after == [44] + next && Solid(next))
  {
    hide EncodeValue;
    if i + 1 < |v.items| {
      var head := EncodeValue(v.items[i + 1]);
      FirstCharacter(v.items[i + 1]);
      AssociateHead([44] + head, EncodeItems(v, i + 2), [93], rest);
      AssociateHead([44], head, EncodeItems(v, i + 2) + [93], rest);
    }
  }

  function PairsOf(members: map<Text, Value>, keys: seq<Text>): seq<(Text, Value)>
    requires forall k :: k in keys ==> k in members
  {
    seq(|keys|, i requires 0 <= i < |keys| => (keys[i], members[keys[i]]))
  }

  /** What follows the first value of a member list. */
  function MembersTail(v: Value, keys: seq<Text>, rest: Text): Text
    requires v.Obj? && Encodable(v) && keys != [] && forall k :: k in keys ==> k in v.members
  {
    (if |keys| > 1 then [44] else []) + (EncodeMembers(v, keys[1..]) + [125] + rest)
  }

  lemma MembersShape(v: Value, keys: seq<Text>, rest: Text)
    requires v.Obj? && Encodable(v) && keys != [] && forall k :: k in keys ==> k in v.members
    ensures var value := EncodeValue(v.members[keys[0]]) + MembersTail(v, keys, rest);
      var s := EncodeMembers(v, keys) + [125] + rest;
      s == EncodeString(keys[0]) + [58] + value && Solid(s) && Solid(value)
    ensures Delimited(MembersTail(v, keys, rest))
    ensures |keys| == 1 ==> MembersTail(v, keys, rest) == [125] + rest
    ensures |keys| > 1 ==> MembersTail(v, keys, rest) == [44] + (EncodeMembers(v, keys[1..]) + [125] + rest)
  {
    var w := v.members[keys[0]];
    FirstCharacter(w);
    var comma := if |keys| > 1 then [44] else [];
    AssociateMembers(EncodeString(keys[0]), [58], EncodeValue(w), comma, EncodeMembers(v, keys[1..]), [125], rest);
    assert |keys| == 1 ==> keys[1..] == [] && EncodeMembers(v, []) == [];
    hide Escape, EncodeValue;
  }

  lemma {:induction false} ParseEncodedMembers(v: Value, keys: seq<Text>, rest: Text)
    requires v.Obj? && Encodable(v) && keys != [] && forall k :: k in keys ==> k in v.members
    ensures var s := EncodeMembers(v, keys) + [125] + rest;
      Solid(s) && ParseMembers(s) == Parsed(PairsOf(v.members, keys), rest)
    decreases v, 0, |keys|
  {
    var k := keys[0];
    var w := v.members[k];
    MembersShape(v, keys, rest);
    PairsCons(v.members, keys);
    assert Encodable(w) && (forall i :: 0 <= i < |k| ==> k[i] >= 0) && forall x :: x in keys[1..] ==> x in keys;
    hide *;
    var value := EncodeValue(w) + MembersTail(v, keys, rest);
    ParseEncoded(w, MembersTail(v, keys, rest));
    if |keys| == 1 {
      LastMember(k, value, w, rest);
    } else {
      var more := EncodeMembers(v, keys[1..]) + [125] + rest;
      ParseEncodedMembers(v, keys[1..], rest);
      MoreMembers(k, value, w, more, PairsOf(v.members, keys[1..]), rest);
    }
  }

  lemma PairsCons(members: map<Text, Value>, keys: seq<Text>)
    requires keys != [] && forall k :: k in keys ==> k in members
    ensures PairsOf(members, keys) == [(keys[0], members[keys[0]])] + PairsOf(members, keys[1..])
    ensures |keys| == 1 ==> PairsOf(members, keys) == [(keys[0], members[keys[0]])]
  {
  }

  ghost predicate Distinct(keys: seq<Text>) {
    forall i, j :: 0 <= i < j < |keys| ==> keys[i] != keys[j]
  }

  lemma KeysAreDistinct(keys: seq<Text>)
    requires Sorted(LexLess, keys)
    ensures Distinct(keys)
  {
    forall i, j | 0 <= i < j < |keys| ensures keys[i] != keys[j] { LexTrichotomy(keys[i], keys[j]); }
  }

  function Restrict(members: map<Text, Value>, keys: seq<Text>): map<Text, Value> {
    map k | k in members && k in keys :: members[k]
  }

  lemma {:induction false} PairsMakeTheMap(members: map<Text, Value>, keys: seq<Text>)
    requires Distinct(keys) && forall k :: k in keys ==> k in members
    ensures PairsToObject(PairsOf(members, keys)) == Some(Restrict(members, keys))
  {
    if keys == [] {
      assert Restrict(members, keys) == map[];
    } else {
      var n := |keys| - 1;
      var pairs := PairsOf(members, keys);
      assert pairs[..n] == PairsOf(members, keys[..n]);
      PairsMakeTheMap(members, keys[..n]);
      assert keys == keys[..n] + [keys[n]];
      assert keys[n] !in keys[..n];
      assert Restrict(members, keys) == Restrict(members, keys[..n])[keys[n] := members[keys[n]]];
    }
  }

  // ---------- Main results ----------

  lemma CanonicalStarts(v: Value)
    requires Encodable(v) && EncodeValue(v) != []
    ensures Canonical(v) == EncodeValue(v) + [10] && Canonical(v)[0] == EncodeValue(v)[0]
  {
    hide EncodeValue, Encodable;
  }

  /** A text that is one value and a line feed. */
  lemma ParseWhole(nfc: Text -> bool, s: Text, v: Value)
    requires s != [] && Opens(s[0]) && ParseValue(s) == Parsed(v, [10]) && Valid(nfc, v)
    ensures StrictParse(nfc, s) == Ok(v)
  {
    hide ParseValue, Valid;
    assert SkipWs(s) == s;
    assert SkipWs([10]) == SkipWs([10][1..]) == [];
  }

  /** Canonical JSON round trip: the strict parser returns every valid value from its canonical text. */
  lemma RoundTrip(nfc: Text -> bool, v: Value)
    requires Valid(nfc, v)
    ensures Encodable(v) && StrictParse(nfc, Canonical(v)) == Ok(v)
  {
    ValidIsEncodable(nfc, v);
    hide *;
    ParseEncoded(v, [10]);
    FirstCharacter(v);
    CanonicalStarts(v);
    ParseWhole(nfc, Canonical(v), v);
  }

  /** The verifier accepts exactly the encoder's image. */
  lemma VerifierAcceptsExactlyTheImage(nfc: Text -> bool, source: Text, v: Value)
    ensures Verify(nfc, source) == Ok(v) <==> Valid(nfc, v) && Encodable(v) && source == Canonical(v)
  {
    if Valid(nfc, v) {
      ValidIsEncodable(nfc, v);
      RoundTrip(nfc, v);
    }
  }

  /** Two valid values with the same canonical text are the same value. */
  lemma EncoderInjective(nfc: Text -> bool, v: Value, w: Value)
    requires Valid(nfc, v) && Valid(nfc, w)
    ensures Encodable(v) && Encodable(w) && (Canonical(v) == Canonical(w) ==> v == w)
  {
    RoundTrip(nfc, v);
    RoundTrip(nfc, w);
  }

  /** Self-delimiting in context: a canonical value is never confused by what follows it. */
  lemma EncoderSelfDelimiting(v: Value, w: Value, a: Text, b: Text)
    requires Encodable(v) && Encodable(w) && Delimited(a) && Delimited(b)
    requires EncodeValue(v) + a == EncodeValue(w) + b
    ensures v == w && a == b
  {
    ParseEncoded(v, a);
    ParseEncoded(w, b);
  }

  // ---------- What the verifier refuses ----------

  predicate DistinctNames(pairs: seq<(Text, Value)>) {
    forall i, j :: 0 <= i < j < |pairs| ==> pairs[i].0 != pairs[j].0
  }

  /** The object has exactly the names of the pairs, each with its own value. */
  ghost predicate HoldsPairs(built: map<Text, Value>, pairs: seq<(Text, Value)>) {
    && (forall k :: k in built <==> exists i :: 0 <= i < |pairs| && pairs[i].0 == k)
    && forall i :: 0 <= i < |pairs| ==> pairs[i].0 in built && built[pairs[i].0] == pairs[i].1
  }

  /** Objects are built exactly when no key is repeated, and then hold every pair. */
  lemma {:induction false} DuplicateKeysRefused(pairs: seq<(Text, Value)>)
    ensures PairsToObject(pairs).Some? <==> DistinctNames(pairs)
    ensures PairsToObject(pairs).Some? ==> HoldsPairs(PairsToObject(pairs).value, pairs)
  {
    hide DistinctNames, HoldsPairs;
    if pairs == [] {
      NoPairs();
    } else {
      var n := |pairs| - 1;
      DuplicateKeysRefused(pairs[..n]);
      assert pairs == pairs[..n] + [pairs[n]];
      OnePairMore(pairs[..n], pairs[n]);
    }
  }

  lemma NoPairs()
    ensures DistinctNames([]) && HoldsPairs(map[], [])
  {
  }

  lemma OnePairMore(pairs: seq<(Text, Value)>, last: (Text, Value))
    ensures DistinctNames(pairs + [last]) ==> DistinctNames(pairs)
    ensures forall built :: HoldsPairs(built, pairs) ==>
      (DistinctNames(pairs + [last]) <==> DistinctNames(pairs) && last.0 !in built)
    ensures forall built :: HoldsPairs(built, pairs) && last.0 !in built ==>
      HoldsPairs(built[last.0 := last.1], pairs + [last])
  {
    var all := pairs + [last];
    assert forall i :: 0 <= i < |pairs| ==> all[i] == pairs[i];
    assert all[|pairs|] == last;
    if DistinctNames(all) {
      forall i, j | 0 <= i < j < |pairs| ensures pairs[i].0 != pairs[j].0 {
        assert all[i].0 != all[j].0;
      }
    }
    forall built | HoldsPairs(built, pairs) && last.0 !in built ensures HoldsPairs(built[last.0 := last.1], all) {
      HoldsOneMore(built, pairs, last);
    }
  }

  lemma HoldsOneMore(built: map<Text, Value>, pairs: seq<(Text, Value)>, last: (Text, Value))
    requires HoldsPairs(built, pairs) && last.0 !in built
    ensures HoldsPairs(built[last.0 := last.1], pairs + [last])
  {
    var all, after := pairs + [last], built[last.0 := last.1];
    forall k ensures k in after <==> exists i :: 0 <= i < |all| && all[i].0 == k {
      if k in built {
        var i :| 0 <= i < |pairs| && pairs[i].0 == k;
        assert all[i].0 == k;
      } else if k == last.0 {
        assert all[|pairs|].0 == k;
      }
    }
  }

  /** Negative zero parses as the integer zero and is refused as a spelling of it. */
  lemma NegativeZero(nfc: Text -> bool)
    ensures StrictParse(nfc, [45, 48, 10]) == Ok(Int(0))
    ensures Verify(nfc, [45, 48, 10]) == Err(NonCanonicalBytes)
  {
    var s: Text := [45, 48, 10];
    assert Codes("-Infinity")[1] == 73 && Codes("null")[0] == 110 && Codes("true")[0] == 116
      && Codes("false")[0] == 102;
    assert Codes("NaN")[0] == 78 && Codes("Infinity")[0] == 73;
    assert s[1..] == [48, 10] && [48, 10][1..] == [10] && [48, 10][..1] == [48];
    assert DecimalValue([48]) == 0 by { assert [48][..0] == []; }
    assert ParseNumber(s) == Parsed(Int(0), [10]);
    assert SkipWs([10]) == SkipWs([10][1..]) == [];
    VerifierAcceptsExactlyTheImage(nfc, s, Int(0));
    assert Canonical(Int(0)) == [48, 10];
  }
}
