/** The canonical text of a value is one of its shortest spellings. */
module CanonicalShortest {
  import opened Sorting
  import opened CanonicalJson
  import opened CanonicalRoundTrip
  import opened JsonGrammar

  const LOWER := "0123456789abcdef"

  /** Control characters have their short escape, or four digits in lower case. */
  lemma ControlCharacters(c: int)
    requires 0 <= c < 32
    ensures EscapeChar(c) == Codes(
      match c
      case 8 => "\\b"
      case 9 => "\\t"
      case 10 => "\\n"
      case 12 => "\\f"
      case 13 => "\\r"
      case _ => "\\u00" + [LOWER[c / 16], LOWER[c % 16]])
  {
    LowerDigit(c / 16);
    LowerDigit(c % 16);
    hide HexDigit;
  }

  lemma LowerDigit(d: int)
    requires 0 <= d < 16
    ensures HexDigit(d) == LOWER[d] as int
  {
  }

  lemma ShortestCharacter(t: Text, c: int)
    requires c >= 0 && CharacterSpells(t, c)
    ensures |EscapeChar(c)| <= |t|
  {
    hide FourHex, HexDigit;
  }

  lemma {:induction false} ShortestCharacters(t: Text, s: Text)
    requires CharactersSpell(t, s) && forall i :: 0 <= i < |s| ==> s[i] >= 0
    ensures |Escape(s)| <= |t|
    decreases |s|
  {
    hide CharacterSpells, EscapeChar;
    if s == [] {
    } else {
      var k :| 0 < k <= |t| && CutsCharacter(t, k, s[0]) && CharactersSpell(t[k..], s[1..]);
      ShortestCharacter(t[..k], s[0]);
      ShortestCharacters(t[k..], s[1..]);
    }
  }

  /** The digits the encoder writes are a spelling of the number, without leading zeros. */
  lemma {:induction false} DigitsSpell(n: nat)
    ensures UnsignedSpells(Digits(n), n)
  {
    DigitsAreDigits(n);
    DecimalIsValue(Digits(n), n);
    hide Digits, DecimalSpells, DecimalValue;
    if Digits(n)[0] == 48 {
      assert n == 0 && Digits(n) == [48];
    }
  }

  lemma {:induction false} ShortestDigits(t: Text, n: nat)
    requires DecimalSpells(t, n)
    ensures |Digits(n)| <= |t|
  {
    if |t| == 1 {
    } else {
      ShortestDigits(t[..|t| - 1], n / 10);
    }
  }

  lemma ShortestPadded(t: Text, v: Value)
    requires Encodable(v) && Padded(t, v)
    ensures |EncodeValue(v)| <= |t|
    decreases |t|, 1
  {
    hide Spells, Spaces, EncodeValue, Encodable;
    var before, u, after := PaddedParts(t, v);
    ShortestSpelling(u, v);
  }

  /** No spelling of a value is shorter than its canonical one. */
  lemma {:induction false} ShortestSpelling(t: Text, v: Value)
    requires Encodable(v) && Spells(t, v)
    ensures |EncodeValue(v)| <= |t|
    decreases |t|, 0
  {
    hide CharactersSpell, DecimalSpells, ItemsSpell, MembersSpell, Spaces, HoldsPairs, DistinctNames, Escape, Digits;
    match v
    case Bool(b) =>
    case Int(n) => ShortestDigits(if t != [] && t[0] == 45 then t[1..] else t, if n < 0 then -n else n);
    case Str(s) => ShortestCharacters(t[1..|t| - 1], s);
    case Arr(items) =>
      if items != [] {
        ShortestItems(t[1..|t| - 1], v, 0);
      }
    case Obj(members) =>
      if members == map[] {
        NoKeys(v);
      } else {
        var pairs :| pairs != [] && DistinctNames(pairs) && HoldsPairs(members, pairs)
          && MembersSpell(t[1..|t| - 1], pairs);
        ShortestObject(t[1..|t| - 1], v, pairs);
      }
  }

  lemma NoKeys(v: Value)
    requires v.Obj? && v.members == map[] && Encodable(v)
    ensures EncodeMembers(v, KeysOf(v.members)) == []
  {
    assert v.members.Keys == {} && |KeysOf(v.members)| == |v.members.Keys|;
  }

  lemma {:induction false} ShortestItems(t: Text, v: Value, i: nat)
    requires v.Arr? && Encodable(v) && i < |v.items| && ItemsSpell(t, v.items[i..])
    ensures |EncodeItems(v, i)| <= |t| + if i > 0 then 1 else 0
    decreases |t|, 2
  {
    hide Padded, EncodeValue, ItemsSpell;
    var items := v.items[i..];
    ItemIsEncodable(v, i);
    if |items| == 1 {
      OneItem(t, items);
      ShortestPadded(t, v.items[i]);
      assert EncodeItems(v, i + 1) == [];
    } else {
      var k := FirstItem(t, items);
      ShortestPadded(t[..k], v.items[i]);
      assert items[1..] == v.items[i + 1..];
      ShortestItems(t[k + 1..], v, i + 1);
    }
  }

  // ---------- Members in any order ----------

  predicate NamesOf(v: Value, names: seq<Text>) {
    v.Obj? && Encodable(v) && forall i :: 0 <= i < |names| ==> names[i] in v.members
  }

  /** The lengths of these members, commas left out. */
  ghost function TotalSize(v: Value, names: seq<Text>): nat
    requires NamesOf(v, names)
  {
    if names == [] then 0
    else |EncodeString(names[0])| + 1 + |EncodeValue(v.members[names[0]])| + TotalSize(v, names[1..])
  }

  lemma {:induction false} SizeOfMembers(v: Value, names: seq<Text>)
    requires NamesOf(v, names) && names != []
    ensures |EncodeMembers(v, names)| == TotalSize(v, names) + |names| - 1
  {
    hide EncodeValue, EncodeString;
    if |names| == 1 {
      assert EncodeMembers(v, names[1..]) == [];
    } else {
      SizeOfMembers(v, names[1..]);
    }
  }

  lemma {:induction false} SizeWithout(v: Value, names: seq<Text>, k: nat)
    requires NamesOf(v, names) && k < |names|
    ensures NamesOf(v, names[..k] + names[k + 1..])
    ensures TotalSize(v, names) == |EncodeString(names[k])| + 1 + |EncodeValue(v.members[names[k]])|
      + TotalSize(v, names[..k] + names[k + 1..])
  {
    hide EncodeValue, EncodeString;
    var rest := names[..k] + names[k + 1..];
    if k == 0 {
      assert rest == names[1..];
    } else {
      SizeWithout(v, names[1..], k - 1);
      assert rest[1..] == names[1..][..k - 1] + names[1..][k..];
    }
  }

  lemma {:induction false} SameSize(v: Value, a: seq<Text>, b: seq<Text>)
    requires NamesOf(v, a) && NamesOf(v, b) && multiset(a) == multiset(b)
    ensures |a| == |b| && TotalSize(v, a) == TotalSize(v, b)
  {
    hide TotalSize, NamesOf, EncodeString, EncodeValue;
    if a == [] {
      assert b == [] by { Emptied(b); }
    } else {
      var k, rest := Another(a, b);
      assert a[..0] + a[0 + 1..] == a[1..];
      SizeWithout(v, a, 0);
      SizeWithout(v, b, k);
      SameSize(v, a[1..], rest);
    }
  }

  lemma Emptied(b: seq<Text>)
    requires multiset([]) == multiset(b)
    ensures b == []
  {
    assert |multiset(b)| == |b|;
  }

  /** Where the first name of `a` is in `b`, and `b` without it. */
  lemma Another(a: seq<Text>, b: seq<Text>) returns (k: nat, rest: seq<Text>)
    requires a != [] && multiset(a) == multiset(b)
    ensures k < |b| && b[k] == a[0] && rest == b[..k] + b[k + 1..] && |rest| == |b| - 1
    ensures multiset(a[1..]) == multiset(rest)
  {
    assert a[0] in multiset(b);
    k :| 0 <= k < |b| && b[k] == a[0];
    rest := b[..k] + b[k + 1..];
    WithoutFirst(a);
    WithoutOne(b, k);
  }

  lemma WithoutFirst(a: seq<Text>)
    requires a != []
    ensures multiset(a[1..]) == multiset(a) - multiset{a[0]}
  {
    assert a == [a[0]] + a[1..];
  }

  lemma WithoutOne(a: seq<Text>, k: nat)
    requires k < |a|
    ensures multiset(a[..k] + a[k + 1..]) == multiset(a) - multiset{a[k]}
  {
    assert a == a[..k] + [a[k]] + a[k + 1..];
  }

  lemma {:induction false} DistinctMultiset(a: seq<Text>, b: seq<Text>)
    requires forall i, j :: 0 <= i < j < |a| ==> a[i] != a[j]
    requires forall i, j :: 0 <= i < j < |b| ==> b[i] != b[j]
    requires forall x :: x in a <==> x in b
    ensures multiset(a) == multiset(b)
  {
    forall x ensures multiset(a)[x] == multiset(b)[x] {
      CountOnce(a, x);
      CountOnce(b, x);
    }
  }

  lemma {:induction false} CountOnce(a: seq<Text>, x: Text)
    requires forall i, j :: 0 <= i < j < |a| ==> a[i] != a[j]
    ensures multiset(a)[x] == if x in a then 1 else 0
  {
    if a == [] {
    } else {
      assert a == [a[0]] + a[1..];
      assert forall i :: 0 <= i < |a| - 1 ==> a[1..][i] == a[i + 1];
      CountOnce(a[1..], x);
    }
  }

  function Names(pairs: seq<(Text, Value)>): seq<Text> {
    seq(|pairs|, i requires 0 <= i < |pairs| => pairs[i].0)
  }

  lemma ShortestObject(t: Text, v: Value, pairs: seq<(Text, Value)>)
    requires v.Obj? && Encodable(v) && pairs != [] && DistinctNames(pairs) && HoldsPairs(v.members, pairs)
    requires MembersSpell(t, pairs)
    ensures |EncodeMembers(v, KeysOf(v.members))| <= |t|
    decreases |t|, 4
  {
    hide MembersSpell, EncodeMembers, TotalSize, KeysOf, Names, DistinctNames, HoldsPairs, Encodable;
    var keys, names := KeysOf(v.members), Names(pairs);
    SameNames(v, pairs);
    SameSize(v, keys, names);
    SizeOfMembers(v, keys);
    ShortestMembers(t, v, pairs);
  }

  lemma SameNames(v: Value, pairs: seq<(Text, Value)>)
    requires v.Obj? && Encodable(v) && DistinctNames(pairs) && HoldsPairs(v.members, pairs)
    ensures var keys, names := KeysOf(v.members), Names(pairs);
      NamesOf(v, keys) && NamesOf(v, names) && multiset(keys) == multiset(names) && |names| == |pairs|
    ensures pairs != [] ==> KeysOf(v.members) != []
    ensures HeldBy(v, pairs)
  {
    hide Encodable, KeysOf, Names;
    var keys, names := KeysOf(v.members), Names(pairs);
    KeysAreDistinct(keys);
    NamesAreKeys(v.members, pairs);
    DistinctMultiset(keys, names);
    assert forall i :: 0 <= i < |keys| ==> keys[i] in keys;
    assert forall i :: 0 <= i < |names| ==> names[i] in names;
  }

  lemma NamesAreKeys(members: map<Text, Value>, pairs: seq<(Text, Value)>)
    requires DistinctNames(pairs) && HoldsPairs(members, pairs)
    ensures var names := Names(pairs);
      && |names| == |pairs| && (forall i :: 0 <= i < |pairs| ==> names[i] == pairs[i].0)
      && (forall i, j :: 0 <= i < j < |names| ==> names[i] != names[j])
      && (forall x :: x in names <==> x in members)
  {
    var names := Names(pairs);
    forall x ensures x in names <==> x in members {
      if x in members {
        var i :| 0 <= i < |pairs| && pairs[i].0 == x;
        assert names[i] == x;
      }
    }
  }

  predicate HeldBy(v: Value, pairs: seq<(Text, Value)>) {
    v.Obj? && Encodable(v)
    && forall i :: 0 <= i < |pairs| ==> pairs[i].0 in v.members && v.members[pairs[i].0] == pairs[i].1
  }

  lemma {:induction false} ShortestMembers(t: Text, v: Value, pairs: seq<(Text, Value)>)
    requires HeldBy(v, pairs) && pairs != [] && MembersSpell(t, pairs)
    ensures TotalSize(v, Names(pairs)) + |pairs| - 1 <= |t|
    decreases |t|, 3
  {
    hide MembersSpell, MemberSpells, EncodeValue, EncodeString;
    assert Names(pairs)[1..] == Names(pairs[1..]);
    if |pairs| == 1 {
      OneMember(t, pairs);
      ShortestMember(t, pairs[0].0, pairs[0].1);
    } else {
      var k := FirstMember(t, pairs);
      ShortestMember(t[..k], pairs[0].0, pairs[0].1);
      ShortestMembers(t[k + 1..], v, pairs[1..]);
    }
  }

  lemma ShortestMember(t: Text, key: Text, v: Value)
    requires MemberSpells(t, key, v) && Encodable(v) && forall i :: 0 <= i < |key| ==> key[i] >= 0
    ensures |EncodeString(key)| + 1 + |EncodeValue(v)| <= |t|
    decreases |t|, 2
  {
    hide Padded;
    var k :| 0 <= k < |t| && t[k] == 58 && Padded(t[..k], Str(key)) && Padded(t[k + 1..], v);
    ShortestPadded(t[..k], Str(key));
    hide EncodeValue;
    ShortestPadded(t[k + 1..], v);
  }
}
