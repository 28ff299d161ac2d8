/**
 Canonical JSON v1 (`canonical_identity.py`): values, the encoder, and a parser with the
 grammar of RFC 8259, sections 3 to 7, as Python's `json.loads` reads it.  Texts are
 sequences of code points; which strings are in NFC is a parameter.
 */
module CanonicalJson {
  import opened Wrappers
  import opened Sorting

  type Text = seq<int>

  datatype Value =
    | Null
    | Bool(b: bool)
    | Int(n: int)
    | Str(s: Text)
    | Arr(items: seq<Value>)
    | Obj(members: map<Text, Value>)

  const SAFE_INTEGER := 9_007_199_254_740_991

  datatype Code =
    | BomNotAllowed | InvalidJson | DuplicateKey | FloatNotAllowed | NonJsonNumber
    | InvalidValue | NonCanonicalBytes

  // ---------- Validation ----------

  predicate ValidString(nfc: Text -> bool, s: Text) {
    (forall i :: 0 <= i < |s| ==> 0 <= s[i] < 0x80) ||
    ((forall i :: 0 <= i < |s| ==> 0 <= s[i] < 0x11_0000 && !(0xD800 <= s[i] <= 0xDFFF)) && nfc(s))
  }

  predicate Valid(nfc: Text -> bool, v: Value) {
    match v
    case Null => false
    case Bool(_) => true
    case Int(n) => -SAFE_INTEGER <= n <= SAFE_INTEGER
    case Str(s) => ValidString(nfc, s)
    case Arr(items) => forall i :: 0 <= i < |items| ==> Valid(nfc, items[i])
    case Obj(members) => forall k :: k in members ==> ValidString(nfc, k) && Valid(nfc, members[k])
  }

  /** What the encoder accepts without validation. */
  predicate Encodable(v: Value) {
    match v
    case Null => false
    case Bool(_) => true
    case Int(_) => true
    case Str(s) => forall i :: 0 <= i < |s| ==> s[i] >= 0
    case Arr(items) => forall i :: 0 <= i < |items| ==> Encodable(items[i])
    case Obj(members) => forall k :: k in members ==> (forall i :: 0 <= i < |k| ==> k[i] >= 0) && Encodable(members[k])
  }

  lemma ValidIsEncodable(nfc: Text -> bool, v: Value)
    requires Valid(nfc, v)
    ensures Encodable(v)
  {
    match v
    case Arr(items) => forall i | 0 <= i < |items| ensures Encodable(items[i]) { ValidIsEncodable(nfc, items[i]); }
    case Obj(members) => forall k | k in members ensures Encodable(members[k]) { ValidIsEncodable(nfc, members[k]); }
    case _ =>
  }

  // ---------- The encoder ----------

  function HexDigit(d: int): int
    requires 0 <= d < 16
  {
    if d < 10 then 48 + d else 87 + d
  }

  function EscapeChar(c: int): Text
    requires c >= 0
  {
    if c == 34 then [92, 34]
    else if c == 92 then [92, 92]
    else if c == 8 then [92, 98]
    else if c == 9 then [92, 116]
    else if c == 10 then [92, 110]
    else if c == 12 then [92, 102]
    else if c == 13 then [92, 114]
    else if c < 32 then [92, 117, 48, 48, HexDigit(c / 16), HexDigit(c % 16)]
    else [c]
  }

  function Escape(s: Text): Text
    requires forall i :: 0 <= i < |s| ==> s[i] >= 0
  {
    if s == [] then [] else EscapeChar(s[0]) + Escape(s[1..])
  }

  function EncodeString(s: Text): Text
    requires forall i :: 0 <= i < |s| ==> s[i] >= 0
  {
    [34] + Escape(s) + [34]
  }

  function Digits(n: nat): Text {
    if n < 10 then [48 + n] else Digits(n / 10) + [48 + n % 10]
  }

  function EncodeInt(n: int): Text {
    if n < 0 then [45] + Digits(-n) else Digits(n)
  }

  function KeysOf(members: map<Text, Value>): (keys: seq<Text>)
    ensures Sorted(LexLess, keys) && forall k :: k in keys <==> k in members
  {
    LexIsStrictTotal();
    SortSet(LexLess, members.Keys)
  }

  function EncodeValue(v: Value): Text
    requires Encodable(v)
    decreases v, 1
  {
    match v
    case Bool(b) => if b then Codes("true") else Codes("false")
    case Int(n) => EncodeInt(n)
    case Str(s) => EncodeString(s)
    case Arr(items) => [91] + EncodeItems(v, 0) + [93]
    case Obj(members) => [123] + EncodeMembers(v, KeysOf(members)) + [125]
  }

  /** The items from `i` on, joined by commas. */
  function EncodeItems(v: Value, i: nat): Text
    requires v.Arr? && Encodable(v) && i <= |v.items|
    decreases v, 0, |v.items| - i
  {
    if i == |v.items| then []
    else (if i > 0 then [44] else []) + EncodeValue(v.items[i]) + EncodeItems(v, i + 1)
  }

  /** These members, joined by commas. */
  function EncodeMembers(v: Value, keys: seq<Text>): Text
    requires v.Obj? && Encodable(v) && forall k :: k in keys ==> k in v.members
    decreases v, 0, |keys|
  {
    if keys == [] then []
    else
      EncodeString(keys[0]) + [58] + EncodeValue(v.members[keys[0]])
      + (if |keys| > 1 then [44] else []) + EncodeMembers(v, keys[1..])
  }

  /** `canonical_json_bytes` of a validated value. */
  function Canonical(v: Value): Text
    requires Encodable(v)
  {
    EncodeValue(v) + [10]
  }

  // ---------- The parser ----------

  datatype P<T> = Parsed(value: T, rest: Text) | Failed(code: Code)

  function SkipWs(s: Text): (r: Text)
    ensures |r| <= |s|
  {
    if s != [] && (s[0] == 32 || s[0] == 9 || s[0] == 10 || s[0] == 13) then SkipWs(s[1..]) else s
  }

  function HexValue(c: int): int {
    if 48 <= c <= 57 then c - 48
    else if 97 <= c <= 102 then c - 87
    else if 65 <= c <= 70 then c - 55
    else -1
  }

  /** Four hexadecimal digits. */
  function ParseHex4(s: Text): Option<int> {
    if |s| < 4 || HexValue(s[0]) < 0 || HexValue(s[1]) < 0 || HexValue(s[2]) < 0 || HexValue(s[3]) < 0 then None
    else Some(((HexValue(s[0]) * 16 + HexValue(s[1])) * 16 + HexValue(s[2])) * 16 + HexValue(s[3]))
  }

  /** One escape after its backslash: the code point and what follows. */
  function ParseEscape(s: Text): (r: P<int>)
    ensures r.Parsed? ==> |r.rest| < |s|
  {
    if s == [] then Failed(InvalidJson)
    else if s[0] == 34 || s[0] == 92 || s[0] == 47 then Parsed(s[0], s[1..])
    else if s[0] == 98 then Parsed(8, s[1..])
    else if s[0] == 102 then Parsed(12, s[1..])
    else if s[0] == 110 then Parsed(10, s[1..])
    else if s[0] == 114 then Parsed(13, s[1..])
    else if s[0] == 116 then Parsed(9, s[1..])
    else if s[0] != 117 then Failed(InvalidJson)
    else match ParseHex4(s[1..])
      case None => Failed(InvalidJson)
      case Some(u) =>
        var rest := s[5..];
        if 0xD800 <= u <= 0xDBFF && |rest| >= 2 && rest[0] == 92 && rest[1] == 117 then
          match ParseHex4(rest[2..])
          case None => Failed(InvalidJson)
          case Some(u2) =>
            if 0xDC00 <= u2 <= 0xDFFF then Parsed(0x10000 + (u - 0xD800) * 0x400 + (u2 - 0xDC00), rest[6..])
            else Parsed(u, rest)
        else Parsed(u, rest)
  }

  /** A string body up to and including its closing quote. */
  function ParseString(s: Text): (r: P<Text>)
    ensures r.Parsed? ==> |r.rest| < |s|
    decreases |s|
  {
    if s == [] then Failed(InvalidJson)
    else if s[0] == 34 then Parsed([], s[1..])
    else if s[0] == 92 then
      match ParseEscape(s[1..])
      case Failed(c) => Failed(c)
      case Parsed(u, rest) =>
        (match ParseString(rest)
         case Failed(c) => Failed(c)
         case Parsed(t, rest') => Parsed([u] + t, rest'))
    else if s[0] < 32 then Failed(InvalidJson)
    else
      match ParseString(s[1..])
      case Failed(c) => Failed(c)
      case Parsed(t, rest) => Parsed([s[0]] + t, rest)
  }

  predicate IsDigit(c: int) { 48 <= c <= 57 }

  /** The longest run of digits. */
  function DigitRun(s: Text): (n: nat)
    ensures n <= |s|
  {
    if s != [] && IsDigit(s[0]) then 1 + DigitRun(s[1..]) else 0
  }

  function DecimalValue(s: Text): int {
    if s == [] then 0 else DecimalValue(s[..|s| - 1]) * 10 + (s[|s| - 1] - 48)
  }

  predicate StartsWith(s: Text, prefix: Text) {
    prefix <= s
  }

  /** A fraction or exponent right here makes the number a float. */
  predicate FloatTail(s: Text) {
    || (|s| >= 2 && s[0] == 46 && IsDigit(s[1]))
    || (|s| >= 2 && (s[0] == 101 || s[0] == 69) && IsDigit(s[1]))
    || (|s| >= 3 && (s[0] == 101 || s[0] == 69) && (s[1] == 43 || s[1] == 45) && IsDigit(s[2]))
  }

  function ParseNumber(s: Text): (r: P<Value>)
    ensures r.Parsed? ==> |r.rest| < |s|
  {
    var negative := s != [] && s[0] == 45;
    var body := if negative then s[1..] else s;
    var run := if body != [] && body[0] == 48 then 1 else DigitRun(body);
    if run == 0 then Failed(InvalidJson)
    else if FloatTail(body[run..]) then Failed(FloatNotAllowed)
    else
      var magnitude := DecimalValue(body[..run]);
      Parsed(Int(if negative then -magnitude else magnitude), body[run..])
  }

  /** `_pairs_to_object`. */
  function PairsToObject(pairs: seq<(Text, Value)>): Option<map<Text, Value>> {
    if pairs == [] then Some(map[])
    else
      var last := pairs[|pairs| - 1];
      match PairsToObject(pairs[..|pairs| - 1])
      case None => None
      case Some(m) => if last.0 in m then None else Some(m[last.0 := last.1])
  }

  function ParseValue(s: Text): (r: P<Value>)
    ensures r.Parsed? ==> |r.rest| < |s|
    decreases |s|, 0
  {
    if s == [] then Failed(InvalidJson)
    else if s[0] == 34 then
      (match ParseString(s[1..])
       case Failed(c) => Failed(c)
       case Parsed(t, rest) => Parsed(Str(t), rest))
    else if s[0] == 123 then
      var t := SkipWs(s[1..]);
      if t != [] && t[0] == 125 then Parsed(Obj(map[]), t[1..])
      else
        (match ParseMembers(t)
         case Failed(c) => Failed(c)
         case Parsed(pairs, rest) =>
           match PairsToObject(pairs)
           case None => Failed(DuplicateKey)
           case Some(m) => Parsed(Obj(m), rest))
    else if s[0] == 91 then
      var t := SkipWs(s[1..]);
      if t != [] && t[0] == 93 then Parsed(Arr([]), t[1..])
      else
        (match ParseItems(t)
         case Failed(c) => Failed(c)
         case Parsed(items, rest) => Parsed(Arr(items), rest))
    else if StartsWith(s, Codes("null")) then Parsed(Null, s[4..])
    else if StartsWith(s, Codes("true")) then Parsed(Bool(true), s[4..])
    else if StartsWith(s, Codes("false")) then Parsed(Bool(false), s[5..])
    else if StartsWith(s, Codes("NaN")) || StartsWith(s, Codes("Infinity")) || StartsWith(s, Codes("-Infinity"))
      then Failed(NonJsonNumber)
    else ParseNumber(s)
  }

  /** `value (ws , ws value)* ws ]`. */
  function ParseItems(s: Text): (r: P<seq<Value>>)
    ensures r.Parsed? ==> |r.rest| < |s|
    decreases |s|, 1
  {
    match ParseValue(s)
    case Failed(c) => Failed(c)
    case Parsed(v, rest) =>
      var t := SkipWs(rest);
      if t == [] then Failed(InvalidJson)
      else if t[0] == 93 then Parsed([v], t[1..])
      else if t[0] != 44 then Failed(InvalidJson)
      else
        match ParseItems(SkipWs(t[1..]))
        case Failed(c) => Failed(c)
        case Parsed(vs, rest') => Parsed([v] + vs, rest')
  }

  /** `"key" ws : ws value (ws , ws "key" ...)* ws }`. */
  function ParseMembers(s: Text): (r: P<seq<(Text, Value)>>)
    ensures r.Parsed? ==> |r.rest| < |s|
    decreases |s|, 1
  {
    if s == [] || s[0] != 34 then Failed(InvalidJson)
    else match ParseString(s[1..])
      case Failed(c) => Failed(c)
      case Parsed(k, afterKey) =>
        var colon := SkipWs(afterKey);
        if colon == [] || colon[0] != 58 then Failed(InvalidJson)
        else
          (match ParseValue(SkipWs(colon[1..]))
           case Failed(c) => Failed(c)
           case Parsed(v, rest) =>
             var t := SkipWs(rest);
             if t == [] then Failed(InvalidJson)
             else if t[0] == 125 then Parsed([(k, v)], t[1..])
             else if t[0] != 44 then Failed(InvalidJson)
             else
               match ParseMembers(SkipWs(t[1..]))
               case Failed(c) => Failed(c)
               case Parsed(more, rest') => Parsed([(k, v)] + more, rest'))
  }

  /** `strict_parse_json`. */
  function StrictParse(nfc: Text -> bool, source: Text): Result<Value, Code> {
    if source != [] && source[0] == 0xFEFF then Err(BomNotAllowed)
    else
      match ParseValue(SkipWs(source))
      case Failed(c) => Err(c)
      case Parsed(v, rest) =>
        if SkipWs(rest) != [] then Err(InvalidJson)
        else if !Valid(nfc, v) then Err(InvalidValue)
        else Ok(v)
  }

  /** `verify_canonical_json_bytes`. */
  function Verify(nfc: Text -> bool, source: Text): Result<Value, Code> {
    match StrictParse(nfc, source)
    case Err(c) => Err(c)
    case Ok(v) =>
      ValidIsEncodable(nfc, v);
      if Canonical(v) != source then Err(NonCanonicalBytes) else Ok(v)
  }
}
