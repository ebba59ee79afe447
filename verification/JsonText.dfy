/**
 JSON text over UTF-16 code units: the quoting `JSON.stringify` uses, the text of a normalized
 value, and a reader of RFC 8259 that inverts it.
 */
module JsonText {
  import opened Wrappers
  import opened Utf16

  /**
   What can be handed to the serializer. A finite number is the token ECMAScript prints for it. A hole is
   an index of an array that holds nothing; it is no value of its own.
   */
  datatype Value =
    | Undefined
    | Hole
    | Null
    | Bool(b: bool)
    | Number(token: JsString)
    | NonFinite
    | Str(s: JsString)
    | Arr(items: seq<Value>)
    | Obj(members: seq<Member>)
    | Unsupported(kind: string)

  datatype Member = Member(key: JsString, value: Value)

  const QUOTE: CodeUnit := 0x22
  const BACKSLASH: CodeUnit := 0x5C
  const COMMA: CodeUnit := 0x2C
  const COLON: CodeUnit := 0x3A
  const OPEN_ARRAY: CodeUnit := 0x5B
  const CLOSE_ARRAY: CodeUnit := 0x5D
  const OPEN_OBJECT: CodeUnit := 0x7B
  const CLOSE_OBJECT: CodeUnit := 0x7D
  const TRUE: JsString := [0x74, 0x72, 0x75, 0x65]
  const FALSE: JsString := [0x66, 0x61, 0x6C, 0x73, 0x65]
  const NULL: JsString := [0x6E, 0x75, 0x6C, 0x6C]

  // ---- Quoting ----

  function HexDigit(n: int): CodeUnit
    requires 0 <= n < 16
  {
    if n < 10 then 0x30 + n else 0x61 + (n - 10)
  }

  function UnicodeEscape(u: CodeUnit): JsString {
    [BACKSLASH, 0x75, HexDigit(u / 0x1000), HexDigit(u / 0x100 % 0x10), HexDigit(u / 0x10 % 0x10), HexDigit(u % 0x10)]
  }

  /** One code unit that is not half of a surrogate pair. */
  function EscapedUnit(u: CodeUnit): JsString {
    if u == 0x08 then [BACKSLASH, 0x62]
    else if u == 0x09 then [BACKSLASH, 0x74]
    else if u == 0x0A then [BACKSLASH, 0x6E]
    else if u == 0x0C then [BACKSLASH, 0x66]
    else if u == 0x0D then [BACKSLASH, 0x72]
    else if u == QUOTE then [BACKSLASH, QUOTE]
    else if u == BACKSLASH then [BACKSLASH, BACKSLASH]
    else if u < 0x20 || IsHighSurrogate(u) || IsLowSurrogate(u) then UnicodeEscape(u)
    else [u]
  }

  function Escaped(s: JsString): JsString {
    if s == [] then []
    else if |s| > 1 && IsHighSurrogate(s[0]) && IsLowSurrogate(s[1]) then s[..2] + Escaped(s[2..])
    else EscapedUnit(s[0]) + Escaped(s[1..])
  }

  function Quoted(s: JsString): JsString {
    [QUOTE] + Escaped(s) + [QUOTE]
  }

  // ---- Numbers: section 6 of RFC 8259 ----

  predicate IsDigit(u: int) { 0x30 <= u <= 0x39 }

  predicate IsNumberUnit(u: int) {
    IsDigit(u) || u == 0x2D || u == 0x2B || u == 0x2E || u == 0x65 || u == 0x45
  }

  function DigitRun(s: JsString): (n: nat)
    ensures n <= |s| && forall i :: 0 <= i < n ==> IsDigit(s[i])
  {
    if s != [] && IsDigit(s[0]) then 1 + DigitRun(s[1..]) else 0
  }

  predicate IsExponent(s: JsString) {
    s == [] ||
    ((s[0] == 0x65 || s[0] == 0x45) &&
     var digits := if |s| > 1 && (s[1] == 0x2B || s[1] == 0x2D) then s[2..] else s[1..];
     digits != [] && DigitRun(digits) == |digits|)
  }

  predicate IsFraction(s: JsString) {
    if s != [] && s[0] == 0x2E then
      var n := DigitRun(s[1..]);
      n > 0 && IsExponent(s[1 + n..])
    else IsExponent(s)
  }

  predicate IsUnsignedNumber(s: JsString) {
    var n := DigitRun(s);
    n > 0 && (s[0] == 0x30 ==> n == 1) && IsFraction(s[n..])
  }

  predicate IsNumberToken(s: JsString) {
    s != [] && (forall i :: 0 <= i < |s| ==> IsNumberUnit(s[i])) &&
    IsUnsignedNumber(if s[0] == 0x2D then s[1..] else s)
  }

  // ---- The text of a value with nothing left to normalize ----

  predicate Plain(v: Value) {
    match v
    case Undefined => false
    case Hole => false
    case NonFinite => false
    case Unsupported(_) => false
    case Number(token) => IsNumberToken(token)
    case Arr(items) => forall i :: 0 <= i < |items| ==> Plain(items[i])
    case Obj(members) =>
      DistinctKeys(members) && forall i :: 0 <= i < |members| ==> Plain(members[i].value)
    case _ => true
  }

  predicate HoleFree(v: Value) {
    match v
    case Hole => false
    case Arr(items) => forall i :: 0 <= i < |items| ==> HoleFree(items[i])
    case Obj(members) => forall i :: 0 <= i < |members| ==> HoleFree(members[i].value)
    case _ => true
  }

  /** Plain but for holes, and no array consists of a single hole. */
  predicate Legible(v: Value) {
    match v
    case Undefined => false
    case Hole => false
    case NonFinite => false
    case Unsupported(_) => false
    case Number(token) => IsNumberToken(token)
    case Arr(items) => items != [Hole] && forall i :: 0 <= i < |items| ==> items[i].Hole? || Legible(items[i])
    case Obj(members) =>
      DistinctKeys(members) && forall i :: 0 <= i < |members| ==> Legible(members[i].value)
    case _ => true
  }

  predicate DistinctKeys(members: seq<Member>) {
    forall i, j :: 0 <= i < j < |members| ==> members[i].key != members[j].key
  }

  function Text(v: Value): JsString
    decreases v, 1
  {
    match v
    case Null => NULL
    case Bool(b) => if b then TRUE else FALSE
    case Number(token) => token
    case Str(s) => Quoted(s)
    case Arr(items) => if items == [] then [OPEN_ARRAY, CLOSE_ARRAY] else [OPEN_ARRAY] + ElementsText(items)
    case Obj(members) => if members == [] then [OPEN_OBJECT, CLOSE_OBJECT] else [OPEN_OBJECT] + MembersText(members)
    case _ => []
  }

  /** The elements, their commas, and the closing bracket. */
  function ElementsText(items: seq<Value>): JsString
    requires items != []
    decreases items, 0
  {
    Text(items[0]) + if |items| == 1 then [CLOSE_ARRAY] else [COMMA] + ElementsText(items[1..])
  }

  function MembersText(members: seq<Member>): JsString
    requires members != []
    decreases members, 0, 1
  {
    Quoted(members[0].key) + [COLON] + Text(members[0].value) + TailText(members)
  }

  function TailText(members: seq<Member>): JsString
    requires members != []
    decreases members, 0, 0
  {
    if |members| == 1 then [CLOSE_OBJECT] else [COMMA] + MembersText(members[1..])
  }

  // ---- The reader ----

  datatype Parsed<T> = Fail | Got(value: T, rest: JsString)

  function SkipSpace(s: JsString): (r: JsString)
    ensures |r| <= |s|
  {
    if s != [] && (s[0] == 0x20 || s[0] == 0x09 || s[0] == 0x0A || s[0] == 0x0D) then SkipSpace(s[1..]) else s
  }

  function HexValue(u: int): int {
    if 0x30 <= u <= 0x39 then u - 0x30
    else if 0x61 <= u <= 0x66 then u - 0x61 + 10
    else if 0x41 <= u <= 0x46 then u - 0x41 + 10
    else -1
  }

  /** One character of a string, after its opening quote: section 7 of RFC 8259. */
  function ReadUnit(s: JsString): (r: Parsed<CodeUnit>)
    ensures r.Got? ==> |r.rest| < |s|
  {
    if s == [] || s[0] < 0x20 || s[0] == QUOTE then Fail
    else if s[0] != BACKSLASH then Got(s[0], s[1..])
    else if |s| < 2 then Fail
    else if s[1] == QUOTE || s[1] == BACKSLASH || s[1] == 0x2F then Got(s[1], s[2..])
    else if s[1] == 0x62 then Got(0x08, s[2..])
    else if s[1] == 0x66 then Got(0x0C, s[2..])
    else if s[1] == 0x6E then Got(0x0A, s[2..])
    else if s[1] == 0x72 then Got(0x0D, s[2..])
    else if s[1] == 0x74 then Got(0x09, s[2..])
    else if s[1] == 0x75 && |s| >= 6 then
      var a, b, c, d := HexValue(s[2]), HexValue(s[3]), HexValue(s[4]), HexValue(s[5]);
      if a < 0 || b < 0 || c < 0 || d < 0 then Fail
      else Got(a * 0x1000 + b * 0x100 + c * 0x10 + d, s[6..])
    else Fail
  }

  function ReadString(s: JsString): (r: Parsed<JsString>)
    ensures r.Got? ==> |r.rest| < |s|
    decreases |s|
  {
    if s != [] && s[0] == QUOTE then Got([], s[1..])
    else
      match ReadUnit(s)
      case Fail => Fail
      case Got(u, rest) =>
        match ReadString(rest)
        case Fail => Fail
        case Got(us, after) => Got([u] + us, after)
  }

  function NumberRun(s: JsString): (n: nat)
    ensures n <= |s|
  {
    if s != [] && IsNumberUnit(s[0]) then 1 + NumberRun(s[1..]) else 0
  }

  function ReadWord(s: JsString, word: JsString, v: Value): (r: Parsed<Value>)
    ensures r.Got? ==> |r.rest| <= |s| - |word|
  {
    if |word| <= |s| && s[..|word|] == word then Got(v, s[|word|..]) else Fail
  }

  function ReadValue(text: JsString): (r: Parsed<Value>)
    ensures r.Got? ==> |r.rest| < |text|
    decreases |text|, 1
  {
    var s := SkipSpace(text);
    if s == [] then Fail
    else if s[0] == QUOTE then
      match ReadString(s[1..])
      case Fail => Fail
      case Got(t, rest) => Got(Str(t), rest)
    else if s[0] == OPEN_ARRAY then
      var inside := SkipSpace(s[1..]);
      if inside != [] && inside[0] == CLOSE_ARRAY then Got(Arr([]), inside[1..])
      else
        match ReadElements(s[1..])
        case Fail => Fail
        case Got(items, rest) => Got(Arr(items), rest)
    else if s[0] == OPEN_OBJECT then
      var inside := SkipSpace(s[1..]);
      if inside != [] && inside[0] == CLOSE_OBJECT then Got(Obj([]), inside[1..])
      else
        match ReadMembers(s[1..])
        case Fail => Fail
        case Got(members, rest) => if DistinctKeys(members) then Got(Obj(members), rest) else Fail
    else if s[0] == 0x74 then ReadWord(s, TRUE, Bool(true))
    else if s[0] == 0x66 then ReadWord(s, FALSE, Bool(false))
    else if s[0] == 0x6E then ReadWord(s, NULL, Null)
    else
      ReadNumber(s)
  }

  function ReadNumber(s: JsString): (r: Parsed<Value>)
    ensures r.Got? ==> |r.rest| < |s|
  {
    var n := NumberRun(s);
    if IsNumberToken(s[..n]) then Got(Number(s[..n]), s[n..]) else Fail
  }

  /** An element, or nothing before the comma or the bracket that follows. */
  function ReadElement(s: JsString): (r: Parsed<Value>)
    ensures r.Got? ==> |r.rest| <= |s|
    decreases |s|, 2
  {
    var t := SkipSpace(s);
    if t != [] && (t[0] == COMMA || t[0] == CLOSE_ARRAY) then Got(Hole, t) else ReadValue(s)
  }

  function ReadElements(s: JsString): (r: Parsed<seq<Value>>)
    ensures r.Got? ==> |r.rest| < |s|
    decreases |s|, 3
  {
    match ReadElement(s)
    case Fail => Fail
    case Got(v, after) =>
      var rest := SkipSpace(after);
      if rest == [] then Fail
      else if rest[0] == CLOSE_ARRAY then Got([v], rest[1..])
      else if rest[0] != COMMA then Fail
      else
        match ReadElements(rest[1..])
        case Fail => Fail
        case Got(vs, end) => Got([v] + vs, end)
  }

  function ReadMembers(text: JsString): (r: Parsed<seq<Member>>)
    ensures r.Got? ==> |r.rest| < |text|
    decreases |text|, 3
  {
    var s := SkipSpace(text);
    if s == [] || s[0] != QUOTE then Fail
    else
      match ReadString(s[1..])
      case Fail => Fail
      case Got(key, afterKey) =>
        var colon := SkipSpace(afterKey);
        if colon == [] || colon[0] != COLON then Fail
        else
          match ReadValue(colon[1..])
          case Fail => Fail
          case Got(v, after) =>
            var rest := SkipSpace(after);
            if rest == [] then Fail
            else if rest[0] == CLOSE_OBJECT then Got([Member(key, v)], rest[1..])
            else if rest[0] != COMMA then Fail
            else
              match ReadMembers(rest[1..])
              case Fail => Fail
              case Got(ms, end) => Got([Member(key, v)] + ms, end)
  }

  /** A whole document. An element may not be left out in JSON. */
  function Parse(text: JsString): Option<Value> {
    match ReadValue(text)
    case Fail => None
    case Got(v, rest) => if SkipSpace(rest) == [] && HoleFree(v) then Some(v) else None
  }

  // ---- Reading inverts printing ----

  lemma HexDigitInverts(n: int)
    requires 0 <= n < 16
    ensures HexValue(HexDigit(n)) == n
  {
  }

  /** The four digits of the escape weigh to the code unit. */
  lemma HexWeights(u: CodeUnit)
    ensures 0 <= u / 0x1000 < 16 && 0 <= u / 0x100 % 0x10 < 16 && 0 <= u / 0x10 % 0x10 < 16 && 0 <= u % 0x10 < 16
    ensures u / 0x1000 * 0x1000 + u / 0x100 % 0x10 * 0x100 + u / 0x10 % 0x10 * 0x10 + u % 0x10 == u
  {
  }

  lemma ReadsBackEscape(u: CodeUnit, rest: JsString)
    ensures ReadUnit(UnicodeEscape(u) + rest) == Got(u, rest)
  {
    var s := UnicodeEscape(u) + rest;
    HexWeights(u);
    var a, b, c, d := u / 0x1000, u / 0x100 % 0x10, u / 0x10 % 0x10, u % 0x10;
    HexDigitInverts(a);
    HexDigitInverts(b);
    HexDigitInverts(c);
    HexDigitInverts(d);
    assert s[0] == BACKSLASH && s[1] == 0x75;
    assert s[2] == HexDigit(a) && s[3] == HexDigit(b) && s[4] == HexDigit(c) && s[5] == HexDigit(d);
    assert s[6..] == rest;
  }

  lemma {:induction false} ReadsBackUnit(u: CodeUnit, rest: JsString)
    ensures ReadUnit(EscapedUnit(u) + rest) == Got(u, rest)
  {
    var s := EscapedUnit(u) + rest;
    if |EscapedUnit(u)| == 6 {
      ReadsBackEscape(u, rest);
    } else if |EscapedUnit(u)| == 2 {
      assert s[2..] == rest;
    } else {
      assert s[1..] == rest;
    }
  }

  lemma ReadStringStep(s: JsString, u: CodeUnit, rest: JsString)
    requires s != [] && s[0] != QUOTE && ReadUnit(s) == Got(u, rest)
    ensures ReadString(rest).Got? ==> ReadString(s) == Got([u] + ReadString(rest).value, ReadString(rest).rest)
  {
  }

  lemma EscapedUnitStart(u: CodeUnit)
    ensures EscapedUnit(u) != [] && EscapedUnit(u)[0] != QUOTE
  {
  }

  lemma ReadsBackRaw(u: CodeUnit, rest: JsString)
    requires u >= 0x20 && u != QUOTE && u != BACKSLASH
    ensures ReadUnit([u] + rest) == Got(u, rest)
  {
    assert ([u] + rest)[1..] == rest;
  }

  lemma {:induction false} ReadsBackString(s: JsString, rest: JsString)
    ensures ReadString(Escaped(s) + [QUOTE] + rest) == Got(s, rest)
    decreases |s|
  {
    if s == [] {
      var t := Escaped(s) + [QUOTE] + rest;
      assert t[0] == QUOTE && t[1..] == rest;
    } else if |s| > 1 && IsHighSurrogate(s[0]) && IsLowSurrogate(s[1]) {
      ReadsBackString(s[2..], rest);
      ReadsBackPair(s, rest);
    } else {
      ReadsBackString(s[1..], rest);
      ReadsBackFirst(s, rest);
    }
  }

  lemma EscapedFirst(s: JsString, rest: JsString)
    requires s != [] && !(|s| > 1 && IsHighSurrogate(s[0]) && IsLowSurrogate(s[1]))
    ensures Escaped(s) + [QUOTE] + rest == EscapedUnit(s[0]) + (Escaped(s[1..]) + [QUOTE] + rest)
  {
    Append3(EscapedUnit(s[0]), Escaped(s[1..]), [QUOTE], rest);
  }

  lemma Append3(a: JsString, b: JsString, c: JsString, d: JsString)
    ensures (a + b) + c + d == a + (b + c + d)
  {
  }

  lemma PairAppends(a: CodeUnit, b: CodeUnit, tail: JsString, rest: JsString)
    ensures ([a, b] + tail) + [QUOTE] + rest == [a] + ([b] + (tail + [QUOTE] + rest))
  {
  }

  lemma EscapedPair(s: JsString, rest: JsString)
    requires |s| > 1 && IsHighSurrogate(s[0]) && IsLowSurrogate(s[1])
    ensures Escaped(s) + [QUOTE] + rest == [s[0]] + ([s[1]] + (Escaped(s[2..]) + [QUOTE] + rest))
  {
    assert s[..2] == [s[0], s[1]];
    assert Escaped(s) == [s[0], s[1]] + Escaped(s[2..]);
    PairAppends(s[0], s[1], Escaped(s[2..]), rest);
  }

  lemma {:induction false} ReadsBackPair(s: JsString, rest: JsString)
    requires |s| > 1 && IsHighSurrogate(s[0]) && IsLowSurrogate(s[1])
    requires ReadString(Escaped(s[2..]) + [QUOTE] + rest) == Got(s[2..], rest)
    ensures ReadString(Escaped(s) + [QUOTE] + rest) == Got(s, rest)
  {
    var tail := Escaped(s[2..]) + [QUOTE] + rest;
    var second := [s[1]] + tail;
    ReadsBackRaw(s[1], tail);
    ReadStringStep(second, s[1], tail);
    ReadsBackRaw(s[0], second);
    ReadStringStep([s[0]] + second, s[0], second);
    EscapedPair(s, rest);
    assert [s[0]] + ([s[1]] + s[2..]) == s;
  }

  lemma {:induction false} ReadsBackFirst(s: JsString, rest: JsString)
    requires s != [] && !(|s| > 1 && IsHighSurrogate(s[0]) && IsLowSurrogate(s[1]))
    requires ReadString(Escaped(s[1..]) + [QUOTE] + rest) == Got(s[1..], rest)
    ensures ReadString(Escaped(s) + [QUOTE] + rest) == Got(s, rest)
  {
    var tail := Escaped(s[1..]) + [QUOTE] + rest;
    EscapedUnitStart(s[0]);
    ReadsBackUnit(s[0], tail);
    ReadStringStep(EscapedUnit(s[0]) + tail, s[0], tail);
    EscapedFirst(s, rest);
    assert [s[0]] + s[1..] == s;
  }

  /** The text after a value never continues a number. */
  predicate Delimits(rest: JsString) {
    rest == [] || !IsNumberUnit(rest[0])
  }

  lemma {:induction false} NumberRunStops(token: JsString, rest: JsString)
    requires (forall i :: 0 <= i < |token| ==> IsNumberUnit(token[i])) && Delimits(rest)
    ensures NumberRun(token + rest) == |token|
  {
    if token == [] {
      assert token + rest == rest;
    } else {
      assert (token + rest)[1..] == token[1..] + rest;
      NumberRunStops(token[1..], rest);
    }
  }

  lemma ReadsBackWord(word: JsString, v: Value, rest: JsString)
    requires (word, v) in {(NULL, Null), (TRUE, Bool(true)), (FALSE, Bool(false))}
    ensures ReadValue(word + rest) == Got(v, rest)
  {
    var s := word + rest;
    assert s[..|word|] == word && s[|word|..] == rest && s[0] == word[0];
    assert SkipSpace(s) == s;
  }

  lemma ReadsNumber(s: JsString)
    requires s != [] && IsNumberUnit(s[0])
    ensures ReadValue(s) == ReadNumber(s)
  {
    NumberStarts(s[0]);
    SkipsNothing(s);
  }

  lemma NumberStarts(u: CodeUnit)
    requires IsNumberUnit(u)
    ensures u != QUOTE && u != OPEN_ARRAY && u != OPEN_OBJECT && u != 0x74 && u != 0x66 && u != 0x6E
    ensures u !in {0x20, 0x09, 0x0A, 0x0D}
  {
  }

  lemma SkipsNothing(s: JsString)
    requires s != [] && s[0] !in {0x20, 0x09, 0x0A, 0x0D}
    ensures SkipSpace(s) == s
  {
  }

  lemma ReadsBackNumber(token: JsString, rest: JsString)
    requires IsNumberToken(token) && Delimits(rest)
    ensures ReadValue(token + rest) == Got(Number(token), rest)
  {
    var s := token + rest;
    NumberRunStops(token, rest);
    assert s[0] == token[0] && IsNumberUnit(token[0]);
    assert s[..|token|] == token && s[|token|..] == rest;
    ReadsNumber(s);
  }

  lemma ReadsBackQuoted(t: JsString, rest: JsString)
    ensures ReadValue(Quoted(t) + rest) == Got(Str(t), rest)
  {
    var s := Quoted(t) + rest;
    ReadsBackString(t, rest);
    assert s[0] == QUOTE && SkipSpace(s) == s;
    assert s[1..] == Escaped(t) + [QUOTE] + rest;
  }

  lemma {:induction false} ReadsBack(v: Value, rest: JsString)
    requires Legible(v) && Delimits(rest)
    ensures ReadValue(Text(v) + rest) == Got(v, rest)
    decreases v, 1
  {
    match v
    case Null => ReadsBackWord(NULL, v, rest);
    case Bool(b) => ReadsBackWord(Text(v), v, rest);
    case Number(token) => ReadsBackNumber(token, rest);
    case Str(t) => ReadsBackQuoted(t, rest);
    case Arr(items) =>
      if items == [] {
        EmptyBracketsReadBack(v, rest);
      } else {
        ReadsBackElements(items, rest);
        BracketedElements(items, rest);
      }
    case Obj(members) =>
      if members == [] {
        EmptyBracketsReadBack(v, rest);
      } else {
        ReadsBackMembers(members, rest);
        BracketedMembers(members, rest);
      }
  }

  lemma EmptyBracketsReadBack(v: Value, rest: JsString)
    requires v == Arr([]) || v == Obj([])
    ensures ReadValue(Text(v) + rest) == Got(v, rest)
  {
    var s := Text(v) + rest;
    assert SkipSpace(s) == s;
    assert s[1..] == s[1..2] + rest && SkipSpace(s[1..]) == s[1..];
    assert s[1..][1..] == rest;
  }

  lemma ArrayStep(inside: JsString, rest: JsString, items: seq<Value>)
    requires inside != [] && inside[0] !in {CLOSE_ARRAY, 0x20, 0x09, 0x0A, 0x0D}
    requires ReadElements(inside) == Got(items, rest)
    ensures ReadValue([OPEN_ARRAY] + inside) == Got(Arr(items), rest)
  {
    var s := [OPEN_ARRAY] + inside;
    assert s[0] == OPEN_ARRAY && SkipSpace(s) == s;
    assert s[1..] == inside && SkipSpace(inside) == inside;
  }

  lemma BracketedElements(items: seq<Value>, rest: JsString)
    requires items != [] && items != [Hole] && (items[0].Hole? || Legible(items[0]))
    requires ReadElements(ElementsText(items) + rest) == Got(items, rest)
    ensures ReadValue(Text(Arr(items)) + rest) == Got(Arr(items), rest)
  {
    var inside := ElementsText(items) + rest;
    ElementsSplit(items, rest);
    if items[0].Hole? {
      assert |items| > 1 && inside[0] == COMMA;
    } else {
      TextStarts(items[0]);
      assert inside[0] == Text(items[0])[0];
    }
    ArrayStep(inside, rest, items);
    Associates([OPEN_ARRAY], ElementsText(items), rest);
  }

  lemma ObjectStep(inside: JsString, rest: JsString, members: seq<Member>)
    requires inside != [] && inside[0] == QUOTE && DistinctKeys(members)
    requires ReadMembers(inside) == Got(members, rest)
    ensures ReadValue([OPEN_OBJECT] + inside) == Got(Obj(members), rest)
  {
    var s := [OPEN_OBJECT] + inside;
    assert s[0] == OPEN_OBJECT && SkipSpace(s) == s;
    assert s[1..] == inside && SkipSpace(inside) == inside;
  }

  lemma BracketedMembers(members: seq<Member>, rest: JsString)
    requires members != [] && DistinctKeys(members)
    requires ReadMembers(MembersText(members) + rest) == Got(members, rest)
    ensures ReadValue(Text(Obj(members)) + rest) == Got(Obj(members), rest)
  {
    var inside := MembersText(members) + rest;
    ObjectStep(inside, rest, members);
    Associates([OPEN_OBJECT], MembersText(members), rest);
  }

  lemma Associates(a: JsString, b: JsString, c: JsString)
    ensures (a + b) + c == a + (b + c)
  {
  }

  /** A value's text starts with neither white space nor what ends an element. */
  lemma TextStarts(v: Value)
    requires Legible(v)
    ensures Text(v) != [] && Text(v)[0] != CLOSE_ARRAY && Text(v)[0] != COMMA && SkipSpace(Text(v)) == Text(v) &&
      Text(v)[0] !in {0x20, 0x09, 0x0A, 0x0D}
  {
  }

  /** What follows the first element, with `rest` behind it. */
  function AfterElement(items: seq<Value>, rest: JsString): JsString
    requires items != []
  {
    if |items| == 1 then [CLOSE_ARRAY] + rest else [COMMA] + (ElementsText(items[1..]) + rest)
  }

  lemma ElementsSplit(items: seq<Value>, rest: JsString)
    requires items != []
    ensures ElementsText(items) + rest == Text(items[0]) + AfterElement(items, rest)
  {
    if |items| == 1 {
      Associates(Text(items[0]), [CLOSE_ARRAY], rest);
    } else {
      Associates(Text(items[0]), [COMMA] + ElementsText(items[1..]), rest);
      Associates([COMMA], ElementsText(items[1..]), rest);
    }
  }

  lemma LastElement(text: JsString, v: Value, after: JsString)
    requires ReadElement(text) == Got(v, after) && after != [] && after[0] == CLOSE_ARRAY
    ensures ReadElements(text) == Got([v], after[1..])
  {
    assert SkipSpace(after) == after;
  }

  lemma NextElement(text: JsString, v: Value, after: JsString, others: seq<Value>, rest: JsString)
    requires ReadElement(text) == Got(v, after) && after != [] && after[0] == COMMA
    requires ReadElements(after[1..]) == Got(others, rest)
    ensures ReadElements(text) == Got([v] + others, rest)
  {
    assert SkipSpace(after) == after;
  }

  lemma ReadsBackElement(v: Value, after: JsString)
    requires after != [] && (after[0] == COMMA || after[0] == CLOSE_ARRAY)
    requires v.Hole? || (Legible(v) && ReadValue(Text(v) + after) == Got(v, after))
    ensures ReadElement(Text(v) + after) == Got(v, after)
  {
    if v.Hole? {
      assert Text(v) + after == after && SkipSpace(after) == after;
    } else {
      TextStarts(v);
      SkipsNothing(Text(v) + after);
    }
  }

  lemma {:induction false} ReadsBackElements(items: seq<Value>, rest: JsString)
    requires items != [] && forall i :: 0 <= i < |items| ==> items[i].Hole? || Legible(items[i])
    ensures ReadElements(ElementsText(items) + rest) == Got(items, rest)
    decreases items, 0
  {
    var after := AfterElement(items, rest);
    if !items[0].Hole? { ReadsBack(items[0], after); }
    ReadsBackElement(items[0], after);
    ElementsSplit(items, rest);
    if |items| == 1 {
      LastElement(ElementsText(items) + rest, items[0], after);
      assert after[1..] == rest && [items[0]] == items;
    } else {
      ReadsBackElements(items[1..], rest);
      assert after[1..] == ElementsText(items[1..]) + rest;
      NextElement(ElementsText(items) + rest, items[0], after, items[1..], rest);
      assert [items[0]] + items[1..] == items;
    }
  }

  lemma {:induction false} ReadsBackMembers(members: seq<Member>, rest: JsString)
    requires members != [] && forall i :: 0 <= i < |members| ==> Legible(members[i].value)
    ensures ReadMembers(MembersText(members) + rest) == Got(members, rest)
    decreases members, 0
  {
    var after := if |members| == 1 then [CLOSE_OBJECT] + rest else [COMMA] + (MembersText(members[1..]) + rest);
    assert Delimits(after);
    ReadsBack(members[0].value, after);
    if |members| > 1 {
      ReadsBackMembers(members[1..], rest);
    }
    MembersStep(members, rest, after);
  }

  lemma MembersStep(members: seq<Member>, rest: JsString, after: JsString)
    requires members != []
    requires after == if |members| == 1 then [CLOSE_OBJECT] + rest else [COMMA] + (MembersText(members[1..]) + rest)
    requires ReadValue(Text(members[0].value) + after) == Got(members[0].value, after)
    requires |members| > 1 ==> ReadMembers(MembersText(members[1..]) + rest) == Got(members[1..], rest)
    ensures ReadMembers(MembersText(members) + rest) == Got(members, rest)
  {
    var text, fromColon := MembersTextSplit(members, rest, after);
    if |members| == 1 {
      LastMember(text, members[0].key, fromColon, members[0].value, after);
      assert after[1..] == rest;
    } else {
      CommaThen(after, MembersText(members[1..]) + rest);
      NextMember(text, members[0].key, fromColon, members[0].value, after, members[1..], rest);
    }
    HeadAndTail(members);
  }

  lemma CommaThen(after: JsString, next: JsString)
    requires after == [COMMA] + next
    ensures after[1..] == next
  {
  }

  lemma HeadAndTail(members: seq<Member>)
    requires members != []
    ensures members == [Member(members[0].key, members[0].value)] + members[1..]
    ensures |members| == 1 ==> members == [Member(members[0].key, members[0].value)]
  {
  }

  lemma LastMember(text: JsString, key: JsString, fromColon: JsString, v: Value, after: JsString)
    requires text != [] && text[0] == QUOTE && ReadString(text[1..]) == Got(key, fromColon)
    requires fromColon != [] && fromColon[0] == COLON && ReadValue(fromColon[1..]) == Got(v, after)
    requires after != [] && after[0] == CLOSE_OBJECT
    ensures ReadMembers(text) == Got([Member(key, v)], after[1..])
  {
    assert SkipSpace(text) == text && SkipSpace(fromColon) == fromColon && SkipSpace(after) == after;
  }

  lemma NextMember(text: JsString, key: JsString, fromColon: JsString, v: Value, after: JsString,
                   others: seq<Member>, rest: JsString)
    requires text != [] && text[0] == QUOTE && ReadString(text[1..]) == Got(key, fromColon)
    requires fromColon != [] && fromColon[0] == COLON && ReadValue(fromColon[1..]) == Got(v, after)
    requires after != [] && after[0] == COMMA && ReadMembers(after[1..]) == Got(others, rest)
    ensures ReadMembers(text) == Got([Member(key, v)] + others, rest)
  {
    assert SkipSpace(text) == text && SkipSpace(fromColon) == fromColon && SkipSpace(after) == after;
  }

  lemma MembersTextSplit(members: seq<Member>, rest: JsString, after: JsString)
      returns (text: JsString, fromColon: JsString)
    requires members != []
    requires after == if |members| == 1 then [CLOSE_OBJECT] + rest else [COMMA] + (MembersText(members[1..]) + rest)
    ensures text == MembersText(members) + rest
    ensures text != [] && text[0] == QUOTE && ReadString(text[1..]) == Got(members[0].key, fromColon)
    ensures fromColon != [] && fromColon[0] == COLON && fromColon[1..] == Text(members[0].value) + after
  {
    var key, value := members[0].key, Text(members[0].value);
    var tail := TailText(members);
    text := MembersText(members) + rest;
    Regroup(Escaped(key), value, tail, rest);
    TailTextFollows(members, rest);
    fromColon := [COLON] + (value + after);
    ReadsBackString(key, fromColon);
  }

  lemma TailTextFollows(members: seq<Member>, rest: JsString)
    requires members != []
    ensures TailText(members) + rest ==
      if |members| == 1 then [CLOSE_OBJECT] + rest else [COMMA] + (MembersText(members[1..]) + rest)
  {
    if |members| > 1 {
      Associates([COMMA], MembersText(members[1..]), rest);
    }
  }

  lemma Regroup(key: JsString, value: JsString, tail: JsString, rest: JsString)
    ensures ([QUOTE] + key + [QUOTE]) + [COLON] + value + tail + rest ==
      [QUOTE] + (key + [QUOTE] + ([COLON] + (value + (tail + rest))))
  {
  }

  /** Main result: no two values with the same text, holes or not, when no array is a single hole. */
  lemma TextIsInjective(v: Value, w: Value)
    requires Legible(v) && Legible(w) && Text(v) == Text(w)
    ensures v == w
  {
    ReadsBack(v, []);
    ReadsBack(w, []);
    assert Text(v) + [] == Text(v) == Text(w) + [];
  }

  // ---- What is read without a hole is plain ----

  lemma {:induction false} ValuesReadArePlain(text: JsString)
    requires ReadValue(text).Got? && HoleFree(ReadValue(text).value)
    ensures Plain(ReadValue(text).value)
    decreases |text|, 1
  {
    var s := SkipSpace(text);
    if s[0] == OPEN_ARRAY && ReadElements(s[1..]).Got? && ReadValue(text).value == Arr(ReadElements(s[1..]).value) {
      ElementsReadArePlain(s[1..]);
    }
    if s[0] == OPEN_OBJECT && ReadMembers(s[1..]).Got? && ReadValue(text).value == Obj(ReadMembers(s[1..]).value) {
      MembersReadArePlain(s[1..]);
    }
  }

  lemma {:induction false} ElementsReadArePlain(s: JsString)
    requires ReadElements(s).Got? && forall i :: 0 <= i < |ReadElements(s).value| ==> HoleFree(ReadElements(s).value[i])
    ensures forall i :: 0 <= i < |ReadElements(s).value| ==> Plain(ReadElements(s).value[i])
    decreases |s|, 2
  {
    var vs := ReadElements(s).value;
    assert HoleFree(vs[0]) && ReadElement(s) == ReadValue(s);
    ValuesReadArePlain(s);
    var rest := SkipSpace(ReadValue(s).rest);
    if rest[0] == COMMA {
      assert vs[1..] == ReadElements(rest[1..]).value;
      ElementsReadArePlain(rest[1..]);
    }
  }

  lemma {:induction false} MembersReadArePlain(text: JsString)
    requires ReadMembers(text).Got?
    requires forall i :: 0 <= i < |ReadMembers(text).value| ==> HoleFree(ReadMembers(text).value[i].value)
    ensures forall i :: 0 <= i < |ReadMembers(text).value| ==> Plain(ReadMembers(text).value[i].value)
    decreases |text|, 2
  {
    var ms := ReadMembers(text).value;
    var s := SkipSpace(text);
    var colon := SkipSpace(ReadString(s[1..]).rest);
    assert HoleFree(ms[0].value);
    ValuesReadArePlain(colon[1..]);
    var rest := SkipSpace(ReadValue(colon[1..]).rest);
    if rest[0] == COMMA {
      assert ms[1..] == ReadMembers(rest[1..]).value;
      MembersReadArePlain(rest[1..]);
    }
  }

  lemma {:induction false} PlainIff(v: Value)
    ensures Plain(v) <==> Legible(v) && HoleFree(v)
  {
    match v
    case Arr(items) =>
      forall i | 0 <= i < |items|
        ensures Plain(items[i]) <==> Legible(items[i]) && HoleFree(items[i])
      {
        PlainIff(items[i]);
      }
      assert items == [Hole] ==> !Plain(items[0]) && !HoleFree(items[0]);
    case Obj(members) =>
      forall i | 0 <= i < |members|
        ensures Plain(members[i].value) <==> Legible(members[i].value) && HoleFree(members[i].value)
      {
        PlainIff(members[i].value);
      }
    case _ =>
  }

  /** Main result: the reader returns the value whose text it is given exactly when that value is plain. */
  lemma ParseInvertsText(v: Value)
    ensures Parse(Text(v)) == Some(v) <==> Plain(v)
  {
    if Plain(v) {
      PlainIff(v);
      ReadsBack(v, []);
      assert Text(v) + [] == Text(v);
    }
    if Parse(Text(v)) == Some(v) {
      ValuesReadArePlain(Text(v));
    }
  }
}
