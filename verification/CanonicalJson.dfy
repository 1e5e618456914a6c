/** The canonical JSON text that is hashed (stableStringify in src/modules/audit/audit-integrity.ts).

    Strings are sequences of UTF-16 code units, as in the program, and numbers are kept as their text. A parser for
    the grammar of sections 3 to 7 of RFC 8259 (without optional white space) recovers a value from its text,
    so two texts are equal exactly when the values are equal up to the order of object keys. */
module CanonicalJson {
  type CodeUnit = u: int | 0 <= u < 0x1_0000

  type Text = seq<CodeUnit>

  datatype Json =
    | Null
    | Bool(b: bool)
    | Number(token: Text)
    | String(s: Text)
    | Array(elements: seq<Json>)
    | Object(members: seq<Member>)

  datatype Member = Member(key: Text, value: Json)

  const QUOTE: CodeUnit := 34
  const PLUS: CodeUnit := 43
  const COMMA: CodeUnit := 44
  const MINUS: CodeUnit := 45
  const DOT: CodeUnit := 46
  const COLON: CodeUnit := 58
  const OPEN_BRACKET: CodeUnit := 91
  const BACKSLASH: CodeUnit := 92
  const CLOSE_BRACKET: CodeUnit := 93
  const OPEN_BRACE: CodeUnit := 123
  const CLOSE_BRACE: CodeUnit := 125
  const NULL_TEXT: Text := [110, 117, 108, 108]
  const TRUE_TEXT: Text := [116, 114, 117, 101]
  const FALSE_TEXT: Text := [102, 97, 108, 115, 101]

  predicate NumberUnit(u: CodeUnit) {
    48 <= u <= 57 || u == PLUS || u == MINUS || u == DOT || u == 69 || u == 101
  }

  predicate Digit(u: CodeUnit) { 48 <= u <= 57 }

  /** Where the run of digits from place i ends. */
  function SkipDigits(t: Text, i: nat): (end: nat)
    requires i <= |t|
    ensures i <= end <= |t|
    ensures forall k | i <= k < end :: Digit(t[k])
    ensures end < |t| ==> !Digit(t[end])
    decreases |t| - i
  {
    if i < |t| && Digit(t[i]) then SkipDigits(t, i + 1) else i
  }

  /** The exponent part of a number, which may be missing. */
  predicate IsExponent(t: Text, i: nat)
    requires i <= |t|
    ensures IsExponent(t, i) ==> forall k | i <= k < |t| :: NumberUnit(t[k])
  {
    if i == |t| then true
    else
      var digits := if i + 1 < |t| && (t[i + 1] == PLUS || t[i + 1] == MINUS) then i + 2 else i + 1;
      (t[i] == 69 || t[i] == 101) && digits < |t| && SkipDigits(t, digits) == |t|
  }

  /** The fraction part of a number, which may be missing, and what follows it. */
  predicate IsFraction(t: Text, i: nat)
    requires i <= |t|
    ensures IsFraction(t, i) ==> forall k | i <= k < |t| :: NumberUnit(t[k])
  {
    if i < |t| && t[i] == DOT then
      var end := SkipDigits(t, i + 1);
      end > i + 1 && IsExponent(t, end)
    else IsExponent(t, i)
  }

  /** The number of section 6 of RFC 8259: an optional minus, an integer without leading zeros, fraction, exponent. */
  predicate IsNumber(t: Text)
    ensures IsNumber(t) ==> t != [] && forall k | 0 <= k < |t| :: NumberUnit(t[k])
  {
    var start := if t != [] && t[0] == MINUS then 1 else 0;
    var end := SkipDigits(t, start);
    end > start && (t[start] == 48 ==> end == start + 1) && IsFraction(t, end)
  }

  /** A JSON value: number tokens are numbers and no object repeats a key. */
  ghost predicate WellFormed(v: Json) {
    match v
    case Number(token) => IsNumber(token)
    case Array(es) => forall i | 0 <= i < |es| :: WellFormed(es[i])
    case Object(ms) => DistinctKeys(ms) && forall i | 0 <= i < |ms| :: WellFormed(ms[i].value)
    case _ => true
  }

  ghost predicate DistinctKeys(ms: seq<Member>) {
    forall i, j | 0 <= i < j < |ms| :: ms[i].key != ms[j].key
  }

  /** Equality up to the order of object keys. */
  ghost predicate Equivalent(v: Json, w: Json) {
    match v
    case Array(es) =>
      w.Array? && |es| == |w.elements| && forall i | 0 <= i < |es| :: Equivalent(es[i], w.elements[i])
    case Object(ms) =>
      && w.Object? && SameKeys(ms, w.members)
      && forall i, j | 0 <= i < |ms| && 0 <= j < |w.members| && ms[i].key == w.members[j].key ::
           Equivalent(ms[i].value, w.members[j].value)
    case _ => v == w
  }

  ghost predicate HasKey(ms: seq<Member>, key: Text) {
    exists i | 0 <= i < |ms| :: ms[i].key == key
  }

  ghost predicate SameKeys(ms: seq<Member>, ns: seq<Member>) {
    forall key :: HasKey(ms, key) <==> HasKey(ns, key)
  }

  // ---- Strings -----------------------------------------------------------------------------------------

  predicate Lead(u: CodeUnit) { 0xD800 <= u < 0xDC00 }

  predicate Trail(u: CodeUnit) { 0xDC00 <= u < 0xE000 }

  function HexDigit(d: int): CodeUnit
    requires 0 <= d < 16
  {
    if d < 10 then 48 + d else 87 + d
  }

  function HexValue(u: CodeUnit): int {
    if 48 <= u <= 57 then u - 48 else if 97 <= u <= 102 then u - 87 else if 65 <= u <= 70 then u - 55 else -1
  }

  function EscapeUnit(u: CodeUnit): Text {
    if u == QUOTE || u == BACKSLASH then [BACKSLASH, u]
    else if u == 8 then [BACKSLASH, 98]
    else if u == 9 then [BACKSLASH, 116]
    else if u == 10 then [BACKSLASH, 110]
    else if u == 12 then [BACKSLASH, 102]
    else if u == 13 then [BACKSLASH, 114]
    else if u < 0x20 || Lead(u) || Trail(u) then
      [BACKSLASH, 117, HexDigit(u / 0x1000), HexDigit(u / 0x100 % 0x10), HexDigit(u / 0x10 % 0x10), HexDigit(u % 0x10)]
    else [u]
  }

  /** JSON.stringify of the characters: surrogate pairs stay, lone surrogates are escaped. */
  function Escape(s: Text): Text {
    if s == [] then []
    else if |s| > 1 && Lead(s[0]) && Trail(s[1]) then [s[0], s[1]] + Escape(s[2..])
    else EscapeUnit(s[0]) + Escape(s[1..])
  }

  function Quote(s: Text): Text {
    [QUOTE] + Escape(s) + [QUOTE]
  }

  // ---- Key order -----------------------------------------------------------------------------------------

  /** Comparison of strings by code unit, the order of the sort. */
  predicate Less(a: Text, b: Text) {
    b != [] && (a == [] || a[0] < b[0] || (a[0] == b[0] && Less(a[1..], b[1..])))
  }

  function InsertMember(m: Member, ms: seq<Member>): seq<Member> {
    if ms == [] || !Less(ms[0].key, m.key) then [m] + ms else [ms[0]] + InsertMember(m, ms[1..])
  }

  function SortMembers(ms: seq<Member>): seq<Member> {
    if ms == [] then [] else InsertMember(ms[0], SortMembers(ms[1..]))
  }

  // ---- Printing ------------------------------------------------------------------------------------------

  /** The value with every object's members in key order. */
  function Canonical(v: Json): Json
    decreases v, 1
  {
    match v
    case Array(es) => Array(CanonicalElements(es))
    case Object(ms) => Object(SortMembers(CanonicalMembers(ms)))
    case _ => v
  }

  function CanonicalElements(es: seq<Json>): (out: seq<Json>)
    ensures |out| == |es| && forall i | 0 <= i < |es| :: out[i] == Canonical(es[i])
    decreases es, 0
  {
    if es == [] then [] else [Canonical(es[0])] + CanonicalElements(es[1..])
  }

  function CanonicalMembers(ms: seq<Member>): (out: seq<Member>)
    ensures |out| == |ms| && forall i | 0 <= i < |ms| :: out[i] == Member(ms[i].key, Canonical(ms[i].value))
    decreases ms, 0
  {
    if ms == [] then [] else [Member(ms[0].key, Canonical(ms[0].value))] + CanonicalMembers(ms[1..])
  }

  function Print(v: Json): Text
    decreases v, 1
  {
    match v
    case Null => NULL_TEXT
    case Bool(b) => if b then TRUE_TEXT else FALSE_TEXT
    case Number(token) => token
    case String(s) => Quote(s)
    case Array(es) => [OPEN_BRACKET] + PrintElements(es) + [CLOSE_BRACKET]
    case Object(ms) => [OPEN_BRACE] + PrintMembers(ms) + [CLOSE_BRACE]
  }

  function PrintElements(es: seq<Json>): Text
    decreases es, 0
  {
    if es == [] then []
    else Print(es[0]) + (if |es| == 1 then [] else [COMMA] + PrintElements(es[1..]))
  }

  function PrintMembers(ms: seq<Member>): Text
    decreases ms, 0
  {
    if ms == [] then []
    else Quote(ms[0].key) + [COLON] + Print(ms[0].value)
         + (if |ms| == 1 then [] else [COMMA] + PrintMembers(ms[1..]))
  }

  /** stableStringify: print with sorted keys. */
  function StableStringify(v: Json): Text {
    Print(Canonical(v))
  }

  // ---- Parsing -------------------------------------------------------------------------------------------

  datatype Parsed<+T> = NoParse | Parsed(value: T, rest: Text)

  function ReadString(t: Text): (p: Parsed<Text>)
    ensures p.Parsed? ==> |p.rest| < |t|
  {
    if t == [] || t[0] < 0x20 then NoParse
    else if t[0] == QUOTE then Parsed([], t[1..])
    else if t[0] != BACKSLASH then Prepend(t[0], ReadString(t[1..]))
    else if |t| < 2 then NoParse
    else if t[1] == 117 then
      if |t| < 6 || HexValue(t[2]) < 0 || HexValue(t[3]) < 0 || HexValue(t[4]) < 0 || HexValue(t[5]) < 0 then NoParse
      else Prepend(HexValue(t[2]) * 0x1000 + HexValue(t[3]) * 0x100 + HexValue(t[4]) * 0x10 + HexValue(t[5]),
                   ReadString(t[6..]))
    else
      var u := Unescaped(t[1]);
      if u < 0 then NoParse else Prepend(u, ReadString(t[2..]))
  }

  function Prepend(u: CodeUnit, p: Parsed<Text>): Parsed<Text> {
    if p.NoParse? then p else Parsed([u] + p.value, p.rest)
  }

  /** The code unit a two-character escape stands for, or -1. */
  function Unescaped(c: CodeUnit): (u: int)
    ensures -1 <= u < 0x1_0000
  {
    if c == QUOTE || c == BACKSLASH || c == 47 then c
    else if c == 98 then 8
    else if c == 116 then 9
    else if c == 110 then 10
    else if c == 102 then 12
    else if c == 114 then 13
    else -1
  }

  /** The longest run of number characters; the grammar decides whether it is a number. */
  function ReadNumber(t: Text): (p: Parsed<Text>)
    ensures p.Parsed? && |p.rest| <= |t|
    ensures t != [] && NumberUnit(t[0]) ==> |p.rest| < |t|
  {
    if t == [] || !NumberUnit(t[0]) then Parsed([], t) else Prepend(t[0], ReadNumber(t[1..]))
  }

  function ReadWord(t: Text, word: Text, v: Json): (p: Parsed<Json>)
    requires word != []
    ensures p.Parsed? ==> |p.rest| < |t|
  {
    if word <= t then Parsed(v, t[|word|..]) else NoParse
  }

  function ReadValue(t: Text): (p: Parsed<Json>)
    ensures p.Parsed? ==> |p.rest| < |t|
    decreases |t|, 0
  {
    if t == [] then NoParse
    else if t[0] == 110 then ReadWord(t, NULL_TEXT, Null)
    else if t[0] == 116 then ReadWord(t, TRUE_TEXT, Bool(true))
    else if t[0] == 102 then ReadWord(t, FALSE_TEXT, Bool(false))
    else if t[0] == QUOTE then
      var p := ReadString(t[1..]);
      if p.NoParse? then NoParse else Parsed(String(p.value), p.rest)
    else if t[0] == OPEN_BRACKET then
      if |t| > 1 && t[1] == CLOSE_BRACKET then Parsed(Array([]), t[2..])
      else
        var p := ReadElements(t[1..]);
        if p.NoParse? then NoParse else Parsed(Array(p.value), p.rest)
    else if t[0] == OPEN_BRACE then
      if |t| > 1 && t[1] == CLOSE_BRACE then Parsed(Object([]), t[2..])
      else
        var p := ReadMembers(t[1..]);
        if p.NoParse? then NoParse else Parsed(Object(p.value), p.rest)
    else if NumberUnit(t[0]) then
      var p := ReadNumber(t);
      if IsNumber(p.value) then Parsed(Number(p.value), p.rest) else NoParse
    else NoParse
  }

  /** A non-empty list of elements up to and including the closing bracket. */
  function ReadElements(t: Text): (p: Parsed<seq<Json>>)
    ensures p.Parsed? ==> |p.rest| < |t|
    decreases |t|, 1
  {
    var first := ReadValue(t);
    if first.NoParse? || first.rest == [] then NoParse
    else if first.rest[0] == CLOSE_BRACKET then Parsed([first.value], first.rest[1..])
    else if first.rest[0] != COMMA then NoParse
    else
      var others := ReadElements(first.rest[1..]);
      if others.NoParse? then NoParse else Parsed([first.value] + others.value, others.rest)
  }

  /** A non-empty list of members up to and including the closing brace. */
  function ReadMembers(t: Text): (p: Parsed<seq<Member>>)
    ensures p.Parsed? ==> |p.rest| < |t|
    decreases |t|, 1
  {
    if t == [] || t[0] != QUOTE then NoParse
    else
      var key := ReadString(t[1..]);
      if key.NoParse? || key.rest == [] || key.rest[0] != COLON then NoParse
      else
        var value := ReadValue(key.rest[1..]);
        if value.NoParse? || value.rest == [] then NoParse
        else
          var m := Member(key.value, value.value);
          if value.rest[0] == CLOSE_BRACE then Parsed([m], value.rest[1..])
          else if value.rest[0] != COMMA then NoParse
          else
            var others := ReadMembers(value.rest[1..]);
            if others.NoParse? then NoParse else Parsed([m] + others.value, others.rest)
  }

  // ---- The parser recovers what was printed ----------------------------------------------------------------

  lemma HexDigits(u: CodeUnit)
    ensures 0 <= u / 0x1000 < 16
    ensures u == u / 0x1000 * 0x1000 + u / 0x100 % 0x10 * 0x100 + u / 0x10 % 0x10 * 0x10 + u % 0x10
  {
    assert u / 0x10 == u / 0x100 * 0x10 + u / 0x10 % 0x10;
    assert u / 0x100 == u / 0x1000 * 0x10 + u / 0x100 % 0x10;
  }

  lemma HexDigitIsRead(d: int)
    requires 0 <= d < 16
    ensures HexValue(HexDigit(d)) == d
  {
  }

  lemma ReadHexEscape(u: CodeUnit, t: Text, rest: Text)
    requires EscapeUnit(u) == [BACKSLASH, 117, HexDigit(u / 0x1000), HexDigit(u / 0x100 % 0x10),
                               HexDigit(u / 0x10 % 0x10), HexDigit(u % 0x10)]
    requires t == EscapeUnit(u) + rest
    ensures ReadString(t) == Prepend(u, ReadString(rest))
  {
    HexDigits(u);
    HexDigitIsRead(u / 0x1000);
    HexDigitIsRead(u / 0x100 % 0x10);
    HexDigitIsRead(u / 0x10 % 0x10);
    HexDigitIsRead(u % 0x10);
    assert t[6..] == rest;
  }

  lemma ReadEscapedUnit(u: CodeUnit, rest: Text)
    ensures ReadString(EscapeUnit(u) + rest) == Prepend(u, ReadString(rest))
  {
    var t := EscapeUnit(u) + rest;
    if |EscapeUnit(u)| == 6 {
      ReadHexEscape(u, t, rest);
    } else {
      assert t[|EscapeUnit(u)|..] == rest;
    }
  }

  lemma ReadRawUnit(u: CodeUnit, rest: Text)
    requires u >= 0x20 && u != QUOTE && u != BACKSLASH
    ensures ReadString([u] + rest) == Prepend(u, ReadString(rest))
  {
    assert ([u] + rest)[1..] == rest;
  }

  lemma Assoc(a: Text, b: Text, c: Text)
    ensures (a + b) + c == a + (b + c)
  {
  }

  lemma ReadPair(lead: CodeUnit, trail: CodeUnit, tail: Text)
    requires Lead(lead) && Trail(trail)
    ensures ReadString([lead, trail] + tail) == Prepend(lead, Prepend(trail, ReadString(tail)))
  {
    ReadRawUnit(trail, tail);
    ReadRawUnit(lead, [trail] + tail);
    assert [lead, trail] + tail == [lead] + ([trail] + tail);
  }

  lemma {:induction false} ReadEscaped(s: Text, rest: Text)
    ensures ReadString(Escape(s) + ([QUOTE] + rest)) == Parsed(s, rest)
  {
    if s == [] {
      ReadEnd(rest);
    } else if |s| > 1 && Lead(s[0]) && Trail(s[1]) {
      ReadEscaped(s[2..], rest);
      ReadPair(s[0], s[1], Escape(s[2..]) + ([QUOTE] + rest));
      Assoc([s[0], s[1]], Escape(s[2..]), [QUOTE] + rest);
      assert s == [s[0]] + ([s[1]] + s[2..]);
    } else {
      ReadEscaped(s[1..], rest);
      ReadEscapedUnit(s[0], Escape(s[1..]) + ([QUOTE] + rest));
      Assoc(EscapeUnit(s[0]), Escape(s[1..]), [QUOTE] + rest);
      assert s == [s[0]] + s[1..];
    }
  }

  lemma ReadEnd(rest: Text)
    ensures ReadString(Escape([]) + ([QUOTE] + rest)) == Parsed([], rest)
  {
    assert Escape([]) + ([QUOTE] + rest) == [QUOTE] + rest;
    assert ([QUOTE] + rest)[1..] == rest;
  }

  lemma {:induction false} ReadToken(token: Text, rest: Text)
    requires forall i | 0 <= i < |token| :: NumberUnit(token[i])
    requires rest == [] || !NumberUnit(rest[0])
    ensures ReadNumber(token + rest) == Parsed(token, rest)
  {
    if token == [] {
      assert token + rest == rest;
    } else {
      ReadToken(token[1..], rest);
      assert (token + rest)[1..] == token[1..] + rest;
      assert token == [token[0]] + token[1..];
    }
  }

  /** No printed value starts with a closing bracket, so an empty list cannot be mistaken. */
  lemma PrintStarts(v: Json)
    requires WellFormed(v)
    ensures Print(v) != []
    ensures Print(v)[0] != CLOSE_BRACKET && Print(v)[0] != CLOSE_BRACE
  {
  }

  lemma ReadLiteral(v: Json, rest: Text)
    requires v.Null? || v.Bool?
    ensures ReadValue(Print(v) + rest) == Parsed(v, rest)
  {
    var t := Print(v) + rest;
    assert t[0] == Print(v)[0];
    assert t[|Print(v)|..] == rest;
  }

  lemma ReadNumberValue(token: Text, rest: Text)
    requires IsNumber(token)
    requires rest == [] || !NumberUnit(rest[0])
    ensures ReadValue(token + rest) == Parsed(Number(token), rest)
  {
    ReadToken(token, rest);
    assert (token + rest)[0] == token[0];
  }

  lemma ReadStringValue(s: Text, rest: Text)
    ensures ReadValue(Quote(s) + rest) == Parsed(String(s), rest)
  {
    ReadEscaped(s, rest);
    JoinFour([QUOTE], Escape(s), [QUOTE], rest);
    assert (Quote(s) + rest)[1..] == Escape(s) + ([QUOTE] + rest);
  }

  lemma ReadArray(es: seq<Json>, body: Text, rest: Text)
    requires if es == [] then body == []
             else body != [] && body[0] != CLOSE_BRACKET
                  && ReadElements(body + ([CLOSE_BRACKET] + rest)) == Parsed(es, rest)
    ensures ReadValue([OPEN_BRACKET] + body + [CLOSE_BRACKET] + rest) == Parsed(Array(es), rest)
  {
    var t := [OPEN_BRACKET] + body + [CLOSE_BRACKET] + rest;
    JoinFour([OPEN_BRACKET], body, [CLOSE_BRACKET], rest);
    assert t[1..] == body + ([CLOSE_BRACKET] + rest);
    if es == [] {
      assert t[2..] == rest;
    }
  }

  lemma ReadObject(ms: seq<Member>, body: Text, rest: Text)
    requires if ms == [] then body == []
             else body != [] && body[0] != CLOSE_BRACE
                  && ReadMembers(body + ([CLOSE_BRACE] + rest)) == Parsed(ms, rest)
    ensures ReadValue([OPEN_BRACE] + body + [CLOSE_BRACE] + rest) == Parsed(Object(ms), rest)
  {
    var t := [OPEN_BRACE] + body + [CLOSE_BRACE] + rest;
    JoinFour([OPEN_BRACE], body, [CLOSE_BRACE], rest);
    assert t[1..] == body + ([CLOSE_BRACE] + rest);
    if ms == [] {
      assert t[2..] == rest;
    }
  }

  lemma ReadKey(key: Text, after: Text)
    ensures var t := Quote(key) + [COLON] + after;
            && t != [] && t[0] == QUOTE
            && ReadString(t[1..]) == Parsed(key, [COLON] + after)
            && ([COLON] + after)[1..] == after
  {
    var t := Quote(key) + [COLON] + after;
    ReadEscaped(key, [COLON] + after);
    assert t[1..] == Escape(key) + ([QUOTE] + ([COLON] + after));
  }

  lemma JoinFour(a: Text, b: Text, c: Text, end: Text)
    ensures a + b + c + end == a + (b + (c + end))
    ensures c == [] ==> c + end == end
  {
  }

  lemma ReadElementStep(t: Text, v: Json, after: Text, vs: seq<Json>, rest: Text)
    requires ReadValue(t) == Parsed(v, after)
    requires if vs == [] then after == [CLOSE_BRACKET] + rest
             else after != [] && after[0] == COMMA && ReadElements(after[1..]) == Parsed(vs, rest)
    ensures ReadElements(t) == Parsed([v] + vs, rest)
  {
    if vs == [] {
      assert after[1..] == rest;
      assert [v] + vs == [v];
    }
  }

  lemma ReadMemberStep(t: Text, key: Text, valueText: Text, v: Json, after: Text, ms: seq<Member>, rest: Text)
    requires t == Quote(key) + [COLON] + valueText
    requires ReadValue(valueText) == Parsed(v, after)
    requires if ms == [] then after == [CLOSE_BRACE] + rest
             else after != [] && after[0] == COMMA && ReadMembers(after[1..]) == Parsed(ms, rest)
    ensures ReadMembers(t) == Parsed([Member(key, v)] + ms, rest)
  {
    ReadKey(key, valueText);
    if ms == [] {
      assert after[1..] == rest;
      assert [Member(key, v)] + ms == [Member(key, v)];
    }
  }

  /** Reading a printed value gives the value back and leaves exactly what followed it. */
  lemma {:induction false} ReadPrinted(v: Json, rest: Text)
    requires WellFormed(v)
    requires rest == [] || !NumberUnit(rest[0])
    ensures ReadValue(Print(v) + rest) == Parsed(v, rest)
    decreases v, 1
  {
    match v
    case Array(es) =>
      if es != [] {
        ReadPrintedElements(es, rest);
        PrintStarts(es[0]);
      }
      ReadArray(es, PrintElements(es), rest);
    case Object(ms) =>
      if ms != [] {
        ReadPrintedMembers(ms, rest);
      }
      ReadObject(ms, PrintMembers(ms), rest);
    case Null => ReadLiteral(v, rest);
    case Bool(_) => ReadLiteral(v, rest);
    case Number(token) => ReadNumberValue(token, rest);
    case String(s) => ReadStringValue(s, rest);
  }

  lemma {:induction false} ReadPrintedElements(es: seq<Json>, rest: Text)
    requires es != [] && forall i | 0 <= i < |es| :: WellFormed(es[i])
    ensures ReadElements(PrintElements(es) + ([CLOSE_BRACKET] + rest)) == Parsed(es, rest)
    decreases es, 0
  {
    var end := [CLOSE_BRACKET] + rest;
    var others := PrintElements(es[1..]) + end;
    var after := if |es| == 1 then end else [COMMA] + others;
    assert PrintElements(es) + end == Print(es[0]) + after;
    ReadPrinted(es[0], after);
    if |es| > 1 {
      ReadPrintedElements(es[1..], rest);
      assert after[1..] == others;
    }
    ReadElementStep(PrintElements(es) + end, es[0], after, es[1..], rest);
    assert es == [es[0]] + es[1..];
  }

  /** What follows the first member's value. */
  function AfterMember(ms: seq<Member>, end: Text): Text
    requires ms != []
  {
    if |ms| == 1 then end else [COMMA] + (PrintMembers(ms[1..]) + end)
  }

  lemma MembersText(ms: seq<Member>, end: Text)
    requires ms != []
    ensures PrintMembers(ms) + end == Quote(ms[0].key) + [COLON] + (Print(ms[0].value) + AfterMember(ms, end))
    ensures |ms| > 1 ==> AfterMember(ms, end)[1..] == PrintMembers(ms[1..]) + end
  {
    if |ms| == 1 {
      JoinFour(Quote(ms[0].key) + [COLON], Print(ms[0].value), [], end);
    } else {
      JoinFour(Quote(ms[0].key) + [COLON], Print(ms[0].value), [COMMA] + PrintMembers(ms[1..]), end);
      Assoc([COMMA], PrintMembers(ms[1..]), end);
    }
  }

  lemma {:induction false} ReadPrintedMembers(ms: seq<Member>, rest: Text)
    requires ms != [] && forall i | 0 <= i < |ms| :: WellFormed(ms[i].value)
    ensures ReadMembers(PrintMembers(ms) + ([CLOSE_BRACE] + rest)) == Parsed(ms, rest)
    decreases ms, 0
  {
    hide Print, PrintMembers, ReadMembers, ReadValue, Quote;
    var end := [CLOSE_BRACE] + rest;
    var after := AfterMember(ms, end);
    MembersText(ms, end);
    ReadPrinted(ms[0].value, after);
    if |ms| > 1 {
      ReadPrintedMembers(ms[1..], rest);
    }
    ReadMemberStep(PrintMembers(ms) + end, ms[0].key, Print(ms[0].value) + after, ms[0].value, after, ms[1..], rest);
    assert ms == [ms[0]] + ms[1..];
  }
}
