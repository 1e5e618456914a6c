/** The characters of the canonical text, in numbers: what stableStringify (src/modules/audit/audit-integrity.ts) leaves
    to JSON.stringify, as sections 3 to 7 of RFC 8259 and section 25.5.2 of ECMA-262 fix it. */
module CanonicalText {
  import opened CanonicalJson
  import opened CanonicalOrder

  predicate SmallHex(c: CodeUnit) {
    48 <= c <= 57 || 97 <= c <= 102
  }

  function Nibble(c: CodeUnit): int {
    if c <= 57 then c - 48 else c - 87
  }

  /** Quotation mark and backslash get a backslash, five controls a letter, the other controls and surrogates without
      their partner a number in four small hexadecimal digits; everything else stands for itself. */
  lemma UnitText(u: CodeUnit)
    ensures u == 34 || u == 92 ==> Escape([u]) == [92, u]
    ensures u == 8 ==> Escape([u]) == [92, 98]
    ensures u == 9 ==> Escape([u]) == [92, 116]
    ensures u == 10 ==> Escape([u]) == [92, 110]
    ensures u == 12 ==> Escape([u]) == [92, 102]
    ensures u == 13 ==> Escape([u]) == [92, 114]
    ensures (u < 32 && u !in {8, 9, 10, 12, 13}) || 0xD800 <= u < 0xE000 ==>
      var t := Escape([u]);
      && |t| == 6 && t[0] == 92 && t[1] == 117 && SmallHex(t[2]) && SmallHex(t[3]) && SmallHex(t[4]) && SmallHex(t[5])
      && u == ((Nibble(t[2]) * 16 + Nibble(t[3])) * 16 + Nibble(t[4])) * 16 + Nibble(t[5])
    ensures u >= 32 && u != 34 && u != 92 && !(0xD800 <= u < 0xE000) ==> Escape([u]) == [u]
  {
    assert [u][1..] == [];
    assert Escape([u]) == EscapeUnit(u) + Escape([]);
    HexDigits(u);
  }

  /** A surrogate pair stands for itself. */
  lemma PairText(high: CodeUnit, low: CodeUnit)
    requires 0xD800 <= high < 0xDC00 && 0xDC00 <= low < 0xE000
    ensures Escape([high, low]) == [high, low]
  {
    assert [high, low][2..] == [];
  }

  predicate BeginsWithPair(t: Text) {
    |t| > 1 && 0xD800 <= t[0] < 0xDC00 && 0xDC00 <= t[1] < 0xE000
  }

  /** How much of a text is escaped first, and as what. */
  function First(t: Text): (n: nat)
    requires t != []
    ensures 1 <= n <= |t|
  {
    if BeginsWithPair(t) then 2 else 1
  }

  lemma FirstIsEscaped(t: Text)
    requires t != []
    ensures Escape(t) == (if BeginsWithPair(t) then t[..2] else EscapeUnit(t[0])) + Escape(t[First(t)..])
  {
    if BeginsWithPair(t) {
      assert t[..2] == [t[0], t[1]];
    }
  }

  /** A string is escaped piece by piece, wherever it is cut, except inside a surrogate pair. */
  lemma {:induction false} PiecesOfText(a: Text, b: Text)
    requires a != [] && b != [] ==> !(0xD800 <= a[|a| - 1] < 0xDC00 && 0xDC00 <= b[0] < 0xE000)
    ensures Escape(a + b) == Escape(a) + Escape(b)
    decreases |a|
  {
    if a == [] {
      assert a + b == b;
      assert Escape([]) == [];
    } else {
      PiecesStep(a, b);
      PiecesOfText(a[First(a)..], b);
      hide Escape, EscapeUnit;
      var unit := if BeginsWithPair(a) then a[..2] else EscapeUnit(a[0]);
      Assoc(unit, Escape(a[First(a)..]), Escape(b));
    }
  }

  lemma PiecesStep(a: Text, b: Text)
    requires a != [] && (b != [] ==> !(0xD800 <= a[|a| - 1] < 0xDC00 && 0xDC00 <= b[0] < 0xE000))
    ensures var unit := if BeginsWithPair(a) then a[..2] else EscapeUnit(a[0]);
      Escape(a) == unit + Escape(a[First(a)..]) && Escape(a + b) == unit + Escape(a[First(a)..] + b)
  {
    hide Escape, EscapeUnit;
    FirstIsEscaped(a);
    FirstIsEscaped(a + b);
    assert First(a + b) == First(a) && (a + b)[First(a)..] == a[First(a)..] + b;
    assert (a + b)[0] == a[0] && (BeginsWithPair(a) ==> (a + b)[..2] == a[..2]);
  }

  /** The literal names, numbers as they are, and strings between quotation marks. */
  lemma ScalarText(v: Json)
    ensures v.Null? ==> StableStringify(v) == [110, 117, 108, 108]
    ensures v == Bool(true) ==> StableStringify(v) == [116, 114, 117, 101]
    ensures v == Bool(false) ==> StableStringify(v) == [102, 97, 108, 115, 101]
    ensures v.Number? ==> StableStringify(v) == v.token
    ensures v.String? ==> StableStringify(v) == [34] + Escape(v.s) + [34]
  {
  }

  /** Elements and members between their brackets, with commas and colons between them. */
  lemma CompoundText(e: Json, es: seq<Json>, m: Member, ms: seq<Member>)
    ensures OPEN_BRACKET == 91 && CLOSE_BRACKET == 93 && OPEN_BRACE == 123 && CLOSE_BRACE == 125
    ensures JoinElements([]) == [] && JoinElements([e]) == StableStringify(e)
    ensures es != [] ==> JoinElements([e] + es) == StableStringify(e) + [44] + JoinElements(es)
    ensures JoinMembers([]) == [] && JoinMembers([m]) == [34] + Escape(m.key) + [34, 58] + StableStringify(m.value)
    ensures ms != [] ==> JoinMembers([m] + ms) == JoinMembers([m]) + [44] + JoinMembers(ms)
  {
    assert ([e] + es)[1..] == es && ([m] + ms)[1..] == ms;
    assert [e][1..] == [] && [m][1..] == [];
    assert Quote(m.key) + [COLON] == [34] + Escape(m.key) + [34, 58];
  }
}
