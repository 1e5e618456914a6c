/** How the database hands back the identifiers it is given (the UUID columns of src/database/database.service.ts): as
    the 32 hexadecimal digits, in lower case and grouped by hyphens, in whatever case and grouping they came. */
module StoredIds {
  import opened CanonicalJson

  const HYPHEN: CodeUnit := 45

  predicate LowerHex(c: CodeUnit) {
    48 <= c <= 57 || 97 <= c <= 102
  }

  /** One character's digit, if it is one; braces and hyphens only group. */
  function DigitOf(c: CodeUnit): (digit: Text)
    ensures forall i | 0 <= i < |digit| :: LowerHex(digit[i])
  {
    if LowerHex(c) then [c] else if 65 <= c <= 70 then [c + 32] else []
  }

  /** The digits are the 10 decimal ones and the letters a to f, of which capitals count as small ones. */
  lemma DigitIff(c: CodeUnit)
    ensures LowerHex(c) <==> c in {48, 49, 50, 51, 52, 53, 54, 55, 56, 57, 97, 98, 99, 100, 101, 102}
    ensures LowerHex(c) ==> DigitOf(c) == [c]
    ensures c in {65, 66, 67, 68, 69, 70} ==> DigitOf(c) == [c + 32] && LowerHex(c + 32)
    ensures !LowerHex(c) && c !in {65, 66, 67, 68, 69, 70} ==> DigitOf(c) == []
  {
  }

  function Digits(t: Text): (digits: Text)
    ensures forall i | 0 <= i < |digits| :: LowerHex(digits[i])
  {
    if t == [] then [] else DigitOf(t[0]) + Digits(t[1..])
  }

  predicate IsUuid(t: Text) {
    |Digits(t)| == 32
  }

  function Grouped(d: Text): (t: Text)
    requires |d| == 32
  {
    d[..8] + [HYPHEN] + d[8..12] + [HYPHEN] + d[12..16] + [HYPHEN] + d[16..20] + [HYPHEN] + d[20..]
  }

  /** The text a UUID column gives back. (It takes no text that is not a UUID.) */
  function Stored(t: Text): Text {
    if IsUuid(t) then Grouped(Digits(t)) else t
  }

  /** Lower case and hyphens at their four places. */
  predicate InStoredForm(t: Text) {
    |t| == 36 && forall i | 0 <= i < 36 ::
      if i == 8 || i == 13 || i == 18 || i == 23 then t[i] == HYPHEN else LowerHex(t[i])
  }

  lemma {:induction false} DigitsOfConcat(a: Text, b: Text)
    ensures Digits(a + b) == Digits(a) + Digits(b)
  {
    if a == [] {
      assert a + b == b;
    } else {
      assert (a + b)[1..] == a[1..] + b;
      DigitsOfConcat(a[1..], b);
    }
  }

  lemma {:induction false} DigitsOfHex(t: Text)
    requires forall i | 0 <= i < |t| :: LowerHex(t[i])
    ensures Digits(t) == t
  {
    if t != [] {
      DigitsOfHex(t[1..]);
    }
  }

  lemma HyphenHasNoDigit()
    ensures Digits([HYPHEN]) == []
  {
    assert [HYPHEN][1..] == [];
  }

  lemma GroupAdds(t: Text, group: Text)
    requires forall i | 0 <= i < |group| :: LowerHex(group[i])
    ensures Digits(t + [HYPHEN] + group) == Digits(t) + group
  {
    var start := t + [HYPHEN];
    DigitsOfConcat(start, group);
    assert Digits(start) == Digits(t) by {
      DigitsOfConcat(t, [HYPHEN]);
      HyphenHasNoDigit();
    }
    DigitsOfHex(group);
  }

  lemma GroupedDigits(d: Text)
    requires |d| == 32 && forall i | 0 <= i < 32 :: LowerHex(d[i])
    ensures InStoredForm(Grouped(d)) && Digits(Grouped(d)) == d
  {
    var a := d[..8];
    var b := a + [HYPHEN] + d[8..12];
    var c := b + [HYPHEN] + d[12..16];
    var e := c + [HYPHEN] + d[16..20];
    DigitsOfHex(a);
    GroupAdds(a, d[8..12]);
    GroupAdds(b, d[12..16]);
    GroupAdds(c, d[16..20]);
    GroupAdds(e, d[20..]);
    assert Grouped(d) == e + [HYPHEN] + d[20..];
    assert d == a + d[8..12] + d[12..16] + d[16..20] + d[20..];
  }

  lemma FormIsGrouped(t: Text) returns (d: Text)
    requires InStoredForm(t)
    ensures |d| == 32 && t == Grouped(d) && forall i | 0 <= i < 32 :: LowerHex(d[i])
  {
    d := t[..8] + t[9..13] + t[14..18] + t[19..23] + t[24..];
    assert d[..8] == t[..8] && d[8..12] == t[9..13] && d[12..16] == t[14..18] && d[16..20] == t[19..23];
    assert d[20..] == t[24..];
  }

  /** A UUID comes back as it was given exactly if it was in that form; and what comes back names the same UUID. */
  lemma StoredIff(t: Text)
    requires IsUuid(t)
    ensures Stored(t) == t <==> InStoredForm(t)
    ensures InStoredForm(Stored(t)) && Digits(Stored(t)) == Digits(t)
  {
    GroupedDigits(Digits(t));
    if InStoredForm(t) {
      var d := FormIsGrouped(t);
      GroupedDigits(d);
    }
  }

  function Capitals(t: Text): Text {
    seq(|t|, i requires 0 <= i < |t| => if 97 <= t[i] <= 102 then t[i] - 32 else t[i])
  }

  lemma {:induction false} CapitalsKeepDigits(t: Text)
    ensures Digits(Capitals(t)) == Digits(t)
  {
    if t != [] {
      assert Capitals(t)[1..] == Capitals(t[1..]);
      CapitalsKeepDigits(t[1..]);
    }
  }

  /** A UUID with a letter, written in capitals, comes back in small letters. */
  lemma CapitalsAreStoredSmall(t: Text)
    requires InStoredForm(t) && exists i | 0 <= i < |t| :: 97 <= t[i]
    ensures IsUuid(Capitals(t)) && Stored(Capitals(t)) == t && !InStoredForm(Capitals(t))
  {
    CapitalsKeepDigits(t);
    var d := FormIsGrouped(t);
    GroupedDigits(d);
    StoredIff(Capitals(t));
    var i :| 0 <= i < |t| && 97 <= t[i];
    assert i != 8 && i != 13 && i != 18 && i != 23;
    assert Capitals(t)[i] != t[i];
  }
}
