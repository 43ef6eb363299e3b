/** The few pieces of Python's built-in string and integer behaviour that the
    coordinate conversions rely on: `str.index`, subscripts with a negative
    index, `str.upper` (ASCII letters only), `int()` on a decimal literal and
    the decimal rendering that `'{}'.format` gives an `int`. */
module PyText {

  /** True when no character occurs twice in `s`. */
  ghost predicate Distinct(s: string) {
    forall i, j :: 0 <= i < j < |s| ==> s[i] != s[j]
  }

  /** `s.index(ch)`: the position of the first occurrence of `ch` in `s`.
      Python raises ValueError when `ch` is absent; callers must rule that out. */
  function IndexOf(s: string, ch: char): (k: nat)
    requires ch in s
    ensures k < |s| && s[k] == ch
    ensures forall j :: 0 <= j < k ==> s[j] != ch
  {
    if s[0] == ch then 0 else 1 + IndexOf(s[1..], ch)
  }

  /** In a string without repeated characters, `index` undoes subscripting. */
  lemma IndexOfAt(s: string, i: int)
    requires Distinct(s) && 0 <= i < |s|
    ensures IndexOf(s, s[i]) == i
  {
  }

  /** Python's subscript `s[i]` is defined for `-len(s) <= i < len(s)`. */
  predicate Subscriptable(s: string, i: int) {
    -|s| <= i < |s|
  }

  /** Python's subscript `s[i]`: a negative index counts from the end. */
  function At(s: string, i: int): (c: char)
    requires Subscriptable(s, i)
    ensures c == s[i % |s|]
  {
    if i < 0 then s[|s| + i] else s[i]
  }

  /** `str.upper` on one character, for ASCII letters. */
  function UpperChar(ch: char): (u: char)
    ensures 'a' <= ch <= 'z' ==> 'A' <= u <= 'Z' && u as int - 'A' as int == ch as int - 'a' as int
    ensures !('a' <= ch <= 'z') ==> u == ch
    ensures !('a' <= u <= 'z')
  {
    if 'a' <= ch <= 'z' then (ch as int - 32) as char else ch
  }

  /** `str.upper` on a whole string, character by character. */
  function Upper(s: string): (r: string)
    ensures |r| == |s|
    ensures forall i :: 0 <= i < |s| ==> r[i] == UpperChar(s[i])
  {
    seq(|s|, i requires 0 <= i < |s| => UpperChar(s[i]))
  }

  /** Upper-casing a string upper-cases its head and its tail separately. */
  lemma UpperSplit(s: string)
    requires |s| >= 1
    ensures Upper(s) == [UpperChar(s[0])] + Upper(s[1..])
  {
  }

  predicate IsDigit(ch: char) {
    '0' <= ch <= '9'
  }

  predicate AllDigits(s: string) {
    forall i :: 0 <= i < |s| ==> IsDigit(s[i])
  }

  /** The strings Python's `int()` accepts here: an optional sign followed by
      at least one ASCII digit. */
  predicate IsIntLiteral(t: string) {
    && |t| >= 1
    && if t[0] == '-' || t[0] == '+' then |t| >= 2 && AllDigits(t[1..]) else AllDigits(t)
  }

  /** The digits of an integer literal after its sign, if it has one. */
  function Unsigned(t: string): (d: string)
    requires IsIntLiteral(t)
    ensures 1 <= |d| <= |t| && AllDigits(d) && d == t[|t| - |d|..]
  {
    if t[0] == '-' || t[0] == '+' then t[1..] else t
  }

  /** Upper-casing changes only lower-case letters, so it leaves an integer
      literal as it is. */
  lemma UpperKeepsIntLiteral(t: string)
    requires IsIntLiteral(t)
    ensures Upper(t) == t
  {
    if t[0] == '-' || t[0] == '+' {
      assert forall i :: 1 <= i < |t| ==> t[1..][i - 1] == t[i];
    }
  }

  /** The value of a string of decimal digits, most significant first. */
  function DigitsValue(s: string): (v: nat)
    requires AllDigits(s)
    ensures |s| >= 1 ==> v % 10 == s[|s| - 1] as int - '0' as int
    ensures (forall i :: 0 <= i < |s| ==> s[i] == '0') ==> v == 0
  {
    if s == [] then 0
    else 10 * DigitsValue(s[..|s| - 1]) + (s[|s| - 1] as int - '0' as int)
  }

  /** `int(t)` for a literal with an optional sign. */
  function ParseInt(t: string): int
    requires IsIntLiteral(t)
  {
    if t[0] == '-' then -(DigitsValue(t[1..]) as int)
    else if t[0] == '+' then DigitsValue(t[1..])
    else DigitsValue(t)
  }

  /** `int(t)` is negative only after a minus sign, a `+` sign changes
      nothing, and its magnitude is the value of the digits after the sign. */
  lemma ParseIntValue(t: string)
    requires IsIntLiteral(t)
    ensures t[0] == '-' ==> ParseInt(t) <= 0
    ensures t[0] != '-' ==> ParseInt(t) >= 0
    ensures t[0] == '+' ==> ParseInt(t) == ParseInt(t[1..])
    ensures ParseInt(t) == DigitsValue(Unsigned(t)) || ParseInt(t) == -(DigitsValue(Unsigned(t)) as int)
  {
  }

  /** `int()` ignores a leading zero after the sign, if any:
      `int('019') == int('19')` and `int('-019') == int('-19')`. */
  lemma ParseIntLeadingZero(d: string)
    requires |d| >= 1 && AllDigits(d)
    ensures IsIntLiteral(d) && IsIntLiteral("0" + d)
    ensures ParseInt("0" + d) == ParseInt(d)
    ensures IsIntLiteral("-" + d) && IsIntLiteral("-0" + d)
    ensures ParseInt("-0" + d) == ParseInt("-" + d)
  {
    var zd := "0" + d;
    assert AllDigits(zd) by {
      assert forall i :: 1 <= i < |zd| ==> zd[i] == d[i - 1];
    }
    DigitsLeadingZero(d);
    assert ParseInt(zd) == DigitsValue(zd);
    assert ParseInt(d) == DigitsValue(d) by { assert IsDigit(d[0]); }
    var t, z := "-" + d, "-0" + d;
    assert t[1..] == d;
    assert z[1..] == zd;
    assert ParseInt(t) == -(DigitsValue(d) as int);
    assert ParseInt(z) == -(DigitsValue(zd) as int);
  }

  /** The decimal digits of `k`, with no leading zero. */
  function NatToDecimal(k: nat): (s: string)
    ensures |s| >= 1 && AllDigits(s)
    ensures s[0] == '0' ==> k == 0 && s == "0"
  {
    if k < 10 then ['0' + k as char]
    else NatToDecimal(k / 10) + ['0' + (k % 10) as char]
  }

  /** `'{}'.format(i)` for an int: a minus sign exactly for a negative value,
      and no leading zero. */
  function IntToDecimal(i: int): (s: string)
    ensures IsIntLiteral(s)
    ensures s[0] != '+'
    ensures s[0] == '-' <==> i < 0
    ensures s[0] == '0' ==> s == "0"
    ensures i < 0 ==> s[1] != '0'
  {
    if i < 0 then "-" + NatToDecimal(-i) else NatToDecimal(i)
  }

  /** Reading the digits of a natural number gives the number back. */
  lemma {:induction false} DigitsRoundTrip(k: nat)
    ensures DigitsValue(NatToDecimal(k)) == k
  {
    if k >= 10 {
      var s := NatToDecimal(k);
      assert s[..|s| - 1] == NatToDecimal(k / 10);
      DigitsRoundTrip(k / 10);
    }
  }

  /** Leading zeros do not change the value of a digit string, which is why
      `int('019') == int('19')`. */
  lemma {:induction false} DigitsLeadingZero(s: string)
    requires AllDigits(s)
    ensures DigitsValue("0" + s) == DigitsValue(s)
  {
    if s != [] {
      var t := "0" + s;
      assert t[..|t| - 1] == "0" + s[..|s| - 1];
      DigitsLeadingZero(s[..|s| - 1]);
    }
  }

  /** `int('{}'.format(i)) == i` for every int. */
  lemma ParseIntRoundTrip(i: int)
    ensures ParseInt(IntToDecimal(i)) == i
  {
    var s := IntToDecimal(i);
    if i < 0 {
      var d := NatToDecimal(-i);
      assert s == "-" + d;
      assert s[1..] == d;
      DigitsRoundTrip(-i);
      assert ParseInt(s) == -(DigitsValue(d) as int);
    } else {
      assert s == NatToDecimal(i);
      DigitsRoundTrip(i);
      assert s[0] != '-' && s[0] != '+';
    }
  }

}
