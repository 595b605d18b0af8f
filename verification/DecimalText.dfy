/**
 The grammar of decimal text and its exact value (internal/polyjson/decimal.go):
 an optional sign, digits with an optional fraction, and an optional exponent.
 */
module DecimalGrammar {
  import opened Common
  import opened Decimals
  import opened Digits

  datatype Exponent = Exponent(mark: char, sign: string, digits: string)

  datatype Numeral = Numeral(sign: string, whole: string, point: bool, fraction: string, exponent: Option<Exponent>)

  predicate IsSign(s: string) {
    s == "" || s == "+" || s == "-"
  }

  predicate IsMark(c: char) {
    c == 'e' || c == 'E'
  }

  predicate IsPoint(c: char) {
    c == '.'
  }

  predicate WellFormed(n: Numeral) {
    && IsSign(n.sign) && AllDigits(n.whole) && AllDigits(n.fraction)
    && (!n.point ==> n.fraction == "")
    && |n.whole| + |n.fraction| > 0
    && (n.exponent.Some? ==>
          IsMark(n.exponent.value.mark) && IsSign(n.exponent.value.sign)
          && n.exponent.value.digits != "" && AllDigits(n.exponent.value.digits))
  }

  function Mantissa(n: Numeral): string {
    n.whole + (if n.point then "." + n.fraction else "")
  }

  function ExponentText(e: Option<Exponent>): string {
    if e.None? then "" else [e.value.mark] + e.value.sign + e.value.digits
  }

  function Text(n: Numeral): string {
    n.sign + (Mantissa(n) + ExponentText(n.exponent))
  }

  function Signed(sign: string, n: nat): int {
    if sign == "-" then 0 - n else n
  }

  function ExponentValue(n: Numeral): int
    requires WellFormed(n)
  {
    if n.exponent.None? then 0 else Signed(n.exponent.value.sign, Num(n.exponent.value.digits))
  }

  /** The exact value: all digits as one number, times the power of ten that places the point. */
  function Value(n: Numeral): real
    requires WellFormed(n)
  {
    Shown(n.sign, n.whole + n.fraction, ExponentValue(n) - |n.fraction|)
  }

  function Shown(sign: string, digits: string, k: int): real
    requires AllDigits(digits)
  {
    Signed(sign, Num(digits)) as real * E(k)
  }

  /* Recognition */

  function LeadingSign(s: string): (r: string)
    ensures IsSign(r) && r <= s
  {
    if s != "" && (s[0] == '+' || s[0] == '-') then s[..1] else ""
  }

  function ParseExponent(s: string): Option<Exponent> {
    if s == "" then None
    else Some(Exponent(s[0], LeadingSign(s[1..]), s[1 + |LeadingSign(s[1..])|..]))
  }

  function Cut(s: string): Numeral {
    var sign := LeadingSign(s);
    var rest := s[|sign|..];
    var i := Find(rest, IsMark);
    var mantissa := rest[..i];
    var j := Find(mantissa, IsPoint);
    Numeral(sign, mantissa[..j], j < |mantissa|, if j < |mantissa| then mantissa[j + 1..] else "", ParseExponent(rest[i..]))
  }

  /** The pattern of internal/polyjson/decimal.go: the numeral that a text spells, if it spells one. */
  function Recognize(s: string): Option<Numeral> {
    var n := Cut(s);
    if WellFormed(n) then Some(n) else None
  }

  /** What is recognised is spelled by the text. */
  lemma RecognizeSound(s: string)
    requires Recognize(s).Some?
    ensures WellFormed(Recognize(s).value) && Text(Recognize(s).value) == s
  {
    hide Cut, Mantissa, ExponentText, Find, LeadingSign;
    CutParts(s);
    var sign := LeadingSign(s);
    var rest := s[|sign|..];
    assert rest == rest[..Find(rest, IsMark)] + rest[Find(rest, IsMark)..];
    assert s == sign + rest;
  }

  lemma CutParts(s: string)
    ensures
      var n, sign := Cut(s), LeadingSign(s);
      var rest := s[|sign|..];
      var i := Find(rest, IsMark);
      n.sign == sign && Mantissa(n) == rest[..i] && ExponentText(n.exponent) == rest[i..]
  {
    hide Find, ParseExponent, ExponentText, LeadingSign;
    var rest := s[|LeadingSign(s)|..];
    var i := Find(rest, IsMark);
    CutMantissa(rest[..i]);
    ParsedExponent(rest[i..]);
  }

  lemma PlainText(n: Numeral)
    requires n.sign == "" && n.exponent.None?
    ensures Text(n) == Mantissa(n)
  {
  }

  lemma CutMantissa(m: string)
    ensures
      var j := Find(m, IsPoint);
      m == m[..j] + (if j < |m| then "." + m[j + 1..] else "")
  {
    hide Find;
    var j := Find(m, IsPoint);
    if j < |m| {
      SplitAt(m, j);
      assert [m[j]] == ".";
    }
  }

  lemma SplitAt(m: string, j: nat)
    requires j < |m|
    ensures m == m[..j] + ([m[j]] + m[j + 1..])
  {
  }

  lemma ParsedExponent(s: string)
    ensures ExponentText(ParseExponent(s)) == s
  {
    if s != "" {
      var sign := LeadingSign(s[1..]);
      assert s == [s[0]] + sign + s[1 + |sign|..];
    }
  }

  /** Every well-formed numeral is recognised as itself. */
  lemma RecognizeComplete(n: Numeral)
    requires WellFormed(n)
    ensures Recognize(Text(n)) == Some(n)
  {
    var s, m, e := Text(n), Mantissa(n), ExponentText(n.exponent);
    assert LeadingSign(s) == n.sign && s[|n.sign|..] == m + e by { SignFirst(n); }
    FindIs(m + e, IsMark, |m|) by { NoMark(n); }
    assert (m + e)[..|m|] == m && (m + e)[|m|..] == e;
    FindIs(m, IsPoint, |n.whole|) by { NoPoint(n); }
    if n.point {
      assert m[|n.whole| + 1..] == n.fraction;
    }
    if n.exponent.Some? {
      ExponentParses(n.exponent.value);
    }
  }

  lemma NoMark(n: Numeral)
    requires WellFormed(n)
    ensures forall j :: 0 <= j < |Mantissa(n)| ==> !IsMark(Mantissa(n)[j])
  {
    forall j | 0 <= j < |Mantissa(n)|
      ensures !IsMark(Mantissa(n)[j])
    {
      if j < |n.whole| {
        assert Mantissa(n)[j] == n.whole[j];
      } else if j > |n.whole| {
        assert Mantissa(n)[j] == n.fraction[j - |n.whole| - 1];
      }
    }
  }

  lemma NoPoint(n: Numeral)
    requires WellFormed(n)
    ensures forall j :: 0 <= j < |n.whole| ==> !IsPoint(Mantissa(n)[j])
    ensures |n.whole| < |Mantissa(n)| ==> IsPoint(Mantissa(n)[|n.whole|])
  {
    forall j | 0 <= j < |n.whole|
      ensures !IsPoint(Mantissa(n)[j])
    {
      assert Mantissa(n)[j] == n.whole[j];
    }
  }

  lemma SignFirst(n: Numeral)
    requires WellFormed(n)
    ensures LeadingSign(Text(n)) == n.sign && Text(n)[|n.sign|..] == Mantissa(n) + ExponentText(n.exponent)
  {
    var m := Mantissa(n) + ExponentText(n.exponent);
    assert m[0] == if n.whole != "" then n.whole[0] else '.';
    assert n.whole != "" ==> IsDigit(n.whole[0]);
    if n.sign == "" {
      assert Text(n) == m;
    }
  }

  lemma ExponentParses(e: Exponent)
    requires IsSign(e.sign) && e.digits != "" && AllDigits(e.digits)
    ensures ParseExponent(ExponentText(Some(e))) == Some(e)
  {
    var s := ExponentText(Some(e));
    var t := e.sign + e.digits;
    assert s[1..] == t;
    assert IsDigit(e.digits[0]);
    if e.sign == "" {
      assert t == e.digits;
    } else {
      assert t[..1] == e.sign;
    }
    assert s[1 + |e.sign|..] == e.digits;
  }
}
