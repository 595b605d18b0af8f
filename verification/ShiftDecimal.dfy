/**
 Scaling a wire decimal by a power of ten without rounding (data/scalars.go).
 */
module ShiftDecimal {
  import opened Common
  import opened Digits
  import opened DecimalGrammar
  import opened RestDecimal

  const EXPONENT_LIMIT := 10000

  /** `strings.ReplaceAll(s, ".", "")` */
  function WithoutPoints(s: string): string {
    if s == "" then ""
    else if s[0] == '.' then WithoutPoints(s[1..])
    else [s[0]] + WithoutPoints(s[1..])
  }

  lemma {:induction false} PointFree(a: string, b: string)
    requires AllDigits(a)
    ensures WithoutPoints(a + b) == a + WithoutPoints(b)
  {
    if a == "" {
      assert a + b == b;
    } else {
      assert a[0] != '.' by { assert IsDigit(a[0]); }
      PointFree(a[1..], b);
      assert (a + b)[1..] == a[1..] + b;
    }
  }

  lemma MantissaDigits(n: Numeral)
    requires WellFormed(n)
    ensures WithoutPoints(Mantissa(n)) == n.whole + n.fraction
  {
    PointFree(n.fraction, "");
    assert n.fraction + "" == n.fraction;
    if n.point {
      var tail := "." + n.fraction;
      assert tail[1..] == n.fraction;
      PointFree(n.whole, tail);
    } else {
      PointFree(n.whole, "");
    }
  }

  /** `strings.TrimRight` with one character as the cut set */
  function TrimEnd(s: string, c: char): string {
    if s != "" && s[|s| - 1] == c then TrimEnd(s[..|s| - 1], c) else s
  }

  lemma {:induction false} TrimEndStops(r: string, tail: string, c: char)
    requires r != "" && r[|r| - 1] != c && forall i :: 0 <= i < |tail| ==> tail[i] == c
    ensures TrimEnd(r + tail, c) == r
  {
    if tail == "" {
      assert r + tail == r;
    } else {
      var init := tail[..|tail| - 1];
      TrimEndStops(r, init, c);
      assert (r + tail)[..|r + tail| - 1] == r + init;
    }
  }

  /** A plain numeral whose fraction, if written at all, is not empty and does not end in zero. */
  predicate Trimmed(n: Numeral) {
    n.point ==> n.fraction != "" && n.fraction[|n.fraction| - 1] != '0'
  }

  function Tidy(n: Numeral): Numeral
    requires WellFormed(n)
  {
    var f := TrimRight(n.fraction);
    Numeral(n.sign, n.whole, f != "", f, None)
  }

  lemma TidyMantissa(n: Numeral)
    requires WellFormed(n) && n.point && n.whole != ""
    ensures TrimEnd(TrimEnd(Mantissa(n), '0'), '.') == Mantissa(Tidy(n))
  {
    hide TrimEnd, TrimRight;
    var f := TrimRight(n.fraction);
    var kept := n.whole + "." + f;
    var zeros := Zeros(|n.fraction| - |f|);
    assert Mantissa(n) == kept + zeros;
    TrimEndStops(kept, zeros, '0');
    TrimPoint(n.whole, f);
  }

  lemma TrimPoint(w: string, f: string)
    requires AllDigits(w) && AllDigits(f) && w != ""
    ensures TrimEnd(w + "." + f, '.') == if f == "" then w else w + "." + f
  {
    hide TrimEnd;
    var kept := w + "." + f;
    if f == "" {
      assert IsDigit(w[|w| - 1]);
      assert kept == w + ".";
      TrimEndStops(w, ".", '.');
    } else {
      assert IsDigit(f[|f| - 1]);
      TrimEndStops(kept, "", '.');
      assert kept + "" == kept;
    }
  }

  lemma TidyValue(n: Numeral)
    requires WellFormed(n) && n.whole != "" && n.exponent.None?
    ensures WellFormed(Tidy(n)) && Trimmed(Tidy(n)) && Value(Tidy(n)) == Value(n)
  {
    hide Num, E, Shown, TrimRight;
    var f := TrimRight(n.fraction);
    var k := |n.fraction| - |f|;
    NumPadded(n.whole + f, k);
    assert n.whole + n.fraction == n.whole + f + Zeros(k);
    ShiftedShown(n.sign, n.whole + f, n.whole + n.fraction, k, 0 - |n.fraction|);
  }

  /** Puts the point at position `point` of the digits and drops a fraction of zeros. */
  method Place(sign: string, digits: string, point: int) returns (t: string)
    ensures IsSign(sign) && AllDigits(digits) && digits != "" ==>
              && Plain(t, Shown(sign, digits, point - |digits|))
              && Trimmed(Recognize(t).value)
  {
    var s;
    if point <= 0 {
      s := "0." + Zeros(-point) + digits;
    } else if point >= |digits| {
      s := digits + Zeros(point - |digits|);
    } else {
      s := digits[..point] + "." + digits[point..];
    }
    ghost var raw := s;
    if '.' in s {
      s := TrimEnd(TrimEnd(s, '0'), '.');
    }
    t := sign + s;
    if IsSign(sign) && AllDigits(digits) && digits != "" {
      assert raw == Render(digits, |digits| - point);
      Placed(sign, digits, point);
    }
  }

  lemma Placed(sign: string, digits: string, point: int)
    requires IsSign(sign) && AllDigits(digits) && digits != ""
    ensures
      var s := Render(digits, |digits| - point);
      var t := sign + (if '.' in s then TrimEnd(TrimEnd(s, '0'), '.') else s);
      && Plain(t, Shown(sign, digits, point - |digits|))
      && Trimmed(Recognize(t).value)
  {
    hide *;
    var n := Rendered(sign, digits, |digits| - point);
    RenderedValue(sign, digits, |digits| - point);
    RenderedMantissa(sign, digits, |digits| - point);
    TidyValue(n);
    PlainTidy(n);
    TidyText(n, Render(digits, |digits| - point));
  }

  lemma PlainTidy(n: Numeral)
    requires WellFormed(n) && WellFormed(Tidy(n))
    ensures Plain(Text(Tidy(n)), Value(Tidy(n))) && Recognize(Text(Tidy(n))) == Some(Tidy(n))
  {
    hide Plain, WellFormed, Recognize, Value, Text;
    PlainNumeral(Tidy(n));
    RecognizeComplete(Tidy(n));
  }

  lemma TidyText(n: Numeral, s: string)
    requires WellFormed(n) && n.whole != "" && s == Mantissa(n) && n.exponent.None? && (n.point <==> '.' in s)
    ensures n.sign + (if '.' in s then TrimEnd(TrimEnd(s, '0'), '.') else s) == Text(Tidy(n))
  {
    hide TrimEnd;
    assert Text(Tidy(n)) == n.sign + Mantissa(Tidy(n));
    if n.point {
      TidyMantissa(n);
    } else {
      assert Tidy(n) == n;
    }
  }

  lemma RenderedMantissa(sign: string, digits: string, scale: int)
    requires IsSign(sign) && AllDigits(digits) && digits != ""
    ensures
      var n := Rendered(sign, digits, scale);
      n.sign == sign && Mantissa(n) == Render(digits, scale) && n.whole != "" && (n.point <==> '.' in Render(digits, scale))
  {
    hide Render, Mantissa;
    RenderedText(sign, digits, scale);
    PointWritten(Rendered(sign, digits, scale));
  }

  /** A point is found in the mantissa exactly when it is written there. */
  lemma PointWritten(n: Numeral)
    requires AllDigits(n.whole)
    ensures n.point <==> '.' in Mantissa(n)
  {
    if n.point {
      PointInside(n.whole, n.fraction);
    } else {
      assert Mantissa(n) == n.whole;
      assert forall i :: 0 <= i < |n.whole| ==> IsDigit(n.whole[i]);
    }
  }

  lemma PointInside(a: string, b: string)
    ensures '.' in a + ("." + b) && a + ("." + b) == a + "." + b
  {
    assert (a + ("." + b))[|a|] == '.';
  }

  lemma ScaledValue(n: Numeral, places: int)
    requires WellFormed(n)
    ensures Value(n) * E(places) == Shown(n.sign, n.whole + n.fraction, ExponentValue(n) - |n.fraction| + places)
  {
    hide Num, E, ExponentValue;
    EAdds(ExponentValue(n) - |n.fraction|, places);
    Regroup(Signed(n.sign, Num(n.whole + n.fraction)) as real, E(ExponentValue(n) - |n.fraction|), E(places));
  }

  lemma CutDigits(n: Numeral, s: string)
    requires WellFormed(n)
    requires
      var j := Find(s, IsPoint);
      n.whole == s[..j] && n.point == (j < |s|) && n.fraction == if j < |s| then s[j + 1..] else ""
    ensures WithoutPoints(s) == n.whole + n.fraction
  {
    hide Find, WithoutPoints, WellFormed;
    CutMantissa(s);
    MantissaDigits(n);
  }

  function Limited(exponent: Option<int>): Option<int> {
    if exponent.Some? && -EXPONENT_LIMIT <= exponent.value <= EXPONENT_LIMIT then exponent else None
  }

  /** Cuts the exponent off, refusing one that does not parse or lies beyond the limit. */
  method ScanExponent(s: string) returns (mantissa: string, exponent: Option<int>)
    ensures
      var index := Find(s, IsMark);
      && mantissa == s[..index]
      && exponent == if index < |s| then Limited(ParseInt(s[index..][1..])) else Some(0)
  {
    hide Find, ParseInt;
    mantissa, exponent := s, Some(0);
    var index := Find(s, IsMark);
    if index < |s| {
      assert s[index..][1..] == s[index + 1..];
      exponent := ParseInt(s[index + 1..]);
      if exponent.Some? && !(-EXPONENT_LIMIT <= exponent.value <= EXPONENT_LIMIT) {
        exponent := None;
      }
      mantissa := s[..index];
    }
  }

  /** The sign, the digits, the position of the point and the exponent of a text. */
  method Scan(value: string) returns (sign: string, digits: string, point: int, exponent: Option<int>)
    ensures Recognize(value).Some? ==>
              var n := Recognize(value).value;
              && WellFormed(n)
              && sign == (if n.sign == "-" then "-" else "")
              && digits == n.whole + n.fraction && point == |n.whole|
              && exponent == (if -EXPONENT_LIMIT <= ExponentValue(n) <= EXPONENT_LIMIT then Some(ExponentValue(n)) else None)
  {
    hide Num, Find, WellFormed, ParseInt, ExponentValue, Recognize, WithoutPoints, AllDigits;
    var s := value;
    sign := "";
    if s != "" && s[0] == '-' {
      sign, s := "-", s[1..];
    } else if s != "" && s[0] == '+' {
      s := s[1..];
    }
    assert s == value[|LeadingSign(value)|..];
    ghost var rest := s;
    s, exponent := ScanExponent(s);
    point := Find(s, IsPoint);
    digits := WithoutPoints(s);
    if Recognize(value).Some? {
      RecognizedParts(value);
      CutDigits(Recognize(value).value, s);
    }
  }

  /** Multiplies a decimal text by exactly 10^places, or refuses an exponent beyond the limit. */
  method ShiftDecimal(value: string, places: int) returns (r: Result<string, TextError>)
    ensures Recognize(value).Some? ==>
              var n := Recognize(value).value;
              && (r.Ok? <==> -10000 <= ExponentValue(n) <= 10000)
              && (r.Ok? ==> Plain(r.value, Value(n) * E(places)) && Trimmed(Recognize(r.value).value))
  {
    hide Shown, Recognize, ExponentValue, E, Num, Value, Trimmed;
    var sign, digits, point, exponent := Scan(value);
    if exponent.None? {
      return Err(ExponentRange);
    }
    point := point + exponent.value + places;
    var t := Place(sign, digits, point);
    if Recognize(value).Some? {
      ghost var n := Recognize(value).value;
      ScaledValue(n, places);
      assert ExponentValue(n) - |n.fraction| + places == point - |digits|;
      PlusIsNothing(n.sign, digits, point - |digits|);
    }
    r := Ok(t);
  }
}
