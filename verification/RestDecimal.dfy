/**
 Exact conversion of decimal text to the order-math range (clob/rest_decimal.go).
 */
module RestDecimal {
  import opened Common
  import opened Decimals
  import opened Digits
  import opened DecimalGrammar

  datatype TextError = Malformed | ExponentRange | OutOfRange

  const MIN_INT64: int := -0x8000_0000_0000_0000
  const MAX_INT64: int := 0x7fff_ffff_ffff_ffff

  /** `strconv.ParseInt` in base ten with 64 bits. */
  function ParseInt(s: string): Option<int> {
    var sign := LeadingSign(s);
    var digits := s[|sign|..];
    if digits == "" || !AllDigits(digits) then None
    else
      var v := Signed(sign, Num(digits));
      if MIN_INT64 <= v <= MAX_INT64 then Some(v) else None
  }

  /** The digits `text` with the point put `scale` places from the right. */
  function Render(text: string, scale: int): string {
    if scale <= 0 then text + Zeros(-scale)
    else if scale >= |text| then "0." + Zeros(scale - |text|) + text
    else text[..|text| - scale] + "." + text[|text| - scale..]
  }

  function Rendered(sign: string, text: string, scale: int): Numeral {
    if scale <= 0 then Numeral(sign, text + Zeros(-scale), false, "", None)
    else if scale >= |text| then Numeral(sign, "0", true, Zeros(scale - |text|) + text, None)
    else Numeral(sign, text[..|text| - scale], true, text[|text| - scale..], None)
  }

  /** The rendered text spells a plain numeral of exactly the intended value. */
  lemma RenderedValue(sign: string, text: string, scale: int)
    requires IsSign(sign) && AllDigits(text) && text != ""
    ensures WellFormed(Rendered(sign, text, scale)) && Rendered(sign, text, scale).exponent.None?
    ensures Text(Rendered(sign, text, scale)) == sign + Render(text, scale)
    ensures Value(Rendered(sign, text, scale)) == Shown(sign, text, -scale)
  {
    hide Shown;
    var m := Rendered(sign, text, scale);
    if scale <= 0 {
      assert m.whole + m.fraction == m.whole;
      PaddedShown(sign, text, m.whole, -scale, 0);
    } else if scale >= |text| {
      assert m.whole + m.fraction == Zeros(scale - |text| + 1) + text;
      LeadingShown(sign, text, m.whole + m.fraction, scale - |text| + 1, -scale);
    } else {
      assert m.whole + m.fraction == text;
    }
    RenderedText(sign, text, scale);
  }

  lemma RenderedText(sign: string, text: string, scale: int)
    ensures Mantissa(Rendered(sign, text, scale)) == Render(text, scale)
    ensures Text(Rendered(sign, text, scale)) == sign + Render(text, scale)
  {
    var m := Rendered(sign, text, scale);
    if 0 < scale && scale >= |text| {
      assert Mantissa(m) == "0." + Zeros(scale - |text|) + text;
    }
    assert Mantissa(m) == Render(text, scale);
    assert Text(m) == sign + Mantissa(m);
  }

  lemma PaddedShown(sign: string, text: string, padded: string, n: nat, k: int)
    requires AllDigits(text) && padded == text + Zeros(n)
    ensures AllDigits(padded) && Shown(sign, padded, k) == Shown(sign, text, k + n)
  {
    hide Shown, Num, Pow10;
    NumPadded(text, n);
    ShiftedShown(sign, text, padded, n, k);
  }

  lemma LeadingShown(sign: string, text: string, padded: string, n: nat, k: int)
    requires AllDigits(text) && padded == Zeros(n) + text
    ensures AllDigits(padded) && Shown(sign, padded, k) == Shown(sign, text, k)
  {
    hide Num, E;
    NumLeftPadded(text, n);
  }

  /** Zeros appended to the digits move the point. */
  lemma ShiftedShown(sign: string, text: string, padded: string, n: nat, k: int)
    requires AllDigits(text) && AllDigits(padded) && Num(padded) == Num(text) * Pow10(n)
    ensures Shown(sign, padded, k) == Shown(sign, text, k + n)
  {
    hide Num, E, Pow10;
    EAdds(n, k);
    WholePower(n);
    SignedScales(sign, Num(text), Pow10(n));
    Regroup(Signed(sign, Num(text)) as real, E(n), E(k));
  }

  lemma WholePower(n: nat)
    ensures E(n) == Pow10(n) as real
  {
  }

  lemma SignedScales(sign: string, a: nat, p: nat)
    ensures Signed(sign, a * p) as real == Signed(sign, a) as real * p as real
  {
  }

  lemma Regroup(x: real, y: real, z: real)
    ensures x * y * z == x * (y * z)
  {
  }

  /* Digits trimmed on both sides, and the scale at which they stand */

  function Core(text: string): string
    requires AllDigits(text)
  {
    TrimRight(TrimLeft(text))
  }

  function Trailing(text: string): nat
    requires AllDigits(text)
  {
    |TrimLeft(text)| - |Core(text)|
  }

  lemma CoreValue(sign: string, text: string, k: int)
    requires AllDigits(text)
    ensures Core(text) == "" ==> Shown(sign, text, k) == 0.0
    ensures Shown(sign, text, k) == Shown(sign, Core(text), k + Trailing(text))
  {
    hide E, Pow10, Num, TrimLeft, TrimRight;
    var left := TrimLeft(text);
    LeadingShown(sign, left, text, |text| - |left|, k);
    PaddedShown(sign, Core(text), left, Trailing(text), k);
    NothingLeft(sign, Core(text), k + Trailing(text));
  }

  lemma NothingLeft(sign: string, text: string, k: int)
    requires AllDigits(text)
    ensures text == "" ==> Shown(sign, text, k) == 0.0
  {
  }

  /** Exactly representable: at most 19 decimal places and below 10^39. */
  ghost predicate Representable(v: real) {
    Places19(v) && -E(39) < v < E(39)
  }

  ghost predicate Places19(v: real) {
    IsInt(v * E(19))
  }

  /** The magnitude of a shown value. */
  function Magnitude(text: string, k: int): real
    requires AllDigits(text)
  {
    Num(text) as real * E(k)
  }

  /* The range checks are exact */

  lemma {:induction false} Pow10Grows(a: nat, b: nat)
    requires a <= b
    ensures Pow10(a) <= Pow10(b)
  {
    if a < b {
      Pow10Grows(a, b - 1);
    }
  }

  /** A number that does not end in zero is no multiple of ten. */
  lemma LastDigit(text: string)
    requires AllDigits(text) && text != "" && text[|text| - 1] != '0'
    ensures Num(text) % 10 != 0
  {
  }

  lemma SpareTens(v: nat, j: nat, x: real)
    requires j >= 1 && x * Pow10(j) as real == v as real && IsInt(x)
    ensures v % 10 == 0
  {
    var k := x.Floor;
    assert v == k * Pow10(j) == 10 * (k * Pow10(j - 1));
  }

  /** The value has at most 19 places exactly when its trimmed scale is at most 19. */
  lemma PlacesExact(v: nat, scale: int, x: real)
    requires v % 10 != 0 && x == v as real * E(-scale)
    ensures Places19(x) <==> scale <= 19
  {
    hide E, Pow10, IsInt, Places19;
    EAdds(-scale, 19);
    Regroup(v as real, E(-scale), E(19));
    var y := v as real * E(19 - scale);
    SamePlaces(x, y);
    if scale <= 19 {
      WholePower(19 - scale);
      WholeProduct(v, Pow10(19 - scale), y);
    } else {
      var j := scale - 19;
      Undone(v as real, j);
      assert E(-j) == E(19 - scale);
      WholePower(j);
      if IsInt(y) {
        SpareTens(v, j, y);
      }
    }
  }

  lemma SamePlaces(x: real, y: real)
    requires x * E(19) == y
    ensures Places19(x) <==> IsInt(y)
  {
  }

  lemma WholeProduct(v: nat, p: nat, y: real)
    requires y == v as real * p as real
    ensures IsInt(y)
  {
    assert y == (v * p) as real;
  }

  lemma Undone(v: real, j: nat)
    ensures v * E(-(j as int)) * E(j) == v
  {
    hide E, Pow10;
    EInverse(j);
    Regroup(v, E(0 - j), E(j));
  }

  lemma DigitCount(text: string, n: int)
    requires AllDigits(text) && text != "" && text[0] != '0'
    ensures Num(text) as real < E(n) <==> |text| <= n
  {
    hide Num;
    NumBounds(text);
    if n < 0 {
      NegativePower(n);
      assert Pow10(|text| - 1) >= 1;
    } else {
      WholePower(n);
      if |text| <= n {
        Pow10Grows(|text|, n);
      } else {
        Pow10Grows(n, |text| - 1);
      }
    }
  }

  lemma NegativePower(n: int)
    requires n < 0
    ensures E(n) < 1.0
  {
    Pow10Grows(1, -n);
    var p := Pow10(-n) as real;
    assert Pow10(1) == 10;
    DivMul(1.0, p);
    UnscaleStrict(1.0 / p, 1.0, p);
  }

  /** The value is below 10^39 exactly when its digits before the point are at most 39. */
  lemma SizeExact(text: string, scale: int)
    requires AllDigits(text) && text != "" && text[0] != '0'
    ensures Magnitude(text, -scale) < E(39) <==> |text| - scale <= 39
  {
    hide E, Num;
    DigitCount(text, 39 + scale);
    EAdds(39 + scale, -scale);
    ScaleIff(Num(text) as real, E(39 + scale), E(-scale));
  }

  lemma ScaleIff(x: real, y: real, z: real)
    requires z > 0.0
    ensures x * z < y * z <==> x < y
  {
  }

  lemma SignIrrelevant(sign: string, text: string, k: int)
    requires AllDigits(text)
    ensures Representable(Shown(sign, text, k)) <==> Places19(Magnitude(text, k)) && Magnitude(text, k) < E(39)
  {
    hide Num, E, Places19;
    var x := Magnitude(text, k);
    SignedReal(sign, Num(text));
    NonNegativeProduct(Num(text) as real, E(k));
    if sign == "-" {
      Negate(Num(text) as real, E(k));
      assert Shown(sign, text, k) == -x;
      NegatePlaces(x);
    } else {
      assert Shown(sign, text, k) == x;
    }
  }

  lemma NegatePlaces(x: real)
    ensures Places19(-x) <==> Places19(x)
  {
    hide IsInt, E;
    Negate(x, E(19));
    NegateInt(x * E(19), -x * E(19));
  }

  lemma SignedReal(sign: string, n: nat)
    ensures Signed(sign, n) as real == if sign == "-" then -(n as real) else n as real
  {
  }

  lemma Negate(x: real, y: real)
    ensures -x * y == -(x * y)
  {
  }

  lemma NegateInt(x: real, z: real)
    requires z == -x
    ensures IsInt(z) <==> IsInt(x)
  {
    if IsInt(x) {
      var k := x.Floor;
      assert z == (-k) as real;
    }
    if IsInt(z) {
      var k := z.Floor;
      assert x == (-k) as real;
    }
  }

  lemma MagnitudePlaces(text: string, scale: int)
    requires AllDigits(text) && Num(text) % 10 != 0
    ensures Places19(Magnitude(text, -scale)) <==> scale <= 19
  {
    hide Num, E, Places19;
    PlacesExact(Num(text), scale, Magnitude(text, -scale));
  }

  lemma RangeExact(sign: string, text: string, scale: int)
    requires AllDigits(text) && text != "" && text[0] != '0' && text[|text| - 1] != '0'
    ensures Representable(Shown(sign, text, -scale)) <==> scale <= 19 && |text| - scale <= 39
  {
    hide Num, E, Representable, Shown, Places19, Magnitude;
    LastDigit(text);
    SignIrrelevant(sign, text, -scale);
    MagnitudePlaces(text, scale);
    SizeExact(text, scale);
  }

  lemma CoreNonZero(sign: string, text: string, k: int)
    requires AllDigits(text) && Core(text) != ""
    ensures Core(text)[0] != '0' && Core(text)[|Core(text)| - 1] != '0'
    ensures Shown(sign, text, k) != 0.0
  {
    hide E, Num, Shown, TrimLeft, TrimRight, Pow10;
    CoreValue(sign, text, k);
    NumBounds(Core(text));
    NonZeroShown(sign, Core(text), k + Trailing(text));
  }

  lemma NonZeroShown(sign: string, text: string, k: int)
    requires AllDigits(text) && Num(text) > 0
    ensures Shown(sign, text, k) != 0.0
  {
    hide E, Num;
    var x := Signed(sign, Num(text)) as real;
    assert x != 0.0;
    if x > 0.0 {
      StrictScale(0.0, x, E(k));
    } else {
      StrictScale(x, 0.0, E(k));
    }
  }

  /* The conversion */

  /** `t` is plain decimal text, without an exponent, of exactly the value `v`. */
  ghost predicate Plain(t: string, v: real) {
    Recognize(t).Some? && Recognize(t).value.exponent.None? && Value(Recognize(t).value) == v
  }

  predicate Int64Exponent(n: Numeral)
    requires WellFormed(n)
  {
    MIN_INT64 <= ExponentValue(n) <= MAX_INT64
  }

  lemma PlainNumeral(n: Numeral)
    requires WellFormed(n) && n.exponent.None?
    ensures Plain(Text(n), Value(n))
  {
    RecognizeComplete(n);
  }

  lemma PlainZero()
    ensures Plain("0", 0.0)
  {
    hide Plain, Value, WellFormed;
    ZeroNumeral();
    PlainNumeral(ZERO);
  }

  const ZERO := Numeral("", "0", false, "", None)

  lemma ZeroNumeral()
    ensures WellFormed(ZERO) && Text(ZERO) == "0" && Value(ZERO) == 0.0
  {
    assert ZERO.whole + ZERO.fraction == "0";
    assert Num("0") == 0;
  }

  lemma ParsesExponent(s: string)
    requires s != "" && IsMark(s[0])
    requires
      var e := ParseExponent(s).value;
      IsSign(e.sign) && e.digits != "" && AllDigits(e.digits)
    ensures
      var e := ParseExponent(s).value;
      var v := Signed(e.sign, Num(e.digits));
      ParseInt(s[1..]) == if MIN_INT64 <= v <= MAX_INT64 then Some(v) else None
  {
    assert s[1..][|LeadingSign(s[1..])|..] == s[1 + |LeadingSign(s[1..])|..];
  }

  lemma SpelledDigits(d: string)
    requires Recognize(d).Some?
    ensures |Recognize(d).value.whole| + |Recognize(d).value.fraction| <= |d|
  {
    RecognizeSound(d);
  }

  lemma PlainRendered(sign: string, text: string, scale: int)
    requires IsSign(sign) && AllDigits(text) && text != ""
    ensures Plain(sign + Render(text, scale), Shown(sign, text, -scale))
  {
    hide Plain, Render, Shown, Rendered;
    RenderedValue(sign, text, scale);
    PlainNumeral(Rendered(sign, text, scale));
  }

  /** A plus sign may be dropped. */
  lemma PlusIsNothing(sign: string, text: string, k: int)
    requires AllDigits(text) && IsSign(sign)
    ensures Shown(if sign == "-" then "-" else "", text, k) == Shown(sign, text, k)
  {
  }

  /** The second half of the conversion: digits, exponent and fraction length to plain text. The early
      bound on the exponent refuses nothing that the range check would accept. */
  method Rescale(length: nat, sign: string, digits: string, exponent: int, fraction: nat)
    returns (r: Result<string, TextError>)
    requires AllDigits(digits) && IsSign(sign) && fraction <= |digits| <= length
    ensures
      var v := Shown(sign, digits, exponent - fraction);
      && (r.Ok? <==> v == 0.0 || Representable(v)) && (r.Err? ==> r.error == OutOfRange)
      && (r.Ok? ==> Plain(r.value, v))
  {
    hide Shown, Representable, Plain, E, Num, TrimLeft, TrimRight;
    CoreValue(sign, digits, exponent - fraction);
    var text := TrimLeft(digits);
    if text == "" {
      PlainZero();
      return Ok("0");
    }
    var trimmed := TrimRight(text);
    var zeros := |text| - |trimmed|;
    text := trimmed;
    CoreNonZero(sign, digits, exponent - fraction);
    ghost var s := fraction - exponent - zeros;
    RangeExact(sign, text, s);
    if exponent < 0 - length - 19 || exponent > length + 39 {
      return Err(OutOfRange);
    }
    var scale := fraction - exponent - zeros;
    if scale > 19 || |text| - scale > 39 {
      return Err(OutOfRange);
    }
    PlainRendered(sign, text, scale);
    ghost var core := text;
    if scale <= 0 {
      text := text + Zeros(-scale);
    } else if scale >= |text| {
      text := "0." + Zeros(scale - |text|) + text;
    } else {
      var index := |text| - scale;
      text := text[..index] + "." + text[index..];
    }
    assert text == Render(core, scale);
    r := Ok(sign + text);
  }

  method StripSign(d: string) returns (sign: string, text: string)
    ensures sign == (if LeadingSign(d) == "-" then "-" else "") && text == d[|LeadingSign(d)|..]
  {
    sign, text := "", d;
    if text != "" && (text[0] == '-' || text[0] == '+') {
      if text[0] == '-' {
        sign := "-";
      }
      text := text[1..];
    }
  }

  /** Takes the point out of the mantissa and counts the digits behind it. */
  method StripPoint(mantissa: string) returns (text: string, fraction: nat)
    ensures
      var j := Find(mantissa, IsPoint);
      var f := if j < |mantissa| then mantissa[j + 1..] else "";
      text == mantissa[..j] + f && fraction == |f|
  {
    hide Find;
    text, fraction := mantissa, 0;
    var index := Find(text, IsPoint);
    if index < |text| {
      fraction := |text| - index - 1;
      text := text[..index] + text[index + 1..];
    }
  }

  /** The first half of the conversion: sign, exponent and point are taken out of the text. */
  method Split(d: string) returns (sign: string, text: string, exponent: Option<int>, fraction: nat)
    requires Recognize(d).Some?
    ensures
      var n := Recognize(d).value;
      && WellFormed(n) && IsSign(n.sign) && |n.whole| + |n.fraction| <= |d|
      && sign == (if n.sign == "-" then "-" else "")
      && exponent == (if Int64Exponent(n) then Some(ExponentValue(n)) else None)
      && text == n.whole + n.fraction && fraction == |n.fraction|
  {
    hide Num, Find, WellFormed, ParseInt, ExponentValue, Recognize, AllDigits, LeadingSign;
    RecognizedParts(d);
    sign, text := StripSign(d);
    exponent := Some(0);
    ghost var rest := text;
    var index := Find(text, IsMark);
    if index < |text| {
      assert text[index..][1..] == text[index + 1..];
      exponent := ParseInt(text[index + 1..]);
      text := text[..index];
    }
    assert text == rest[..Find(rest, IsMark)];
    text, fraction := StripPoint(text);
  }

  /** Converts decimal text exactly, or refuses it. A well-formed text is accepted exactly when its
      exponent fits 64 bits and its value is zero or representable; the text handed on to the decimal
      parser is plain and has the value of the input. */
  method Decimal(d: string) returns (r: Result<string, TextError>)
    ensures d == "" ==> r == Ok("0")
    ensures d != "" && Recognize(d).None? ==> r == Err(Malformed)
    ensures d != "" && Recognize(d).Some? ==>
              var n := Recognize(d).value;
              && (r.Ok? <==> Int64Exponent(n) && (Value(n) == 0.0 || Representable(Value(n))))
              && (r.Ok? ==> Plain(r.value, Value(n)))
              && (r.Err? ==> r.error == if Int64Exponent(n) then OutOfRange else ExponentRange)
  {
    hide Shown, Representable, Plain, ExponentValue, Recognize;
    if d == "" {
      return Ok("0");
    }
    if Recognize(d).None? {
      return Err(Malformed);
    }
    ghost var n := Recognize(d).value;
    var sign, text, exponent, fraction := Split(d);
    if exponent.None? {
      return Err(ExponentRange);
    }
    PlusIsNothing(n.sign, text, exponent.value - fraction);
    r := Rescale(|d|, sign, text, exponent.value, fraction);
  }

  /** What the first half of the conversion finds in a well-formed text. */
  lemma RecognizedParts(d: string)
    requires Recognize(d).Some?
    ensures
      var n := Recognize(d).value;
      var rest := d[|LeadingSign(d)|..];
      var i := Find(rest, IsMark);
      var mantissa := rest[..i];
      var j := Find(mantissa, IsPoint);
      && WellFormed(n) && AllDigits(n.whole) && AllDigits(n.fraction) && IsSign(n.sign)
      && n.sign == LeadingSign(d) && |n.whole| + |n.fraction| <= |d|
      && n.whole == mantissa[..j] && n.point == (j < |mantissa|)
      && n.fraction == (if j < |mantissa| then mantissa[j + 1..] else "")
      && (i == |rest| ==> ExponentValue(n) == 0)
      && (i < |rest| ==> ParseInt(rest[i..][1..]) == if Int64Exponent(n) then Some(ExponentValue(n)) else None)
  {
    hide Find, Num;
    SpelledDigits(d);
    var rest := d[|LeadingSign(d)|..];
    var i := Find(rest, IsMark);
    if i < |rest| {
      ParsesExponent(rest[i..]);
    }
  }
}
