/**
 Amounts with six decimal places as text and as whole base units
 (clob/combo_quoter_quote.go, clob/combo_rfq.go).
 */
module ComboE6 {
  import opened Common
  import opened Decimals
  import opened Digits
  import opened DecimalGrammar
  import opened RestDecimal
  import opened ShiftDecimal

  const E6: nat := 1_000_000

  predicate IsNumeric(s: string) {
    s != "" && AllDigits(s)
  }

  /** The decimal text of a whole number. */
  function Show(n: nat): (s: string)
    ensures IsNumeric(s) && Num(s) == n && (n > 0 ==> s[0] != '0')
  {
    var digit := [('0' as int + n % 10) as char];
    if n < 10 then
      assert digit[..0] == "";
      digit
    else
      var s := Show(n / 10) + digit;
      assert s[..|s| - 1] == Show(n / 10);
      s
  }

  /* Digit strings of equal length are ordered by their numbers */

  lemma {:induction false} NumInjective(a: string, b: string)
    requires AllDigits(a) && AllDigits(b) && |a| == |b| && Num(a) == Num(b)
    ensures a == b
  {
    hide Num;
    if a != "" {
      NumSplit(a);
      NumSplit(b);
      LastDigits(Num(a[..|a| - 1]), DigitValue(a[|a| - 1]), Num(b[..|b| - 1]), DigitValue(b[|b| - 1]));
      NumInjective(a[..|a| - 1], b[..|b| - 1]);
      assert a == a[..|a| - 1] + [a[|a| - 1]];
    }
  }

  lemma LastDigits(x: nat, d: nat, y: nat, e: nat)
    requires 10 * x + d == 10 * y + e && d < 10 && e < 10
    ensures x == y && d == e
  {
  }

  lemma NumSplit(s: string)
    requires AllDigits(s) && s != ""
    ensures IsDigit(s[|s| - 1])
    ensures Num(s) == 10 * Num(s[..|s| - 1]) + DigitValue(s[|s| - 1])
  {
  }

  lemma SameLength(a: string, b: string)
    requires AllDigits(a) && AllDigits(b) && a != "" && b != "" && a[0] != '0' && b[0] != '0'
    requires Num(a) == Num(b)
    ensures |a| == |b|
  {
    hide Num, Pow10;
    NumBounds(a);
    NumBounds(b);
    if |a| < |b| {
      Pow10Grows(|a|, |b| - 1);
    } else if |b| < |a| {
      Pow10Grows(|b|, |a| - 1);
    }
  }

  /** The whole digits without superfluous leading zeros. */
  function Stripped(w: string): string
    requires AllDigits(w)
  {
    if TrimLeft(w) == "" then "0" else TrimLeft(w)
  }

  lemma LeadingZeros(w: string)
    requires AllDigits(w)
    ensures Num(w) == Num(TrimLeft(w))
  {
    hide *;
    SameNumber(w, TrimLeft(w), |w| - |TrimLeft(w)|);
  }

  lemma SameNumber(w: string, t: string, n: nat)
    requires AllDigits(t) && w == Zeros(n) + t
    ensures AllDigits(w) && Num(w) == Num(t)
  {
    hide Num;
    NumLeftPadded(t, n);
  }

  lemma ShowStripped(w: string)
    requires AllDigits(w)
    ensures Show(Num(w)) == Stripped(w)
  {
    hide Num, TrimLeft, Show, Pow10, Zeros, AllDigits;
    var t := TrimLeft(w);
    LeadingZeros(w);
    if t == "" {
      assert Num(w) == 0 by { EmptyNum(); }
      ShowZero();
    } else {
      NumBounds(t);
      SameLength(Show(Num(w)), t);
      NumInjective(Show(Num(w)), t);
    }
  }

  lemma EmptyNum()
    ensures Num("") == 0
  {
  }

  lemma ShowZero()
    ensures Show(0) == "0"
  {
  }

  lemma {:induction false} NumBelow(s: string)
    requires AllDigits(s)
    ensures Num(s) < Pow10(|s|)
  {
    if s != "" {
      NumBelow(s[..|s| - 1]);
    }
  }

  lemma SixPlaces()
    ensures Pow10(6) == E6
  {
    assert Pow10(3) == 1000;
  }

  /** A remainder below 10^6 is written with at most six digits. */
  lemma ShowShort(n: nat)
    requires n < E6
    ensures |Show(n)| <= 6
  {
    hide Num, Show;
    SixPlaces();
    if n == 0 {
      ShowZero();
    } else if |Show(n)| > 6 {
      NumBounds(Show(n));
      Pow10Grows(6, |Show(n)| - 1);
    }
  }

  /** The number written with exactly six digits. */
  function Six(n: nat): (s: string)
    requires n < E6
    ensures AllDigits(s) && |s| == 6 && Num(s) == n
  {
    hide Num, Show;
    ShowShort(n);
    NumPadded(Show(n), 6 - |Show(n)|);
    Zeros(6 - |Show(n)|) + Show(n)
  }

  /* The two conversions */

  function Whole(value: string): string {
    value[..Find(value, IsPoint)]
  }

  function Fraction(value: string): string {
    var i := Find(value, IsPoint);
    if i < |value| then value[i + 1..] else ""
  }

  predicate SixPlaceText(value: string) {
    IsNumeric(Whole(value)) && (Fraction(value) == "" || IsNumeric(Fraction(value))) && |Fraction(value)| <= 6
  }

  /** Unsigned decimal text with at most six places to a positive 256-bit number of base units. */
  function PositiveE6(value: string): Option<nat> {
    if !SixPlaceText(value) then None
    else
      var n := Num(Whole(value) + Fraction(value) + Zeros(6 - |Fraction(value)|));
      if n <= 0 || n >= UINT256_END then None else Some(n)
  }

  /** Whole base units, as text, to decimal text without trailing zeros. */
  function E6ToDecimal(value: string): Option<string> {
    if !IsNumeric(value) then None
    else
      var whole, rest := Num(value) / E6, Num(value) % E6;
      var fraction := TrimRight(Six(rest));
      Some(if fraction == "" then Show(whole) else Show(whole) + "." + fraction)
  }

  /* Splitting at the point */

  lemma CutWhole(w: string)
    requires AllDigits(w)
    ensures Whole(w) == w && Fraction(w) == ""
  {
    forall j | 0 <= j < |w|
      ensures !IsPoint(w[j])
    {
      assert IsDigit(w[j]);
    }
    FindIs(w, IsPoint, |w|);
  }

  lemma CutPoint(w: string, f: string)
    requires AllDigits(w)
    ensures Whole(w + "." + f) == w && Fraction(w + "." + f) == f
  {
    var s := w + "." + f;
    forall j | 0 <= j < |w|
      ensures !IsPoint(s[j])
    {
      assert IsDigit(w[j]) && s[j] == w[j];
    }
    FindIs(s, IsPoint, |w|);
  }

  lemma Joined(w: string, f: string)
    requires AllDigits(w) && AllDigits(f) && |f| == 6
    ensures AllDigits(w + f) && Num(w + f) == Num(w) * E6 + Num(f) && Num(f) < E6
  {
    hide Num;
    NumConcat(w, f);
    NumBelow(f);
    SixPlaces();
  }

  /** Nothing but a numeral is converted. */
  lemma OnlyNumerals(value: string)
    ensures E6ToDecimal(value).Some? <==> value != "" && forall i :: 0 <= i < |value| ==> '0' <= value[i] <= '9'
  {
  }

  /** What is written is read back: every numeral of base units survives the round trip, with or without
      leading zeros, and zero and numbers beyond 256 bits are refused. */
  lemma RoundTrip(value: string)
    requires IsNumeric(value)
    ensures E6ToDecimal(value).Some?
    ensures PositiveE6(E6ToDecimal(value).value) == if 0 < Num(value) < UINT256_END then Some(Num(value)) else None
  {
    hide Num, Show, Six, PositiveE6, TrimRight;
    var q, r := Num(value) / E6, Num(value) % E6;
    ReadBack(Show(q), Six(r), Num(value));
  }

  lemma ReadBack(w: string, six: string, n: nat)
    requires IsNumeric(w) && AllDigits(six) && |six| == 6 && n == Num(w) * E6 + Num(six)
    ensures
      var f := TrimRight(six);
      PositiveE6(if f == "" then w else w + "." + f) == if 0 < n < UINT256_END then Some(n) else None
  {
    hide PositiveE6, Num, TrimRight, Whole, Fraction;
    var f := TrimRight(six);
    if f == "" {
      CutWhole(w);
      ReadParts(w, w, f, six, n);
    } else {
      CutPoint(w, f);
      ReadParts(w + "." + f, w, f, six, n);
    }
  }

  lemma ReadParts(value: string, w: string, f: string, six: string, n: nat)
    requires Whole(value) == w && Fraction(value) == f && IsNumeric(w) && AllDigits(f) && |f| <= 6
    requires six == f + Zeros(6 - |f|) && n == Num(w) * E6 + Num(six)
    ensures PositiveE6(value) == if 0 < n < UINT256_END then Some(n) else None
  {
    hide Num, Whole, Fraction;
    Joined(w, six);
    assert w + f + Zeros(6 - |f|) == w + six;
  }

  /** The normal spelling of an accepted text. */
  function Normal(value: string): string
    requires SixPlaceText(value)
  {
    var w, f := Stripped(Whole(value)), TrimRight(Fraction(value));
    if f == "" then w else w + "." + f
  }

  lemma TrimRightPadded(f: string, n: nat)
    requires AllDigits(f)
    ensures TrimRight(f + Zeros(n)) == TrimRight(f)
    decreases n
  {
    if n == 0 {
      assert f + Zeros(0) == f;
    } else {
      var s := f + Zeros(n);
      assert s[..|s| - 1] == f + Zeros(n - 1);
      TrimRightPadded(f, n - 1);
    }
  }

  /** What is read is written back in its normal spelling, without superfluous zeros on either side. */
  lemma ReadThenWritten(value: string)
    requires PositiveE6(value).Some?
    ensures E6ToDecimal(Show(PositiveE6(value).value)) == Some(Normal(value))
  {
    hide Num, TrimRight, Show, Six, Whole, Fraction, Stripped;
    var w, f := Whole(value), Fraction(value);
    var six := f + Zeros(6 - |f|);
    Joined(w, six);
    assert w + f + Zeros(6 - |f|) == w + six;
    var n := PositiveE6(value).value;
    QuotientAndRest(Num(w), Num(six), n);
    ShowStripped(w);
    NumInjective(Six(Num(six)), six);
    TrimRightPadded(f, 6 - |f|);
  }

  /** Accepted texts of the same amount have one normal spelling, and it keeps the amount. */
  lemma OneNormalForm(a: string, b: string)
    requires PositiveE6(a).Some? && PositiveE6(a) == PositiveE6(b)
    ensures Normal(a) == Normal(b)
    ensures PositiveE6(Normal(a)) == PositiveE6(a)
  {
    hide PositiveE6, E6ToDecimal, Normal, SixPlaceText;
    ReadThenWritten(a);
    ReadThenWritten(b);
    PositiveRange(a);
    RoundTrip(Show(PositiveE6(a).value));
  }

  lemma PositiveRange(value: string)
    requires PositiveE6(value).Some?
    ensures 0 < PositiveE6(value).value < UINT256_END && SixPlaceText(value)
  {
  }

  lemma QuotientAndRest(q: nat, r: nat, n: nat)
    requires n == q * E6 + r && r < E6
    ensures n / E6 == q && n % E6 == r
  {
  }

  /* Exactness against the decimal grammar */

  ghost predicate PlainUnsigned(n: Numeral) {
    WellFormed(n) && n.sign == "" && n.exponent.None? && n.whole != ""
  }

  lemma CutNumeral(n: Numeral)
    requires PlainUnsigned(n)
    ensures Whole(Text(n)) == n.whole && Fraction(Text(n)) == n.fraction
  {
    hide Whole, Fraction;
    if n.point {
      assert Text(n) == n.whole + "." + n.fraction;
      CutPoint(n.whole, n.fraction);
    } else {
      assert Text(n) == n.whole;
      CutWhole(n.whole);
    }
  }

  lemma BaseUnitsOf(n: Numeral)
    requires PlainUnsigned(n) && |n.fraction| <= 6
    ensures Num(n.whole + n.fraction + Zeros(6 - |n.fraction|)) as real == Value(n) * E(6)
  {
    hide Num, E, Pow10, Zeros;
    var digits, k := n.whole + n.fraction, 6 - |n.fraction|;
    NumPadded(digits, k);
    ShiftedShown("", digits, digits + Zeros(k), k, 0);
    ScaledValue(n, 6);
    assert E(0) == 1.0 by { WholePower(0); ZeroPower(); }
  }

  /** Accepted text is exactly plain unsigned decimal text with at most six places whose value is positive
      and fits 256 bits in base units, and the result is that number of base units. */
  lemma PositiveE6Exact(value: string)
    ensures PositiveE6(value).Some? <==>
              && Recognize(value).Some? && PlainUnsigned(Recognize(value).value)
              && |Recognize(value).value.fraction| <= 6
              && 0.0 < Value(Recognize(value).value) * E(6) < UINT256_END as real
    ensures PositiveE6(value).Some? ==>
              PositiveE6(value).value as real == Value(Recognize(value).value) * E(6)
  {
    hide Num, E, Whole, Fraction, Recognize, Value;
    if SixPlaceText(value) {
      var n := Numeral("", Whole(value), Find(value, IsPoint) < |value|, Fraction(value), None);
      Spelled(value, n);
      RecognizeComplete(n);
      BaseUnitsOf(n);
    } else if Recognize(value).Some? && PlainUnsigned(Recognize(value).value) {
      RecognizeSound(value);
      CutNumeral(Recognize(value).value);
    }
  }

  lemma Spelled(value: string, n: Numeral)
    requires n == Numeral("", Whole(value), Find(value, IsPoint) < |value|, Fraction(value), None)
    ensures Text(n) == value
    ensures !n.point ==> n.fraction == ""
  {
    hide Find;
    CutMantissa(value);
    assert Mantissa(n) == value;
    PlainText(n);
  }
}
