/**
 Digit strings and the numbers they denote.
 */
module Digits {
  import opened Decimals

  predicate IsDigit(c: char) {
    '0' <= c <= '9'
  }

  predicate AllDigits(s: string) {
    forall i :: 0 <= i < |s| ==> IsDigit(s[i])
  }

  function DigitValue(c: char): nat
    requires IsDigit(c)
  {
    c as int - '0' as int
  }

  /** The number a digit string denotes; the empty string denotes zero. */
  function Num(s: string): nat
    requires AllDigits(s)
  {
    if s == "" then 0 else 10 * Num(s[..|s| - 1]) + DigitValue(s[|s| - 1])
  }

  function Zeros(n: nat): (s: string)
    ensures |s| == n && AllDigits(s) && forall i :: 0 <= i < n ==> s[i] == '0'
  {
    seq(n, _ => '0')
  }

  /** Powers of ten with any exponent. */
  function E(k: int): (r: real)
    ensures r > 0.0
  {
    if k >= 0 then Pow10(k) as real else 1.0 / Pow10(-k) as real
  }

  lemma ESucc(k: int)
    ensures E(k + 1) == 10.0 * E(k)
  {
    if k < 0 {
      var p := Pow10(-k - 1) as real;
      assert Pow10(-k) as real == 10.0 * p;
    }
  }

  lemma {:induction false} EAddsUp(a: int, b: nat)
    ensures E(a + b) == E(a) * E(b)
    decreases b, 1
  {
    if b == 0 {
      assert E(0) == 1.0;
    } else {
      EStep(a, b);
    }
  }

  lemma EStep(a: int, b: nat)
    requires b > 0
    ensures E(a + b) == E(a) * E(b)
    decreases b, 0
  {
    hide E;
    EAddsUp(a, b - 1);
    ESucc(a + b - 1);
    ESucc(b - 1);
    assert E(a) * (10.0 * E(b - 1)) == 10.0 * (E(a) * E(b - 1));
  }

  lemma ZeroPower()
    ensures Pow10(0) == 1
  {
  }

  lemma EInverse(b: nat)
    ensures E(b) * E(0 - b) == 1.0
  {
    hide Pow10;
    EAddsUp(0 - b, b);
    assert Pow10(0) == 1 by { ZeroPower(); }
  }

  lemma EAdds(a: int, b: int)
    ensures E(a + b) == E(a) * E(b)
  {
    hide E;
    if b >= 0 {
      EAddsUp(a, b);
    } else {
      EAddsUp(a + b, -b);
      EInverse(-b);
      Cancel(E(a + b), E(-b), E(b), E(a));
    }
  }

  lemma Cancel(x: real, y: real, z: real, w: real)
    requires y * z == 1.0 && w == x * y
    ensures x == w * z
  {
    assert w * z == x * (y * z);
  }

  lemma {:induction false} NumConcat(a: string, b: string)
    requires AllDigits(a) && AllDigits(b)
    ensures AllDigits(a + b) && Num(a + b) == Num(a) * Pow10(|b|) + Num(b)
  {
    if b == "" {
      assert a + b == a;
    } else {
      var init := b[..|b| - 1];
      NumConcat(a, init);
      assert (a + b)[..|a + b| - 1] == a + init;
      TenTimes(Num(a), Pow10(|init|), Pow10(|b|));
    }
  }

  lemma TenTimes(x: nat, p: nat, q: nat)
    requires q == 10 * p
    ensures x * q == 10 * (x * p)
  {
  }

  lemma {:induction false} NumZeros(n: nat)
    ensures Num(Zeros(n)) == 0
  {
    if n != 0 {
      NumZeros(n - 1);
      assert Zeros(n)[..n - 1] == Zeros(n - 1);
    }
  }

  lemma NumLeftPadded(s: string, n: nat)
    requires AllDigits(s)
    ensures AllDigits(Zeros(n) + s) && Num(Zeros(n) + s) == Num(s)
  {
    hide Num, Pow10;
    NumZeros(n);
    NumConcat(Zeros(n), s);
  }

  /** Leading zeros do not count, trailing zeros multiply. */
  lemma NumPadded(s: string, n: nat)
    requires AllDigits(s)
    ensures AllDigits(Zeros(n) + s) && Num(Zeros(n) + s) == Num(s)
    ensures AllDigits(s + Zeros(n)) && Num(s + Zeros(n)) == Num(s) * Pow10(n)
  {
    hide Num, Pow10;
    NumLeftPadded(s, n);
    NumZeros(n);
    NumConcat(s, Zeros(n));
  }

  /** A digit string without a leading zero has as many digits as its number. */
  lemma {:induction false} NumBounds(s: string)
    requires AllDigits(s) && s != "" && s[0] != '0'
    ensures Pow10(|s| - 1) <= Num(s) < Pow10(|s|)
  {
    if |s| > 1 {
      NumBounds(s[..|s| - 1]);
    } else {
      assert s[..0] == "";
    }
  }

  function TrimLeft(s: string): (r: string)
    requires AllDigits(s)
    ensures AllDigits(r) && |r| <= |s| && s == Zeros(|s| - |r|) + r && (r == "" || r[0] != '0')
  {
    if s != "" && s[0] == '0' then
      var r := TrimLeft(s[1..]);
      assert s == ['0'] + s[1..];
      r
    else s
  }

  function TrimRight(s: string): (r: string)
    requires AllDigits(s)
    ensures AllDigits(r) && |r| <= |s| && s == r + Zeros(|s| - |r|) && (r == "" || r[|r| - 1] != '0')
    ensures s != "" && s[0] != '0' ==> r != "" && r[0] == s[0]
  {
    if s != "" && s[|s| - 1] == '0' then
      var r := TrimRight(s[..|s| - 1]);
      assert s == s[..|s| - 1] + ['0'];
      r
    else s
  }

  /** The first position that satisfies `p`, or the length. */
  function Find(s: string, p: char -> bool): (i: nat)
    ensures i <= |s| && (i < |s| ==> p(s[i])) && forall j :: 0 <= j < i ==> !p(s[j])
  {
    if s == "" || p(s[0]) then 0 else 1 + Find(s[1..], p)
  }

  lemma FindIs(s: string, p: char -> bool, i: nat)
    requires i <= |s| && (i < |s| ==> p(s[i])) && forall j :: 0 <= j < i ==> !p(s[j])
    ensures Find(s, p) == i
  {
  }
}
