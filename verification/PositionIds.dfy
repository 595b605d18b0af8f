/**
 Native position identifiers (clob/ctf_v2.go): a 31-byte condition whose first byte names its module,
 followed by an outcome byte, read as one 256-bit number.
 */
module PositionIds {
  import opened Common

  type Byte = x: nat | x < 256

  type Condition = c: seq<Byte> | |c| == 31 witness seq(31, _ => 0)

  datatype PositionError = OutOfRange | Unsupported

  function Pow256(n: nat): (r: nat)
    ensures r >= 1
  {
    if n == 0 then 1 else 256 * Pow256(n - 1)
  }

  /** Big-endian bytes as a number, `big.Int.SetBytes`. */
  function Big(s: seq<Byte>): nat {
    if s == [] then 0 else 256 * Big(s[..|s| - 1]) + s[|s| - 1]
  }

  /** A number as `n` big-endian bytes, `big.Int.FillBytes`. */
  function Fill(v: nat, n: nat): (s: seq<Byte>)
    ensures |s| == n
  {
    if n == 0 then [] else Fill(v / 256, n - 1) + [v % 256]
  }

  lemma {:induction false} BigFill(v: nat, n: nat)
    requires v < Pow256(n)
    ensures Big(Fill(v, n)) == v
  {
    if n != 0 {
      BigFill(v / 256, n - 1);
      assert Fill(v, n)[..n - 1] == Fill(v / 256, n - 1);
    }
  }

  lemma {:induction false} FillBig(s: seq<Byte>)
    ensures Big(s) < Pow256(|s|) && Fill(Big(s), |s|) == s
  {
    if s != [] {
      var init := s[..|s| - 1];
      FillBig(init);
      assert Big(s) / 256 == Big(init) && Big(s) % 256 == s[|s| - 1];
      assert s == init + [s[|s| - 1]];
    }
  }

  lemma BigSnoc(s: seq<Byte>, b: Byte)
    ensures Big(s + [b]) == 256 * Big(s) + b
  {
    assert (s + [b])[..|s|] == s;
  }

  lemma {:induction false} Pow256Adds(a: nat, b: nat)
    ensures Pow256(a + b) == Pow256(a) * Pow256(b)
  {
    if a != 0 {
      Pow256Adds(a - 1, b);
      assert Pow256(a + b) == 256 * (Pow256(a - 1) * Pow256(b)) == 256 * Pow256(a - 1) * Pow256(b);
    }
  }

  lemma Uint256()
    ensures Pow256(32) == UINT256_END
  {
    assert Pow256(4) == 0x1_0000_0000;
    Pow256Adds(4, 4);
    Pow256Adds(8, 8);
    Pow256Adds(16, 16);
  }

  /* Encoding and decoding */

  function Position(c: Condition, outcome: Byte): nat {
    Big(c + [outcome])
  }

  predicate SupportedModule(m: Byte) {
    1 <= m <= 3
  }

  /** The condition and outcome that a position encodes, if it is a 256-bit number of a supported module. */
  function Decoded(position: Option<int>): Result<(Condition, Byte), PositionError> {
    if position.None? || position.value < 0 || position.value >= UINT256_END then Err(OutOfRange)
    else
      var s := Fill(position.value, 32);
      if !SupportedModule(s[0]) || s[31] > 1 then Err(Unsupported) else Ok((s[..31], s[31]))
  }

  /** Both positions of a condition: the buffer is filled once and its last byte is then set to one. */
  method PositionIDs(id: Condition) returns (yes: nat, no: nat)
    ensures yes == Position(id, 0) && no == Position(id, 1) && no == yes + 1
  {
    hide Big;
    var encoded := new Byte[32](_ => 0);
    forall i | 0 <= i < 31 {
      encoded[i] := id[i];
    }
    assert encoded[..] == id + [0];
    yes := Big(encoded[..]);
    encoded[31] := 1;
    assert encoded[..] == id + [1];
    no := Big(encoded[..]);
    BigSnoc(id, 0);
    BigSnoc(id, 1);
  }

  method DecodeV2PositionID(position: Option<int>) returns (r: Result<(Condition, Byte), PositionError>)
    ensures r == Decoded(position)
  {
    hide Fill;
    if position.None? || position.value < 0 || position.value >= UINT256_END {
      return Err(OutOfRange);
    }
    var bytes := Fill(position.value, 32);
    var encoded := new Byte[32](_ => 0);
    forall i | 0 <= i < 32 {
      encoded[i] := bytes[i];
    }
    assert encoded[..] == bytes;
    if encoded[0] < 1 || encoded[0] > 3 || encoded[31] > 1 {
      return Err(Unsupported);
    }
    var condition: Condition := encoded[..31];
    r := Ok((condition, encoded[31]));
  }

  lemma {:induction false} TopByte(v: nat, n: nat)
    requires n > 0 && v < Pow256(n)
    ensures Fill(v, n)[0] == v / Pow256(n - 1) && Fill(v, n)[n - 1] == v % 256
  {
    if n > 1 {
      TopByte(v / 256, n - 1);
      assert Fill(v, n)[0] == Fill(v / 256, n - 1)[0];
      DivDiv(v, Pow256(n - 2));
    }
  }

  lemma DivDiv(v: nat, d: nat)
    requires d > 0
    ensures v / 256 / d == v / (256 * d)
  {
    var a, b := v / 256, v % 256;
    var q, r := a / d, a % d;
    assert v == q * (256 * d) + (256 * r + b) by { Unfold(v, a, b, q, r, d); }
    assert 256 * r + b < 256 * d;
    QuotientIs(v, 256 * d, q, 256 * r + b);
  }

  lemma Unfold(v: nat, a: nat, b: nat, q: nat, r: nat, d: nat)
    requires v == 256 * a + b && a == q * d + r
    ensures v == q * (256 * d) + (256 * r + b)
  {
    assert 256 * (q * d) == q * (256 * d);
  }

  lemma QuotientIs(v: nat, d: nat, q: nat, r: nat)
    requires v == q * d + r && r < d
    ensures v / d == q
  {
    var w := v / d;
    assert w * d <= v < (w + 1) * d;
    Below(w, q + 1, d);
    Below(q, w + 1, d);
  }

  lemma Below(x: nat, y: nat, z: nat)
    requires x * z < y * z
    ensures x < y
  {
  }

  /** Decoding accepts exactly the numbers whose top byte is 1, 2 or 3 and whose last byte is 0 or 1. */
  lemma DecodesExactly(position: Option<int>)
    ensures Decoded(position).Ok? <==>
              position.Some? && Pow256(31) <= position.value < 4 * Pow256(31) && position.value % 256 <= 1
  {
    hide Fill, Pow256;
    Uint256();
    TopPower();
    if position.Some? && 0 <= position.value < UINT256_END {
      TopByte(position.value, 32);
      BetweenPowers(position.value, Pow256(31));
    }
  }

  /** The module of a position, in terms of the number. */
  lemma ModuleOf(position: Option<int>)
    requires Decoded(position).Ok?
    ensures Decoded(position).value.0[0] == 3 <==> position.value >= 3 * Pow256(31)
  {
    hide Fill, Pow256;
    Uint256();
    DecodesExactly(position);
    TopByte(position.value, 32);
    AtLeastThree(position.value, Pow256(31));
  }

  lemma AtLeastThree(v: nat, d: nat)
    requires d > 0 && v < 4 * d
    ensures v / d == 3 <==> v >= 3 * d
  {
    BetweenPowers(v, d);
    var q, r := v / d, v % d;
    assert v == q * d + r;
    if v >= 3 * d {
      QuotientIs(v, d, 3, v - 3 * d);
    } else {
      Below(q, 3, d);
    }
  }

  lemma TopPower()
    ensures Pow256(32) == 256 * Pow256(31)
  {
  }

  lemma BetweenPowers(v: nat, d: nat)
    requires d > 0
    ensures 1 <= v / d <= 3 <==> d <= v < 4 * d
  {
    var q, r := v / d, v % d;
    assert v == q * d + r;
    if q <= 0 {
      assert q == 0;
    } else if q >= 4 {
      assert 4 * d <= q * d;
    } else {
      assert d <= q * d <= 3 * d;
    }
  }

  /** Decoding inverts encoding, for exactly the supported modules. */
  lemma EncodeThenDecode(c: Condition, outcome: Byte)
    requires outcome <= 1
    ensures Decoded(Some(Position(c, outcome))) == if SupportedModule(c[0]) then Ok((c, outcome)) else Err(Unsupported)
  {
    hide Fill, Big;
    FillBig(c + [outcome]);
    Uint256();
    assert (c + [outcome])[..31] == c;
  }

  /** Encoding inverts decoding. */
  lemma DecodeThenEncode(position: Option<int>)
    requires Decoded(position).Ok?
    ensures
      var (c, outcome) := Decoded(position).value;
      && position == Some(Position(c, outcome)) && SupportedModule(c[0]) && outcome <= 1
      && position.value / 256 == Big(c)
  {
    hide Fill, Big;
    var s := Fill(position.value, 32);
    Uint256();
    BigFill(position.value, 32);
    assert s == s[..31] + [s[31]];
    BigSnoc(s[..31], s[31]);
  }

  lemma SameShift(p: Option<int>, q: Option<int>)
    requires Decoded(p).Ok? && Decoded(q).Ok?
    ensures p.value / 256 == q.value / 256 <==> Decoded(p).value.0 == Decoded(q).value.0
  {
    hide Decoded, Fill, Big, Position;
    DecodeThenEncode(p);
    DecodeThenEncode(q);
    FillBig(Decoded(p).value.0);
    FillBig(Decoded(q).value.0);
  }
}
