/**
 Canonical combo legs (clob/ctf_v2.go): sorted, with at most one leg per condition.
 */
module ComboLegs {
  import opened Common
  import opened PositionIds

  const MAX_LEGS := 50
  const COMBO_MODULE: Byte := 3

  datatype LegError = LegCount | InvalidLeg | NestedCombo | DuplicateCondition

  /** A position of the binary or neg-risk module. */
  predicate IsLeg(leg: Option<int>) {
    leg.Some? && Decoded(leg).Ok? && Decoded(leg).value.0[0] != COMBO_MODULE
  }

  function ConditionOf(leg: Option<int>): Condition
    requires IsLeg(leg)
  {
    Decoded(leg).value.0
  }

  /** The legs are exactly the positions of modules 1 and 2 with outcome 0 or 1. */
  lemma LegsExactly(leg: Option<int>)
    ensures IsLeg(leg) <==>
              leg.Some? && Pow256(31) <= leg.value < 3 * Pow256(31) && leg.value % 256 <= 1
  {
    hide Fill, Pow256;
    DecodesExactly(leg);
    if Decoded(leg).Ok? {
      ModuleOf(leg);
    }
  }

  ghost predicate AllLegs(legs: seq<Option<int>>) {
    forall i :: 0 <= i < |legs| ==> IsLeg(legs[i])
  }

  /** What a leg list must be: between 1 and 50 legs, each a leg, no two of the same condition. */
  ghost predicate Accepted(legs: seq<Option<int>>) {
    && 1 <= |legs| <= 50
    && AllLegs(legs)
    && forall i, j :: 0 <= i < j < |legs| ==> ConditionOf(legs[i]) != ConditionOf(legs[j])
  }

  predicate Ascending(s: seq<int>) {
    forall i, j :: 0 <= i < j < |s| ==> s[i] <= s[j]
  }

  ghost predicate Distinct(s: seq<int>) {
    forall i, j :: 0 <= i < j < |s| ==> s[i] / 256 != s[j] / 256
  }

  function Values(legs: seq<Option<int>>): (s: seq<int>)
    requires forall i :: 0 <= i < |legs| ==> legs[i].Some?
  {
    seq(|legs|, i requires 0 <= i < |legs| => legs[i].value)
  }

  /** Distinct conditions are distinct numbers once the outcome byte is shifted out. */
  lemma DistinctConditions(legs: seq<Option<int>>)
    requires AllLegs(legs)
    ensures Distinct(Values(legs)) <==>
            forall i, j :: 0 <= i < j < |legs| ==> ConditionOf(legs[i]) != ConditionOf(legs[j])
  {
    hide Decoded;
    forall i, j | 0 <= i < j < |legs|
      ensures Values(legs)[i] / 256 != Values(legs)[j] / 256 <==> ConditionOf(legs[i]) != ConditionOf(legs[j])
    {
      SameShift(legs[i], legs[j]);
    }
  }

  /* Sorting */

  /** `slices.SortFunc` by value, specified by its result. */
  function Sort(s: seq<int>): (r: seq<int>)
    ensures Ascending(r) && multiset(r) == multiset(s)
  {
    if s == [] then []
    else
      assert s == [s[0]] + s[1..];
      Insert(s[0], Sort(s[1..]))
  }

  function Insert(x: int, s: seq<int>): (r: seq<int>)
    requires Ascending(s)
    ensures Ascending(r) && multiset(r) == multiset{x} + multiset(s)
  {
    if s == [] || x <= s[0] then [x] + s
    else
      var rest := Insert(x, s[1..]);
      Prepended(s, x, rest);
      [s[0]] + rest
  }

  lemma Prepended(s: seq<int>, x: int, rest: seq<int>)
    requires s != [] && Ascending(s) && s[0] <= x && Ascending(rest) && multiset(rest) == multiset{x} + multiset(s[1..])
    ensures Ascending([s[0]] + rest) && multiset([s[0]] + rest) == multiset{x} + multiset(s)
  {
    assert s == [s[0]] + s[1..];
    HeadStaysLeast(s[0], x, s[1..], rest);
  }

  lemma HeadStaysLeast(head: int, x: int, s: seq<int>, r: seq<int>)
    requires head <= x && (forall i :: 0 <= i < |s| ==> head <= s[i]) && multiset(r) == multiset{x} + multiset(s)
    ensures forall i :: 0 <= i < |r| ==> head <= r[i]
  {
    forall i | 0 <= i < |r|
      ensures head <= r[i]
    {
      assert r[i] in multiset(r);
    }
  }

  /** An ascending permutation is unique, so it does not matter how the list is sorted. */
  lemma {:induction false} SortedOnce(a: seq<int>, b: seq<int>)
    requires Ascending(a) && Ascending(b) && multiset(a) == multiset(b)
    ensures a == b
  {
    assert |a| == |multiset(a)| == |multiset(b)| == |b|;
    if a != [] {
      LastIsGreatest(a, b);
      LastIsGreatest(b, a);
      Peel(a);
      Peel(b);
      SortedOnce(a[..|a| - 1], b[..|b| - 1]);
    }
  }

  lemma Peel(s: seq<int>)
    requires s != []
    ensures s == s[..|s| - 1] + [s[|s| - 1]]
    ensures multiset(s[..|s| - 1]) == multiset(s) - multiset{s[|s| - 1]}
  {
    assert s == s[..|s| - 1] + [s[|s| - 1]];
  }

  lemma LastIsGreatest(a: seq<int>, b: seq<int>)
    requires Ascending(b) && multiset(a) == multiset(b) && |a| == |b| > 0
    ensures a[|a| - 1] <= b[|b| - 1]
  {
    assert a[|a| - 1] in multiset(a);
    assert a[|a| - 1] in b;
  }

  /* Comparing neighbours is enough */

  ghost predicate NeighboursDiffer(s: seq<int>) {
    forall i :: 0 < i < |s| ==> s[i - 1] / 256 != s[i] / 256
  }

  lemma {:induction false} NeighboursSuffice(s: seq<int>)
    requires Ascending(s)
    ensures NeighboursDiffer(s) <==> Distinct(s)
  {
    if NeighboursDiffer(s) {
      forall i, j | 0 <= i < j < |s|
        ensures s[i] / 256 != s[j] / 256
      {
        assert s[j - 1] / 256 < s[j] / 256;
        assert s[i] / 256 <= s[j - 1] / 256;
      }
    }
  }

  /* Distinctness does not depend on the order */

  ghost predicate DistinctBag(m: multiset<int>) {
    forall x, y :: x in m && y in m && x / 256 == y / 256 ==> x == y && m[x] == 1
  }

  lemma {:induction false} BagOf(s: seq<int>)
    ensures Distinct(s) <==> DistinctBag(multiset(s))
  {
    if s != [] {
      var n := |s| - 1;
      var init := s[..n];
      BagOf(init);
      assert s == init + [s[n]];
      assert multiset(s) == multiset(init) + multiset{s[n]};
      if i :| 0 <= i < n && s[i] / 256 == s[n] / 256 {
        BagClashes(s, i);
      } else if Distinct(init) {
        BagGrows(multiset(init), s[n], init);
      } else {
        BagShrinks(multiset(init), multiset(s));
      }
    }
  }

  lemma BagGrows(m: multiset<int>, x: int, s: seq<int>)
    requires DistinctBag(m) && m == multiset(s) && forall i :: 0 <= i < |s| ==> s[i] / 256 != x / 256
    ensures DistinctBag(m + multiset{x})
  {
    forall y | y in m
      ensures y / 256 != x / 256
    {
      assert y in s;
    }
  }

  lemma BagClashes(s: seq<int>, i: nat)
    requires i < |s| - 1 && s[i] / 256 == s[|s| - 1] / 256
    ensures !Distinct(s) && !DistinctBag(multiset(s))
  {
    var n := |s| - 1;
    assert s == s[..n] + [s[n]];
    assert s[i] in multiset(s[..n]) by { assert s[..n][i] == s[i]; }
    assert multiset(s)[s[n]] == multiset(s[..n])[s[n]] + 1;
    assert s[i] in multiset(s) && s[n] in multiset(s);
  }

  lemma BagShrinks(m: multiset<int>, n: multiset<int>)
    requires m <= n && !DistinctBag(m)
    ensures !DistinctBag(n)
  {
    var x, y :| x in m && y in m && x / 256 == y / 256 && !(x == y && m[x] == 1);
    assert m[x] <= n[x] && m[y] <= n[y];
  }

  lemma DistinctInAnyOrder(a: seq<int>, b: seq<int>)
    requires multiset(a) == multiset(b)
    ensures Distinct(a) <==> Distinct(b)
  {
    hide Distinct, DistinctBag;
    BagOf(a);
    BagOf(b);
  }

  /* The canonical list */

  /** Copies the legs, refusing the first that is none. */
  method CopyLegs(legs: seq<Option<int>>) returns (r: Result<seq<int>, LegError>)
    ensures r.Ok? <==> AllLegs(legs)
    ensures r.Ok? ==> r.value == Values(legs)
  {
    hide Decoded;
    var canonical: seq<int> := [];
    for i := 0 to |legs|
      invariant AllLegs(legs[..i]) && canonical == Values(legs[..i])
    {
      var decoded := DecodeV2PositionID(legs[i]);
      if decoded.Err? {
        return Err(InvalidLeg);
      }
      LegHasValue(legs[i]);
      var condition := decoded.value.0;
      if condition[0] == COMBO_MODULE {
        return Err(NestedCombo);
      }
      canonical := canonical + [legs[i].value];
    }
    assert legs[..|legs|] == legs;
    r := Ok(canonical);
  }

  lemma LegHasValue(leg: Option<int>)
    requires Decoded(leg).Ok?
    ensures leg.Some?
  {
  }

  method CompareNeighbours(canonical: seq<int>) returns (ok: bool)
    ensures ok <==> NeighboursDiffer(canonical)
  {
    var i := 1;
    while i < |canonical|
      invariant i >= 1
      invariant forall k :: 0 < k < i && k < |canonical| ==> canonical[k - 1] / 256 != canonical[k] / 256
    {
      if canonical[i - 1] / 256 == canonical[i] / 256 {
        return false;
      }
      i := i + 1;
    }
    return true;
  }

  /** The canonical list exists exactly for accepted legs; it is then their one ascending permutation. */
  method CanonicalComboLegs(legs: seq<Option<int>>) returns (r: Result<seq<int>, LegError>)
    ensures r.Ok? <==> Accepted(legs)
    ensures r.Ok? ==> Ascending(r.value) && multiset(r.value) == multiset(Values(legs))
  {
    hide Decoded, Distinct, NeighboursDiffer, Ascending;
    if |legs| == 0 || |legs| > MAX_LEGS {
      return Err(LegCount);
    }
    var copied := CopyLegs(legs);
    if copied.Err? {
      return copied;
    }
    var canonical := Sort(copied.value);
    DistinctConditions(legs);
    DistinctInAnyOrder(copied.value, canonical);
    NeighboursSuffice(canonical);
    var ok := CompareNeighbours(canonical);
    if !ok {
      return Err(DuplicateCondition);
    }
    r := Ok(canonical);
  }

  lemma {:induction false} ValuesCount(legs: seq<Option<int>>, x: int)
    requires forall i :: 0 <= i < |legs| ==> legs[i].Some?
    ensures multiset(Values(legs))[x] == multiset(legs)[Some(x)]
  {
    if legs != [] {
      var n := |legs| - 1;
      ValuesCount(legs[..n], x);
      assert legs == legs[..n] + [legs[n]];
      assert Values(legs) == Values(legs[..n]) + [legs[n].value];
    }
  }

  /** Every reordering of the legs is accepted or refused alike, and gives the same canonical list. */
  lemma AnyOrder(legs: seq<Option<int>>, other: seq<Option<int>>)
    requires multiset(legs) == multiset(other)
    ensures Accepted(legs) <==> Accepted(other)
    ensures AllLegs(legs) && AllLegs(other) ==> Sort(Values(legs)) == Sort(Values(other))
  {
    hide Decoded, Sort, Distinct;
    assert |legs| == |multiset(legs)| == |multiset(other)| == |other|;
    SameMembers(legs, other);
    SameMembers(other, legs);
    if AllLegs(legs) && AllLegs(other) {
      SameValues(legs, other);
      DistinctInAnyOrder(Values(legs), Values(other));
      DistinctConditions(legs);
      DistinctConditions(other);
      SortedOnce(Sort(Values(legs)), Sort(Values(other)));
    }
  }

  lemma SameMembers(legs: seq<Option<int>>, other: seq<Option<int>>)
    requires multiset(legs) == multiset(other)
    ensures AllLegs(legs) ==> AllLegs(other)
  {
    hide IsLeg;
    forall i | 0 <= i < |other| && AllLegs(legs)
      ensures IsLeg(other[i])
    {
      assert other[i] in multiset(other);
      assert other[i] in legs;
    }
  }

  lemma SameValues(legs: seq<Option<int>>, other: seq<Option<int>>)
    requires multiset(legs) == multiset(other) && AllLegs(legs) && AllLegs(other)
    ensures multiset(Values(legs)) == multiset(Values(other))
  {
    forall x: int
      ensures multiset(Values(legs))[x] == multiset(Values(other))[x]
    {
      ValuesCount(legs, x);
      ValuesCount(other, x);
    }
  }
}
