/**
 Normalising the leg list of a combo quote request (clob/combo_rfq.go): numbers as text, sorted and
 spelled canonically, with no number twice.
 */
module ComboRequest {
  import opened Common
  import opened Digits
  import opened ComboE6
  import opened ComboQuote
  import opened ComboLegs

  const MIN_LEG_IDS := 2
  const MAX_LEG_IDS := 50

  datatype RequestError = IdCount | InvalidId | DuplicateId

  ghost predicate AllValid(ids: seq<string>) {
    forall i :: 0 <= i < |ids| ==> PositionValid(ids[i])
  }

  /** The number that an identifier spells. */
  function Number(id: string): nat {
    if IsNumeric(id) then Num(id) else 0
  }

  function Numbers(ids: seq<string>): seq<int> {
    seq(|ids|, i requires 0 <= i < |ids| => Number(ids[i]))
  }

  ghost predicate NoRepeat(s: seq<int>) {
    forall i, j :: 0 <= i < j < |s| ==> s[i] != s[j]
  }

  /** A canonical list: valid numbers, spelled without superfluous zeros, in ascending order. */
  ghost predicate Normalized(ids: seq<string>) {
    && AllValid(ids)
    && (forall i :: 0 <= i < |ids| ==> ids[i] == Show(Number(ids[i])))
    && Ascending(Numbers(ids))
  }

  ghost predicate Acceptable(ids: seq<string>) {
    2 <= |ids| <= 50 && AllValid(ids) && NoRepeat(Numbers(ids))
  }

  ghost predicate SeenIs(seen: set<string>, legs: seq<int>) {
    && (forall i :: 0 <= i < |legs| ==> legs[i] >= 0 && Show(legs[i]) in seen)
    && (forall t :: t in seen ==> exists i :: 0 <= i < |legs| && legs[i] >= 0 && t == Show(legs[i]))
  }

  /** A spelling that was seen before is a number that was seen before. */
  lemma SeenBefore(seen: set<string>, legs: seq<int>, n: nat)
    requires SeenIs(seen, legs)
    ensures Show(n) in seen <==> n in legs
  {
    hide Show;
    if Show(n) in seen {
      var i :| 0 <= i < |legs| && legs[i] >= 0 && Show(n) == Show(legs[i]);
      assert Num(Show(n)) == Num(Show(legs[i]));
    }
  }

  lemma SeenGrows(seen: set<string>, legs: seq<int>, n: nat)
    requires SeenIs(seen, legs)
    ensures SeenIs(seen + {Show(n)}, legs + [n])
  {
    hide Show;
    var more := legs + [n];
    forall t | t in seen + {Show(n)}
      ensures exists i :: 0 <= i < |more| && more[i] >= 0 && t == Show(more[i])
    {
      if t in seen {
        var i :| 0 <= i < |legs| && legs[i] >= 0 && t == Show(legs[i]);
        assert more[i] == legs[i];
      } else {
        assert more[|legs|] == n;
      }
    }
  }

  /** Reads the identifiers, refusing one that is no 256-bit number or repeats an earlier number. */
  method ReadLegs(ids: seq<string>) returns (r: Result<seq<int>, RequestError>)
    ensures r.Ok? <==> AllValid(ids) && NoRepeat(Numbers(ids))
    ensures r.Ok? ==> r.value == Numbers(ids)
  {
    hide Number, Show, PositionValid, SeenIs;
    var legs: seq<int> := [];
    var seen: set<string> := {};
    assert SeenIs(seen, legs) by { NothingSeen(); }
    for i := 0 to |ids|
      invariant AllValid(ids[..i]) && legs == Numbers(ids[..i]) && NoRepeat(legs) && SeenIs(seen, legs)
    {
      if !PositionValid(ids[i]) {
        return Err(InvalidId);
      }
      var leg := ReadId(ids[i]);
      SeenBefore(seen, legs, leg);
      if Show(leg) in seen {
        Repeats(ids, i);
        return Err(DuplicateId);
      }
      SeenGrows(seen, legs, leg);
      seen := seen + {Show(leg)};
      legs := legs + [leg];
    }
    assert ids[..|ids|] == ids;
    r := Ok(legs);
  }

  lemma NothingSeen()
    ensures SeenIs({}, [])
  {
  }

  method ReadId(id: string) returns (leg: nat)
    requires PositionValid(id)
    ensures leg == Number(id)
  {
    leg := Num(id);
  }

  lemma Repeats(ids: seq<string>, i: nat)
    requires i < |ids| && AllValid(ids[..i]) && PositionValid(ids[i]) && Number(ids[i]) in Numbers(ids[..i])
    ensures !(AllValid(ids) && NoRepeat(Numbers(ids)))
  {
    hide Number, PositionValid;
    var k :| 0 <= k < i && Numbers(ids[..i])[k] == Number(ids[i]);
    if AllValid(ids) {
      assert Numbers(ids)[k] == Numbers(ids)[i];
    }
  }

  /** Accepted exactly when every identifier is a 256-bit number and no number is given twice, however it is
      spelled; the result then spells the same numbers, normalised. */
  method NormalizeLegIds(ids: seq<string>) returns (r: Result<seq<string>, RequestError>)
    ensures r.Ok? <==> Acceptable(ids)
    ensures r.Ok? ==> Normalized(r.value) && multiset(Numbers(r.value)) == multiset(Numbers(ids))
  {
    hide Number, Show, PositionValid, Ascending;
    if |ids| < MIN_LEG_IDS || |ids| > MAX_LEG_IDS {
      return Err(IdCount);
    }
    var read := ReadLegs(ids);
    if read.Err? {
      return Err(read.error);
    }
    var legs := Sort(read.value);
    SortedNumbers(ids, legs);
    var spelled: seq<string> := [];
    for i := 0 to |legs|
      invariant |spelled| == i
      invariant forall k :: 0 <= k < i ==> spelled[k] == Show(legs[k])
    {
      spelled := spelled + [Show(legs[i])];
    }
    SpelledNumbers(legs, spelled);
    r := Ok(spelled);
  }

  lemma SortedNumbers(ids: seq<string>, legs: seq<int>)
    requires AllValid(ids) && multiset(legs) == multiset(Numbers(ids))
    ensures forall i :: 0 <= i < |legs| ==> 0 <= legs[i] < UINT256_END
  {
    hide Num;
    forall i | 0 <= i < |legs|
      ensures 0 <= legs[i] < UINT256_END
    {
      assert legs[i] in multiset(legs);
      assert legs[i] in Numbers(ids);
    }
  }

  lemma SpelledNumbers(legs: seq<int>, spelled: seq<string>)
    requires |spelled| == |legs| && forall k :: 0 <= k < |legs| ==> 0 <= legs[k] < UINT256_END && spelled[k] == Show(legs[k])
    ensures AllValid(spelled) && Numbers(spelled) == legs
    ensures forall i :: 0 <= i < |spelled| ==> spelled[i] == Show(Number(spelled[i]))
  {
    hide Num, Show;
  }

  /** Lists with the same numbers have one normal form, so any order and spelling gives the same request. */
  lemma NormalizedOnce(a: seq<string>, b: seq<string>)
    requires Normalized(a) && Normalized(b) && multiset(Numbers(a)) == multiset(Numbers(b))
    ensures a == b
  {
    hide Number, Show, PositionValid, Ascending;
    SortedOnce(Numbers(a), Numbers(b));
    forall i | 0 <= i < |a|
      ensures a[i] == b[i]
    {
      assert Numbers(a)[i] == Numbers(b)[i];
    }
  }
}
