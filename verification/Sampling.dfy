/**
 Sampling the difficulties of a request. A ratio below 1 is the integer numerator of a fraction of 10^9;
 the numerators, which come from floating-point formulas and from chance, are parameters.
 */
module Sampling {
  import opened Arithmetic
  import opened Options
  import Samples

  const RATIO_SCALE_FACTOR: nat := 1_000_000_000

  /** A share of `uint`, but at least 1. */
  function Multiply(uint: nat, numerator: nat): (r: nat)
  {
    var num := Quot(Times(numerator, uint), RATIO_SCALE_FACTOR);
    if num == 0 then 1 else num
  }

  /** A share is the product rounded down, unless that is 0. */
  lemma MultiplyIsFloor(uint: nat, numerator: nat)
    ensures if Times(numerator, uint) < RATIO_SCALE_FACTOR then Multiply(uint, numerator) == 1
            else Times(Multiply(uint, numerator), RATIO_SCALE_FACTOR) <= Times(numerator, uint)
                 < Times(Multiply(uint, numerator) + 1, RATIO_SCALE_FACTOR)
  {
    var q := Quot(Times(numerator, uint), RATIO_SCALE_FACTOR);
    FloorAdjoint(q, Times(numerator, uint), RATIO_SCALE_FACTOR);
    FloorAdjoint(q + 1, Times(numerator, uint), RATIO_SCALE_FACTOR);
    FloorAdjoint(1, Times(numerator, uint), RATIO_SCALE_FACTOR);
    TimesOne(RATIO_SCALE_FACTOR);
  }

  /** A share by a ratio of at most 1 is positive, and no more than the number unless that is 0. */
  lemma MultiplyIsShare(uint: nat, numerator: nat)
    requires numerator <= RATIO_SCALE_FACTOR
    ensures 1 <= Multiply(uint, numerator) <= Max(uint, 1)
  {
    TimesMonotone(numerator, RATIO_SCALE_FACTOR, uint);
    TimesCommutes(RATIO_SCALE_FACTOR, uint);
    if Quot(Times(numerator, uint), RATIO_SCALE_FACTOR) > uint {
      FloorAdjoint(uint + 1, Times(numerator, uint), RATIO_SCALE_FACTOR);
      TimesNext(uint, RATIO_SCALE_FACTOR);
    }
  }

  function SampleAt(start: nat, range: nat, boundary: nat, numerator: nat): int {
    var sample := start + Multiply(range, numerator);
    if sample >= boundary then boundary - 1 else sample
  }

  /** A sample lies a share of the range behind the start, or right below the boundary if that is less far. */
  lemma SampleIsShare(start: nat, range: nat, boundary: nat, numerator: nat)
    requires start < boundary
    ensures SampleAt(start, range, boundary, numerator) == start + Min(Multiply(range, numerator), boundary - 1 - start)
  {
  }

  /** Samples lie from the start on below the boundary, and above the start unless the boundary leaves no room. */
  ghost predicate InSampledRange(start: nat, boundary: nat, d: nat) {
    start <= d < boundary && (boundary > start + 1 ==> start < d)
  }

  ghost predicate IsSample(start: nat, range: nat, boundary: nat, numerators: seq<nat>, d: nat) {
    exists i :: 0 <= i < |numerators| && d == SampleAt(start, range, boundary, numerators[i])
  }

  method Sample(start: nat, range: nat, boundary: nat, numerators: seq<nat>) returns (r: set<nat>)
    requires start < boundary
    ensures forall d: nat :: d in r <==> IsSample(start, range, boundary, numerators, d)
    ensures forall d :: d in r ==> InSampledRange(start, boundary, d)
    ensures |r| <= |numerators|
  {
    r := {};
    var i := 0;
    while i < |numerators|
      invariant i <= |numerators| && |r| <= i
      invariant forall d: nat :: d in r <==> IsSample(start, range, boundary, numerators[..i], d)
      invariant forall d :: d in r ==> InSampledRange(start, boundary, d)
    {
      OneMoreSample(start, range, boundary, numerators, i);
      r := r + {SampleAt(start, range, boundary, numerators[i])};
      i := i + 1;
    }
    assert numerators[..i] == numerators;
  }

  lemma OneMoreSample(start: nat, range: nat, boundary: nat, numerators: seq<nat>, i: nat)
    requires i < |numerators|
    ensures forall d: nat ::
              IsSample(start, range, boundary, numerators[..i + 1], d) <==>
              || IsSample(start, range, boundary, numerators[..i], d)
              || d == SampleAt(start, range, boundary, numerators[i])
  {
    forall d: nat | IsSample(start, range, boundary, numerators[..i], d)
        || d == SampleAt(start, range, boundary, numerators[i])
      ensures IsSample(start, range, boundary, numerators[..i + 1], d)
    {
      if d == SampleAt(start, range, boundary, numerators[i]) {
        assert numerators[..i + 1][i] == numerators[i];
      } else {
        var j :| 0 <= j < i && d == SampleAt(start, range, boundary, numerators[..i][j]);
        assert numerators[..i + 1][j] == numerators[..i][j];
      }
    }
    forall d: nat | IsSample(start, range, boundary, numerators[..i + 1], d)
      ensures IsSample(start, range, boundary, numerators[..i], d)
                || d == SampleAt(start, range, boundary, numerators[i])
    {
      var j :| 0 <= j < i + 1 && d == SampleAt(start, range, boundary, numerators[..i + 1][j]);
      assert j < i ==> numerators[..i][j] == numerators[..i + 1][j];
    }
  }

  predicate StrictlySorted(s: seq<nat>) {
    forall i, j :: 0 <= i < j < |s| ==> s[i] < s[j]
  }

  /** The members of a set in ascending order. */
  method Sort(s: set<nat>) returns (r: seq<nat>)
    ensures StrictlySorted(r) && |r| == |s|
    ensures forall d :: d in r <==> d in s
  {
    r := [];
    var rest := s;
    while rest != {}
      invariant rest <= s && StrictlySorted(r) && |r| + |rest| == |s|
      invariant forall d :: d in r <==> d in s - rest
      decreases rest
    {
      var d :| d in rest;
      rest := rest - {d};
      r := Insert(r, d);
    }
  }

  method Insert(s: seq<nat>, d: nat) returns (r: seq<nat>)
    requires StrictlySorted(s) && d !in s
    ensures StrictlySorted(r) && |r| == |s| + 1
    ensures forall e :: e in r <==> e in s || e == d
  {
    var k := 0;
    while k < |s| && s[k] < d
      invariant k <= |s| && forall i :: 0 <= i < k ==> s[i] < d
    {
      k := k + 1;
    }
    r := s[..k] + [d] + s[k..];
    assert s == s[..k] + s[k..];
  }

  /**
   The boundary lies behind the start, and within the gained difficulty if there is any; the difficulties
   are the distinct samples in ascending order, all of them below the boundary.
   */
  method SampleBlocks(start: nat, last: nat, boundaryNumerator: nat, numerators: seq<nat>)
    returns (boundary: nat, difficulties: seq<nat>)
    requires start <= last && boundaryNumerator <= RATIO_SCALE_FACTOR
    ensures boundary == start + Multiply(last - start, boundaryNumerator)
    ensures start < boundary && (boundary <= last <==> start < last)
    ensures StrictlySorted(difficulties) && Samples.SortedDifficulties(difficulties) && |difficulties| <= |numerators|
    ensures forall d :: d in difficulties ==> InSampledRange(start, boundary, d)
    ensures forall d :: d in difficulties <==> IsSample(start, last - start, boundary, numerators, d)
  {
    hide InSampledRange, IsSample;
    MultiplyIsShare(last - start, boundaryNumerator);
    boundary := start + Multiply(last - start, boundaryNumerator);
    var samples := Sample(start, last - start, boundary, numerators);
    difficulties := Sort(samples);
  }

  /** How many difficulties to sample, where `estimated` blocks would have to be checked in all. */
  function EstimateSamplesCount(blocks: nat, lastN: nat, estimated: nat): (r: nat)
    ensures r == 0 <==> blocks <= lastN
    ensures blocks > lastN ==> r <= blocks - lastN
    ensures blocks > lastN ==> r + lastN == Max(lastN + 1, Min(estimated, blocks))
  {
    if blocks <= lastN then 0
    else if estimated <= lastN then 1
    else if estimated > blocks then blocks - lastN
    else estimated - lastN
  }
}
