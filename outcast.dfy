/** Outcast detection (Outcast.java): the noun whose distances to all the
    other nouns add up to the most. */
module Outcasts {
  /** WordNet.distance, taken as a given function with natural values. */
  type DistanceFn = (string, string) -> nat

  /** The sum of the distances from nouns[i] to nouns[0..n), leaving out
      nouns[i] itself: sum after n rounds of the inner loop. */
  function PartialScore(nouns: seq<string>, distance: DistanceFn, i: int, n: nat): nat
    requires 0 <= i < |nouns| && n <= |nouns|
  {
    if n == 0 then 0
    else PartialScore(nouns, distance, i, n - 1) + (if n - 1 == i then 0 else distance(nouns[i], nouns[n - 1]))
  }

  /** The total distance from nouns[i] to every other noun. */
  function Score(nouns: seq<string>, distance: DistanceFn, i: int): nat
    requires 0 <= i < |nouns|
  {
    PartialScore(nouns, distance, i, |nouns|)
  }

  /** k has the largest score and every earlier index a smaller one. */
  ghost predicate IsOutcastIndex(nouns: seq<string>, distance: DistanceFn, k: int)
  {
    0 <= k < |nouns| &&
    (forall j :: 0 <= j < |nouns| ==> Score(nouns, distance, j) <= Score(nouns, distance, k)) &&
    (forall j :: 0 <= j < k ==> Score(nouns, distance, j) < Score(nouns, distance, k))
  }

  class Outcast {
    const distance: DistanceFn

    constructor (distance: DistanceFn)
      ensures this.distance == distance
    {
      this.distance := distance;
    }

    /** outcast: an empty array has no index 0 and is left to the caller. */
    method FindOutcast(nouns: array<string>) returns (r: string)
      requires nouns.Length >= 1
      ensures exists k :: IsOutcastIndex(nouns[..], distance, k) && r == nouns[k]
    {
      var maxDistance := 0;
      var maxDistanceIndex := 0;
      for i := 0 to nouns.Length
        invariant 0 <= maxDistanceIndex < nouns.Length
        invariant i == 0 ==> maxDistanceIndex == 0 && maxDistance == 0
        invariant i > 0 ==> maxDistanceIndex < i && maxDistance == Score(nouns[..], distance, maxDistanceIndex)
        invariant forall j :: 0 <= j < i ==> Score(nouns[..], distance, j) <= maxDistance
        invariant forall j :: 0 <= j < maxDistanceIndex ==> Score(nouns[..], distance, j) < maxDistance
      {
        var sum := 0;
        for j := 0 to nouns.Length
          invariant sum == PartialScore(nouns[..], distance, i, j)
        {
          if i != j {
            sum := sum + distance(nouns[i], nouns[j]);
          }
        }
        if sum > maxDistance {
          maxDistance := sum;
          maxDistanceIndex := i;
        }
      }
      r := nouns[maxDistanceIndex];
    }
  }

  /** There is exactly one outcast index. */
  lemma OutcastIndexIsUnique(nouns: seq<string>, distance: DistanceFn, k1: int, k2: int)
    requires IsOutcastIndex(nouns, distance, k1) && IsOutcastIndex(nouns, distance, k2)
    ensures k1 == k2
  {
    assert Score(nouns, distance, k1) == Score(nouns, distance, k2);
  }

  /** When no noun is farther from the others than any other, the first
      noun is the outcast. */
  lemma AllScoresZero(nouns: seq<string>, distance: DistanceFn)
    requires |nouns| >= 1
    requires forall j :: 0 <= j < |nouns| ==> Score(nouns, distance, j) == 0
    ensures IsOutcastIndex(nouns, distance, 0)
  {
  }

  /** The distance of a noun to itself plays no part in its score. */
  lemma {:induction false} ScoreIgnoresSelf(nouns: seq<string>, d1: DistanceFn, d2: DistanceFn, i: int, n: nat)
    requires 0 <= i < |nouns| && n <= |nouns|
    requires forall j :: 0 <= j < |nouns| && j != i ==> d1(nouns[i], nouns[j]) == d2(nouns[i], nouns[j])
    ensures PartialScore(nouns, d1, i, n) == PartialScore(nouns, d2, i, n)
  {
    if n > 0 {
      ScoreIgnoresSelf(nouns, d1, d2, i, n - 1);
    }
  }
}
