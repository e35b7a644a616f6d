/** The weight of a context: a sum of powers of two, one for each dimension it mentions. */
module Weights {
  import opened Wrappers
  import opened JsonValues
  import opened Configuration

  function Pow2(exponent: nat): (power: nat)
    ensures power > 0
  {
    if exponent == 0 then 1 else 2 * Pow2(exponent - 1)
  }

  /** A signed position read as an unsigned exponent: a negative one wraps around. */
  function Exponent(position: Int32): nat {
    if position < 0 then position + 0x1_0000_0000 else position
  }

  ghost function Rank(dimension: string, dimensions: Dimensions): nat
    requires dimension in dimensions
  {
    Exponent(dimensions[dimension].position)
  }

  ghost function Weight(names: set<string>, dimensions: Dimensions): nat
    requires names <= dimensions.Keys
  {
    if names == {} then 0
    else
      var d :| d in names;
      Pow2(Rank(d, dimensions)) + Weight(names - {d}, dimensions)
  }

  /** The sum does not depend on the order in which the dimensions are taken. */
  lemma {:induction false} WeightWithout(names: set<string>, dimensions: Dimensions, d: string)
    requires names <= dimensions.Keys && d in names
    ensures Weight(names, dimensions) == Pow2(Rank(d, dimensions)) + Weight(names - {d}, dimensions)
  {
    var first :| first in names &&
      Weight(names, dimensions) == Pow2(Rank(first, dimensions)) + Weight(names - {first}, dimensions);
    if first != d {
      WeightWithout(names - {first}, dimensions, d);
      WeightWithout(names - {d}, dimensions, first);
      assert names - {first} - {d} == names - {d} - {first};
    }
  }

  /** Adds up the weight over the dimensions of a condition, in the order a hash set yields
      them; a dimension without a position is an error. */
  method CalculateContextWeight(condition: Json, dimensions: Dimensions) returns (result: Result<nat>)
    ensures result.Success? <==> Members(condition).Keys <= dimensions.Keys
    ensures result.Success? ==> result.value == Weight(Members(condition).Keys, dimensions)
    ensures !condition.Object? ==> result == Success(0)
  {
    var names := Members(condition).Keys;
    var remaining := names;
    var weight := 0;
    while remaining != {}
      invariant remaining <= names
      invariant names - remaining <= dimensions.Keys
      invariant weight == Weight(names - remaining, dimensions)
    {
      var dimension :| dimension in remaining;
      if dimension !in dimensions {
        return Failure("Dimension:" + dimension + " not found in Dimension schema map");
      }
      WeightWithout(names - (remaining - {dimension}), dimensions, dimension);
      assert names - (remaining - {dimension}) - {dimension} == names - remaining;
      weight := weight + Pow2(Exponent(dimensions[dimension].position));
      remaining := remaining - {dimension};
    }
    assert names - remaining == names;
    return Success(weight);
  }

  // ---------- Comparing weights ----------

  ghost predicate DistinctPositions(dimensions: Dimensions) {
    forall a, b :: a in dimensions && b in dimensions && dimensions[a].position == dimensions[b].position ==> a == b
  }

  lemma {:induction false} Pow2Monotone(a: nat, b: nat)
    requires a <= b
    ensures Pow2(a) <= Pow2(b)
    decreases b
  {
    if a < b {
      Pow2Monotone(a, b - 1);
    }
  }

  /** One position outweighs all lower positions together. */
  lemma {:induction false} LowerPositionsWeighLess(names: set<string>, dimensions: Dimensions, bound: nat)
    requires names <= dimensions.Keys && DistinctPositions(dimensions)
    requires forall d :: d in names ==> Rank(d, dimensions) < bound
    ensures Weight(names, dimensions) < Pow2(bound)
    decreases bound
  {
    if names != {} {
      if d :| d in names && Rank(d, dimensions) == bound - 1 {
        WeightWithout(names, dimensions, d);
        LowerPositionsWeighLess(names - {d}, dimensions, bound - 1);
      } else {
        LowerPositionsWeighLess(names, dimensions, bound - 1);
      }
    }
  }

  lemma {:induction false} WeightSplits(names: set<string>, part: set<string>, dimensions: Dimensions)
    requires part <= names <= dimensions.Keys
    ensures Weight(names, dimensions) == Weight(part, dimensions) + Weight(names - part, dimensions)
    decreases part
  {
    if part == {} {
      assert names - part == names;
    } else {
      var d :| d in part;
      WeightWithout(names, dimensions, d);
      WeightWithout(part, dimensions, d);
      WeightSplits(names - {d}, part - {d}, dimensions);
      assert names - {d} - (part - {d}) == names - part;
    }
  }

  /** Of the dimensions that only one of the two sets has, the highest belongs to `a`. */
  ghost predicate Outranks(a: set<string>, b: set<string>, dimensions: Dimensions)
    requires a <= dimensions.Keys && b <= dimensions.Keys
  {
    exists top :: top in a - b && forall d :: d in b - a ==> Rank(d, dimensions) < Rank(top, dimensions)
  }

  lemma OutranksWeighsMore(a: set<string>, b: set<string>, dimensions: Dimensions)
    requires a <= dimensions.Keys && b <= dimensions.Keys && DistinctPositions(dimensions)
    requires Outranks(a, b, dimensions)
    ensures Weight(b, dimensions) < Weight(a, dimensions)
  {
    var top :| top in a - b && forall d :: d in b - a ==> Rank(d, dimensions) < Rank(top, dimensions);
    WeightSplits(a, a * b, dimensions);
    WeightSplits(b, a * b, dimensions);
    assert a - a * b == a - b && b - a * b == b - a;
    WeightWithout(a - b, dimensions, top);
    LowerPositionsWeighLess(b - a, dimensions, Rank(top, dimensions));
  }

  lemma {:induction false} HighestRank(names: set<string>, dimensions: Dimensions) returns (top: string)
    requires names != {} && names <= dimensions.Keys
    ensures top in names
    ensures forall d :: d in names ==> Rank(d, dimensions) <= Rank(top, dimensions)
  {
    var first :| first in names;
    top := first;
    if names - {first} != {} {
      var other := HighestRank(names - {first}, dimensions);
      if Rank(first, dimensions) < Rank(other, dimensions) {
        top := other;
      }
    }
    forall d | d in names ensures Rank(d, dimensions) <= Rank(top, dimensions) {
      if d != first {
        assert d in names - {first};
      }
    }
  }

  lemma OneOutranksTheOther(a: set<string>, b: set<string>, dimensions: Dimensions)
    requires a <= dimensions.Keys && b <= dimensions.Keys && DistinctPositions(dimensions) && a != b
    ensures Outranks(a, b, dimensions) || Outranks(b, a, dimensions)
  {
    var differing := (a - b) + (b - a);
    if a <= b {
      var d :| d in b && d !in a;
      assert d in differing;
    } else {
      var d :| d in a && d !in b;
      assert d in differing;
    }
    var top := HighestRank(differing, dimensions);
    if top in a - b {
      HighestOutranks(a, b, dimensions, top);
    } else {
      HighestOutranks(b, a, dimensions, top);
    }
  }

  lemma HighestOutranks(a: set<string>, b: set<string>, dimensions: Dimensions, top: string)
    requires a <= dimensions.Keys && b <= dimensions.Keys && DistinctPositions(dimensions)
    requires top in a - b
    requires forall d :: d in b - a ==> Rank(d, dimensions) <= Rank(top, dimensions)
    ensures Outranks(a, b, dimensions)
  {
    forall d | d in b - a
      ensures Rank(d, dimensions) < Rank(top, dimensions)
    {
      assert d != top;
    }
  }

  /** Comparing weights is comparing the highest dimension that only one condition has; only
      equal sets of dimensions weigh the same. */
  lemma WeightOrder(a: set<string>, b: set<string>, dimensions: Dimensions)
    requires a <= dimensions.Keys && b <= dimensions.Keys && DistinctPositions(dimensions)
    ensures Weight(b, dimensions) < Weight(a, dimensions) <==> Outranks(a, b, dimensions)
    ensures Weight(a, dimensions) == Weight(b, dimensions) <==> a == b
  {
    if a != b {
      OneOutranksTheOther(a, b, dimensions);
      if Outranks(a, b, dimensions) {
        OutranksWeighsMore(a, b, dimensions);
      }
      if Outranks(b, a, dimensions) {
        OutranksWeighsMore(b, a, dimensions);
      }
    }
  }

  // ---------- Weights as binary numbers ----------

  /** A position within 32 bits keeps its value modulo two to the 32. */
  lemma ExponentWraps(position: Int32)
    ensures 0 <= Exponent(position) < 0x1_0000_0000 && (Exponent(position) - position) % 0x1_0000_0000 == 0
    ensures position >= 0 ==> Exponent(position) == position
  {
  }

  /** The number without its last `count` binary digits. */
  function Halved(number: nat, count: nat): nat {
    if count == 0 then number else Halved(number / 2, count - 1)
  }

  lemma {:induction false} HalvedSplits(low: nat, factor: nat, count: nat)
    requires low < Pow2(count)
    ensures Halved(low + Pow2(count) * factor, count) == factor
  {
    if count > 0 {
      var product := Pow2(count - 1) * factor;
      assert Pow2(count) * factor == 2 * product;
      assert (low + 2 * product) / 2 == low / 2 + product;
      HalvedSplits(low / 2, factor, count - 1);
    }
  }

  /** Dimensions at or above a rank weigh a multiple of its power. */
  lemma {:induction false} HighIsMultiple(names: set<string>, dimensions: Dimensions, rank: nat) returns (factor: nat)
    requires names <= dimensions.Keys
    requires forall d :: d in names ==> Rank(d, dimensions) >= rank
    ensures Weight(names, dimensions) == Pow2(rank) * factor
    decreases names
  {
    if names == {} {
      factor := 0;
    } else {
      var d :| d in names;
      WeightWithout(names, dimensions, d);
      var rest := HighIsMultiple(names - {d}, dimensions, rank);
      var more := PowerFactor(rank, Rank(d, dimensions));
      factor := more + rest;
      assert Pow2(rank) * more + Pow2(rank) * rest == Pow2(rank) * (more + rest);
    }
  }

  lemma {:induction false} PowerFactor(low: nat, high: nat) returns (factor: nat)
    requires low <= high
    ensures Pow2(high) == Pow2(low) * factor
    decreases high
  {
    if low == high {
      factor := 1;
    } else {
      var half := PowerFactor(low, high - 1);
      factor := 2 * half;
      assert 2 * (Pow2(low) * half) == Pow2(low) * (2 * half);
    }
  }

  lemma LowAndHigh(names: set<string>, dimensions: Dimensions, rank: nat) returns (high: set<string>)
    requires names <= dimensions.Keys && DistinctPositions(dimensions)
    ensures high <= names && forall d :: d in names ==> (d in high <==> Rank(d, dimensions) >= rank)
    ensures 0 <= Weight(names, dimensions) - Weight(high, dimensions) < Pow2(rank)
  {
    var low := set d | d in names && Rank(d, dimensions) < rank;
    high := names - low;
    WeightSplits(names, low, dimensions);
    LowerPositionsWeighLess(low, dimensions, rank);
  }

  /** The weight is the binary number whose digits say which positions the condition mentions. */
  lemma WeightDigits(names: set<string>, dimensions: Dimensions, rank: nat)
    requires names <= dimensions.Keys && DistinctPositions(dimensions)
    ensures Halved(Weight(names, dimensions), rank) % 2 == 1
       <==> exists d :: d in names && Rank(d, dimensions) == rank
  {
    var high := LowAndHigh(names, dimensions, rank);
    var factor := HighFactor(high, dimensions, rank);
    HalvedSplits(Weight(names, dimensions) - Weight(high, dimensions), factor, rank);
  }

  /** The factor is odd exactly when someone stands at the rank. */
  lemma HighFactor(high: set<string>, dimensions: Dimensions, rank: nat) returns (factor: nat)
    requires high <= dimensions.Keys && DistinctPositions(dimensions)
    requires forall d :: d in high ==> Rank(d, dimensions) >= rank
    ensures Weight(high, dimensions) == Pow2(rank) * factor
    ensures factor % 2 == 1 <==> exists d :: d in high && Rank(d, dimensions) == rank
  {
    if d :| d in high && Rank(d, dimensions) == rank {
      WeightWithout(high, dimensions, d);
      SoleAtRank(high, dimensions, rank, d);
      var half := HighIsMultiple(high - {d}, dimensions, rank + 1);
      Twice(Pow2(rank), half);
      factor := 1 + 2 * half;
    } else {
      var half := HighIsMultiple(high, dimensions, rank + 1);
      Twice(Pow2(rank), half);
      factor := 2 * half;
    }
  }

  lemma Twice(power: nat, half: nat)
    ensures 2 * power * half == power * (2 * half)
    ensures power + 2 * power * half == power * (1 + 2 * half)
  {
  }

  lemma SoleAtRank(high: set<string>, dimensions: Dimensions, rank: nat, d: string)
    requires high <= dimensions.Keys && DistinctPositions(dimensions)
    requires forall x :: x in high ==> Rank(x, dimensions) >= rank
    requires d in high && Rank(d, dimensions) == rank
    ensures forall x :: x in high - {d} ==> Rank(x, dimensions) >= rank + 1
  {
    forall x | x in high - {d} ensures Rank(x, dimensions) != rank {
      assert dimensions[x].position != dimensions[d].position;
    }
  }
}
