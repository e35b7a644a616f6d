/** How the browser client turns a toss into a variant. */
module Toss {
  import opened Arithmetic
  import opened Wrappers

  datatype VariantType = CONTROL | EXPERIMENTAL

  datatype Variant = Variant(id: string, variantType: VariantType)

  /** A JavaScript number: an integer, or anything else that is not one. */
  datatype Num = Int(value: int) | NotInteger

  /** The i-th variant is experimental, and none before it is. */
  ghost predicate IsFirstExperimental(variants: seq<Variant>, i: int) {
    && 0 <= i < |variants| && variants[i].variantType == EXPERIMENTAL
    && forall j :: 0 <= j < i ==> variants[j].variantType == CONTROL
  }

  /** The variant whose share of the tosses, one interval of length `traffic` each, contains
      the toss. */
  ghost predicate InShare(traffic: int, toss: int, i: int) {
    i * traffic <= toss < (i + 1) * traffic
  }

  /** Flooring division, as of a JavaScript quotient rounded down. */
  function FloorDivide(a: int, b: int): int
    requires b != 0
  {
    if b > 0 then a / b else (-a) / (-b)
  }

  /** An array element, or nothing outside the bounds. */
  function ElementAt<T>(elements: seq<T>, index: int): Option<T> {
    if 0 <= index < |elements| then Some(elements[index]) else None
  }

  /** Shares do not overlap. */
  lemma ShareIsUnique(traffic: int, toss: int, i: int, j: int)
    requires traffic > 0 && InShare(traffic, toss, i) && InShare(traffic, toss, j)
    ensures i == j
  {
    MultiplyMonotone(i + 1, j, traffic);
    MultiplyMonotone(j + 1, i, traffic);
  }

  /** With traffic, the quotient names the share; the share is one of `count` exactly when the
      toss is below `traffic * count`. */
  lemma QuotientIsShare(traffic: int, count: nat, toss: int)
    requires traffic > 0 && toss >= 0
    ensures InShare(traffic, toss, FloorDivide(toss, traffic))
    ensures 0 <= FloorDivide(toss, traffic) < count <==> toss < traffic * count
  {
    var q := toss / traffic;
    assert q * traffic <= toss < (q + 1) * traffic;
    MultiplyMonotone(q + 1, count, traffic);
    MultiplyMonotone(count, q, traffic);
  }

  /** A negative toss below the range never hits an index. */
  lemma NegativeTossMisses(traffic: int, count: nat, toss: int)
    requires toss < 0 && traffic != 0 && toss < traffic * count
    ensures !(0 <= FloorDivide(toss, traffic) < count)
  {
    if traffic < 0 {
      var d := -traffic;
      var q := (-toss) / d;
      assert -toss < (q + 1) * d;
      assert count * d < -toss;
      MultiplyMonotone(q + 1, count, d);
    }
  }

  /** Decides on a variant: for a toss below zero the first experimental one, for any other
      the one whose share contains the toss. */
  method DecideVariant(traffic: Num, variants: seq<Variant>, toss: Num) returns (decided: Option<Variant>)
    ensures traffic.NotInteger? || toss.NotInteger? ==> decided.None?
    ensures traffic.Int? && toss.Int? && toss.value < 0 ==>
      && (decided.None? <==> forall i :: 0 <= i < |variants| ==> variants[i].variantType == CONTROL)
      && (decided.Some? ==> exists i :: IsFirstExperimental(variants, i) && decided.value == variants[i])
    ensures traffic.Int? && toss.Int? && toss.value >= 0 ==>
      && (decided.Some? <==> traffic.value > 0 && toss.value < traffic.value * |variants|)
      && (traffic.value > 0 ==> forall i :: 0 <= i < |variants| && InShare(traffic.value, toss.value, i) ==>
            decided == Some(variants[i]))
  {
    if traffic.NotInteger? || toss.NotInteger? {
      return None;
    }
    var t, n := traffic.value, |variants|;
    if toss.value < 0 {
      for i := 0 to n
        invariant forall j :: 0 <= j < i ==> variants[j].variantType == CONTROL
      {
        if variants[i].variantType == EXPERIMENTAL {
          assert IsFirstExperimental(variants, i);
          return Some(variants[i]);
        }
      }
    }
    var range := t * n;
    if toss.value >= range {
      if t > 0 && toss.value >= 0 {
        QuotientIsShare(t, n, toss.value);
        forall i | 0 <= i < n && InShare(t, toss.value, i) ensures false {
          ShareIsUnique(t, toss.value, i, FloorDivide(toss.value, t));
        }
      }
      return None;
    }
    if t == 0 {
      // The quotient is infinite: no element.
      return None;
    }
    var index := FloorDivide(toss.value, t);
    decided := ElementAt(variants, index);
    if toss.value < 0 {
      NegativeTossMisses(t, n, toss.value);
    } else {
      QuotientIsShare(t, n, toss.value);
      forall i | 0 <= i < n && InShare(t, toss.value, i) ensures i == index {
        ShareIsUnique(t, toss.value, i, index);
      }
    }
  }
}
