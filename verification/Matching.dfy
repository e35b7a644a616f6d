/** Matching the condition of a context against the values of a request. */
module Matching {
  import opened JsonValues

  const VARIANT_IDS := "variantIds"

  /** What a condition asks of one dimension that has a value: membership for the variant
      list, equality for every other dimension. */
  predicate ValueMatches(dimension: string, wanted: Json, given: Json) {
    if dimension == VARIANT_IDS then given.Array? && wanted in given.items
    else given == wanted
  }

  /** Every dimension of the condition matches; one without a value is tolerated only when
      matching partially. */
  predicate Matches(condition: map<string, Json>, context: map<string, Json>, partially: bool) {
    forall dimension :: dimension in condition ==>
      if dimension in context then ValueMatches(dimension, condition[dimension], context[dimension])
      else partially
  }

  predicate Applies(condition: map<string, Json>, context: map<string, Json>) {
    Matches(condition, context, false)
  }

  predicate PartiallyApplies(condition: map<string, Json>, context: map<string, Json>) {
    Matches(condition, context, true)
  }

  /** The matching loop: it stops at the first dimension that does not match. */
  method ApplyLogic(condition: map<string, Json>, context: map<string, Json>, partially: bool)
    returns (matched: bool)
    ensures matched == Matches(condition, context, partially)
  {
    var remaining := condition.Keys;
    while remaining != {}
      invariant remaining <= condition.Keys
      invariant forall d :: d in condition && d !in remaining ==>
        if d in context then ValueMatches(d, condition[d], context[d]) else partially
    {
      var dimension :| dimension in remaining;
      if dimension in context {
        var given := context[dimension];
        if dimension == VARIANT_IDS {
          if given.Array? {
            if condition[dimension] !in given.items {
              return false;
            }
          } else {
            return false;
          }
        } else if given != condition[dimension] {
          return false;
        }
      } else if !partially {
        return false;
      }
      remaining := remaining - {dimension};
    }
    return true;
  }

  /** A request that does not mention the dimension meets no condition on it, except partially;
      one that does meets it by membership for the variants, and by equality for any other. */
  lemma OneDimension(dimension: string, wanted: Json, context: map<string, Json>)
    ensures dimension !in context ==>
      !Applies(map[dimension := wanted], context) && PartiallyApplies(map[dimension := wanted], context)
    ensures dimension in context ==>
      (Applies(map[dimension := wanted], context) <==> PartiallyApplies(map[dimension := wanted], context))
    ensures dimension in context && dimension != "variantIds" ==>
      (Applies(map[dimension := wanted], context) <==> context[dimension] == wanted)
    ensures dimension in context && dimension == "variantIds" ==>
      (Applies(map[dimension := wanted], context)
       <==> context[dimension].Array? && wanted in context[dimension].items)
  {
    assert dimension in map[dimension := wanted];
  }

  /** Conditions are met dimension by dimension. */
  lemma EachDimension(condition: map<string, Json>, context: map<string, Json>)
    ensures Applies(condition, context)
       <==> forall d :: d in condition ==> Applies(map[d := condition[d]], context)
    ensures PartiallyApplies(condition, context)
       <==> forall d :: d in condition ==> PartiallyApplies(map[d := condition[d]], context)
  {
    forall d | d in condition {
      OneDimension(d, condition[d], context);
    }
  }

  /** Whatever `full` meets, asked of this dimension, `some` meets too: the values are equal, and
      of variants every one of `full` is one of `some`. */
  ghost predicate Covers(dimension: string, some: Json, full: Json) {
    if dimension == VARIANT_IDS then
      full.Array? ==> forall v :: v in full.items ==> some.Array? && v in some.items
    else some == full
  }

  /** Two requests give no dimension values that a condition could tell apart in the wrong
      direction. */
  ghost predicate Consistent(some: map<string, Json>, full: map<string, Json>) {
    forall d :: d in some && d in full ==> Covers(d, some[d], full[d])
  }

  /** A context that applies to one request survives partial matching against another, for
      every condition, exactly when the two are consistent. */
  lemma SurvivesIffConsistent(some: map<string, Json>, full: map<string, Json>)
    ensures (forall condition :: Applies(condition, full) ==> PartiallyApplies(condition, some))
       <==> Consistent(some, full)
  {
    if !Consistent(some, full) {
      var condition := TellingCondition(some, full);
      assert Applies(condition, full) && !PartiallyApplies(condition, some);
    }
  }

  lemma TellingCondition(some: map<string, Json>, full: map<string, Json>) returns (condition: map<string, Json>)
    requires !Consistent(some, full)
    ensures Applies(condition, full) && !PartiallyApplies(condition, some)
  {
    var d :| d in some && d in full && !Covers(d, some[d], full[d]);
    if d == VARIANT_IDS {
      var v :| v in full[d].items && !(some[d].Array? && v in some[d].items);
      condition := map[d := v];
    } else {
      condition := map[d := full[d]];
    }
    assert d in condition;
  }
}
