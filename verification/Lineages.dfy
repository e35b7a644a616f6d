/** Who depends on whom: a cohort on its base, on what that is based on, and so on. */
module Lineages {
  import opened Configuration
  import opened Dependencies

  predicate IsLocal(dimensions: Dimensions, d: string) {
    d in dimensions && dimensions[d].dimensionType.LocalCohort?
  }

  predicate IsRegular(dimensions: Dimensions, d: string) {
    d in dimensions && dimensions[d].dimensionType.Regular?
  }

  ghost predicate IsBase(dimensions: Dimensions, p: string, d: string) {
    p in dimensions && d in Own(dimensions)[p]
  }

  /** All cohorts that depend on `d`, directly or not. */
  ghost function Dependents(dimensions: Dimensions, d: string): set<string>
    requires WellFormed(dimensions)
  {
    Below(Own(dimensions), dimensions.Keys, d)
  }

  /** Whatever a cohort depends on, its base is that or depends on it. */
  lemma {:induction false} BaseBetween(dimensions: Dimensions, above: string, base: string, d: string)
    requires WellFormed(dimensions) && d in Dependents(dimensions, above) && IsBase(dimensions, base, d)
    ensures base == above || base in Dependents(dimensions, above)
    decreases Room(Own(dimensions), above)
  {
    var graph := Own(dimensions);
    if d in graph[above] {
      assert base == above;
    } else {
      var c :| c in graph[above] && c in dimensions.Keys && d in Below(graph, dimensions.Keys, c);
      BaseBetween(dimensions, c, base, d);
      if base != c {
        BelowIsTransitive(graph, dimensions.Keys, above, c, base);
      }
    }
  }

  lemma {:induction false} DependentHasBase(dimensions: Dimensions, above: string, d: string) returns (base: string)
    requires WellFormed(dimensions) && d in Dependents(dimensions, above)
    ensures IsBase(dimensions, base, d)
    decreases Room(Own(dimensions), above)
  {
    var graph := Own(dimensions);
    if d in graph[above] {
      base := above;
    } else {
      var c :| c in graph[above] && c in dimensions.Keys && d in Below(graph, dimensions.Keys, c);
      base := DependentHasBase(dimensions, c, d);
    }
  }

  lemma DependentIsCohort(dimensions: Dimensions, above: string, d: string)
    requires WellFormed(dimensions) && d in Dependents(dimensions, above)
    ensures d in dimensions && !IsRegular(dimensions, d)
  {
    var base := DependentHasBase(dimensions, above, d);
    assert d in Own(dimensions)[base];
  }

  /** The dimension itself, or something that depends on it. */
  ghost predicate AtOrBelow(dimensions: Dimensions, above: string, d: string)
    requires WellFormed(dimensions)
  {
    d == above || d in Dependents(dimensions, above)
  }

  /** With fewer live cohorts, less is below. */
  lemma {:induction false} BelowIsDependent(dimensions: Dimensions, live: set<string>, d: string)
    requires WellFormed(dimensions)
    ensures Below(Own(dimensions), live, d) <= Dependents(dimensions, d)
    decreases Room(Own(dimensions), d)
  {
    var graph := Own(dimensions);
    forall x | x in Below(graph, live, d) ensures x in Dependents(dimensions, d) {
      if x in graph[d] && x in live {
        assert IsBase(dimensions, d, x);
      } else {
        var c :| c in graph[d] && c in live && x in Below(graph, live, c);
        BelowIsDependent(dimensions, live, c);
        assert IsBase(dimensions, d, c);
      }
    }
  }

  lemma BaseAtOrBelow(dimensions: Dimensions, above: string, base: string, d: string)
    requires WellFormed(dimensions) && IsBase(dimensions, base, d) && AtOrBelow(dimensions, above, d) && d != above
    ensures AtOrBelow(dimensions, above, base)
  {
    BaseBetween(dimensions, above, base, d);
  }

  /** Of two dimensions that `d` depends on, one depends on the other. */
  lemma {:induction false} LineIsTotal(dimensions: Dimensions, a: string, b: string, d: string)
    requires WellFormed(dimensions) && AtOrBelow(dimensions, a, d) && AtOrBelow(dimensions, b, d)
    ensures AtOrBelow(dimensions, a, b) || AtOrBelow(dimensions, b, a)
    decreases LayersOf(Own(dimensions)).depth(d)
  {
    if d != a && d != b {
      var base := DependentHasBase(dimensions, a, d);
      BaseAtOrBelow(dimensions, a, base, d);
      BaseAtOrBelow(dimensions, b, base, d);
      LineIsTotal(dimensions, a, b, base);
    }
  }

  /** Nothing is below two regular dimensions. */
  lemma RootIsUnique(dimensions: Dimensions, a: string, b: string, d: string)
    requires WellFormed(dimensions) && IsRegular(dimensions, a) && IsRegular(dimensions, b)
    requires AtOrBelow(dimensions, a, d) && AtOrBelow(dimensions, b, d)
    ensures a == b
  {
    LineIsTotal(dimensions, a, b, d);
    if a != b && AtOrBelow(dimensions, a, b) {
      DependentIsCohort(dimensions, a, b);
    } else if a != b {
      DependentIsCohort(dimensions, b, a);
    }
  }
}
