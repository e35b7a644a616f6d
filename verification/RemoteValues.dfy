/** Where evaluations start, and what they give values to, said by what is given above. */
module RemoteValues {
  import opened Wrappers
  import opened JsonValues
  import opened Configuration
  import opened Dependencies
  import opened Lineages
  import opened StartingDimensions
  import opened Removal
  import opened Workspaces
  import opened RemoteCohorts
  import opened RemoteEvaluation
  import opened RemoteOrder

  // ---------- Waiting and starting ----------

  lemma {:induction false} AboveCohort(dimensions: Dimensions, base: string, d: string, a: string)
    requires WellFormed(dimensions) && IsBase(dimensions, base, d) && d in dimensions
    ensures d in Dependents(dimensions, a) <==> a == base || base in Dependents(dimensions, a)
  {
    if d in Dependents(dimensions, a) {
      BaseBetween(dimensions, a, base, d);
    }
    if a == base || base in Dependents(dimensions, a) {
      ChildIsBelow(Own(dimensions), dimensions.Keys, a, base, d);
    }
  }

  lemma HasItsBase(dimensions: Dimensions, d: string) returns (base: string)
    requires TypesAgree(dimensions) && d in dimensions && !IsRegular(dimensions, d)
    ensures IsBase(dimensions, base, d)
  {
    base := BaseOf(dimensions[d]).value;
    assert d in dimensions && BaseOf(dimensions[d]) == Some(base);
  }

  /** Nothing is given above the dimension, and nothing there is local. */
  ghost predicate ClearAbove(dimensions: Dimensions, query: map<string, Json>, d: string)
    requires WellFormed(dimensions)
  {
    forall a :: a in dimensions && d in Dependents(dimensions, a) ==> a !in query && !IsLocal(dimensions, a)
  }

  lemma NothingAboveRegular(dimensions: Dimensions, query: map<string, Json>, d: string)
    requires WellFormed(dimensions) && IsRegular(dimensions, d)
    ensures ClearAbove(dimensions, query, d)
  {
    forall a | a in dimensions && d in Dependents(dimensions, a) ensures false {
      DependentIsCohort(dimensions, a, d);
    }
  }

  lemma ClearAboveCohort(dimensions: Dimensions, query: map<string, Json>, base: string, d: string)
    requires WellFormed(dimensions) && IsBase(dimensions, base, d) && d in dimensions && base in dimensions
    ensures ClearAbove(dimensions, query, d)
       <==> base !in query && !IsLocal(dimensions, base) && ClearAbove(dimensions, query, base)
  {
    forall a ensures d in Dependents(dimensions, a) <==> a == base || base in Dependents(dimensions, a) {
      AboveCohort(dimensions, base, d, a);
    }
  }

  /** A dimension waits exactly when neither it nor anything above it is given or local. */
  lemma {:induction false} WaitingIff(dimensions: Dimensions, query: map<string, Json>, d: string)
    requires Tidy(dimensions) && d in dimensions
    ensures IsWaiting(dimensions, query, d)
       <==> d !in query && !IsLocal(dimensions, d) && ClearAbove(dimensions, query, d)
    decreases LayersOf(Own(dimensions)).depth(d)
  {
    if IsRegular(dimensions, d) {
      NothingAboveRegular(dimensions, query, d);
    } else {
      var base := HasItsBase(dimensions, d);
      BaseDecides(dimensions, query, base, d);
      WaitingIff(dimensions, query, base);
      ClearAboveCohort(dimensions, query, base, d);
    }
  }

  /** An evaluation starts exactly at what is given, or a local cohort, with nothing above it
      that is. */
  lemma StartIff(dimensions: Dimensions, query: map<string, Json>, d: string)
    requires Tidy(dimensions) && d in dimensions
    ensures IsStart(dimensions, query, d)
       <==> (d in query || IsLocal(dimensions, d)) && ClearAbove(dimensions, query, d)
  {
    if IsRegular(dimensions, d) {
      NothingAboveRegular(dimensions, query, d);
    } else {
      var base := HasItsBase(dimensions, d);
      WaitingIff(dimensions, query, base);
      ClearAboveCohort(dimensions, query, base, d);
      assert forall p :: IsBase(dimensions, p, d) ==> p == base;
    }
  }

  // ---------- Remote cohorts ----------

  /** The highest given dimension at or above another one. */
  lemma {:induction false} HighestGiven(dimensions: Dimensions, query: map<string, Json>, d: string)
    returns (start: string)
    requires Tidy(dimensions) && LocalsAreLeaves(dimensions) && d in dimensions && !IsLocal(dimensions, d)
    requires d in query || exists a :: a in query && a in dimensions && d in Dependents(dimensions, a)
    ensures RemoteStart(dimensions, query, start) && AtOrBelow(dimensions, start, d)
    decreases LayersOf(Own(dimensions)).depth(d)
  {
    if IsRegular(dimensions, d) {
      NothingAboveRegular(dimensions, query, d);
      start := d;
    } else {
      var base := HasItsBase(dimensions, d);
      ClearAboveCohort(dimensions, query, base, d);
      StartIff(dimensions, query, d);
      if ClearAbove(dimensions, query, d) {
        start := d;
      } else {
        forall a | d in Dependents(dimensions, a) ensures a == base || base in Dependents(dimensions, a) {
          AboveCohort(dimensions, base, d, a);
        }
        GivenAtOrAbove(dimensions, query, base, d);
        start := HighestGiven(dimensions, query, base);
        AboveCohort(dimensions, base, d, start);
      }
    }
  }

  lemma GivenAtOrAbove(dimensions: Dimensions, query: map<string, Json>, base: string, d: string)
    requires Tidy(dimensions) && LocalsAreLeaves(dimensions) && IsBase(dimensions, base, d) && d in dimensions
    requires !ClearAbove(dimensions, query, d)
    ensures base in query || exists a :: a in query && a in dimensions && base in Dependents(dimensions, a)
  {
    var a :| a in dimensions && d in Dependents(dimensions, a) && !(a !in query && !IsLocal(dimensions, a));
    AboveCohort(dimensions, base, d, a);
    if IsLocal(dimensions, a) {
      NothingBelowLocal(dimensions, a);
    }
  }

  lemma NothingBelowLocal(dimensions: Dimensions, a: string)
    requires WellFormed(dimensions) && LocalsAreLeaves(dimensions) && IsLocal(dimensions, a)
    ensures Dependents(dimensions, a) == {}
  {
    forall c ensures c !in Own(dimensions)[a] {
      assert IsBase(dimensions, a, c) <==> c in Own(dimensions)[a];
    }
  }

  /** Below a dimension, all but local cohorts are reached through remote ones. */
  lemma {:induction false} ReachedRemotely(dimensions: Dimensions, start: string, d: string)
    requires WellFormed(dimensions) && LocalsAreLeaves(dimensions)
    requires start in dimensions && d in Dependents(dimensions, start) && !IsLocal(dimensions, d)
    ensures d in Below(Own(dimensions), Remote(dimensions), start)
    decreases LayersOf(Own(dimensions)).depth(d)
  {
    DependentIsCohort(dimensions, start, d);
    var base := DependentHasBase(dimensions, start, d);
    BaseBetween(dimensions, start, base, d);
    if base != start {
      ReachedRemotely(dimensions, start, base);
    }
    ChildIsBelow(Own(dimensions), Remote(dimensions), start, base, d);
  }

  /** After a finished evaluation exactly those regular dimensions and remote cohorts have a value
      for which one is given, or for something they depend on. */
  lemma RemoteValueIff(dimensions: Dimensions, query: map<string, Json>, compute: Compute, stages: seq<Stage>,
                       d: string)
    requires Tidy(dimensions) && LocalsAreLeaves(dimensions) && d in dimensions && !IsLocal(dimensions, d)
    requires Finished(dimensions, query, compute, stages)
    ensures d in ContextOf(stages) <==>
      d in query || exists a :: a in query && a in dimensions && d in Dependents(dimensions, a)
  {
    FinishedHas(dimensions, query, compute, stages, d);
    if d in ContextOf(stages) {
      var s :| RemoteStart(dimensions, query, s) && d in Yield(dimensions, s);
      YieldDepends(dimensions, s, d);
    }
    if d in query || exists a :: a in query && a in dimensions && d in Dependents(dimensions, a) {
      var start := HighestGiven(dimensions, query, d);
      if d != start {
        ReachedRemotely(dimensions, start, d);
      }
    }
  }

  /** A given value is kept where nothing above it is given; any other value of a remote cohort is
      what its function said, whatever was given for it. */
  lemma RemoteValueIsComputed(dimensions: Dimensions, query: map<string, Json>, compute: Compute, stages: seq<Stage>,
                              d: string)
    requires Tidy(dimensions) && LocalsAreLeaves(dimensions) && d in dimensions && !IsLocal(dimensions, d)
    requires Finished(dimensions, query, compute, stages) && d in ContextOf(stages)
    ensures if forall a :: a in query && a in dimensions ==> d !in Dependents(dimensions, a)
            then d in query && ContextOf(stages)[d] == query[d]
            else exists c :: c in Computations(stages) && c.cohort == d && IsBase(dimensions, c.base, d)
                          && ContextOf(stages)[d] == c.value
  {
    RemoteValueIff(dimensions, query, compute, stages, d);
    StartIff(dimensions, query, d);
    if forall a :: a in query && a in dimensions ==> d !in Dependents(dimensions, a) {
      forall a | a in dimensions && d in Dependents(dimensions, a) ensures !IsLocal(dimensions, a) {
        if IsLocal(dimensions, a) {
          NothingBelowLocal(dimensions, a);
        }
      }
      ComputedOnceOverall(dimensions, query, compute, stages);
    } else {
      NoStartIsComputed(dimensions, query, compute, stages, d);
    }
  }

  lemma NoStartIsComputed(dimensions: Dimensions, query: map<string, Json>, compute: Compute, stages: seq<Stage>,
                          d: string)
    requires WellFormed(dimensions) && Evaluation(dimensions, query, compute, stages)
    requires d in ContextOf(stages) && !RemoteStart(dimensions, query, d)
    ensures exists c :: c in Computations(stages) && c.cohort == d && IsBase(dimensions, c.base, d)
                     && ContextOf(stages)[d] == c.value
  {
    var k, i := ComputedAt(dimensions, query, compute, stages, d);
    Asked(dimensions, query, compute, stages, k, i);
    assert stages[k].log[i] in stages[k].log;
    ComputationsAreLogged(stages, stages[k].log[i]);
  }
}
