/** Where on each branch of the dependency forest an evaluation sets out from. */
module StartingDimensions {
  import opened JsonValues
  import opened Configuration
  import opened Dependencies
  import opened Lineages
  import opened Sequences

  /** Neither the dimension nor anything it is based on has a value, and none of them is local. */
  ghost predicate IsWaiting(dimensions: Dimensions, query: map<string, Json>, d: string)
    requires WellFormed(dimensions)
    decreases LayersOf(Own(dimensions)).depth(d)
  {
    d in dimensions && d !in query &&
    (IsRegular(dimensions, d) ||
     (!IsLocal(dimensions, d) && exists p :: IsBase(dimensions, p, d) && IsWaiting(dimensions, query, p)))
  }

  lemma BaseDecides(dimensions: Dimensions, query: map<string, Json>, p: string, d: string)
    requires WellFormed(dimensions) && IsBase(dimensions, p, d)
    ensures IsWaiting(dimensions, query, d)
       <==> d !in query && !IsLocal(dimensions, d) && IsWaiting(dimensions, query, p)
  {
    assert d in dimensions && !IsRegular(dimensions, d);
    assert forall b :: IsBase(dimensions, b, d) ==> b == p;
  }

  ghost function WaitingOnes(dimensions: Dimensions, query: map<string, Json>): set<string>
    requires WellFormed(dimensions)
  {
    set d | d in dimensions && IsWaiting(dimensions, query, d)
  }

  /** Where the evaluation sets out from: on every branch the first dimension with a value, or
      the first local cohort. */
  ghost predicate IsStart(dimensions: Dimensions, query: map<string, Json>, d: string)
    requires WellFormed(dimensions)
  {
    d in dimensions &&
    if IsRegular(dimensions, d) then d in query
    else (d in query || IsLocal(dimensions, d)) &&
         exists p :: IsBase(dimensions, p, d) && IsWaiting(dimensions, query, p)
  }

  /** A waiting dimension is a waiting root or lies below one, through waiting dimensions. */
  lemma {:induction false} WaitingLiesBelowRoot(dimensions: Dimensions, query: map<string, Json>, d: string)
    returns (root: string)
    requires WellFormed(dimensions) && IsWaiting(dimensions, query, d)
    ensures IsRegular(dimensions, root) && IsWaiting(dimensions, query, root)
    ensures d == root || d in Below(Own(dimensions), WaitingOnes(dimensions, query), root)
    decreases LayersOf(Own(dimensions)).depth(d)
  {
    if IsRegular(dimensions, d) {
      root := d;
    } else {
      var p :| IsBase(dimensions, p, d) && IsWaiting(dimensions, query, p);
      root := WaitingLiesBelowRoot(dimensions, query, p);
      ChildIsBelow(Own(dimensions), WaitingOnes(dimensions, query), root, p, d);
    }
  }

  // ---------- The walk from one root ----------

  /** The starts among the cohorts of the root and of the visited dimensions have been found, or
      are still on the stack. */
  ghost predicate StartsFound(dimensions: Dimensions, query: map<string, Json>, root: string, visited: set<string>,
                              stack: seq<Pending>, starts: seq<string>)
  {
    forall p, c :: (p == root || p in visited) && IsBase(dimensions, p, c) && (c in query || IsLocal(dimensions, c)) ==>
      c in starts || OnStack(stack, c)
  }

  ghost predicate OnlyStarts(dimensions: Dimensions, query: map<string, Json>, starts: seq<string>)
    requires WellFormed(dimensions)
  {
    forall d :: d in starts ==> IsStart(dimensions, query, d)
  }

  /** Every stacked dimension belongs to the root's own graph. */
  ghost predicate InGraph(graph: Graph, stack: seq<Pending>) {
    forall i :: 0 <= i < |stack| ==> stack[i].cohort in graph
  }

  ghost predicate Walking(dimensions: Dimensions, query: map<string, Json>, root: string, visited: set<string>,
                          stack: seq<Pending>, starts: seq<string>)
    requires WellFormed(dimensions) && root in dimensions
  {
    && Traversing(Own(dimensions), WaitingOnes(dimensions, query), root, visited, stack)
    && (forall v :: v in visited ==> IsWaiting(dimensions, query, v))
    && StartsFound(dimensions, query, root, visited, stack, starts)
    && OnlyStarts(dimensions, query, starts)
    && InGraph(dimensions[root].dependencyGraph, stack)
  }

  lemma WalkBegins(dimensions: Dimensions, query: map<string, Json>, root: string, starts: seq<string>)
    requires WellFormed(dimensions) && root in dimensions && OnlyStarts(dimensions, query, starts)
    ensures Walking(dimensions, query, root, {}, Pushed(dimensions[root].dependencyGraph, root), starts)
  {
    var stack := Pushed(Own(dimensions), root);
    if root in dimensions[root].dependencyGraph {
      GraphsAgree(dimensions, root, root);
    }
    TraversalStarts(Own(dimensions), WaitingOnes(dimensions, query), root);
    assert Pushed(dimensions[root].dependencyGraph, root) == stack;
    forall c | IsBase(dimensions, root, c) ensures OnStack(stack, c) {
      var i :| 0 <= i < |Own(dimensions)[root]| && Own(dimensions)[root][i] == c;
      assert stack[i].cohort == c;
    }
  }

  lemma NextIsKnown(dimensions: Dimensions, query: map<string, Json>, root: string, visited: set<string>,
                    stack: seq<Pending>, starts: seq<string>)
    requires WellFormed(dimensions) && root in dimensions && IsWaiting(dimensions, query, root) && stack != []
    requires Walking(dimensions, query, root, visited, stack, starts)
    ensures var next := stack[|stack| - 1];
            && next.cohort in dimensions && IsBase(dimensions, next.base, next.cohort)
            && IsWaiting(dimensions, query, next.base)
            && Children(dimensions[root].dependencyGraph, next.cohort) == Own(dimensions)[next.cohort]
  {
    var next := stack[|stack| - 1];
    assert Based(Own(dimensions), next.cohort, next.base, root, visited);
    assert IsWaiting(dimensions, query, next.base);
    GraphsAgree(dimensions, root, next.cohort);
  }

  /** The root's graph has the cohorts of a dimension in it, and has those in it too. */
  lemma GraphsAgree(dimensions: Dimensions, root: string, d: string)
    requires WellFormed(dimensions) && root in dimensions && d in dimensions[root].dependencyGraph
    ensures d in dimensions && Children(dimensions[root].dependencyGraph, d) == Own(dimensions)[d]
    ensures InGraph(dimensions[root].dependencyGraph, Pushed(Own(dimensions), d))
  {
    var pushed := Pushed(Own(dimensions), d);
    assert Fits(dimensions, root, d);
    forall i | 0 <= i < |pushed| ensures pushed[i].cohort in dimensions[root].dependencyGraph {
      assert pushed[i].cohort in dimensions[root].dependencyGraph[d];
    }
  }

  /** A start is taken off the stack. */
  lemma WalkTakesStart(dimensions: Dimensions, query: map<string, Json>, root: string, visited: set<string>,
                       stack: seq<Pending>, starts: seq<string>)
    requires WellFormed(dimensions) && root in dimensions && IsWaiting(dimensions, query, root) && stack != []
    requires Walking(dimensions, query, root, visited, stack, starts)
    requires stack[|stack| - 1].cohort in query || IsLocal(dimensions, stack[|stack| - 1].cohort)
    ensures Walking(dimensions, query, root, visited, stack[..|stack| - 1], starts + [stack[|stack| - 1].cohort])
  {
    var next, rest := stack[|stack| - 1], stack[..|stack| - 1];
    NextIsKnown(dimensions, query, root, visited, stack, starts);
    BaseDecides(dimensions, query, next.base, next.cohort);
    PopDead(Own(dimensions), WaitingOnes(dimensions, query), root, visited, stack);
    forall c | OnStack(stack, c) && c != next.cohort ensures OnStack(rest, c) {
      StaysInRest(stack, c);
    }
  }

  /** A waiting dimension gives way to its cohorts. */
  lemma WalkGoesOn(dimensions: Dimensions, query: map<string, Json>, root: string, visited: set<string>,
                   stack: seq<Pending>, starts: seq<string>)
    requires WellFormed(dimensions) && root in dimensions && IsWaiting(dimensions, query, root) && stack != []
    requires Walking(dimensions, query, root, visited, stack, starts)
    requires stack[|stack| - 1].cohort !in query && !IsLocal(dimensions, stack[|stack| - 1].cohort)
    ensures var c := stack[|stack| - 1].cohort;
            && c in Below(Own(dimensions), WaitingOnes(dimensions, query), root) && c !in visited
            && Walking(dimensions, query, root, visited + {c},
                       stack[..|stack| - 1] + Pushed(dimensions[root].dependencyGraph, c), starts)
  {
    var next := stack[|stack| - 1];
    NextIsKnown(dimensions, query, root, visited, stack, starts);
    BaseDecides(dimensions, query, next.base, next.cohort);
    NextIsNew(Own(dimensions), WaitingOnes(dimensions, query), root, visited, stack);
    PopLive(Own(dimensions), WaitingOnes(dimensions, query), root, visited, stack);
    assert Pushed(dimensions[root].dependencyGraph, next.cohort) == Pushed(Own(dimensions), next.cohort);
    StartsStayFound(dimensions, query, root, visited, stack, starts);
    AdvancedInGraph(dimensions, root, stack);
  }

  lemma AdvancedInGraph(dimensions: Dimensions, root: string, stack: seq<Pending>)
    requires WellFormed(dimensions) && root in dimensions && stack != []
    requires InGraph(dimensions[root].dependencyGraph, stack)
    ensures InGraph(dimensions[root].dependencyGraph, Advanced(Own(dimensions), stack))
  {
    GraphsAgree(dimensions, root, stack[|stack| - 1].cohort);
  }

  lemma StartsStayFound(dimensions: Dimensions, query: map<string, Json>, root: string, visited: set<string>,
                        stack: seq<Pending>, starts: seq<string>)
    requires stack != [] && StartsFound(dimensions, query, root, visited, stack, starts)
    requires stack[|stack| - 1].cohort !in query && !IsLocal(dimensions, stack[|stack| - 1].cohort)
    ensures StartsFound(dimensions, query, root, visited + {stack[|stack| - 1].cohort},
                        Advanced(Own(dimensions), stack), starts)
  {
    var c := stack[|stack| - 1].cohort;
    forall p, x | (p == root || p in visited + {c}) && IsBase(dimensions, p, x)
                  && (x in query || IsLocal(dimensions, x)) && x !in starts
      ensures OnStack(Advanced(Own(dimensions), stack), x)
    {
      if p == c {
        PushedIsOnStack(Own(dimensions), stack, x);
      } else {
        StaysOnStack(Own(dimensions), stack, x);
      }
    }
  }

  // ---------- Each start is found once ----------

  ghost predicate HasBase(dimensions: Dimensions, root: string, visited: set<string>, d: string) {
    exists base :: Based(Own(dimensions), d, base, root, visited)
  }

  /** What has been found on this walk is found once, and is not on the stack any more. */
  ghost predicate FoundOnce(dimensions: Dimensions, root: string, visited: set<string>, stack: seq<Pending>,
                            own: seq<string>)
  {
    && Distinct(own)
    && forall f :: f in own ==> HasBase(dimensions, root, visited, f) && !OnStack(stack, f)
  }

  lemma FoundTakesStart(dimensions: Dimensions, root: string, visited: set<string>, stack: seq<Pending>,
                        own: seq<string>)
    requires FoundOnce(dimensions, root, visited, stack, own) && stack != []
    requires StackSound(Own(dimensions), root, visited, stack)
    ensures FoundOnce(dimensions, root, visited, stack[..|stack| - 1], own + [stack[|stack| - 1].cohort])
  {
    var next, rest := stack[|stack| - 1], stack[..|stack| - 1];
    assert OnStack(stack, next.cohort);
    DistinctAppend(own, [next.cohort]);
    assert Based(Own(dimensions), next.cohort, next.base, root, visited);
    forall f | OnStack(rest, f) ensures OnStack(stack, f) && f != next.cohort {
      var i :| 0 <= i < |rest| && rest[i].cohort == f;
      assert stack[i].cohort == f;
    }
  }

  lemma FoundGoesOn(dimensions: Dimensions, root: string, visited: set<string>, stack: seq<Pending>,
                    own: seq<string>)
    requires OneBase(Own(dimensions)) && stack != [] && FoundOnce(dimensions, root, visited, stack, own)
    requires stack[|stack| - 1].cohort !in visited && stack[|stack| - 1].cohort != root
    ensures FoundOnce(dimensions, root, visited + {stack[|stack| - 1].cohort}, Advanced(Own(dimensions), stack), own)
  {
    var c := stack[|stack| - 1].cohort;
    forall f | f in own
      ensures HasBase(dimensions, root, visited + {c}, f) && !OnStack(Advanced(Own(dimensions), stack), f)
    {
      var base :| Based(Own(dimensions), f, base, root, visited);
      assert Based(Own(dimensions), f, base, root, visited + {c});
      if OnStack(Advanced(Own(dimensions), stack), f) {
        ComesFromStack(Own(dimensions), stack, f);
      }
    }
  }

  /** What is on the stack after a step was there before, or is a cohort of the next one. */
  lemma ComesFromStack(graph: Graph, stack: seq<Pending>, f: string)
    requires stack != [] && OnStack(Advanced(graph, stack), f)
    ensures OnStack(stack, f) || f in Children(graph, stack[|stack| - 1].cohort)
  {
    var advanced := Advanced(graph, stack);
    var i :| 0 <= i < |advanced| && advanced[i].cohort == f;
    if i < |stack| - 1 {
      assert stack[i].cohort == f;
    } else {
      assert advanced[i] == Pushed(graph, stack[|stack| - 1].cohort)[i - (|stack| - 1)];
    }
  }

  lemma KnownBase(dimensions: Dimensions, base: string, f: string)
    requires CohortsKnown(dimensions) && f in Children(Own(dimensions), base)
    ensures IsBase(dimensions, base, f) && f in dimensions
  {
  }

  lemma FoundLiesBelow(dimensions: Dimensions, live: set<string>, root: string, own: seq<string>)
    requires WellFormed(dimensions) && FoundOnce(dimensions, root, Below(Own(dimensions), live, root), [], own)
    ensures forall f :: f in own ==> f in Dependents(dimensions, root)
  {
    forall f | f in own ensures f in Dependents(dimensions, root) {
      var base :| Based(Own(dimensions), f, base, root, Below(Own(dimensions), live, root));
      BelowIsDependent(dimensions, live, root);
      KnownBase(dimensions, base, f);
      ChildIsBelow(Own(dimensions), dimensions.Keys, root, base, f);
    }
  }

  /** What holds between two turns of a walk. */
  ghost predicate OnTheWay(dimensions: Dimensions, query: map<string, Json>, root: string, visited: set<string>,
                           stack: seq<Pending>, found: seq<string>, own: seq<string>)
    requires WellFormed(dimensions) && root in dimensions
  {
    Walking(dimensions, query, root, visited, stack, found + own) && FoundOnce(dimensions, root, visited, stack, own)
  }

  lemma TakesStart(dimensions: Dimensions, query: map<string, Json>, root: string, visited: set<string>,
                   stack: seq<Pending>, found: seq<string>, own: seq<string>)
    requires WellFormed(dimensions) && root in dimensions && IsWaiting(dimensions, query, root) && stack != []
    requires OnTheWay(dimensions, query, root, visited, stack, found, own)
    requires stack[|stack| - 1].cohort in query || IsLocal(dimensions, stack[|stack| - 1].cohort)
    ensures OnTheWay(dimensions, query, root, visited, stack[..|stack| - 1], found, own + [stack[|stack| - 1].cohort])
  {
    WalkTakesStart(dimensions, query, root, visited, stack, found + own);
    FoundTakesStart(dimensions, root, visited, stack, own);
    assert found + own + [stack[|stack| - 1].cohort] == found + (own + [stack[|stack| - 1].cohort]);
  }

  lemma GoesOn(dimensions: Dimensions, query: map<string, Json>, root: string, visited: set<string>,
               stack: seq<Pending>, found: seq<string>, own: seq<string>)
    requires WellFormed(dimensions) && root in dimensions && IsWaiting(dimensions, query, root) && stack != []
    requires OnTheWay(dimensions, query, root, visited, stack, found, own)
    requires stack[|stack| - 1].cohort !in query && !IsLocal(dimensions, stack[|stack| - 1].cohort)
    ensures var c := stack[|stack| - 1].cohort;
            && c in Below(Own(dimensions), WaitingOnes(dimensions, query), root) && c !in visited
            && OnTheWay(dimensions, query, root, visited + {c},
                        stack[..|stack| - 1] + Pushed(dimensions[root].dependencyGraph, c), found, own)
  {
    var next := stack[|stack| - 1];
    WalkGoesOn(dimensions, query, root, visited, stack, found + own);
    BelowIsDeeper(Own(dimensions), WaitingOnes(dimensions, query), root, next.cohort);
    FoundGoesOn(dimensions, root, visited, stack, own);
    NextIsKnown(dimensions, query, root, visited, stack, found + own);
    assert Pushed(dimensions[root].dependencyGraph, next.cohort) == Pushed(Own(dimensions), next.cohort);
  }

  /** The starts on the branches of a root that has no value itself. */
  method WalkFrom(root: string, dimensions: Dimensions, query: map<string, Json>, found: seq<string>)
    returns (starts: seq<string>, ghost own: seq<string>)
    requires WellFormed(dimensions) && IsRegular(dimensions, root) && root !in query
    requires OnlyStarts(dimensions, query, found)
    ensures OnlyStarts(dimensions, query, starts)
    ensures starts == found + own
    ensures Distinct(own) && forall d :: d in own ==> d in Dependents(dimensions, root)
    ensures StartsFound(dimensions, query, root,
                        Below(Own(dimensions), WaitingOnes(dimensions, query), root), [], starts)
  {
    ghost var visited: set<string> := {};
    var graph := dimensions[root].dependencyGraph;
    starts, own := found, [];
    var stack := Pushed(graph, root);
    WalkBegins(dimensions, query, root, starts);
    while stack != []
      invariant starts == found + own && OnTheWay(dimensions, query, root, visited, stack, found, own)
      decreases Below(Own(dimensions), WaitingOnes(dimensions, query), root) - visited, |stack|
    {
      var current := stack[|stack| - 1].cohort;
      if current in query || (current in dimensions && dimensions[current].dimensionType.LocalCohort?) {
        TakesStart(dimensions, query, root, visited, stack, found, own);
        starts, own := starts + [current], own + [current];
        stack := stack[..|stack| - 1];
      } else {
        GoesOn(dimensions, query, root, visited, stack, found, own);
        visited := visited + {current};
        stack := stack[..|stack| - 1] + Pushed(graph, current);
      }
    }
    TraversalEnds(Own(dimensions), WaitingOnes(dimensions, query), root, visited);
    FoundLiesBelow(dimensions, WaitingOnes(dimensions, query), root, own);
  }

  /** Each of these lies at or below a root that is done with. */
  ghost predicate RootsDone(dimensions: Dimensions, remaining: set<string>, starts: seq<string>)
    requires WellFormed(dimensions)
  {
    forall d :: d in starts ==> UnderDone(dimensions, remaining, d)
  }

  ghost predicate UnderDone(dimensions: Dimensions, remaining: set<string>, d: string)
    requires WellFormed(dimensions)
  {
    exists r :: IsRegular(dimensions, r) && r !in remaining && AtOrBelow(dimensions, r, d)
  }

  /** One more root adds other starts. */
  lemma OtherRootOtherStarts(dimensions: Dimensions, remaining: set<string>, root: string, starts: seq<string>,
                             own: seq<string>)
    requires WellFormed(dimensions) && IsRegular(dimensions, root) && root in remaining
    requires RootsDone(dimensions, remaining, starts) && Distinct(starts)
    requires Distinct(own) && forall d :: d in own ==> AtOrBelow(dimensions, root, d)
    ensures RootsDone(dimensions, remaining - {root}, starts + own) && Distinct(starts + own)
  {
    forall d | d in starts ensures d !in own && UnderDone(dimensions, remaining - {root}, d) {
      var r :| IsRegular(dimensions, r) && r !in remaining && AtOrBelow(dimensions, r, d);
      if d in own {
        RootIsUnique(dimensions, r, root, d);
      }
    }
    DistinctAppend(starts, own);
  }

  /** The walk is made from every regular dimension, in the order of the map; a root that has a
      value is a start itself. */
  method DimensionsToStartFrom(dimensions: Dimensions, query: map<string, Json>) returns (starts: seq<string>)
    requires WellFormed(dimensions)
    ensures forall d :: d in starts <==> IsStart(dimensions, query, d)
    ensures Distinct(starts)
  {
    starts := [];
    var remaining := set d | d in dimensions && dimensions[d].dimensionType.Regular?;
    while remaining != {}
      invariant forall d :: d in remaining ==> IsRegular(dimensions, d)
      invariant OnlyStarts(dimensions, query, starts)
      invariant Distinct(starts) && RootsDone(dimensions, remaining, starts)
      invariant forall r :: IsRegular(dimensions, r) && r !in remaining ==> RootDone(dimensions, query, r, starts)
    {
      var root :| root in remaining;
      ghost var before := starts;
      if root in query {
        OtherRootOtherStarts(dimensions, remaining, root, starts, [root]);
        starts := starts + [root];
      } else {
        ghost var own;
        starts, own := WalkFrom(root, dimensions, query, starts);
        OtherRootOtherStarts(dimensions, remaining, root, before, own);
      }
      assert RootDone(dimensions, query, root, starts);
      forall r | IsRegular(dimensions, r) && RootDone(dimensions, query, r, before)
        ensures RootDone(dimensions, query, r, starts)
      {
      }
      remaining := remaining - {root};
    }
    forall d | IsStart(dimensions, query, d) ensures d in starts {
      StartWasFound(dimensions, query, d, starts);
    }
  }

  ghost predicate RootDone(dimensions: Dimensions, query: map<string, Json>, root: string, starts: seq<string>)
    requires WellFormed(dimensions)
  {
    if root in query then root in starts
    else StartsFound(dimensions, query, root, Below(Own(dimensions), WaitingOnes(dimensions, query), root), [], starts)
  }

  lemma StartWasFound(dimensions: Dimensions, query: map<string, Json>, d: string, starts: seq<string>)
    requires WellFormed(dimensions) && IsStart(dimensions, query, d)
    requires forall r :: IsRegular(dimensions, r) ==> RootDone(dimensions, query, r, starts)
    ensures d in starts
  {
    if IsRegular(dimensions, d) {
      assert RootDone(dimensions, query, d, starts);
    } else {
      var p :| IsBase(dimensions, p, d) && IsWaiting(dimensions, query, p);
      var root := WaitingLiesBelowRoot(dimensions, query, p);
      assert RootDone(dimensions, query, root, starts);
      assert !OnStack([], d);
    }
  }
}
