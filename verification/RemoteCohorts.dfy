/** Computing the remote cohorts that depend on a dimension. */
module RemoteCohorts {
  import opened Wrappers
  import opened JsonValues
  import opened Configuration
  import opened Dependencies
  import opened Sequences

  /** A value compute function, by name, called for a dimension in a context; it may fail. */
  type Compute = (string, string, map<string, Json>) -> Result<Json>

  /** One cohort computed from what it is based on. */
  datatype Computation = Computation(cohort: string, base: string, value: Json)

  /** The known dimensions whose values are not determined locally. */
  ghost function Remote(dimensions: Dimensions): set<string> {
    set d | d in dimensions && !dimensions[d].dimensionType.LocalCohort?
  }

  ghost function Cohorts(log: seq<Computation>): set<string> {
    if log == [] then {} else Cohorts(log[..|log| - 1]) + {log[|log| - 1].cohort}
  }

  ghost function ContextAfter(context: map<string, Json>, log: seq<Computation>): map<string, Json> {
    if log == [] then context
    else ContextAfter(context, log[..|log| - 1])[log[|log| - 1].cohort := log[|log| - 1].value]
  }

  /** The i-th computation is of a remote cohort not computed before, based on the start or on
      a cohort computed before, by its own function in the context as it then was. */
  ghost predicate Justified(graph: Graph, dimensions: Dimensions, start: string,
                            context: map<string, Json>, compute: Compute, before: seq<Computation>, next: Computation)
  {
    && next.cohort in Remote(dimensions)
    && Based(graph, next.cohort, next.base, start, Cohorts(before))
    && next.cohort !in Cohorts(before)
    && var valueFunction := dimensions[next.cohort].valueComputeFunction;
       valueFunction.Some?
         && compute(valueFunction.value, next.base, ContextAfter(context, before)) == Success(next.value)
  }

  ghost predicate LogSound(graph: Graph, dimensions: Dimensions, start: string,
                        context: map<string, Json>, compute: Compute, log: seq<Computation>)
  {
    log == [] ||
    (LogSound(graph, dimensions, start, context, compute, log[..|log| - 1])
     && Justified(graph, dimensions, start, context, compute, log[..|log| - 1], log[|log| - 1]))
  }

  /** A cohort that was due after `log` has no function, or its function fails. */
  ghost predicate Fails(graph: Graph, dimensions: Dimensions, start: string,
                        context: map<string, Json>, compute: Compute, log: seq<Computation>, due: Pending)
  {
    && due.cohort in Remote(dimensions)
    && Based(graph, due.cohort, due.base, start, Cohorts(log))
    && due.cohort !in Cohorts(log)
    && var valueFunction := dimensions[due.cohort].valueComputeFunction;
       valueFunction.None? || compute(valueFunction.value, due.base, ContextAfter(context, log)).Failure?
  }

  /** The depth-first traversal with an explicit stack. On success it has computed exactly the
      remote cohorts that are reached from the start through remote cohorts; on failure it
      stops at a cohort that cannot be computed. */
  method EvaluateDependents(start: string, graph: Graph, dimensions: Dimensions,
                            context: map<string, Json>, compute: Compute)
    returns (result: Result<()>, modified: map<string, Json>, ghost log: seq<Computation>)
    requires Forest(graph)
    ensures LogSound(graph, dimensions, start, context, compute, log)
    ensures modified == ContextAfter(context, log)
    ensures result.Success? ==> Cohorts(log) == Below(graph, Remote(dimensions), start)
    ensures result.Success? ==> modified.Keys == context.Keys + Below(graph, Remote(dimensions), start)
    ensures result.Failure? ==> exists due :: Fails(graph, dimensions, start, context, compute, log, due)
  {
    ghost var live := Remote(dimensions);
    modified, log := context, [];
    var stack := Pushed(graph, start);
    TraversalStarts(graph, live, start);
    while stack != []
      invariant Traversing(graph, live, start, Cohorts(log), stack)
      invariant LogSound(graph, dimensions, start, context, compute, log)
      invariant modified == ContextAfter(context, log)
      decreases Below(graph, live, start) - Cohorts(log), |stack|
    {
      var next := stack[|stack| - 1];
      assert Based(graph, next.cohort, next.base, start, Cohorts(log));
      if next.cohort in dimensions && !dimensions[next.cohort].dimensionType.LocalCohort? {
        NextIsNew(graph, live, start, Cohorts(log), stack);
        var valueFunction := dimensions[next.cohort].valueComputeFunction;
        if valueFunction.None? {
          assert Fails(graph, dimensions, start, context, compute, log, next);
          return Failure("Value compute function not found for " + next.cohort), modified, log;
        }
        var value := compute(valueFunction.value, next.base, modified);
        if value.Failure? {
          assert Fails(graph, dimensions, start, context, compute, log, next);
          return Failure(value.error), modified, log;
        }
        modified := modified[next.cohort := value.value];
        PopLive(graph, live, start, Cohorts(log), stack);
        LogSnoc(graph, dimensions, start, context, compute, log, Computation(next.cohort, next.base, value.value));
        stack := stack[..|stack| - 1] + Pushed(graph, next.cohort);
        log := log + [Computation(next.cohort, next.base, value.value)];
      } else {
        PopDead(graph, live, start, Cohorts(log), stack);
        stack := stack[..|stack| - 1];
      }
    }
    TraversalEnds(graph, live, start, Cohorts(log));
    LoggedHaveValues(context, log);
    result := Success(());
  }

  lemma LogSnoc(graph: Graph, dimensions: Dimensions, start: string,
                context: map<string, Json>, compute: Compute, log: seq<Computation>, next: Computation)
    requires LogSound(graph, dimensions, start, context, compute, log)
    requires Justified(graph, dimensions, start, context, compute, log, next)
    ensures LogSound(graph, dimensions, start, context, compute, log + [next])
    ensures Cohorts(log + [next]) == Cohorts(log) + {next.cohort}
    ensures ContextAfter(context, log + [next]) == ContextAfter(context, log)[next.cohort := next.value]
  {
    var more := log + [next];
    SnocParts(log, next);
    assert more[..|more| - 1] == log && more[|more| - 1] == next;
  }

  // ---------- What a sound log means ----------

  lemma {:induction false} LoggedHaveValues(context: map<string, Json>, log: seq<Computation>)
    ensures ContextAfter(context, log).Keys == context.Keys + Cohorts(log)
    ensures forall d :: d in context && d !in Cohorts(log) ==> ContextAfter(context, log)[d] == context[d]
  {
    if log != [] {
      LoggedHaveValues(context, log[..|log| - 1]);
    }
  }

  /** Each computation is made when the dimension it is based on has a value. */
  lemma {:induction false} BaseHasValue(graph: Graph, dimensions: Dimensions, start: string,
                                        context: map<string, Json>, compute: Compute, log: seq<Computation>, i: nat)
    requires LogSound(graph, dimensions, start, context, compute, log) && start in context && i < |log|
    ensures log[i].base in ContextAfter(context, log[..i])
    decreases |log|
  {
    if i == |log| - 1 {
      LoggedHaveValues(context, log[..i]);
    } else {
      assert log[..|log| - 1][..i] == log[..i];
      BaseHasValue(graph, dimensions, start, context, compute, log[..|log| - 1], i);
    }
  }

  lemma {:induction false} CohortsHasEach(log: seq<Computation>, c: string)
    ensures c in Cohorts(log) <==> exists i :: 0 <= i < |log| && log[i].cohort == c
  {
    if log != [] {
      var init := log[..|log| - 1];
      CohortsHasEach(init, c);
      if c in Cohorts(init) {
        var i :| 0 <= i < |init| && init[i].cohort == c;
        assert log[i].cohort == c;
      }
    }
  }

  /** No cohort is computed twice, and each ends up with the value computed for it. */
  lemma {:induction false} ComputedOnce(graph: Graph, dimensions: Dimensions, start: string,
                                        context: map<string, Json>, compute: Compute, log: seq<Computation>)
    requires LogSound(graph, dimensions, start, context, compute, log)
    ensures forall i, j :: 0 <= i < j < |log| ==> log[i].cohort != log[j].cohort
    ensures forall i :: 0 <= i < |log| ==>
      log[i].cohort in ContextAfter(context, log) && ContextAfter(context, log)[log[i].cohort] == log[i].value
    decreases |log|
  {
    if log != [] {
      var init, last := log[..|log| - 1], log[|log| - 1];
      ComputedOnce(graph, dimensions, start, context, compute, init);
      CohortsHasEach(init, last.cohort);
      forall i | 0 <= i < |init| ensures log[i].cohort != last.cohort {
        assert init[i].cohort == log[i].cohort;
      }
      assert forall i :: 0 <= i < |init| ==> init[i] == log[i];
    }
  }

  /** What has been computed lies below the start. */
  lemma {:induction false} SoundStaysBelow(graph: Graph, dimensions: Dimensions, start: string,
                                           context: map<string, Json>, compute: Compute, log: seq<Computation>)
    requires Forest(graph) && LogSound(graph, dimensions, start, context, compute, log)
    ensures Cohorts(log) <= Below(graph, Remote(dimensions), start)
  {
    if log != [] {
      var init, last := log[..|log| - 1], log[|log| - 1];
      SoundStaysBelow(graph, dimensions, start, context, compute, init);
      ChildIsBelow(graph, Remote(dimensions), start, last.base, last.cohort);
    }
  }
}
