/** The evaluation of remote cohorts as a whole: from every start in turn. */
module RemoteEvaluation {
  import opened Wrappers
  import opened JsonValues
  import opened Configuration
  import opened Sequences
  import opened Dependencies
  import opened Lineages
  import opened StartingDimensions
  import opened RemoteCohorts

  // ---------- The graph of one dimension is a part of the forest ----------

  lemma GraphIsForest(dimensions: Dimensions, d: string)
    requires WellFormed(dimensions) && d in dimensions
    ensures Forest(dimensions[d].dependencyGraph)
  {
    var graph := dimensions[d].dependencyGraph;
    forall p | p in graph ensures p in Own(dimensions) && graph[p] == Own(dimensions)[p] {
      assert Fits(dimensions, d, p);
    }
    assert Layered(graph, LayersOf(Own(dimensions)));
  }

  lemma PartBased(dimensions: Dimensions, r: string, c: string, base: string, start: string, visited: set<string>)
    requires WellFormed(dimensions) && r in dimensions
    requires Based(dimensions[r].dependencyGraph, c, base, start, visited)
    ensures Based(Own(dimensions), c, base, start, visited)
  {
    assert Fits(dimensions, r, base);
  }

  lemma {:induction false} PartSound(dimensions: Dimensions, start: string, context: map<string, Json>,
                                     compute: Compute, log: seq<Computation>)
    requires WellFormed(dimensions) && start in dimensions
    requires LogSound(dimensions[start].dependencyGraph, dimensions, start, context, compute, log)
    ensures LogSound(Own(dimensions), dimensions, start, context, compute, log)
  {
    if log != [] {
      var init, last := log[..|log| - 1], log[|log| - 1];
      PartSound(dimensions, start, context, compute, init);
      PartBased(dimensions, start, last.cohort, last.base, start, Cohorts(init));
    }
  }

  lemma {:induction false} PartBelow(dimensions: Dimensions, live: set<string>, r: string, d: string)
    requires WellFormed(dimensions) && r in dimensions && (d == r || d in dimensions[r].dependencyGraph)
    requires Forest(dimensions[r].dependencyGraph)
    ensures Below(dimensions[r].dependencyGraph, live, d) == Below(Own(dimensions), live, d)
    decreases Room(Own(dimensions), d)
  {
    var graph := dimensions[r].dependencyGraph;
    if d in graph {
      assert Fits(dimensions, r, d);
      forall c | c in graph[d] && c in live
        ensures Below(graph, live, c) == Below(Own(dimensions), live, c)
      {
        assert c in graph && c in Own(dimensions)[d];
        PartBelow(dimensions, live, r, c);
      }
    }
  }

  // ---------- Starts and what they account for ----------

  /** A start of the evaluation of remote cohorts: it has a value, and is not local. */
  ghost predicate RemoteStart(dimensions: Dimensions, query: map<string, Json>, s: string)
    requires WellFormed(dimensions)
  {
    IsStart(dimensions, query, s) && s in query && !IsLocal(dimensions, s)
  }

  /** The start itself, and the remote cohorts below it. */
  ghost function Yield(dimensions: Dimensions, s: string): set<string>
    requires WellFormed(dimensions)
  {
    {s} + Below(Own(dimensions), Remote(dimensions), s)
  }

  lemma {:induction false} WaitingAbove(dimensions: Dimensions, query: map<string, Json>, above: string, d: string)
    requires WellFormed(dimensions) && IsWaiting(dimensions, query, d) && AtOrBelow(dimensions, above, d)
    ensures IsWaiting(dimensions, query, above)
    decreases LayersOf(Own(dimensions)).depth(d)
  {
    if d != above {
      DependentIsCohort(dimensions, above, d);
      var base :| IsBase(dimensions, base, d) && IsWaiting(dimensions, query, base);
      BaseAtOrBelow(dimensions, above, base, d);
      WaitingAbove(dimensions, query, above, base);
    }
  }

  /** Whatever a start depends on has no value. */
  lemma AboveStartWaits(dimensions: Dimensions, query: map<string, Json>, above: string, s: string)
    requires WellFormed(dimensions) && IsStart(dimensions, query, s) && s in Dependents(dimensions, above)
    ensures IsWaiting(dimensions, query, above)
  {
    DependentIsCohort(dimensions, above, s);
    var base :| IsBase(dimensions, base, s) && IsWaiting(dimensions, query, base);
    BaseBetween(dimensions, above, base, s);
    WaitingAbove(dimensions, query, above, base);
  }

  lemma YieldDepends(dimensions: Dimensions, s: string, d: string)
    requires WellFormed(dimensions) && d in Yield(dimensions, s)
    ensures AtOrBelow(dimensions, s, d)
  {
    BelowIsDependent(dimensions, Remote(dimensions), s);
  }

  /** Two starts account for different dimensions. */
  lemma YieldsApart(dimensions: Dimensions, query: map<string, Json>, s: string, t: string)
    requires WellFormed(dimensions) && RemoteStart(dimensions, query, s) && RemoteStart(dimensions, query, t)
    requires s != t
    ensures Yield(dimensions, s) !! Yield(dimensions, t)
  {
    if d :| d in Yield(dimensions, s) && d in Yield(dimensions, t) {
      YieldDepends(dimensions, s, d);
      YieldDepends(dimensions, t, d);
      LineIsTotal(dimensions, s, t, d);
      if AtOrBelow(dimensions, s, t) {
        AboveStartWaits(dimensions, query, s, t);
      } else {
        AboveStartWaits(dimensions, query, t, s);
      }
    }
  }

  // ---------- Evaluations ----------

  /** One start with its value, and what was computed from there. */
  datatype Stage = Stage(start: string, value: Json, log: seq<Computation>)

  ghost function Reached(stage: Stage): set<string> {
    {stage.start} + Cohorts(stage.log)
  }

  ghost function Begun(before: map<string, Json>, stage: Stage): map<string, Json> {
    before[stage.start := stage.value]
  }

  ghost function ContextOf(stages: seq<Stage>): map<string, Json> {
    if stages == [] then map[]
    else
      var last := stages[|stages| - 1];
      ContextAfter(Begun(ContextOf(stages[..|stages| - 1]), last), last.log)
  }

  /** The stage sets out from a start with the value given for it, and every cohort in its log
      was computed by its own function, in the context as it then was. */
  ghost predicate StageSound(dimensions: Dimensions, query: map<string, Json>, compute: Compute,
                             before: map<string, Json>, stage: Stage)
    requires WellFormed(dimensions)
  {
    && RemoteStart(dimensions, query, stage.start) && stage.value == query[stage.start]
    && LogSound(Own(dimensions), dimensions, stage.start, Begun(before, stage), compute, stage.log)
  }

  /** Everything below the start has been computed. */
  ghost predicate Whole(dimensions: Dimensions, stage: Stage)
    requires WellFormed(dimensions)
  {
    Cohorts(stage.log) == Below(Own(dimensions), Remote(dimensions), stage.start)
  }

  ghost predicate AllWhole(dimensions: Dimensions, stages: seq<Stage>)
    requires WellFormed(dimensions)
  {
    forall k :: 0 <= k < |stages| ==> Whole(dimensions, stages[k])
  }

  ghost predicate HasStage(stages: seq<Stage>, s: string) {
    exists k :: 0 <= k < |stages| && stages[k].start == s
  }

  /** Different starts one after the other, each finished before the next. */
  ghost predicate Evaluation(dimensions: Dimensions, query: map<string, Json>, compute: Compute, stages: seq<Stage>)
    requires WellFormed(dimensions)
    decreases |stages|
  {
    stages == [] ||
    var init, last := stages[..|stages| - 1], stages[|stages| - 1];
    && Evaluation(dimensions, query, compute, init) && AllWhole(dimensions, init)
    && StageSound(dimensions, query, compute, ContextOf(init), last)
    && !HasStage(init, last.start)
  }

  /** All starts have been evaluated. */
  ghost predicate Finished(dimensions: Dimensions, query: map<string, Json>, compute: Compute, stages: seq<Stage>)
    requires WellFormed(dimensions)
  {
    && Evaluation(dimensions, query, compute, stages) && AllWhole(dimensions, stages)
    && forall s :: RemoteStart(dimensions, query, s) ==> HasStage(stages, s)
  }

  /** A cohort that is due has no function, or its function fails. */
  ghost predicate StuckIn(dimensions: Dimensions, compute: Compute, before: map<string, Json>, stage: Stage) {
    exists due ::
      Fails(Own(dimensions), dimensions, stage.start, Begun(before, stage), compute, stage.log, due)
  }

  ghost predicate Stuck(dimensions: Dimensions, query: map<string, Json>, compute: Compute, stages: seq<Stage>)
    requires WellFormed(dimensions)
  {
    stages != [] &&
    StuckIn(dimensions, compute, ContextOf(stages[..|stages| - 1]), stages[|stages| - 1])
  }

  lemma EvaluationSnoc(dimensions: Dimensions, query: map<string, Json>, compute: Compute, stages: seq<Stage>,
                       next: Stage)
    requires WellFormed(dimensions) && Evaluation(dimensions, query, compute, stages) && AllWhole(dimensions, stages)
    requires StageSound(dimensions, query, compute, ContextOf(stages), next) && !HasStage(stages, next.start)
    ensures Evaluation(dimensions, query, compute, stages + [next])
    ensures ContextOf(stages + [next]) == ContextAfter(Begun(ContextOf(stages), next), next.log)
    ensures Whole(dimensions, next) ==> AllWhole(dimensions, stages + [next])
    ensures forall s :: HasStage(stages + [next], s) <==> HasStage(stages, s) || s == next.start
  {
    var more := stages + [next];
    SnocParts(stages, next);
    assert more[..|more| - 1] == stages && more[|more| - 1] == next;
    forall s ensures HasStage(more, s) <==> HasStage(stages, s) || s == next.start {
      if HasStage(stages, s) {
        var k :| 0 <= k < |stages| && stages[k].start == s;
        assert more[k].start == s;
      }
      assert more[|stages|].start == next.start;
    }
  }

  lemma StageReaches(dimensions: Dimensions, query: map<string, Json>, compute: Compute,
                     before: map<string, Json>, stage: Stage)
    requires WellFormed(dimensions) && StageSound(dimensions, query, compute, before, stage)
    ensures Reached(stage) <= Yield(dimensions, stage.start)
    ensures Whole(dimensions, stage) ==> Reached(stage) == Yield(dimensions, stage.start)
    ensures ContextAfter(Begun(before, stage), stage.log).Keys == before.Keys + Reached(stage)
    ensures forall d :: d in before && d !in Reached(stage) ==>
      ContextAfter(Begun(before, stage), stage.log)[d] == before[d]
  {
    SoundStaysBelow(Own(dimensions), dimensions, stage.start, Begun(before, stage), compute, stage.log);
    LoggedHaveValues(Begun(before, stage), stage.log);
  }

  /** Every part of an evaluation is one, and its stages are sound. */
  lemma {:induction false} StageOf(dimensions: Dimensions, query: map<string, Json>, compute: Compute,
                                   stages: seq<Stage>, k: nat)
    requires WellFormed(dimensions) && Evaluation(dimensions, query, compute, stages) && k < |stages|
    ensures StageSound(dimensions, query, compute, ContextOf(stages[..k]), stages[k])
    ensures Evaluation(dimensions, query, compute, stages[..k]) && AllWhole(dimensions, stages[..k])
    ensures !HasStage(stages[..k], stages[k].start)
    decreases |stages|
  {
    if k < |stages| - 1 {
      var init := stages[..|stages| - 1];
      StageOf(dimensions, query, compute, init, k);
      assert init[..k] == stages[..k];
    }
  }

  /** What one stage reaches, another does not. */
  lemma StagesApart(dimensions: Dimensions, query: map<string, Json>, compute: Compute, stages: seq<Stage>,
                    j: nat, k: nat)
    requires WellFormed(dimensions) && Evaluation(dimensions, query, compute, stages) && j < k < |stages|
    ensures Reached(stages[j]) !! Reached(stages[k])
  {
    StageOf(dimensions, query, compute, stages, j);
    StageOf(dimensions, query, compute, stages, k);
    StageReaches(dimensions, query, compute, ContextOf(stages[..j]), stages[j]);
    StageReaches(dimensions, query, compute, ContextOf(stages[..k]), stages[k]);
    assert stages[..k][j] == stages[j];
    assert HasStage(stages[..k], stages[j].start);
    YieldsApart(dimensions, query, stages[j].start, stages[k].start);
  }

  /** What a stage has given a value keeps it. */
  lemma {:induction false} ValuesStay(dimensions: Dimensions, query: map<string, Json>, compute: Compute,
                                      stages: seq<Stage>, k: nat, d: string)
    requires WellFormed(dimensions) && Evaluation(dimensions, query, compute, stages) && k < |stages|
    requires d in Reached(stages[k])
    ensures d in ContextOf(stages[..k + 1]) && d in ContextOf(stages)
    ensures ContextOf(stages)[d] == ContextOf(stages[..k + 1])[d]
    decreases |stages|
  {
    var init, last := stages[..|stages| - 1], stages[|stages| - 1];
    StageReaches(dimensions, query, compute, ContextOf(init), last);
    if k == |stages| - 1 {
      assert stages[..k + 1] == stages && d in Reached(last);
    } else {
      assert init[k] == stages[k] && init[..k + 1] == stages[..k + 1];
      ValuesStay(dimensions, query, compute, init, k, d);
      StagesApart(dimensions, query, compute, stages, k, |stages| - 1);
      assert d !in Reached(last);
    }
  }

  /** Exactly what the stages reach has a value. */
  lemma {:induction false} ContextHas(dimensions: Dimensions, query: map<string, Json>, compute: Compute,
                                      stages: seq<Stage>, d: string)
    requires WellFormed(dimensions) && Evaluation(dimensions, query, compute, stages)
    ensures d in ContextOf(stages) <==> InSome(stages, d)
    decreases |stages|
  {
    if stages != [] {
      var init, last := stages[..|stages| - 1], stages[|stages| - 1];
      ContextHas(dimensions, query, compute, init, d);
      StageReaches(dimensions, query, compute, ContextOf(init), last);
      InSomeOrLast(stages, d);
    }
  }

  ghost predicate InSome(stages: seq<Stage>, d: string) {
    exists k :: 0 <= k < |stages| && d in Reached(stages[k])
  }

  lemma InSomeOrLast(stages: seq<Stage>, d: string)
    requires stages != []
    ensures InSome(stages, d) <==> InSome(stages[..|stages| - 1], d) || d in Reached(stages[|stages| - 1])
  {
    var init := stages[..|stages| - 1];
    if InSome(init, d) {
      var k :| 0 <= k < |init| && d in Reached(init[k]);
      assert d in Reached(stages[k]);
    }
    if InSome(stages, d) {
      var k :| 0 <= k < |stages| && d in Reached(stages[k]);
      assert k < |init| ==> d in Reached(init[k]);
    }
  }

  // ---------- What an evaluation comes to ----------

  /** All computations, in the order in which they were made. */
  ghost function Computations(stages: seq<Stage>): seq<Computation> {
    if stages == [] then [] else Computations(stages[..|stages| - 1]) + stages[|stages| - 1].log
  }

  lemma {:induction false} ComputationsAreLogged(stages: seq<Stage>, c: Computation)
    ensures c in Computations(stages) <==> exists k :: 0 <= k < |stages| && c in stages[k].log
  {
    if stages != [] {
      var init := stages[..|stages| - 1];
      ComputationsAreLogged(init, c);
      if c in Computations(init) {
        var k :| 0 <= k < |init| && c in init[k].log;
        assert c in stages[k].log;
      }
      forall k | 0 <= k < |stages| && c in stages[k].log ensures c in Computations(stages) {
        if k < |init| {
          assert c in init[k].log;
        }
      }
    }
  }

  /** Each value in the outcome of an evaluation is the one that was given for a start, or the
      one that was computed for the cohort, and nothing is computed twice. */
  lemma ComputedValueStays(dimensions: Dimensions, query: map<string, Json>, compute: Compute, stages: seq<Stage>,
                           k: nat, i: nat)
    requires WellFormed(dimensions) && Evaluation(dimensions, query, compute, stages)
    requires k < |stages| && i < |stages[k].log|
    ensures var c := stages[k].log[i]; c.cohort in ContextOf(stages) && ContextOf(stages)[c.cohort] == c.value
    ensures stages[k].log[i].cohort in Reached(stages[k])
  {
    var stage, c := stages[k], stages[k].log[i];
    StageOf(dimensions, query, compute, stages, k);
    ComputedOnce(Own(dimensions), dimensions, stage.start, Begun(ContextOf(stages[..k]), stage), compute, stage.log);
    CohortsHasEach(stage.log, c.cohort);
    ValuesStay(dimensions, query, compute, stages, k, c.cohort);
    assert stages[..k + 1][..k] == stages[..k] && stages[..k + 1][k] == stage;
  }

  lemma StartValueStays(dimensions: Dimensions, query: map<string, Json>, compute: Compute, stages: seq<Stage>, k: nat)
    requires WellFormed(dimensions) && Evaluation(dimensions, query, compute, stages) && k < |stages|
    ensures var s := stages[k].start; s in query && s in ContextOf(stages) && ContextOf(stages)[s] == query[s]
  {
    var stage := stages[k];
    StageOf(dimensions, query, compute, stages, k);
    SoundStaysBelow(Own(dimensions), dimensions, stage.start, Begun(ContextOf(stages[..k]), stage), compute, stage.log);
    if stage.start in Cohorts(stage.log) {
      BelowIsDeeper(Own(dimensions), Remote(dimensions), stage.start, stage.start);
    }
    LoggedHaveValues(Begun(ContextOf(stages[..k]), stage), stage.log);
    ValuesStay(dimensions, query, compute, stages, k, stage.start);
    assert stages[..k + 1][..k] == stages[..k] && stages[..k + 1][k] == stage;
  }

  lemma {:induction false} ComputationsDistinct(dimensions: Dimensions, query: map<string, Json>, compute: Compute,
                                                stages: seq<Stage>)
    requires WellFormed(dimensions) && Evaluation(dimensions, query, compute, stages)
    ensures var all := Computations(stages);
            forall i, j :: 0 <= i < j < |all| ==> all[i].cohort != all[j].cohort
    decreases |stages|
  {
    if stages != [] {
      var n := |stages| - 1;
      var init, last := stages[..n], stages[n];
      ComputationsDistinct(dimensions, query, compute, init);
      StageOf(dimensions, query, compute, stages, n);
      ComputedOnce(Own(dimensions), dimensions, last.start, Begun(ContextOf(init), last), compute, last.log);
      forall i, j | 0 <= i < |Computations(init)| && 0 <= j < |last.log|
        ensures Computations(init)[i].cohort != last.log[j].cohort
      {
        ComputationsAreLogged(init, Computations(init)[i]);
        var k :| 0 <= k < |init| && Computations(init)[i] in init[k].log;
        StagesApart(dimensions, query, compute, stages, k, n);
        CohortsHasEach(stages[k].log, Computations(init)[i].cohort);
        CohortsHasEach(last.log, last.log[j].cohort);
      }
    }
  }

  /** Over the whole evaluation, no cohort is computed twice, each ends up with the value
      computed for it, and each start with the value given for it. */
  lemma ComputedOnceOverall(dimensions: Dimensions, query: map<string, Json>, compute: Compute, stages: seq<Stage>)
    requires WellFormed(dimensions) && Evaluation(dimensions, query, compute, stages)
    ensures var all := Computations(stages);
            && (forall i, j :: 0 <= i < j < |all| ==> all[i].cohort != all[j].cohort)
            && (forall c :: c in all ==>
                  && c.cohort in ContextOf(stages) && ContextOf(stages)[c.cohort] == c.value
                  && !RemoteStart(dimensions, query, c.cohort))
    ensures forall s :: HasStage(stages, s) ==> s in query && s in ContextOf(stages) && ContextOf(stages)[s] == query[s]
  {
    ComputationsDistinct(dimensions, query, compute, stages);
    forall c | c in Computations(stages)
      ensures c.cohort in ContextOf(stages) && ContextOf(stages)[c.cohort] == c.value
      ensures !RemoteStart(dimensions, query, c.cohort)
    {
      ComputationsAreLogged(stages, c);
      var k :| 0 <= k < |stages| && c in stages[k].log;
      var i :| 0 <= i < |stages[k].log| && stages[k].log[i] == c;
      ComputedValueStays(dimensions, query, compute, stages, k, i);
      ComputedIsNoStart(dimensions, query, compute, stages, k, i);
    }
    forall s | HasStage(stages, s) ensures s in query && s in ContextOf(stages) && ContextOf(stages)[s] == query[s] {
      var k :| 0 <= k < |stages| && stages[k].start == s;
      StartValueStays(dimensions, query, compute, stages, k);
    }
  }

  lemma ComputedIsNoStart(dimensions: Dimensions, query: map<string, Json>, compute: Compute, stages: seq<Stage>,
                          k: nat, i: nat)
    requires WellFormed(dimensions) && Evaluation(dimensions, query, compute, stages)
    requires k < |stages| && i < |stages[k].log|
    ensures !RemoteStart(dimensions, query, stages[k].log[i].cohort)
  {
    var stage, d := stages[k], stages[k].log[i].cohort;
    StageOf(dimensions, query, compute, stages, k);
    SoundStaysBelow(Own(dimensions), dimensions, stage.start, Begun(ContextOf(stages[..k]), stage), compute, stage.log);
    CohortsHasEach(stage.log, d);
    BelowIsDependent(dimensions, Remote(dimensions), stage.start);
    if RemoteStart(dimensions, query, d) {
      AboveStartWaits(dimensions, query, stage.start, d);
    }
  }

  /** A finished evaluation gives values to exactly the starts and the remote cohorts below. */
  lemma FinishedHas(dimensions: Dimensions, query: map<string, Json>, compute: Compute, stages: seq<Stage>, d: string)
    requires WellFormed(dimensions) && Finished(dimensions, query, compute, stages)
    ensures d in ContextOf(stages) <==> exists s :: RemoteStart(dimensions, query, s) && d in Yield(dimensions, s)
  {
    ContextHas(dimensions, query, compute, stages, d);
    if d in ContextOf(stages) {
      var k :| 0 <= k < |stages| && d in Reached(stages[k]);
      StageOf(dimensions, query, compute, stages, k);
      StageReaches(dimensions, query, compute, ContextOf(stages[..k]), stages[k]);
      assert RemoteStart(dimensions, query, stages[k].start);
    }
    if s :| RemoteStart(dimensions, query, s) && d in Yield(dimensions, s) {
      assert HasStage(stages, s);
      var k :| 0 <= k < |stages| && stages[k].start == s;
      assert Whole(dimensions, stages[k]);
      assert d in Reached(stages[k]);
    }
  }

  // ---------- The program ----------

  /** Evaluates one start and what depends on it. */
  method EvaluateStart(start: string, dimensions: Dimensions, query: map<string, Json>, compute: Compute,
                       context: map<string, Json>)
    returns (result: Result<map<string, Json>>, ghost log: seq<Computation>)
    requires WellFormed(dimensions) && RemoteStart(dimensions, query, start)
    ensures StageSound(dimensions, query, compute, context, Stage(start, query[start], log))
    ensures result.Success? ==>
      && Whole(dimensions, Stage(start, query[start], log))
      && result.value == ContextAfter(context[start := query[start]], log)
    ensures result.Success? ==>
      && result.value.Keys == context.Keys + Yield(dimensions, start)
      && result.value[start] == query[start]
      && forall d :: d in context && d !in Yield(dimensions, start) ==> result.value[d] == context[d]
    ensures result.Failure? ==> StuckIn(dimensions, compute, context, Stage(start, query[start], log))
  {
    GraphIsForest(dimensions, start);
    var begun := context[start := query[start]];
    var outcome, modified;
    outcome, modified, log :=
      EvaluateDependents(start, dimensions[start].dependencyGraph, dimensions, begun, compute);
    ghost var stage := Stage(start, query[start], log);
    PartStage(dimensions, query, compute, context, stage);
    if outcome.Failure? {
      PartStuck(dimensions, context, compute, stage);
      return Failure(outcome.error), log;
    }
    WholeStage(dimensions, query, compute, context, stage);
    return Success(modified), log;
  }

  lemma PartStage(dimensions: Dimensions, query: map<string, Json>, compute: Compute, before: map<string, Json>,
                  stage: Stage)
    requires WellFormed(dimensions) && RemoteStart(dimensions, query, stage.start) && stage.value == query[stage.start]
    requires LogSound(dimensions[stage.start].dependencyGraph, dimensions, stage.start,
                   before[stage.start := stage.value], compute, stage.log)
    ensures StageSound(dimensions, query, compute, before, stage)
  {
    PartSound(dimensions, stage.start, before[stage.start := stage.value], compute, stage.log);
  }

  lemma WholeStage(dimensions: Dimensions, query: map<string, Json>, compute: Compute, before: map<string, Json>,
                   stage: Stage)
    requires WellFormed(dimensions) && StageSound(dimensions, query, compute, before, stage)
    requires Forest(dimensions[stage.start].dependencyGraph)
    requires Cohorts(stage.log)
          == Below(dimensions[stage.start].dependencyGraph, Remote(dimensions), stage.start)
    ensures Whole(dimensions, stage)
    ensures var after := ContextAfter(before[stage.start := stage.value], stage.log);
            && after.Keys == before.Keys + Yield(dimensions, stage.start)
            && after[stage.start] == stage.value
            && forall d :: d in before && d !in Yield(dimensions, stage.start) ==> after[d] == before[d]
  {
    PartBelow(dimensions, Remote(dimensions), stage.start, stage.start);
    LoggedHaveValues(before[stage.start := stage.value], stage.log);
    NotBelowItself(Own(dimensions), Remote(dimensions), stage.start);
  }

  lemma PartStuck(dimensions: Dimensions, before: map<string, Json>, compute: Compute, stage: Stage)
    requires WellFormed(dimensions) && stage.start in dimensions
    requires var begun := before[stage.start := stage.value];
             exists due ::
               Fails(dimensions[stage.start].dependencyGraph, dimensions, stage.start, begun, compute, stage.log, due)
    ensures StuckIn(dimensions, compute, before, stage)
  {
    var start, begun := stage.start, before[stage.start := stage.value];
    assert begun == Begun(before, stage);
    var due :| Fails(dimensions[start].dependencyGraph, dimensions, start, begun, compute, stage.log, due);
    PartBased(dimensions, start, due.cohort, due.base, start, Cohorts(stage.log));
    assert Fails(Own(dimensions), dimensions, start, begun, compute, stage.log, due);
  }

  lemma NotBelowItself(graph: Graph, live: set<string>, d: string)
    requires Forest(graph)
    ensures d !in Below(graph, live, d)
  {
    if d in Below(graph, live, d) {
      BelowIsDeeper(graph, live, d, d);
    }
  }

  /** Evaluates the starts one after the other, skipping those without a value and local ones. */
  method EvaluateStarts(starts: seq<string>, dimensions: Dimensions, query: map<string, Json>, compute: Compute)
    returns (result: Result<map<string, Json>>, ghost stages: seq<Stage>)
    requires WellFormed(dimensions)
    requires Distinct(starts) && forall d :: d in starts <==> IsStart(dimensions, query, d)
    ensures Evaluation(dimensions, query, compute, stages)
    ensures result.Success? ==> Finished(dimensions, query, compute, stages) && result.value == ContextOf(stages)
    ensures result.Failure? ==> Stuck(dimensions, query, compute, stages)
  {
    var context: map<string, Json> := map[];
    stages := [];
    for i := 0 to |starts|
      invariant Evaluation(dimensions, query, compute, stages) && AllWhole(dimensions, stages)
      invariant context == ContextOf(stages)
      invariant StagesFor(dimensions, query, stages, starts[..i])
    {
      var start := starts[i];
      assert start in starts;
      if start in query && start in dimensions && !dimensions[start].dimensionType.LocalCohort? {
        NotStagedYet(dimensions, query, stages, starts, i);
        ghost var log;
        var next;
        next, log := EvaluateStart(start, dimensions, query, compute, context);
        ghost var stage := Stage(start, query[start], log);
        EvaluationSnoc(dimensions, query, compute, stages, stage);
        if next.Failure? {
          StuckAt(dimensions, query, compute, stages, stage);
          return next, stages + [stage];
        }
        StagedOneMore(dimensions, query, stages, starts, i, stage);
        stages := stages + [stage];
        context := next.value;
      } else {
        TakeOneMore(starts, i);
      }
    }
    assert starts[..|starts|] == starts;
    AllStaged(dimensions, query, compute, stages, starts);
    return Success(context), stages;
  }

  function GivenLocals(dimensions: Dimensions, query: map<string, Json>): map<string, Json> {
    map d | d in query && d in dimensions && dimensions[d].dimensionType.LocalCohort? :: query[d]
  }

  /** Evaluates the remote cohorts from every start, then adds the local cohorts of the request.
      It fails only at a cohort that cannot be computed. On success all starts have been
      evaluated, and the outcome is what the computations came to, with the given local cohorts:
      there is a value for exactly the starts, the remote cohorts that follow them, and the local
      cohorts the request has; and the values given for regular dimensions and for local cohorts
      are kept. */
  method EvaluateRemoteCohorts(dimensions: Dimensions, query: map<string, Json>, compute: Compute)
    returns (result: Result<map<string, Json>>, ghost stages: seq<Stage>)
    requires WellFormed(dimensions)
    ensures Evaluation(dimensions, query, compute, stages)
    ensures result.Success? ==>
      && Finished(dimensions, query, compute, stages)
      && result.value == ContextOf(stages) + GivenLocals(dimensions, query)
    ensures result.Failure? ==> Stuck(dimensions, query, compute, stages)
    ensures result.Success? ==> forall d :: d in result.value <==>
      || (IsLocal(dimensions, d) && d in query)
      || exists s :: RemoteStart(dimensions, query, s) && d in Yield(dimensions, s)
    ensures result.Success? ==> forall d :: d in query && (IsRegular(dimensions, d) || IsLocal(dimensions, d)) ==>
      d in result.value && result.value[d] == query[d]
  {
    var starts := DimensionsToStartFrom(dimensions, query);
    result, stages := EvaluateStarts(starts, dimensions, query, compute);
    if result.Success? {
      OutcomeHas(dimensions, query, compute, stages);
      result := Success(result.value + GivenLocals(dimensions, query));
    }
  }

  /** There is a stage for exactly those of the dimensions from which remote cohorts start. */
  ghost predicate StagesFor(dimensions: Dimensions, query: map<string, Json>, stages: seq<Stage>, starts: seq<string>)
    requires WellFormed(dimensions)
  {
    forall s {:trigger HasStage(stages, s)} ::
      HasStage(stages, s) <==> RemoteStart(dimensions, query, s) && s in starts
  }

  lemma AllStaged(dimensions: Dimensions, query: map<string, Json>, compute: Compute, stages: seq<Stage>,
                  starts: seq<string>)
    requires WellFormed(dimensions) && forall d :: d in starts <==> IsStart(dimensions, query, d)
    requires Evaluation(dimensions, query, compute, stages) && AllWhole(dimensions, stages)
    requires StagesFor(dimensions, query, stages, starts)
    ensures Finished(dimensions, query, compute, stages)
  {
    forall s | RemoteStart(dimensions, query, s) ensures HasStage(stages, s) {
      assert s in starts;
    }
  }

  lemma StagedOneMore(dimensions: Dimensions, query: map<string, Json>, stages: seq<Stage>, starts: seq<string>,
                      i: nat, stage: Stage)
    requires WellFormed(dimensions) && i < |starts| && stage.start == starts[i]
    requires RemoteStart(dimensions, query, stage.start) && StagesFor(dimensions, query, stages, starts[..i])
    requires forall s :: HasStage(stages + [stage], s) <==> HasStage(stages, s) || s == stage.start
    ensures StagesFor(dimensions, query, stages + [stage], starts[..i + 1])
  {
    TakeOneMore(starts, i);
  }

  lemma NotStagedYet(dimensions: Dimensions, query: map<string, Json>, stages: seq<Stage>, starts: seq<string>, i: nat)
    requires WellFormed(dimensions) && i < |starts| && Distinct(starts)
    requires StagesFor(dimensions, query, stages, starts[..i])
    ensures !HasStage(stages, starts[i])
  {
  }

  lemma StuckAt(dimensions: Dimensions, query: map<string, Json>, compute: Compute, stages: seq<Stage>, stage: Stage)
    requires WellFormed(dimensions)
    requires StuckIn(dimensions, compute, ContextOf(stages), stage)
    ensures Stuck(dimensions, query, compute, stages + [stage])
  {
    SnocParts(stages, stage);
    var more := stages + [stage];
    assert more[..|more| - 1] == stages;
  }

  lemma OutcomeHas(dimensions: Dimensions, query: map<string, Json>, compute: Compute, stages: seq<Stage>)
    requires WellFormed(dimensions) && Finished(dimensions, query, compute, stages)
    ensures forall d :: d in ContextOf(stages) <==>
      exists s :: RemoteStart(dimensions, query, s) && d in Yield(dimensions, s)
    ensures forall d :: d in query && IsRegular(dimensions, d) ==>
      d in ContextOf(stages) && ContextOf(stages)[d] == query[d]
  {
    forall d {
      FinishedHas(dimensions, query, compute, stages, d);
    }
    forall d | d in query && IsRegular(dimensions, d)
      ensures d in ContextOf(stages) && ContextOf(stages)[d] == query[d]
    {
      assert RemoteStart(dimensions, query, d);
      ComputedOnceOverall(dimensions, query, compute, stages);
    }
  }
}
