/** When the outcome of evaluating remote cohorts depends on the order of the evaluation. */
module RemoteOrder {
  import opened Wrappers
  import opened JsonValues
  import opened Configuration
  import opened Sequences
  import opened Dependencies
  import opened Lineages
  import opened StartingDimensions
  import opened RemoteCohorts
  import opened RemoteEvaluation

  /** What a dimension depends on. */
  ghost function Lineage(dimensions: Dimensions, d: string): set<string>
    requires WellFormed(dimensions)
  {
    set a | a in dimensions && d in Dependents(dimensions, a)
  }

  ghost predicate AgreeOn(a: map<string, Json>, b: map<string, Json>, names: set<string>) {
    forall d :: d in names ==> (d in a <==> d in b) && (d in a ==> a[d] == b[d])
  }

  /** The same value, or two failures. */
  predicate SameAnswer(a: Result<Json>, b: Result<Json>) {
    (a.Success? <==> b.Success?) && (a.Success? ==> a.value == b.value)
  }

  /** The functions of the table answer by what their cohorts depend on alone, in contexts that
      can arise when the cohort is due. */
  ghost predicate AnswerByLineage(dimensions: Dimensions, compute: Compute)
    requires WellFormed(dimensions)
  {
    forall d, base, a, b | IsBase(dimensions, base, d) && AgreeOn(a, b, Lineage(dimensions, d)) ::
      Arises(dimensions, d, a) && Arises(dimensions, d, b) && base in a
      && d in Remote(dimensions) && dimensions[d].valueComputeFunction.Some? ==>
        var valueFunction := dimensions[d].valueComputeFunction.value;
        SameAnswer(compute(valueFunction, base, a), compute(valueFunction, base, b))
  }

  /** Only dimensions of the table have values, and the due cohort has none yet. */
  ghost predicate Arises(dimensions: Dimensions, d: string, context: map<string, Json>) {
    context.Keys <= dimensions.Keys - {d}
  }

  lemma BaseIsInLineage(dimensions: Dimensions, base: string, d: string)
    requires WellFormed(dimensions) && IsBase(dimensions, base, d)
    ensures base in Lineage(dimensions, d)
  {
    assert CohortsKnown(dimensions) && d in dimensions;
    ChildIsBelow(Own(dimensions), dimensions.Keys, base, base, d);
  }

  // ---------- What a function sees ----------

  lemma {:induction false} SoundPrefix(graph: Graph, dimensions: Dimensions, start: string,
                                       context: map<string, Json>, compute: Compute, log: seq<Computation>, i: nat)
    requires LogSound(graph, dimensions, start, context, compute, log) && i <= |log|
    ensures LogSound(graph, dimensions, start, context, compute, log[..i])
    ensures i < |log| ==> Justified(graph, dimensions, start, context, compute, log[..i], log[i])
    decreases |log|
  {
    if i == |log| {
      assert log[..i] == log;
    } else if i < |log| - 1 {
      SoundPrefix(graph, dimensions, start, context, compute, log[..|log| - 1], i);
      assert log[..|log| - 1][..i] == log[..i];
    }
  }

  lemma PrefixCohorts(log: seq<Computation>, i: nat)
    requires i <= |log|
    ensures Cohorts(log[..i]) <= Cohorts(log)
  {
    forall c | c in Cohorts(log[..i]) ensures c in Cohorts(log) {
      CohortsHasEach(log[..i], c);
      var j :| 0 <= j < i && log[..i][j].cohort == c;
      assert log[j].cohort == c;
      CohortsHasEach(log, c);
    }
  }

  /** When a cohort is due, whatever it depends on is the start, or computed, or above the start. */
  lemma {:induction false} LineageIsReady(dimensions: Dimensions, start: string, context: map<string, Json>,
                                          compute: Compute, log: seq<Computation>, base: string, d: string, a: string)
    requires WellFormed(dimensions) && LogSound(Own(dimensions), dimensions, start, context, compute, log)
    requires Based(Own(dimensions), d, base, start, Cohorts(log)) && a in Lineage(dimensions, d)
    ensures a == start || a in Cohorts(log) || start in Dependents(dimensions, a)
    decreases |log|
  {
    KnownBase(dimensions, base, d);
    BaseBetween(dimensions, a, base, d);
    if base != start && base != a {
      CohortsHasEach(log, base);
      var j :| 0 <= j < |log| && log[j].cohort == base;
      SoundPrefix(Own(dimensions), dimensions, start, context, compute, log, j);
      PrefixCohorts(log, j);
      LineageIsReady(dimensions, start, context, compute, log[..j], log[j].base, base, a);
    }
  }

  /** The dimensions that an evaluation gives values to, in whatever order. */
  ghost predicate Evaluable(dimensions: Dimensions, query: map<string, Json>, d: string)
    requires WellFormed(dimensions)
  {
    exists s :: RemoteStart(dimensions, query, s) && d in Yield(dimensions, s)
  }

  lemma InContextEvaluable(dimensions: Dimensions, query: map<string, Json>, compute: Compute, stages: seq<Stage>,
                           d: string)
    requires WellFormed(dimensions) && Evaluation(dimensions, query, compute, stages) && d in ContextOf(stages)
    ensures Evaluable(dimensions, query, d)
  {
    ContextHas(dimensions, query, compute, stages, d);
    var k :| 0 <= k < |stages| && d in Reached(stages[k]);
    StageOf(dimensions, query, compute, stages, k);
    StageReaches(dimensions, query, compute, ContextOf(stages[..k]), stages[k]);
    assert RemoteStart(dimensions, query, stages[k].start);
  }

  lemma WaitingIsNotEvaluable(dimensions: Dimensions, query: map<string, Json>, d: string)
    requires WellFormed(dimensions) && IsWaiting(dimensions, query, d)
    ensures !Evaluable(dimensions, query, d)
  {
    if Evaluable(dimensions, query, d) {
      var s :| RemoteStart(dimensions, query, s) && d in Yield(dimensions, s);
      YieldDepends(dimensions, s, d);
      WaitingAbove(dimensions, query, s, d);
    }
  }

  /** Of what a due cohort depends on, exactly the evaluable dimensions have values by then. */
  lemma DueSees(dimensions: Dimensions, query: map<string, Json>, compute: Compute, stages: seq<Stage>,
                base: string, d: string, a: string)
    requires WellFormed(dimensions) && Evaluation(dimensions, query, compute, stages) && stages != []
    requires var last := stages[|stages| - 1]; Based(Own(dimensions), d, base, last.start, Cohorts(last.log))
    requires a in Lineage(dimensions, d)
    ensures a in ContextOf(stages) <==> Evaluable(dimensions, query, a)
  {
    var n := |stages| - 1;
    var last := stages[n];
    StageOf(dimensions, query, compute, stages, n);
    ContextHas(dimensions, query, compute, stages, a);
    LineageIsReady(dimensions, last.start, Begun(ContextOf(stages[..n]), last), compute, last.log, base, d, a);
    if a in ContextOf(stages) {
      InContextEvaluable(dimensions, query, compute, stages, a);
    } else if a !in Reached(last) {
      AboveStartWaits(dimensions, query, a, last.start);
      WaitingIsNotEvaluable(dimensions, query, a);
    } else {
      InSomeOrLast(stages, a);
    }
  }

  /** A cohort that is due belongs to the start of the last stage, and is no start itself. */
  lemma DueIsInYield(dimensions: Dimensions, query: map<string, Json>, compute: Compute, stages: seq<Stage>,
                     base: string, d: string)
    requires WellFormed(dimensions) && Evaluation(dimensions, query, compute, stages) && stages != []
    requires d in Remote(dimensions)
    requires var last := stages[|stages| - 1]; Based(Own(dimensions), d, base, last.start, Cohorts(last.log))
    ensures var start := stages[|stages| - 1].start;
            RemoteStart(dimensions, query, start) && d in Yield(dimensions, start)
    ensures !RemoteStart(dimensions, query, d)
  {
    var n := |stages| - 1;
    var last := stages[n];
    StageOf(dimensions, query, compute, stages, n);
    SoundStaysBelow(Own(dimensions), dimensions, last.start, Begun(ContextOf(stages[..n]), last), compute, last.log);
    ChildIsBelow(Own(dimensions), Remote(dimensions), last.start, base, d);
    BelowIsDependent(dimensions, Remote(dimensions), last.start);
    if RemoteStart(dimensions, query, d) {
      AboveStartWaits(dimensions, query, last.start, d);
    }
  }

  /** What belongs to the start of the last stage was not reached in an earlier one. */
  lemma NotReachedBefore(dimensions: Dimensions, query: map<string, Json>, compute: Compute, stages: seq<Stage>,
                         k: nat, d: string)
    requires WellFormed(dimensions) && Evaluation(dimensions, query, compute, stages) && k < |stages| - 1
    requires d in Yield(dimensions, stages[|stages| - 1].start)
    ensures d !in Reached(stages[k])
  {
    var n := |stages| - 1;
    StageOf(dimensions, query, compute, stages, n);
    assert stages[..n][k].start == stages[k].start && HasStage(stages[..n], stages[k].start);
    StageOf(dimensions, query, compute, stages, k);
    StageReaches(dimensions, query, compute, ContextOf(stages[..k]), stages[k]);
    YieldsApart(dimensions, query, stages[k].start, stages[n].start);
  }

  /** Before it is computed, a due cohort has no value. */
  lemma DueHasNoValue(dimensions: Dimensions, query: map<string, Json>, compute: Compute, stages: seq<Stage>,
                      base: string, d: string)
    requires WellFormed(dimensions) && Evaluation(dimensions, query, compute, stages) && stages != []
    requires d in Remote(dimensions)
    requires var last := stages[|stages| - 1];
             Based(Own(dimensions), d, base, last.start, Cohorts(last.log)) && d !in Cohorts(last.log)
    ensures d !in ContextOf(stages)
  {
    DueIsInYield(dimensions, query, compute, stages, base, d);
    ContextHas(dimensions, query, compute, stages, d);
    forall k | 0 <= k < |stages| ensures d !in Reached(stages[k]) {
      if k < |stages| - 1 {
        NotReachedBefore(dimensions, query, compute, stages, k, d);
      }
    }
  }

  lemma DueArises(dimensions: Dimensions, query: map<string, Json>, compute: Compute, stages: seq<Stage>,
                  base: string, d: string)
    requires WellFormed(dimensions) && Evaluation(dimensions, query, compute, stages) && stages != []
    requires d in Remote(dimensions)
    requires var last := stages[|stages| - 1];
             Based(Own(dimensions), d, base, last.start, Cohorts(last.log)) && d !in Cohorts(last.log)
    ensures Arises(dimensions, d, ContextOf(stages))
  {
    DueHasNoValue(dimensions, query, compute, stages, base, d);
    forall x | x in ContextOf(stages) ensures x in dimensions {
      InContextEvaluable(dimensions, query, compute, stages, x);
      var s :| RemoteStart(dimensions, query, s) && x in Yield(dimensions, s);
      YieldDepends(dimensions, s, x);
      if x != s {
        DependentIsCohort(dimensions, s, x);
      }
    }
  }

  // ---------- The moment of a computation ----------

  /** The evaluation up to the i-th computation of the k-th stage. */
  ghost function UpTo(stages: seq<Stage>, k: nat, i: nat): seq<Stage>
    requires k < |stages| && i <= |stages[k].log|
  {
    stages[..k] + [stages[k].(log := stages[k].log[..i])]
  }

  lemma UpToIsEvaluation(dimensions: Dimensions, query: map<string, Json>, compute: Compute, stages: seq<Stage>,
                         k: nat, i: nat)
    requires WellFormed(dimensions) && Evaluation(dimensions, query, compute, stages)
    requires k < |stages| && i <= |stages[k].log|
    ensures Evaluation(dimensions, query, compute, UpTo(stages, k, i))
  {
    var stage, before := stages[k], ContextOf(stages[..k]);
    StageOf(dimensions, query, compute, stages, k);
    SoundPrefix(Own(dimensions), dimensions, stage.start, Begun(before, stage), compute, stage.log, i);
    EvaluationSnoc(dimensions, query, compute, stages[..k], stage.(log := stage.log[..i]));
  }

  /** Values stay until the end. */
  lemma UpToValue(dimensions: Dimensions, query: map<string, Json>, compute: Compute, stages: seq<Stage>,
                  k: nat, i: nat, d: string)
    requires WellFormed(dimensions) && Evaluation(dimensions, query, compute, stages)
    requires k < |stages| && i <= |stages[k].log| && d in ContextOf(UpTo(stages, k, i))
    ensures d in ContextOf(stages) && ContextOf(stages)[d] == ContextOf(UpTo(stages, k, i))[d]
  {
    UpToIsEvaluation(dimensions, query, compute, stages, k, i);
    UpToStages(stages, k, i);
    ContextHas(dimensions, query, compute, UpTo(stages, k, i), d);
    PartValue(dimensions, query, compute, UpTo(stages, k, i), stages, k, d);
  }

  /** The same start, and a part of the log. */
  ghost predicate PartOf(part: Stage, whole: Stage) {
    part.start == whole.start && part.log <= whole.log
  }

  ghost predicate SameUpTo(a: seq<Stage>, b: seq<Stage>, k: nat) {
    k <= |a| && k <= |b| && a[..k] == b[..k]
  }

  lemma UpToStages(stages: seq<Stage>, k: nat, i: nat)
    requires k < |stages| && i <= |stages[k].log|
    ensures var part := UpTo(stages, k, i);
            && |part| == k + 1 && SameUpTo(part, stages, k)
            && PartOf(part[k], stages[k])
  {
  }

  lemma PartValue(dimensions: Dimensions, query: map<string, Json>, compute: Compute, part: seq<Stage>,
                  stages: seq<Stage>, k: nat, d: string)
    requires WellFormed(dimensions)
    requires Evaluation(dimensions, query, compute, part) && Evaluation(dimensions, query, compute, stages)
    requires k < |stages| && |part| == k + 1 && SameUpTo(part, stages, k)
    requires PartOf(part[k], stages[k])
    requires InSome(part, d)
    ensures d in ContextOf(part) && d in ContextOf(stages) && ContextOf(part)[d] == ContextOf(stages)[d]
  {
    var j :| 0 <= j < |part| && d in Reached(part[j]);
    if j == k {
      SameStageValue(dimensions, query, compute, part, stages, j, d);
    } else {
      EarlierStageValue(dimensions, query, compute, part, stages, k, j, d);
    }
  }

  /** A value of a stage that both have is the same in both. */
  lemma EarlierStageValue(dimensions: Dimensions, query: map<string, Json>, compute: Compute, part: seq<Stage>,
                          stages: seq<Stage>, k: nat, j: nat, d: string)
    requires WellFormed(dimensions)
    requires Evaluation(dimensions, query, compute, part) && Evaluation(dimensions, query, compute, stages)
    requires j < k <= |part| && k <= |stages| && SameUpTo(part, stages, k) && d in Reached(part[j])
    ensures d in ContextOf(part) && d in ContextOf(stages) && ContextOf(part)[d] == ContextOf(stages)[d]
  {
    SamePrefixContext(part, stages, k, j);
    ValuesStay(dimensions, query, compute, part, j, d);
    ValuesStay(dimensions, query, compute, stages, j, d);
  }

  lemma SamePrefixContext(part: seq<Stage>, stages: seq<Stage>, k: nat, j: nat)
    requires j < k <= |part| && k <= |stages| && SameUpTo(part, stages, k)
    ensures part[j] == stages[j] && ContextOf(part[..j + 1]) == ContextOf(stages[..j + 1])
  {
    SamePrefix(part, stages, k, j + 1);
    assert part[j] == part[..k][j] && stages[j] == stages[..k][j];
  }

  /** A value of a part of a stage is that of the whole stage. */
  lemma SameStageValue(dimensions: Dimensions, query: map<string, Json>, compute: Compute, part: seq<Stage>,
                       stages: seq<Stage>, k: nat, d: string)
    requires WellFormed(dimensions)
    requires Evaluation(dimensions, query, compute, part) && Evaluation(dimensions, query, compute, stages)
    requires k < |part| && k < |stages| && d in Reached(part[k])
    requires PartOf(part[k], stages[k])
    ensures d in ContextOf(part) && d in ContextOf(stages) && ContextOf(part)[d] == ContextOf(stages)[d]
  {
    if d == part[k].start {
      StartValueStays(dimensions, query, compute, part, k);
      StartValueStays(dimensions, query, compute, stages, k);
    } else {
      CohortsHasEach(part[k].log, d);
      var m :| 0 <= m < |part[k].log| && part[k].log[m].cohort == d;
      ComputedValueStays(dimensions, query, compute, part, k, m);
      ComputedValueStays(dimensions, query, compute, stages, k, m);
    }
  }

  /** At the moment of the computation, its function was asked in this context. */
  lemma Asked(dimensions: Dimensions, query: map<string, Json>, compute: Compute, stages: seq<Stage>, k: nat, i: nat)
    requires WellFormed(dimensions) && Evaluation(dimensions, query, compute, stages)
    requires k < |stages| && i < |stages[k].log|
    ensures var c, context := stages[k].log[i], ContextOf(UpTo(stages, k, i));
            && c.cohort in Remote(dimensions) && IsBase(dimensions, c.base, c.cohort) && c.base in context
            && dimensions[c.cohort].valueComputeFunction.Some?
            && compute(dimensions[c.cohort].valueComputeFunction.value, c.base, context) == Success(c.value)
            && Based(Own(dimensions), c.cohort, c.base, stages[k].start, Cohorts(stages[k].log[..i]))
            && c.cohort !in Cohorts(stages[k].log[..i])
  {
    var stage, before, c := stages[k], ContextOf(stages[..k]), stages[k].log[i];
    StageOf(dimensions, query, compute, stages, k);
    SoundPrefix(Own(dimensions), dimensions, stage.start, Begun(before, stage), compute, stage.log, i);
    KnownBase(dimensions, c.base, c.cohort);
    SnocParts(stages[..k], stage.(log := stage.log[..i]));
    assert ContextOf(UpTo(stages, k, i)) == ContextAfter(Begun(before, stage), stage.log[..i]);
    LoggedHaveValues(Begun(before, stage), stage.log[..i]);
  }

  // ---------- Order does not matter where lineage decides ----------

  /** Where a dimension is computed in an evaluation that gives it a value. */
  lemma ComputedAt(dimensions: Dimensions, query: map<string, Json>, compute: Compute, stages: seq<Stage>, d: string)
    returns (k: nat, i: nat)
    requires WellFormed(dimensions) && Evaluation(dimensions, query, compute, stages)
    requires d in ContextOf(stages) && !RemoteStart(dimensions, query, d)
    ensures k < |stages| && i < |stages[k].log| && stages[k].log[i].cohort == d
    ensures ContextOf(stages)[d] == stages[k].log[i].value
  {
    ContextHas(dimensions, query, compute, stages, d);
    k :| 0 <= k < |stages| && d in Reached(stages[k]);
    StageOf(dimensions, query, compute, stages, k);
    CohortsHasEach(stages[k].log, d);
    i :| 0 <= i < |stages[k].log| && stages[k].log[i].cohort == d;
    ComputedValueStays(dimensions, query, compute, stages, k, i);
  }

  /** A part of an evaluation gives no value that the finished one does not give. */
  lemma {:induction false} ValueAgrees(dimensions: Dimensions, query: map<string, Json>, compute: Compute,
                                       one: seq<Stage>, two: seq<Stage>, d: string)
    requires WellFormed(dimensions) && AnswerByLineage(dimensions, compute)
    requires Finished(dimensions, query, compute, one) && Evaluation(dimensions, query, compute, two)
    requires d in ContextOf(two)
    ensures d in ContextOf(one) && ContextOf(one)[d] == ContextOf(two)[d]
    decreases LayersOf(Own(dimensions)).depth(d), 1
  {
    InContextEvaluable(dimensions, query, compute, two, d);
    FinishedHas(dimensions, query, compute, one, d);
    if RemoteStart(dimensions, query, d) {
      StartsAgree(dimensions, query, compute, one, two, d);
    } else {
      var k, i := ComputedAt(dimensions, query, compute, two, d);
      var part := UpTo(two, k, i);
      Asked(dimensions, query, compute, two, k, i);
      UpToIsEvaluation(dimensions, query, compute, two, k, i);
      SnocParts(two[..k], two[k].(log := two[k].log[..i]));
      AnswerAgrees(dimensions, query, compute, one, part, two[k].log[i].base, d);
    }
  }

  lemma StartsAgree(dimensions: Dimensions, query: map<string, Json>, compute: Compute,
                    one: seq<Stage>, two: seq<Stage>, d: string)
    requires WellFormed(dimensions) && RemoteStart(dimensions, query, d)
    requires Evaluation(dimensions, query, compute, one) && Evaluation(dimensions, query, compute, two)
    requires d in ContextOf(one) && d in ContextOf(two)
    ensures ContextOf(one)[d] == ContextOf(two)[d]
  {
    StartHasStage(dimensions, query, compute, one, d);
    StartHasStage(dimensions, query, compute, two, d);
    ComputedOnceOverall(dimensions, query, compute, one);
    ComputedOnceOverall(dimensions, query, compute, two);
  }

  lemma StartHasStage(dimensions: Dimensions, query: map<string, Json>, compute: Compute, stages: seq<Stage>, d: string)
    requires WellFormed(dimensions) && RemoteStart(dimensions, query, d)
    requires Evaluation(dimensions, query, compute, stages) && d in ContextOf(stages)
    ensures HasStage(stages, d)
  {
    ContextHas(dimensions, query, compute, stages, d);
    var k :| 0 <= k < |stages| && d in Reached(stages[k]);
    if stages[k].start != d {
      CohortsHasEach(stages[k].log, d);
      var i :| 0 <= i < |stages[k].log| && stages[k].log[i].cohort == d;
      ComputedIsNoStart(dimensions, query, compute, stages, k, i);
    }
  }

  /** Asked when the cohort is due, its function gives the answer it gave in the finished
      evaluation. */
  lemma {:induction false} AnswerAgrees(dimensions: Dimensions, query: map<string, Json>, compute: Compute,
                                        one: seq<Stage>, part: seq<Stage>, base: string, d: string)
    requires WellFormed(dimensions) && AnswerByLineage(dimensions, compute)
    requires Finished(dimensions, query, compute, one)
    requires Evaluation(dimensions, query, compute, part) && part != []
    requires var last := part[|part| - 1];
             Based(Own(dimensions), d, base, last.start, Cohorts(last.log)) && d !in Cohorts(last.log)
    requires d in ContextOf(one) && !RemoteStart(dimensions, query, d)
    ensures d in Remote(dimensions) && dimensions[d].valueComputeFunction.Some?
    ensures compute(dimensions[d].valueComputeFunction.value, base, ContextOf(part)) == Success(ContextOf(one)[d])
    decreases LayersOf(Own(dimensions)).depth(d), 0
  {
    var k, i := ComputedAt(dimensions, query, compute, one, d);
    var moment := UpTo(one, k, i);
    Asked(dimensions, query, compute, one, k, i);
    UpToIsEvaluation(dimensions, query, compute, one, k, i);
    SnocParts(one[..k], one[k].(log := one[k].log[..i]));
    KnownBase(dimensions, base, d);
    assert base == one[k].log[i].base;
    DueArises(dimensions, query, compute, moment, base, d);
    DueArises(dimensions, query, compute, part, base, d);
    forall a | a in Lineage(dimensions, d)
      ensures a in ContextOf(moment) <==> a in ContextOf(part)
      ensures a in ContextOf(moment) ==> ContextOf(moment)[a] == ContextOf(part)[a]
    {
      DueSees(dimensions, query, compute, moment, base, d, a);
      DueSees(dimensions, query, compute, part, base, d, a);
      if a in ContextOf(moment) {
        BelowIsDeeper(Own(dimensions), dimensions.Keys, a, d);
        UpToValue(dimensions, query, compute, one, k, i, a);
        ValueAgrees(dimensions, query, compute, one, part, a);
      }
    }
    assert AgreeOn(ContextOf(moment), ContextOf(part), Lineage(dimensions, d));
  }

  /** If one evaluation is finished, no other order of it gets stuck. */
  lemma NoOtherGetsStuck(dimensions: Dimensions, query: map<string, Json>, compute: Compute,
                         one: seq<Stage>, two: seq<Stage>)
    requires WellFormed(dimensions) && AnswerByLineage(dimensions, compute)
    requires Finished(dimensions, query, compute, one) && Evaluation(dimensions, query, compute, two)
    ensures !Stuck(dimensions, query, compute, two)
  {
    if Stuck(dimensions, query, compute, two) {
      var n := |two| - 1;
      var init, last := two[..n], two[n];
      var due :| Fails(Own(dimensions), dimensions, last.start, Begun(ContextOf(init), last), compute, last.log, due);
      DueIsEvaluable(dimensions, query, compute, two, due);
      FinishedHas(dimensions, query, compute, one, due.cohort);
      AnswerAgrees(dimensions, query, compute, one, two, due.base, due.cohort);
    }
  }

  lemma DueIsEvaluable(dimensions: Dimensions, query: map<string, Json>, compute: Compute, stages: seq<Stage>,
                       due: Pending)
    requires WellFormed(dimensions) && Evaluation(dimensions, query, compute, stages) && stages != []
    requires due.cohort in Remote(dimensions)
    requires var last := stages[|stages| - 1];
             Based(Own(dimensions), due.cohort, due.base, last.start, Cohorts(last.log))
    ensures Evaluable(dimensions, query, due.cohort) && !RemoteStart(dimensions, query, due.cohort)
  {
    DueIsInYield(dimensions, query, compute, stages, due.base, due.cohort);
  }

  /** Where functions answer by what their cohorts depend on, the order of the evaluation decides
      neither whether it succeeds nor what it comes to. */
  lemma OrderDoesNotMatter(dimensions: Dimensions, query: map<string, Json>, compute: Compute,
                           one: seq<Stage>, two: seq<Stage>)
    requires WellFormed(dimensions) && AnswerByLineage(dimensions, compute)
    requires Finished(dimensions, query, compute, one) && Evaluation(dimensions, query, compute, two)
    ensures !Stuck(dimensions, query, compute, two)
    ensures Finished(dimensions, query, compute, two) ==> ContextOf(two) == ContextOf(one)
  {
    NoOtherGetsStuck(dimensions, query, compute, one, two);
    if Finished(dimensions, query, compute, two) {
      forall d ensures d in ContextOf(one) <==> d in ContextOf(two) {
        FinishedHas(dimensions, query, compute, one, d);
        FinishedHas(dimensions, query, compute, two, d);
      }
      forall d | d in ContextOf(two) ensures ContextOf(one)[d] == ContextOf(two)[d] {
        ValueAgrees(dimensions, query, compute, one, two, d);
      }
    }
  }
}
