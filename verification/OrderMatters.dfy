/** Over all tables, the order of the evaluation of remote cohorts is irrelevant exactly where
    functions answer by the value of the base dimension alone. */
module OrderMatters {
  import opened Wrappers
  import opened JsonValues
  import opened Configuration
  import opened Dependencies
  import opened Lineages
  import opened RemoteCohorts
  import opened RemoteEvaluation
  import opened RemoteOrder
  import opened Matching
  import opened Removal
  import opened Workspaces

  // ---------- A table with one remote cohort ----------

  lemma NameOutside(names: set<string>) returns (name: string)
    ensures name !in names
  {
    var longest := LongerThan(names);
    name := seq(longest, _ => 'x');
  }

  lemma {:induction false} LongerThan(names: set<string>) returns (length: nat)
    ensures forall name :: name in names ==> |name| < length
  {
    if names == {} {
      length := 0;
    } else {
      var name :| name in names;
      length := LongerThan(names - {name});
      if length <= |name| {
        length := |name| + 1;
      }
    }
  }

  /** A workspace has room for the dimensions of the context, that of the variants, and one more. */
  predicate HasPlace(context: map<string, Json>) {
    |context.Keys + {VARIANT_IDS}| < 0x8000_0000
  }

  /** Values of regular dimensions, and a remote cohort on one of them. */
  datatype Setting = Setting(values: map<string, Json>, base: string, cohort: string, valueFunction: string)

  ghost predicate Proper(setting: Setting) {
    && setting.base in setting.values && setting.base != VARIANT_IDS
    && setting.cohort !in setting.values && setting.cohort != VARIANT_IDS
    && HasPlace(setting.values)
  }

  function RegularAsked(name: string): NewDimension {
    NewDimension(name, 1, Regular, map[], None)
  }

  function CohortAsked(setting: Setting): NewDimension {
    NewDimension(setting.cohort, 1, RemoteCohort(setting.base), map[], Some(setting.valueFunction))
  }

  /** The table with these dimensions, all of which have a value. */
  ghost predicate Suits(setting: Setting, table: Dimensions)
    requires WellFormed(table)
  {
    && Proper(setting)
    && (forall d {:trigger RemoteStart(table, setting.values, d)} ::
          RemoteStart(table, setting.values, d) <==> d in setting.values)
    && (forall d {:trigger Below(Own(table), Remote(table), d)} :: d in setting.values ==>
          Below(Own(table), Remote(table), d) == if d == setting.base then {setting.cohort} else {})
    && setting.cohort in Children(Own(table), setting.base)
    && setting.cohort in Remote(table) && table[setting.cohort].valueComputeFunction == Some(setting.valueFunction)
  }

  ghost predicate AllRegular(table: Dimensions, names: set<string>) {
    table.Keys == names && forall d :: d in names ==> table[d].dimensionType.Regular?
  }

  lemma RegularServed(table: Dimensions, names: set<string>, d: string)
    requires Sound(table) && AllRegular(table, names) && d !in names && |names| < 0x8000_0000
    ensures AllRegular(Served(table, Create(RegularAsked(d), true)), names + {d})
  {
    assert VARIANT_IDS in table;
    assert CanCreate(table, RegularAsked(d));
    OneMore(table, RegularAsked(d));
  }

  lemma TableOfSnoc(schema: map<string, Json>, init: seq<Request>, last: Request)
    ensures TableOf(schema, init + [last]) == Served(TableOf(schema, init), last)
  {
    FreshIsSound(schema);
    AllServedSnoc(Fresh(schema), init, last);
  }

  /** A workspace can be asked for any regular dimensions. */
  lemma {:induction false} RegularsServed(names: set<string>) returns (requests: seq<Request>)
    requires VARIANT_IDS in names && |names| < 0x8000_0000
    ensures AllRegular(TableOf(map[], requests), names)
    decreases names
  {
    if names == {VARIANT_IDS} {
      requests := [];
      FreshIsRegular();
    } else {
      var d :| d in names && d != VARIANT_IDS;
      requests := RegularsServed(names - {d});
      TableOfSnoc(map[], requests, Create(RegularAsked(d), true));
      RegularServed(TableOf(map[], requests), names - {d}, d);
      assert names - {d} + {d} == names;
      requests := requests + [Create(RegularAsked(d), true)];
    }
  }

  lemma FreshIsRegular()
    ensures AllRegular(TableOf(map[], []), {VARIANT_IDS})
  {
  }

  /** What tables of this form have in common. */
  ghost predicate Formed(setting: Setting, table: Dimensions) {
    && Proper(setting)
    && table.Keys == setting.values.Keys + {VARIANT_IDS} + {setting.cohort}
    && table[setting.cohort] == InfoOf(CohortAsked(setting))
    && (forall d :: d in table && d != setting.cohort ==> table[d].dimensionType.Regular?)
  }

  lemma CohortAllowed(setting: Setting, table: Dimensions)
    requires Proper(setting) && Compact(table) && VariantsFirst(table)
    requires AllRegular(table, setting.values.Keys + {VARIANT_IDS})
    ensures CanCreate(table, CohortAsked(setting))
  {
    assert table[setting.base].position != table[VARIANT_IDS].position;
    assert |table.Keys| == |table|;
  }

  lemma CohortServed(setting: Setting, table: Dimensions)
    requires Proper(setting) && Sound(table) && AllRegular(table, setting.values.Keys + {VARIANT_IDS})
    ensures Formed(setting, Served(table, Create(CohortAsked(setting), true)))
  {
    CohortAllowed(setting, table);
    OneMore(table, CohortAsked(setting));
  }

  lemma FormedTable(setting: Setting) returns (requests: seq<Request>)
    requires Proper(setting)
    ensures Formed(setting, TableOf(map[], requests))
  {
    requests := RegularsServed(setting.values.Keys + {VARIANT_IDS});
    TableOfSnoc(map[], requests, Create(CohortAsked(setting), true));
    CohortServed(setting, TableOf(map[], requests));
    requests := requests + [Create(CohortAsked(setting), true)];
  }

  lemma FormedBases(setting: Setting, table: Dimensions)
    requires TypesAgree(table) && Formed(setting, table)
    ensures forall p, c :: IsBase(table, p, c) <==> p == setting.base && c == setting.cohort
  {
    assert forall p, c :: IsBase(table, p, c) <==> c in table && BaseOf(table[c]) == Some(p);
  }

  /** Some workspace holds such a table. */
  lemma TableExists(setting: Setting) returns (requests: seq<Request>)
    requires Proper(setting)
    ensures WellFormed(TableOf(map[], requests)) && Suits(setting, TableOf(map[], requests))
  {
    requests := FormedTable(setting);
    FormedSuits(setting, TableOf(map[], requests));
  }

  /** The cohort is the only child of its base, and there are no others. */
  ghost predicate OnlyChild(setting: Setting, table: Dimensions) {
    forall p, c :: c in Children(Own(table), p) <==> p == setting.base && c == setting.cohort
  }

  lemma FormedSuits(setting: Setting, table: Dimensions)
    requires Tidy(table) && Formed(setting, table)
    ensures Suits(setting, table)
  {
    FormedChildren(setting, table);
    TableStarts(setting, table);
    forall d | d in setting.values
      ensures Below(Own(table), Remote(table), d) == if d == setting.base then {setting.cohort} else {}
    {
      TableBelow(setting, table, d);
    }
  }

  lemma FormedChildren(setting: Setting, table: Dimensions)
    requires TypesAgree(table) && Formed(setting, table)
    ensures OnlyChild(setting, table)
  {
    FormedBases(setting, table);
    forall p, c ensures c in Children(Own(table), p) <==> IsBase(table, p, c) {
    }
  }

  lemma TableStarts(setting: Setting, table: Dimensions)
    requires WellFormed(table) && Formed(setting, table)
    ensures forall d :: RemoteStart(table, setting.values, d) <==> d in setting.values
  {
  }

  lemma TableBelow(setting: Setting, table: Dimensions, d: string)
    requires Forest(Own(table)) && OnlyChild(setting, table) && setting.cohort in Remote(table)
    requires setting.base != setting.cohort
    ensures Below(Own(table), Remote(table), d) == if d == setting.base then {setting.cohort} else {}
  {
    var closed := if d == setting.base then {setting.cohort} else {};
    ClosedHoldsBelow(Own(table), Remote(table), d, closed);
    if d == setting.base {
      assert setting.cohort in Children(Own(table), d);
      assert setting.cohort in Below(Own(table), Remote(table), d);
    }
  }

  // ---------- One stage after the other ----------

  /** These starts have been evaluated, with this outcome. */
  ghost predicate Reaching(table: Dimensions, values: map<string, Json>, compute: Compute, stages: seq<Stage>,
                           starts: set<string>, context: map<string, Json>)
    requires WellFormed(table)
  {
    && Evaluation(table, values, compute, stages) && AllWhole(table, stages)
    && ContextOf(stages) == context
    && forall s {:trigger HasStage(stages, s)} :: HasStage(stages, s) <==> s in starts
  }

  lemma NothingReached(table: Dimensions, values: map<string, Json>, compute: Compute)
    requires WellFormed(table)
    ensures Reaching(table, values, compute, [], {}, map[])
  {
  }

  lemma ReachingOneMore(table: Dimensions, values: map<string, Json>, compute: Compute, stages: seq<Stage>,
                        starts: set<string>, context: map<string, Json>, stage: Stage)
    requires WellFormed(table) && Reaching(table, values, compute, stages, starts, context)
    requires StageSound(table, values, compute, context, stage) && Whole(table, stage) && stage.start !in starts
    ensures Reaching(table, values, compute, stages + [stage], starts + {stage.start},
                     ContextAfter(Begun(context, stage), stage.log))
  {
    EvaluationSnoc(table, values, compute, stages, stage);
  }

  /** A dimension without cohorts. */
  lemma AddPlain(setting: Setting, table: Dimensions, compute: Compute, stages: seq<Stage>, starts: set<string>,
                 context: map<string, Json>, d: string)
    requires WellFormed(table) && Suits(setting, table) && d in setting.values && d != setting.base
    requires Reaching(table, setting.values, compute, stages, starts, context) && d !in starts
    ensures Reaching(table, setting.values, compute, stages + [Stage(d, setting.values[d], [])], starts + {d},
                     context[d := setting.values[d]])
  {
    assert RemoteStart(table, setting.values, d);
    ReachingOneMore(table, setting.values, compute, stages, starts, context, Stage(d, setting.values[d], []));
  }

  ghost function Restricted(values: map<string, Json>, names: set<string>): map<string, Json> {
    map d | d in values && d in names :: values[d]
  }

  lemma RestrictedOneMore(context: map<string, Json>, values: map<string, Json>, names: set<string>, d: string)
    requires d in names && d in values
    ensures (context + Restricted(values, names - {d}))[d := values[d]] == context + Restricted(values, names)
  {
  }

  lemma RestrictedNone(context: map<string, Json>, values: map<string, Json>, starts: set<string>)
    ensures context + Restricted(values, {}) == context && starts + {} == starts
  {
  }

  lemma OneMoreName(starts: set<string>, names: set<string>, d: string)
    requires d in names
    ensures starts + (names - {d}) + {d} == starts + names
  {
  }

  lemma {:induction false} AddAll(setting: Setting, table: Dimensions, compute: Compute, stages: seq<Stage>,
                                  starts: set<string>, context: map<string, Json>, names: set<string>)
    returns (longer: seq<Stage>)
    requires WellFormed(table) && Suits(setting, table)
    requires Reaching(table, setting.values, compute, stages, starts, context)
    requires names <= setting.values.Keys - {setting.base} && names !! starts
    ensures Reaching(table, setting.values, compute, longer, starts + names,
                     context + Restricted(setting.values, names))
    decreases names
  {
    if names == {} {
      longer := stages;
      RestrictedNone(context, setting.values, starts);
    } else {
      var d :| d in names;
      longer := AddAll(setting, table, compute, stages, starts, context, names - {d});
      AddPlain(setting, table, compute, longer, starts + (names - {d}),
               context + Restricted(setting.values, names - {d}), d);
      RestrictedOneMore(context, setting.values, names, d);
      OneMoreName(starts, names, d);
      longer := longer + [Stage(d, setting.values[d], [])];
    }
  }

  /** The dimension with the cohort, where its function answers. */
  lemma AddBase(setting: Setting, table: Dimensions, compute: Compute, stages: seq<Stage>, starts: set<string>,
                context: map<string, Json>, value: Json)
    returns (longer: seq<Stage>)
    requires WellFormed(table) && Suits(setting, table)
    requires Reaching(table, setting.values, compute, stages, starts, context) && setting.base !in starts
    requires var begun := context[setting.base := setting.values[setting.base]];
             compute(setting.valueFunction, setting.base, begun) == Success(value)
    ensures Reaching(table, setting.values, compute, longer, starts + {setting.base},
                     context[setting.base := setting.values[setting.base]][setting.cohort := value])
  {
    var computation := Computation(setting.cohort, setting.base, value);
    var stage := Stage(setting.base, setting.values[setting.base], [] + [computation]);
    var begun := Begun(context, stage);
    assert RemoteStart(table, setting.values, setting.base);
    assert Based(Own(table), setting.cohort, setting.base, setting.base, {});
    assert Justified(Own(table), table, setting.base, begun, compute, [], computation);
    LogSnoc(Own(table), table, setting.base, begun, compute, [], computation);
    ReachingOneMore(table, setting.values, compute, stages, starts, context, stage);
    longer := stages + [stage];
  }

  /** The dimension with the cohort, where its function fails. */
  lemma FailAtBase(setting: Setting, table: Dimensions, compute: Compute, stages: seq<Stage>, starts: set<string>,
                   context: map<string, Json>)
    returns (longer: seq<Stage>)
    requires WellFormed(table) && Suits(setting, table)
    requires Reaching(table, setting.values, compute, stages, starts, context) && setting.base !in starts
    requires var begun := context[setting.base := setting.values[setting.base]];
             compute(setting.valueFunction, setting.base, begun).Failure?
    ensures Evaluation(table, setting.values, compute, longer) && Stuck(table, setting.values, compute, longer)
  {
    var stage, due := Stage(setting.base, setting.values[setting.base], []), Pending(setting.cohort, setting.base);
    assert RemoteStart(table, setting.values, setting.base);
    EvaluationSnoc(table, setting.values, compute, stages, stage);
    assert Based(Own(table), due.cohort, due.base, setting.base, {});
    assert Fails(Own(table), table, setting.base, Begun(ContextOf(stages), stage), compute, [], due);
    StuckAt(table, setting.values, compute, stages, stage);
    longer := stages + [stage];
  }

  // ---------- Two orders ----------

  /** With this answer of the function, the evaluation finishes and the cohort has that value, or
      the evaluation gets stuck. */
  ghost predicate Gives(table: Dimensions, values: map<string, Json>, compute: Compute, answer: Result<Json>,
                        cohort: string, stages: seq<Stage>)
    requires WellFormed(table)
  {
    && Evaluation(table, values, compute, stages)
    && (answer.Success? ==>
          && Finished(table, values, compute, stages)
          && cohort in ContextOf(stages) && ContextOf(stages)[cohort] == answer.value)
    && (answer.Failure? ==> Stuck(table, values, compute, stages))
  }

  lemma AllReached(setting: Setting, table: Dimensions, compute: Compute, stages: seq<Stage>, starts: set<string>,
                   context: map<string, Json>, value: Json)
    requires WellFormed(table) && Suits(setting, table) && setting.values.Keys <= starts
    requires Reaching(table, setting.values, compute, stages, starts, context)
    requires setting.cohort in context && context[setting.cohort] == value
    ensures Gives(table, setting.values, compute, Success(value), setting.cohort, stages)
  {
    forall s | RemoteStart(table, setting.values, s) ensures HasStage(stages, s) {
      assert s in setting.values;
    }
  }

  /** The base before the other dimensions. */
  lemma BaseFirst(setting: Setting, table: Dimensions, compute: Compute) returns (stages: seq<Stage>)
    requires WellFormed(table) && Suits(setting, table)
    ensures var alone := map[setting.base := setting.values[setting.base]];
            Gives(table, setting.values, compute, compute(setting.valueFunction, setting.base, alone),
                  setting.cohort, stages)
  {
    var values, base, rest := setting.values, setting.base, setting.values.Keys - {setting.base};
    var answer := compute(setting.valueFunction, base, map[base := values[base]]);
    assert map[][base := values[base]] == map[base := values[base]];
    NothingReached(table, values, compute);
    if answer.Failure? {
      stages := FailAtBase(setting, table, compute, [], {}, map[]);
    } else {
      stages := AddBase(setting, table, compute, [], {}, map[], answer.value);
      var context := map[][base := values[base]][setting.cohort := answer.value];
      stages := AddAll(setting, table, compute, stages, {} + {base}, context, rest);
      AllReached(setting, table, compute, stages, {} + {base} + rest, context + Restricted(values, rest), answer.value);
    }
  }

  /** The base after the other dimensions. */
  lemma BaseLast(setting: Setting, table: Dimensions, compute: Compute) returns (stages: seq<Stage>)
    requires WellFormed(table) && Suits(setting, table)
    ensures Gives(table, setting.values, compute, compute(setting.valueFunction, setting.base, setting.values),
                  setting.cohort, stages)
  {
    var values, base, rest := setting.values, setting.base, setting.values.Keys - {setting.base};
    var answer := compute(setting.valueFunction, base, values);
    NothingReached(table, values, compute);
    stages := AddAll(setting, table, compute, [], {}, map[], rest);
    var context := map[] + Restricted(values, rest);
    assert context[base := values[base]] == values;
    if answer.Failure? {
      stages := FailAtBase(setting, table, compute, stages, {} + rest, context);
    } else {
      stages := AddBase(setting, table, compute, stages, {} + rest, context, answer.value);
      AllReached(setting, table, compute, stages, {} + rest + {base},
                 context[base := values[base]][setting.cohort := answer.value], answer.value);
    }
  }

  /** If one evaluation of a request finishes, so does every other, with the same outcome, in
      whatever workspace. */
  ghost predicate OrderIrrelevant(compute: Compute) {
    forall schema, requests, query :: SameOutcomes(TableOf(schema, requests), query, compute)
  }

  /** Functions answer by the value of the base dimension alone, in contexts that a workspace has
      room for. */
  ghost predicate AnswerByBase(compute: Compute) {
    forall valueFunction, base, a, b |
      && base != VARIANT_IDS && base in a && base in b && a[base] == b[base]
      && HasPlace(a) && HasPlace(b) ::
      SameAnswer(compute(valueFunction, base, a), compute(valueFunction, base, b))
  }

  ghost predicate SameOutcomes(dimensions: Dimensions, query: map<string, Json>, compute: Compute)
    requires WellFormed(dimensions)
  {
    forall one, two |
      Finished(dimensions, query, compute, one) && Evaluation(dimensions, query, compute, two) ::
      SameOutcome(dimensions, query, compute, one, two)
  }

  /** The other evaluation does not get stuck, and comes to the same if it finishes. */
  ghost predicate SameOutcome(dimensions: Dimensions, query: map<string, Json>, compute: Compute,
                              finished: seq<Stage>, other: seq<Stage>)
    requires WellFormed(dimensions)
  {
    && !Stuck(dimensions, query, compute, other)
    && (Finished(dimensions, query, compute, other) ==> ContextOf(other) == ContextOf(finished))
  }

  /** A function that answers differently with and without other dimensions in the context makes
      the order of the starts matter in some workspace. */
  lemma OtherDimensionsMatter(compute: Compute, valueFunction: string, base: string, context: map<string, Json>)
    returns (requests: seq<Request>)
    requires base in context && base != VARIANT_IDS && HasPlace(context)
    requires !SameAnswer(compute(valueFunction, base, map[base := context[base]]),
                         compute(valueFunction, base, context))
    ensures !SameOutcomes(TableOf(map[], requests), context, compute)
  {
    var cohort := NameOutside(context.Keys + {VARIANT_IDS});
    var setting := Setting(context, base, cohort, valueFunction);
    requests := TableExists(setting);
    var dimensions := TableOf(map[], requests);
    var first := BaseFirst(setting, dimensions, compute);
    var last := BaseLast(setting, dimensions, compute);
    Differ(dimensions, context, compute, compute(valueFunction, base, map[base := context[base]]),
           compute(valueFunction, base, context), cohort, first, last);
  }

  lemma Differ(table: Dimensions, values: map<string, Json>, compute: Compute, one: Result<Json>, other: Result<Json>,
               cohort: string, first: seq<Stage>, last: seq<Stage>)
    requires WellFormed(table) && !SameAnswer(one, other)
    requires Gives(table, values, compute, one, cohort, first) && Gives(table, values, compute, other, cohort, last)
    ensures !SameOutcomes(table, values, compute)
  {
    if one.Success? {
      assert !SameOutcome(table, values, compute, first, last);
    } else {
      assert !SameOutcome(table, values, compute, last, first);
    }
  }

  lemma SameOutcomesByLineage(dimensions: Dimensions, query: map<string, Json>, compute: Compute)
    requires WellFormed(dimensions) && AnswerByLineage(dimensions, compute)
    ensures SameOutcomes(dimensions, query, compute)
  {
    forall one, two |
      Finished(dimensions, query, compute, one) && Evaluation(dimensions, query, compute, two)
      ensures SameOutcome(dimensions, query, compute, one, two)
    {
      OrderDoesNotMatter(dimensions, query, compute, one, two);
    }
  }

  /** Contexts that arise in a workspace are such that it has room for them, and the base of a
      cohort is not the dimension of the variants. */
  lemma ArisingHasPlace(dimensions: Dimensions, base: string, d: string, context: map<string, Json>)
    requires Compact(dimensions) && VariantsFirst(dimensions) && CohortsLower(dimensions)
    requires IsBase(dimensions, base, d) && !IsRegular(dimensions, d) && Arises(dimensions, d, context)
    ensures base != VARIANT_IDS && HasPlace(context)
  {
    NamesBetween(dimensions.Keys, dimensions, 0, 0x8000_0000);
    SubsetIsSmaller(context.Keys + {VARIANT_IDS}, dimensions.Keys - {d});
  }

  lemma {:induction false} SubsetIsSmaller(a: set<string>, b: set<string>)
    requires a <= b
    ensures |a| <= |b|
  {
    assert b == a + (b - a);
  }

  lemma ByBaseIsByLineage(dimensions: Dimensions, compute: Compute)
    requires Sound(dimensions) && AnswerByBase(compute)
    ensures AnswerByLineage(dimensions, compute)
  {
    forall d, base, a, b |
      && IsBase(dimensions, base, d) && AgreeOn(a, b, Lineage(dimensions, d))
      && Arises(dimensions, d, a) && Arises(dimensions, d, b) && base in a
      ensures base in b && a[base] == b[base] && base != VARIANT_IDS && HasPlace(a) && HasPlace(b)
    {
      assert CohortsKnown(dimensions);
      BaseIsInLineage(dimensions, base, d);
      ArisingHasPlace(dimensions, base, d, a);
      ArisingHasPlace(dimensions, base, d, b);
    }
  }

  /** The order of the evaluation is irrelevant, whatever the workspace and the request, exactly
      when every function answers by the value of the base dimension alone. */
  lemma OrderIrrelevantIff(compute: Compute)
    ensures OrderIrrelevant(compute) <==> AnswerByBase(compute)
  {
    if AnswerByBase(compute) {
      forall schema, requests, query ensures SameOutcomes(TableOf(schema, requests), query, compute) {
        ByBaseIsByLineage(TableOf(schema, requests), compute);
        SameOutcomesByLineage(TableOf(schema, requests), query, compute);
      }
    } else {
      var valueFunction, base, a, b :|
        && base != VARIANT_IDS && base in a && base in b && a[base] == b[base] && HasPlace(a) && HasPlace(b)
        && !SameAnswer(compute(valueFunction, base, a), compute(valueFunction, base, b));
      var alone := compute(valueFunction, base, map[base := a[base]]);
      var context := if SameAnswer(alone, compute(valueFunction, base, a)) then b else a;
      var requests := OtherDimensionsMatter(compute, valueFunction, base, context);
      assert !SameOutcomes(TableOf(map[], requests), context, compute);
    }
  }
}
