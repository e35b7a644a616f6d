/** Completing a request with the local cohorts that its dimensions determine. */
module LocalCohorts {
  import opened Wrappers
  import opened JsonValues
  import opened Configuration
  import opened Dependencies
  import opened Lineages
  import opened StartingDimensions

  /** Whether a JSON logic rule holds of some data. */
  type Rule = (Json, Json) -> bool

  const OTHERWISE := "otherwise"

  /** The first of the options whose rule holds; the search ends early at an option without a
      rule. */
  function FirstHolding(options: seq<Json>, rules: map<string, Json>, data: Json, holds: Rule): Option<string> {
    if options == [] then None
    else if options[0].String? && options[0].chars != OTHERWISE then
      var option := options[0].chars;
      if option !in rules then None
      else if holds(rules[option], data) then Some(option)
      else FirstHolding(options[1..], rules, data, holds)
    else FirstHolding(options[1..], rules, data, holds)
  }

  /** The cohort that the value of the base dimension falls into. */
  function CohortOf(base: string, value: Json, schema: map<string, Json>, holds: Rule): string {
    if "definitions" in schema && schema["definitions"].Object? && "enum" in schema && schema["enum"].Array? then
      var found := FirstHolding(schema["enum"].items, schema["definitions"].members, Object(map[base := value]), holds);
      if found.Some? then found.value else OTHERWISE
    else OTHERWISE
  }

  // ---------- Which option is chosen ----------

  /** An option is a string other than "otherwise". */
  predicate IsOption(j: Json) {
    j.String? && j.chars != "otherwise"
  }

  /** The rule of the i-th option holds, and every option before it has a rule that does not. */
  ghost predicate HoldsAt(options: seq<Json>, rules: map<string, Json>, data: Json, holds: Rule, i: int) {
    && 0 <= i < |options| && IsOption(options[i])
    && options[i].chars in rules && holds(rules[options[i].chars], data)
    && forall j :: 0 <= j < i && IsOption(options[j]) ==>
         options[j].chars in rules && !holds(rules[options[j].chars], data)
  }

  lemma HoldsAtNext(options: seq<Json>, rules: map<string, Json>, data: Json, holds: Rule, i: int)
    requires options != [] && i > 0
    requires IsOption(options[0]) ==> options[0].chars in rules && !holds(rules[options[0].chars], data)
    ensures HoldsAt(options, rules, data, holds, i) <==> HoldsAt(options[1..], rules, data, holds, i - 1)
  {
    var rest := options[1..];
    assert forall j :: 0 <= j < |rest| ==> rest[j] == options[j + 1];
    if HoldsAt(rest, rules, data, holds, i - 1) {
      forall j | 0 <= j < i && IsOption(options[j])
        ensures options[j].chars in rules && !holds(rules[options[j].chars], data)
      {
        assert j > 0 ==> options[j] == rest[j - 1];
      }
    }
  }

  lemma {:induction false} FirstHoldingIsFirst(options: seq<Json>, rules: map<string, Json>, data: Json, holds: Rule,
                                               i: int)
    ensures HoldsAt(options, rules, data, holds, i) ==>
      FirstHolding(options, rules, data, holds) == Some(options[i].chars)
    decreases |options|
  {
    if options != [] && HoldsAt(options, rules, data, holds, i) && i > 0 {
      HoldsAtNext(options, rules, data, holds, i);
      FirstHoldingIsFirst(options[1..], rules, data, holds, i - 1);
    }
  }

  lemma {:induction false} FirstHoldingFound(options: seq<Json>, rules: map<string, Json>, data: Json, holds: Rule)
    returns (i: int)
    requires FirstHolding(options, rules, data, holds).Some?
    ensures HoldsAt(options, rules, data, holds, i)
    decreases |options|
  {
    if IsOption(options[0]) && holds(rules[options[0].chars], data) {
      i := 0;
    } else {
      var at := FirstHoldingFound(options[1..], rules, data, holds);
      HoldsAtNext(options, rules, data, holds, at + 1);
      i := at + 1;
    }
  }

  /** The schema has rules and options, and the i-th option is the first whose rule holds of the
      value of the base, no option before it being without a rule. */
  ghost predicate ChoosesAt(base: string, value: Json, schema: map<string, Json>, holds: Rule, i: int) {
    && "definitions" in schema && schema["definitions"].Object? && "enum" in schema && schema["enum"].Array?
    && HoldsAt(schema["enum"].items, schema["definitions"].members, Object(map[base := value]), holds, i)
  }

  /** The cohort is the first option whose rule holds, and "otherwise" where there is none: no
      rules, no options, no rule that holds, or an option without a rule before it. */
  lemma CohortIsFirstHolding(base: string, value: Json, schema: map<string, Json>, holds: Rule)
    ensures CohortOf(base, value, schema, holds) == "otherwise"
       <==> forall i :: !ChoosesAt(base, value, schema, holds, i)
    ensures forall i :: ChoosesAt(base, value, schema, holds, i) ==>
      schema["enum"].items[i] == String(CohortOf(base, value, schema, holds))
  {
    if "definitions" in schema && schema["definitions"].Object? && "enum" in schema && schema["enum"].Array? {
      var options, rules := schema["enum"].items, schema["definitions"].members;
      var data := Object(map[base := value]);
      forall i {
        FirstHoldingIsFirst(options, rules, data, holds, i);
      }
      if FirstHolding(options, rules, data, holds).Some? {
        var i := FirstHoldingFound(options, rules, data, holds);
        assert ChoosesAt(base, value, schema, holds, i);
      }
    }
  }

  // ---------- What each dimension is worth ----------

  /** A dimension has a value; or it has none, nor has anything it is based on, so that a value
      may still begin below it; or it has none and nothing below it gets one. */
  datatype Status = Active(value: Json) | Waiting | Dead

  /** The status of a cohort, from the status of the dimension it is based on. */
  ghost function StatusFrom(dimensions: Dimensions, query: map<string, Json>, holds: Rule,
                            base: string, above: Status, d: string): Status
    requires d in dimensions
  {
    match above
    case Active(value) =>
      if IsLocal(dimensions, d) then Active(String(CohortOf(base, value, dimensions[d].schema, holds)))
      else if d in query then Active(query[d])
      else Dead
    case Waiting =>
      if d in query then Active(query[d])
      else if IsLocal(dimensions, d) then Dead
      else Waiting
    case Dead => Dead
  }

  ghost function StatusOf(dimensions: Dimensions, query: map<string, Json>, holds: Rule, d: string): Status
    requires WellFormed(dimensions) && d in dimensions
    decreases LayersOf(Own(dimensions)).depth(d)
  {
    if IsRegular(dimensions, d) then
      if d in query then Active(query[d]) else Waiting
    else if exists p :: IsBase(dimensions, p, d) then
      var p :| IsBase(dimensions, p, d);
      StatusFrom(dimensions, query, holds, p, StatusOf(dimensions, query, holds, p), d)
    else Dead
  }

  lemma StatusOfCohort(dimensions: Dimensions, query: map<string, Json>, holds: Rule, p: string, d: string)
    requires WellFormed(dimensions) && IsBase(dimensions, p, d)
    ensures d in dimensions && !IsRegular(dimensions, d)
    ensures StatusOf(dimensions, query, holds, d)
         == StatusFrom(dimensions, query, holds, p, StatusOf(dimensions, query, holds, p), d)
  {
    assert exists b :: IsBase(dimensions, b, d);
    assert forall b :: IsBase(dimensions, b, d) ==> b == p;
  }

  /** The dimensions that get a value once what they are based on has one. */
  ghost function Followers(dimensions: Dimensions, query: map<string, Json>): set<string> {
    set d | d in dimensions && (IsLocal(dimensions, d) || d in query)
  }

  /** Every dimension of the schema that has a value, with that value, and the local cohorts
      that have none. */
  ghost function Completed(dimensions: Dimensions, query: map<string, Json>, holds: Rule): map<string, Json>
    requires WellFormed(dimensions)
  {
    map d | d in dimensions && (StatusOf(dimensions, query, holds, d).Active? || IsLocal(dimensions, d)) ::
      if StatusOf(dimensions, query, holds, d).Active? then StatusOf(dimensions, query, holds, d).value
      else String(OTHERWISE)
  }

  // ---------- Where values come from ----------

  lemma {:induction false} WaitingIsStatus(dimensions: Dimensions, query: map<string, Json>, holds: Rule, d: string)
    requires WellFormed(dimensions) && d in dimensions
    ensures StatusOf(dimensions, query, holds, d).Waiting? <==> IsWaiting(dimensions, query, d)
    decreases LayersOf(Own(dimensions)).depth(d)
  {
    if !IsRegular(dimensions, d) {
      if p :| IsBase(dimensions, p, d) {
        StatusOfCohort(dimensions, query, holds, p, d);
        WaitingIsStatus(dimensions, query, holds, p);
        BaseDecides(dimensions, query, p, d);
      }
    }
  }

  /** What has a value lies at or below a start with a value, through followers. */
  lemma {:induction false} ActiveLiesBelowStart(dimensions: Dimensions, query: map<string, Json>, holds: Rule,
                                                d: string)
    returns (start: string)
    requires WellFormed(dimensions) && d in dimensions && StatusOf(dimensions, query, holds, d).Active?
    ensures IsStart(dimensions, query, start) && start in query
    ensures d == start || d in Below(Own(dimensions), Followers(dimensions, query), start)
    decreases LayersOf(Own(dimensions)).depth(d)
  {
    if IsRegular(dimensions, d) {
      start := d;
    } else {
      var p :| IsBase(dimensions, p, d);
      StatusOfCohort(dimensions, query, holds, p, d);
      WaitingIsStatus(dimensions, query, holds, p);
      if IsWaiting(dimensions, query, p) {
        start := d;
      } else {
        start := ActiveLiesBelowStart(dimensions, query, holds, p);
        ChildIsBelow(Own(dimensions), Followers(dimensions, query), start, p, d);
      }
    }
  }

  lemma StartHasItsValue(dimensions: Dimensions, query: map<string, Json>, holds: Rule, start: string)
    requires WellFormed(dimensions) && IsStart(dimensions, query, start) && start in query
    ensures StatusOf(dimensions, query, holds, start) == Active(query[start])
  {
    if !IsRegular(dimensions, start) {
      var p :| IsBase(dimensions, p, start) && IsWaiting(dimensions, query, p);
      StatusOfCohort(dimensions, query, holds, p, start);
      WaitingIsStatus(dimensions, query, holds, p);
    }
  }

  // ---------- Below one start ----------

  /** A cohort on the stack, what it is based on, and the value of that. */
  datatype Item = Item(cohort: string, base: string, value: Json)

  function ItemsOf(cohorts: seq<string>, base: string, value: Json): seq<Item> {
    seq(|cohorts|, i requires 0 <= i < |cohorts| => Item(cohorts[i], base, value))
  }

  ghost function PendingOf(items: seq<Item>): (pending: seq<Pending>)
    ensures |pending| == |items|
    ensures forall i :: 0 <= i < |items| ==> pending[i] == Pending(items[i].cohort, items[i].base)
  {
    seq(|items|, i requires 0 <= i < |items| => Pending(items[i].cohort, items[i].base))
  }

  lemma PendingAdvances(dimensions: Dimensions, stack: seq<Item>, value: Json)
    requires stack != [] && stack[|stack| - 1].cohort in dimensions
    ensures var c := stack[|stack| - 1].cohort;
            && PendingOf(stack[..|stack| - 1]) == PendingOf(stack)[..|stack| - 1]
            && PendingOf(stack[..|stack| - 1] + ItemsOf(Children(dimensions[c].dependencyGraph, c), c, value))
                 == Advanced(Own(dimensions), PendingOf(stack))
  {
  }

  /** What is on the stack stands beside the value of what it is based on. */
  ghost predicate ValuesBeside(dimensions: Dimensions, query: map<string, Json>, holds: Rule, stack: seq<Item>)
    requires WellFormed(dimensions)
  {
    forall i :: 0 <= i < |stack| ==>
      IsBase(dimensions, stack[i].base, stack[i].cohort) &&
      StatusOf(dimensions, query, holds, stack[i].base) == Active(stack[i].value)
  }

  /** The context holds what it held before, and the right values for `visited`. */
  ghost predicate Holding(dimensions: Dimensions, query: map<string, Json>, holds: Rule, before: map<string, Json>,
                          visited: set<string>, context: map<string, Json>)
    requires WellFormed(dimensions)
  {
    && visited <= dimensions.Keys
    && context.Keys == before.Keys + visited
    && (forall d :: d in visited ==> StatusOf(dimensions, query, holds, d) == Active(context[d]))
    && (forall d :: d in before && d !in visited ==> context[d] == before[d])
  }

  lemma ItemsValuesBeside(dimensions: Dimensions, query: map<string, Json>, holds: Rule, stack: seq<Item>,
                          c: string, value: Json)
    requires WellFormed(dimensions) && c in dimensions && StatusOf(dimensions, query, holds, c) == Active(value)
    requires ValuesBeside(dimensions, query, holds, stack)
    ensures ValuesBeside(dimensions, query, holds,
                         stack + ItemsOf(Children(dimensions[c].dependencyGraph, c), c, value))
  {
  }

  /** What holds between two turns of the traversal below a start. */
  ghost predicate Evaluating(dimensions: Dimensions, query: map<string, Json>, holds: Rule, start: string,
                             before: map<string, Json>, visited: set<string>, stack: seq<Item>,
                             context: map<string, Json>)
    requires WellFormed(dimensions)
  {
    && Traversing(Own(dimensions), Followers(dimensions, query), start, visited, PendingOf(stack))
    && ValuesBeside(dimensions, query, holds, stack)
    && Holding(dimensions, query, holds, before, visited, context)
  }

  /** The value that the next cohort gets, if any. */
  function Given(dimensions: Dimensions, query: map<string, Json>, holds: Rule, next: Item): Option<Json>
    requires next.cohort in dimensions
  {
    if dimensions[next.cohort].dimensionType.LocalCohort? then
      Some(String(CohortOf(next.base, next.value, dimensions[next.cohort].schema, holds)))
    else if next.cohort in query then Some(query[next.cohort])
    else None
  }

  lemma GivenIsStatus(dimensions: Dimensions, query: map<string, Json>, holds: Rule, stack: seq<Item>)
    requires WellFormed(dimensions) && ValuesBeside(dimensions, query, holds, stack) && stack != []
    ensures var next := stack[|stack| - 1];
            && next.cohort in dimensions
            && (Given(dimensions, query, holds, next).Some? <==> next.cohort in Followers(dimensions, query))
            && (Given(dimensions, query, holds, next).Some? ==>
                  StatusOf(dimensions, query, holds, next.cohort)
                    == Active(Given(dimensions, query, holds, next).value))
  {
    var next := stack[|stack| - 1];
    StatusOfCohort(dimensions, query, holds, next.base, next.cohort);
  }

  lemma EvaluatingStarts(dimensions: Dimensions, query: map<string, Json>, holds: Rule, start: string, value: Json,
                         context: map<string, Json>)
    requires WellFormed(dimensions) && start in dimensions
    requires StatusOf(dimensions, query, holds, start) == Active(value)
    ensures Evaluating(dimensions, query, holds, start, context, {},
                       ItemsOf(Children(dimensions[start].dependencyGraph, start), start, value), context)
  {
    var stack := ItemsOf(Children(dimensions[start].dependencyGraph, start), start, value);
    TraversalStarts(Own(dimensions), Followers(dimensions, query), start);
    assert PendingOf(stack) == Pushed(Own(dimensions), start);
    ItemsValuesBeside(dimensions, query, holds, [], start, value);
    assert [] + stack == stack;
  }

  lemma EvaluatingAdvances(dimensions: Dimensions, query: map<string, Json>, holds: Rule, start: string,
                           before: map<string, Json>, visited: set<string>, stack: seq<Item>,
                           context: map<string, Json>)
    requires WellFormed(dimensions) && stack != []
    requires Evaluating(dimensions, query, holds, start, before, visited, stack, context)
    requires stack[|stack| - 1].cohort in dimensions && Given(dimensions, query, holds, stack[|stack| - 1]).Some?
    ensures var c := stack[|stack| - 1].cohort;
            var value := Given(dimensions, query, holds, stack[|stack| - 1]).value;
            && c in Below(Own(dimensions), Followers(dimensions, query), start) && c !in visited
            && Evaluating(dimensions, query, holds, start, before, visited + {c},
                          stack[..|stack| - 1] + ItemsOf(Children(dimensions[c].dependencyGraph, c), c, value),
                          context[c := value])
  {
    var next := stack[|stack| - 1];
    var value := Given(dimensions, query, holds, next).value;
    GivenIsStatus(dimensions, query, holds, stack);
    TraversingAdvances(dimensions, query, start, visited, stack, value);
    HoldingAdvances(dimensions, query, holds, before, visited, context, next.cohort, value);
    ItemsValuesBeside(dimensions, query, holds, stack[..|stack| - 1], next.cohort, value);
  }

  lemma TraversingAdvances(dimensions: Dimensions, query: map<string, Json>, start: string,
                           visited: set<string>, stack: seq<Item>, value: Json)
    requires WellFormed(dimensions) && stack != [] && stack[|stack| - 1].cohort in dimensions
    requires Traversing(Own(dimensions), Followers(dimensions, query), start, visited, PendingOf(stack))
    requires stack[|stack| - 1].cohort in Followers(dimensions, query)
    ensures var c := stack[|stack| - 1].cohort;
            && c in Below(Own(dimensions), Followers(dimensions, query), start) && c !in visited
            && Traversing(Own(dimensions), Followers(dimensions, query), start, visited + {c},
                 PendingOf(stack[..|stack| - 1] + ItemsOf(Children(dimensions[c].dependencyGraph, c), c, value)))
  {
    PendingAdvances(dimensions, stack, value);
    NextIsNew(Own(dimensions), Followers(dimensions, query), start, visited, PendingOf(stack));
    PopLive(Own(dimensions), Followers(dimensions, query), start, visited, PendingOf(stack));
  }

  lemma HoldingAdvances(dimensions: Dimensions, query: map<string, Json>, holds: Rule, before: map<string, Json>,
                        visited: set<string>, context: map<string, Json>, c: string, value: Json)
    requires WellFormed(dimensions) && Holding(dimensions, query, holds, before, visited, context)
    requires c in dimensions && StatusOf(dimensions, query, holds, c) == Active(value)
    ensures Holding(dimensions, query, holds, before, visited + {c}, context[c := value])
  {
  }

  lemma EvaluatingSkips(dimensions: Dimensions, query: map<string, Json>, holds: Rule, start: string,
                        before: map<string, Json>, visited: set<string>, stack: seq<Item>, context: map<string, Json>)
    requires WellFormed(dimensions) && stack != []
    requires Evaluating(dimensions, query, holds, start, before, visited, stack, context)
    requires stack[|stack| - 1].cohort in dimensions && Given(dimensions, query, holds, stack[|stack| - 1]).None?
    ensures Evaluating(dimensions, query, holds, start, before, visited, stack[..|stack| - 1], context)
  {
    GivenIsStatus(dimensions, query, holds, stack);
    PendingAdvances(dimensions, stack, Null);
    PopDead(Own(dimensions), Followers(dimensions, query), start, visited, PendingOf(stack));
  }

  /** The depth-first traversal below a start with a value: exactly the followers below it are
      given values, and each the one it is worth. */
  method EvaluateBelow(start: string, value: Json, dimensions: Dimensions, context: map<string, Json>,
                       query: map<string, Json>, holds: Rule)
    returns (modified: map<string, Json>)
    requires WellFormed(dimensions) && start in dimensions
    requires StatusOf(dimensions, query, holds, start) == Active(value)
    ensures Holding(dimensions, query, holds, context,
                    Below(Own(dimensions), Followers(dimensions, query), start), modified)
  {
    ghost var visited: set<string> := {};
    modified := context;
    var stack := ItemsOf(Children(dimensions[start].dependencyGraph, start), start, value);
    EvaluatingStarts(dimensions, query, holds, start, value, context);
    while stack != []
      invariant Evaluating(dimensions, query, holds, start, context, visited, stack, modified)
      decreases Below(Own(dimensions), Followers(dimensions, query), start) - visited, |stack|
    {
      var next := stack[|stack| - 1];
      GivenIsStatus(dimensions, query, holds, stack);
      var given: Option<Json> := None;
      if dimensions[next.cohort].dimensionType.LocalCohort? {
        given := Some(String(CohortOf(next.base, next.value, dimensions[next.cohort].schema, holds)));
      } else if next.cohort in query {
        given := Some(query[next.cohort]);
      }
      if given.Some? {
        EvaluatingAdvances(dimensions, query, holds, start, context, visited, stack, modified);
        modified := modified[next.cohort := given.value];
        visited := visited + {next.cohort};
        stack := stack[..|stack| - 1] +
          ItemsOf(Children(dimensions[next.cohort].dependencyGraph, next.cohort), next.cohort, given.value);
      } else {
        EvaluatingSkips(dimensions, query, holds, start, context, visited, stack, modified);
        stack := stack[..|stack| - 1];
      }
    }
    assert PendingOf(stack) == [];
    TraversalEnds(Own(dimensions), Followers(dimensions, query), start, visited);
  }

  // ---------- The whole evaluation ----------

  ghost predicate RightValues(dimensions: Dimensions, query: map<string, Json>, holds: Rule, context: map<string, Json>)
    requires WellFormed(dimensions)
  {
    forall d :: d in context ==> d in dimensions && StatusOf(dimensions, query, holds, d) == Active(context[d])
  }

  /** The start and everything that follows it has been given a value. */
  ghost predicate StartDone(dimensions: Dimensions, query: map<string, Json>, start: string, context: map<string, Json>)
    requires WellFormed(dimensions)
  {
    start in context && Below(Own(dimensions), Followers(dimensions, query), start) <= context.Keys
  }

  lemma AllActiveHaveValues(dimensions: Dimensions, query: map<string, Json>, holds: Rule, context: map<string, Json>)
    requires WellFormed(dimensions) && RightValues(dimensions, query, holds, context)
    requires forall s :: IsStart(dimensions, query, s) && s in query ==> StartDone(dimensions, query, s, context)
    ensures forall d :: d in context <==> d in dimensions && StatusOf(dimensions, query, holds, d).Active?
  {
    forall d | d in dimensions && StatusOf(dimensions, query, holds, d).Active? ensures d in context {
      var start := ActiveLiesBelowStart(dimensions, query, holds, d);
      assert StartDone(dimensions, query, start, context);
    }
  }

  lemma BelowOneStart(dimensions: Dimensions, query: map<string, Json>, holds: Rule, start: string,
                      before: map<string, Json>, after: map<string, Json>)
    requires WellFormed(dimensions) && RightValues(dimensions, query, holds, before) && start in before
    requires Holding(dimensions, query, holds, before,
                     Below(Own(dimensions), Followers(dimensions, query), start), after)
    ensures RightValues(dimensions, query, holds, after) && StartDone(dimensions, query, start, after)
    ensures forall s :: StartDone(dimensions, query, s, before) ==> StartDone(dimensions, query, s, after)
  {
  }

  /** From every start that the request gives a value, and below it. */
  method EvaluateFromStarts(dimensions: Dimensions, query: map<string, Json>, holds: Rule)
    returns (context: map<string, Json>)
    requires WellFormed(dimensions)
    ensures RightValues(dimensions, query, holds, context)
    ensures forall d :: d in context <==> d in dimensions && StatusOf(dimensions, query, holds, d).Active?
  {
    var starts := DimensionsToStartFrom(dimensions, query);
    context := map[];
    ghost var done: set<string> := {};
    for i := 0 to |starts|
      invariant RightValues(dimensions, query, holds, context)
      invariant forall s :: s in done && s in query ==> StartDone(dimensions, query, s, context)
      invariant forall j :: 0 <= j < i ==> starts[j] in done
    {
      assert starts[i] in starts;
      done := done + {starts[i]};
      if starts[i] in query && starts[i] in dimensions {
        context := EvaluateOneStart(starts[i], dimensions, query, holds, context);
      }
    }
    AllActiveHaveValues(dimensions, query, holds, context);
  }

  method EvaluateOneStart(start: string, dimensions: Dimensions, query: map<string, Json>, holds: Rule,
                          context: map<string, Json>)
    returns (after: map<string, Json>)
    requires WellFormed(dimensions) && RightValues(dimensions, query, holds, context)
    requires IsStart(dimensions, query, start) && start in query
    ensures RightValues(dimensions, query, holds, after) && StartDone(dimensions, query, start, after)
    ensures forall s :: StartDone(dimensions, query, s, context) ==> StartDone(dimensions, query, s, after)
  {
    StartHasItsValue(dimensions, query, holds, start);
    var begun := context[start := query[start]];
    after := EvaluateBelow(start, query[start], dimensions, begun, query, holds);
    BelowOneStart(dimensions, query, holds, start, begun, after);
    forall s | StartDone(dimensions, query, s, context) ensures StartDone(dimensions, query, s, begun) {
    }
  }

  /** Sets every local cohort still without a value to "otherwise". */
  method FillOtherwise(dimensions: Dimensions, context: map<string, Json>) returns (filled: map<string, Json>)
    ensures filled.Keys == context.Keys + set d | d in dimensions && IsLocal(dimensions, d)
    ensures forall d :: d in filled ==> filled[d] == if d in context then context[d] else String(OTHERWISE)
  {
    filled := context;
    var remaining := dimensions.Keys;
    while remaining != {}
      invariant remaining <= dimensions.Keys
      invariant filled.Keys == context.Keys + set d | d in dimensions && d !in remaining && IsLocal(dimensions, d)
      invariant forall d :: d in filled ==> filled[d] == if d in context then context[d] else String(OTHERWISE)
    {
      var d :| d in remaining;
      if dimensions[d].dimensionType.LocalCohort? && d !in filled {
        filled := filled[d := String(OTHERWISE)];
      }
      remaining := remaining - {d};
    }
  }

  /** The whole evaluation. Its outcome depends neither on the order of the starts nor on that
      of the cohorts: it is what each dimension is worth, with every local cohort left over set
      to "otherwise". Without any dimensions the request is returned as it is. */
  method EvaluateLocalCohorts(dimensions: Dimensions, query: map<string, Json>, holds: Rule)
    returns (completed: map<string, Json>)
    requires WellFormed(dimensions)
    ensures completed == if dimensions == map[] then query else Completed(dimensions, query, holds)
  {
    if dimensions == map[] {
      return query;
    }
    var context := EvaluateFromStarts(dimensions, query, holds);
    completed := FillOtherwise(dimensions, context);
    assert completed == Completed(dimensions, query, holds);
  }
}
