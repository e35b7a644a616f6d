/** Resolving a TOML configuration: the overrides whose expression holds are applied in the
    order of their priorities. */
module TomlResolver {
  import opened Sequences
  import opened Wrappers
  import opened TomlExpressions
  import opened TomlComparisons

  type Entries = map<string, Value>

  /** One entry of the context table: an expression and what it overrides. */
  datatype ContextEntry = ContextEntry(expression: Expression, overrides: Value)

  datatype ContextAwareConfig = ContextAwareConfig(
    dimensionPriority: map<string, int>,
    defaultConfig: Entries,
    contexts: seq<ContextEntry>)

  // ---------- Priorities ----------

  /** The dimensions count upwards from one in the order of their declaration. */
  method DeclareDimensions(names: seq<string>) returns (priority: map<string, int>)
    requires forall i, j :: 0 <= i < j < |names| ==> names[i] != names[j]
    ensures priority.Keys == set name | name in names
    ensures forall i :: 0 <= i < |names| ==> priority[names[i]] == i + 1
  {
    priority := map[];
    for i := 0 to |names|
      invariant priority.Keys == set name | name in names[..i]
      invariant forall j :: 0 <= j < i ==> names[j] in priority && priority[names[j]] == j + 1
    {
      assert names[..i + 1] == names[..i] + [names[i]];
      priority := priority[names[i] := i + 1];
    }
    assert names[..|names|] == names;
  }

  ghost predicate AllDeclared(dimensions: seq<string>, allowed: map<string, int>) {
    forall d :: d in dimensions ==> d in allowed
  }

  function PrioritySum(dimensions: seq<string>, allowed: map<string, int>): int {
    if dimensions == [] then 0
    else
      var last := dimensions[|dimensions| - 1];
      PrioritySum(dimensions[..|dimensions| - 1], allowed) + if last in allowed then allowed[last] else 0
  }

  /** Adds up the priorities; an undeclared dimension is a panic. */
  method ComputePriority(dimensions: seq<string>, allowed: map<string, int>) returns (priority: Option<int>)
    ensures priority.Some? <==> AllDeclared(dimensions, allowed)
    ensures priority.Some? ==> priority.value == PrioritySum(dimensions, allowed)
  {
    var sum := 0;
    for i := 0 to |dimensions|
      invariant AllDeclared(dimensions[..i], allowed)
      invariant sum == PrioritySum(dimensions[..i], allowed)
    {
      assert dimensions[..i + 1][..i] == dimensions[..i];
      assert dimensions[..i + 1] == dimensions[..i] + [dimensions[i]];
      if dimensions[i] !in allowed {
        return None;
      }
      sum := sum + allowed[dimensions[i]];
    }
    assert dimensions[..|dimensions|] == dimensions;
    return Some(sum);
  }

  /** The priority of an entry: that of its expression, whatever the request. */
  function Priority(config: ContextAwareConfig, i: nat): int
    requires i < |config.contexts|
  {
    PrioritySum(Dimensions(config.contexts[i].expression), config.dimensionPriority)
  }

  /** Priorities add up along a list, each occurrence of a dimension counting. */
  lemma {:induction false} PrioritiesAdd(dimensions: seq<string>, more: seq<string>, allowed: map<string, int>)
    requires AllDeclared(dimensions + more, allowed)
    ensures PrioritySum([], allowed) == 0
    ensures forall d :: d in allowed ==> PrioritySum([d], allowed) == allowed[d]
    ensures PrioritySum(dimensions + more, allowed) == PrioritySum(dimensions, allowed) + PrioritySum(more, allowed)
  {
    forall d | d in allowed ensures PrioritySum([d], allowed) == allowed[d] {
      assert [d][..0] == [];
    }
    if more == [] {
      assert dimensions + more == dimensions;
    } else {
      var init, last := more[..|more| - 1], more[|more| - 1];
      assert dimensions + more == dimensions + init + [last];
      SnocParts(dimensions + init, last);
      assert forall d :: d in dimensions + init ==> d in dimensions + more;
      PrioritiesAdd(dimensions, init, allowed);
    }
  }

  /** The priority of one comparison is that of the dimensions on its sides. */
  lemma SinglePriority(comparison: Comparison, allowed: map<string, int>)
    requires AllDeclared(Dimensions(Single(comparison)), allowed)
    ensures PrioritySum(Dimensions(Single(comparison)), allowed)
         == (if comparison.left.Dimension? then allowed[comparison.left.name] else 0)
            + (if comparison.right.Dimension? then allowed[comparison.right.name] else 0)
  {
    SingleDimensions(comparison);
    var left := if comparison.left.Dimension? then [comparison.left.name] else [];
    var right := if comparison.right.Dimension? then [comparison.right.name] else [];
    forall d | d in left + right ensures d in Dimensions(Single(comparison)) {
    }
    PrioritiesAdd(left, right, allowed);
  }

  /** Joining one more comparison by "and" adds its priority. */
  lemma AndAddsPriorities(conjunction: Conjunction, comparison: Comparison, allowed: map<string, int>)
    requires AllDeclared(Dimensions(Expression(Conjunction(conjunction.first, conjunction.rest + [comparison]), [])),
                         allowed)
    ensures PrioritySum(Dimensions(Expression(Conjunction(conjunction.first, conjunction.rest + [comparison]), [])),
                        allowed)
         == PrioritySum(Dimensions(Expression(conjunction, [])), allowed)
            + PrioritySum(Dimensions(Single(comparison)), allowed)
  {
    AndAddsDimensions(conjunction, comparison);
    PrioritiesAdd(Dimensions(Expression(conjunction, [])), Dimensions(Single(comparison)), allowed);
  }

  /** Joining one more conjunction by "or" adds its priority too. */
  lemma OrAddsPriorities(expression: Expression, conjunction: Conjunction, allowed: map<string, int>)
    requires AllDeclared(Dimensions(Expression(expression.first, expression.rest + [conjunction])), allowed)
    ensures PrioritySum(Dimensions(Expression(expression.first, expression.rest + [conjunction])), allowed)
         == PrioritySum(Dimensions(expression), allowed)
            + PrioritySum(Dimensions(Expression(conjunction, [])), allowed)
  {
    OrAddsDimensions(expression, conjunction);
    PrioritiesAdd(Dimensions(expression), Dimensions(Expression(conjunction, [])), allowed);
  }

  // ---------- Who wins ----------

  /** The members of a table; other values have none. */
  function MembersOf(value: Value): Entries {
    if value.Table? then value.entries else map[]
  }

  ghost predicate Chosen(config: ContextAwareConfig, request: Request, i: int) {
    0 <= i < |config.contexts| && ExpressionTrue(config.contexts[i].expression, request)
  }

  /** The entry holds and sets the key. */
  ghost predicate Sets(config: ContextAwareConfig, request: Request, i: int, key: string) {
    Chosen(config, request, i) && key in MembersOf(config.contexts[i].overrides)
  }

  /** That is: its overrides are a table with the key, and all comparisons of some conjunction of
      its expression are true. */
  lemma SetsMeaning(config: ContextAwareConfig, request: Request, i: nat, key: string)
    requires i < |config.contexts|
    ensures var entry := config.contexts[i];
            Sets(config, request, i, key) <==>
              && entry.overrides.Table? && key in entry.overrides.entries
              && SomeAllTrue(entry.expression, request)
    ensures Sets(config, request, i, key) ==>
      MembersOf(config.contexts[i].overrides)[key] == config.contexts[i].overrides.entries[key]
  {
    ExpressionMeaning(config.contexts[i].expression, request);
  }

  /** No entry that holds and sets the key has a higher priority than this one. */
  ghost predicate Tops(config: ContextAwareConfig, request: Request, i: int, key: string) {
    Sets(config, request, i, key) &&
    forall j :: Sets(config, request, j, key) ==> Priority(config, j) <= Priority(config, i)
  }

  /** Every expression has a value, and those that hold mention declared dimensions only. */
  ghost predicate NoPanic(config: ContextAwareConfig, request: Request) {
    forall i :: 0 <= i < |config.contexts| ==>
      ExpressionDefined(config.contexts[i].expression, request) &&
      (ExpressionTrue(config.contexts[i].expression, request) ==>
         AllDeclared(Dimensions(config.contexts[i].expression), config.dimensionPriority))
  }

  /** That is: every comparison can be made, and wherever all comparisons of some conjunction are
      true, the expression mentions declared dimensions only. */
  lemma NoPanicMeaning(config: ContextAwareConfig, request: Request)
    ensures NoPanic(config, request) <==>
      forall i :: 0 <= i < |config.contexts| ==>
        EntryIsFine(config.contexts[i].expression, request, config.dimensionPriority.Keys)
  {
    forall i | 0 <= i < |config.contexts| {
      EntryMeaning(config.contexts[i].expression, request, config.dimensionPriority);
    }
  }

  ghost predicate EntryIsFine(expression: Expression, request: Request, declared: set<string>) {
    && (forall k, c :: Within(expression, k, c) ==> Defined(c, request))
    && (SomeAllTrue(expression, request) ==> forall name :: MentionedIn(expression, name) ==> name in declared)
  }

  lemma EntryMeaning(expression: Expression, request: Request, priority: map<string, int>)
    ensures EntryIsFine(expression, request, priority.Keys) <==>
      ExpressionDefined(expression, request)
      && (ExpressionTrue(expression, request) ==> AllDeclared(Dimensions(expression), priority))
  {
    ExpressionMeaning(expression, request);
    forall name ensures name in Dimensions(expression) <==> MentionedIn(expression, name) {
      DimensionsAreMentioned(expression, name);
    }
  }

  // ---------- The heap ----------

  /** An override in the heap, known by its place in the context table. */
  datatype ContextualOverride = ContextualOverride(place: nat, priority: int, overrides: Value)

  /** The order of the heap: the priorities are compared the other way round. */
  function Compare(item: ContextualOverride, other: ContextualOverride): Ordering {
    OrderInts(other.priority, item.priority)
  }

  ghost predicate Greatest(heap: set<ContextualOverride>, item: ContextualOverride) {
    item in heap && forall other :: other in heap ==> Compare(other, item) != Above
  }

  /** What is greatest in the reversed order has the lowest priority. */
  lemma GreatestIsLowest(heap: set<ContextualOverride>, item: ContextualOverride)
    requires item in heap
    ensures Greatest(heap, item) <==> forall other :: other in heap ==> item.priority <= other.priority
  {
    forall other | other in heap
      ensures Compare(other, item) != Above <==> item.priority <= other.priority
    {
    }
  }

  /** Takes a greatest item off the heap, whichever of several. */
  method Pop(heap: set<ContextualOverride>) returns (item: ContextualOverride, rest: set<ContextualOverride>)
    requires heap != {}
    ensures Greatest(heap, item) && rest == heap - {item}
  {
    item :| item in heap;
    var remaining := heap - {item};
    while remaining != {}
      invariant remaining <= heap && item in heap
      invariant forall other :: other in heap && other !in remaining ==> Compare(other, item) != Above
    {
      var other :| other in remaining;
      if Compare(other, item) == Above {
        item := other;
      }
      remaining := remaining - {other};
    }
    rest := heap - {item};
  }

  ghost function Pushed(config: ContextAwareConfig, request: Request, n: nat): set<ContextualOverride>
    requires n <= |config.contexts|
  {
    set i | 0 <= i < n && Chosen(config, request, i) ::
      ContextualOverride(i, Priority(config, i), config.contexts[i].overrides)
  }

  lemma PushedOneMore(config: ContextAwareConfig, request: Request, i: nat)
    requires i < |config.contexts|
    ensures Pushed(config, request, i + 1) == Pushed(config, request, i) +
      if Chosen(config, request, i)
      then {ContextualOverride(i, Priority(config, i), config.contexts[i].overrides)} else {}
  {
  }

  /** Evaluates every expression and pushes the overrides of those that hold. */
  method Choose(config: ContextAwareConfig, request: Request) returns (heap: Option<set<ContextualOverride>>)
    ensures heap.Some? <==> NoPanic(config, request)
    ensures heap.Some? ==> heap.value == Pushed(config, request, |config.contexts|)
  {
    var pushed: set<ContextualOverride> := {};
    for i := 0 to |config.contexts|
      invariant forall j :: 0 <= j < i ==>
        ExpressionDefined(config.contexts[j].expression, request) &&
        (ExpressionTrue(config.contexts[j].expression, request) ==>
           AllDeclared(Dimensions(config.contexts[j].expression), config.dimensionPriority))
      invariant pushed == Pushed(config, request, i)
    {
      var extraction := new Extraction();
      var value := EvaluateOr(config.contexts[i].expression, request, extraction);
      if value.None? {
        return None;
      }
      assert extraction.dimensions == Dimensions(config.contexts[i].expression);
      if value.value == Boolean(true) {
        var priority := ComputePriority(extraction.dimensions, config.dimensionPriority);
        if priority.None? {
          return None;
        }
        pushed := pushed + {ContextualOverride(i, priority.value, config.contexts[i].overrides)};
      }
      PushedOneMore(config, request, i);
    }
    return Some(pushed);
  }

  /** Among the popped items, the value of the key comes from one of highest priority. */
  ghost predicate Settled(popped: set<ContextualOverride>, default: Value, value: Value, key: string) {
    if forall item :: item in popped ==> key !in MembersOf(item.overrides) then value == default
    else
      exists item ::
        && item in popped && key in MembersOf(item.overrides) && value == MembersOf(item.overrides)[key]
        && forall other :: other in popped && key in MembersOf(other.overrides) ==> other.priority <= item.priority
  }

  /** Popping an item of at least the priorities popped so far settles the key by it. */
  lemma SettleOneMore(popped: set<ContextualOverride>, item: ContextualOverride, default: Value, value: Value,
                      key: string)
    requires forall other :: other in popped ==> other.priority <= item.priority
    requires Settled(popped, default, value, key)
    ensures Settled(popped + {item}, default,
                    if key in MembersOf(item.overrides) then MembersOf(item.overrides)[key] else value, key)
  {
    var more := popped + {item};
    if key in MembersOf(item.overrides) {
      assert item in more;
    } else if forall other :: other in popped ==> key !in MembersOf(other.overrides) {
      assert forall other :: other in more ==> key !in MembersOf(other.overrides);
    } else {
      var top :| top in popped && key in MembersOf(top.overrides) && value == MembersOf(top.overrides)[key]
              && forall other :: other in popped && key in MembersOf(other.overrides) ==>
                other.priority <= top.priority;
      assert top in more;
    }
  }

  /** Empties the heap, overwriting the defaults by each item in turn. */
  method Drain(defaults: Entries, chosen: set<ContextualOverride>) returns (merged: Entries)
    ensures merged.Keys == defaults.Keys
    ensures forall key :: key in defaults ==> Settled(chosen, defaults[key], merged[key], key)
  {
    merged := defaults;
    var heap := chosen;
    ghost var popped: set<ContextualOverride> := {};
    while heap != {}
      invariant chosen == popped + heap && popped !! heap
      invariant forall one, other :: one in popped && other in heap ==> one.priority <= other.priority
      invariant merged.Keys == defaults.Keys
      invariant forall key :: key in defaults ==> Settled(popped, defaults[key], merged[key], key)
      decreases heap
    {
      var item, rest := Pop(heap);
      GreatestIsLowest(heap, item);
      var overwritten := Overwrite(merged, defaults, item);
      forall key | key in defaults
        ensures Settled(popped + {item}, defaults[key], overwritten[key], key)
      {
        SettleOneMore(popped, item, defaults[key], merged[key], key);
      }
      merged, heap, popped := overwritten, rest, popped + {item};
    }
    assert popped == chosen;
  }

  /** Inserts what the item sets, for the keys that have a default. */
  method Overwrite(merged: Entries, defaults: Entries, item: ContextualOverride) returns (overwritten: Entries)
    requires merged.Keys == defaults.Keys
    ensures overwritten.Keys == defaults.Keys
    ensures forall key :: key in defaults ==>
      overwritten[key] == if key in MembersOf(item.overrides) then MembersOf(item.overrides)[key] else merged[key]
  {
    overwritten := merged;
    var remaining := defaults.Keys;
    while remaining != {}
      invariant remaining <= defaults.Keys && overwritten.Keys == defaults.Keys
      invariant forall key :: key in defaults ==>
        overwritten[key] ==
          if key !in remaining && key in MembersOf(item.overrides) then MembersOf(item.overrides)[key] else merged[key]
    {
      var key :| key in remaining;
      if key in MembersOf(item.overrides) {
        overwritten := overwritten[key := MembersOf(item.overrides)[key]];
      }
      remaining := remaining - {key};
    }
  }

  lemma PushedItems(config: ContextAwareConfig, request: Request)
    ensures var pushed := Pushed(config, request, |config.contexts|);
            && (forall i :: Chosen(config, request, i) ==>
                  ContextualOverride(i, Priority(config, i), config.contexts[i].overrides) in pushed)
            && (forall item :: item in pushed ==>
                  && Chosen(config, request, item.place) && item.priority == Priority(config, item.place)
                  && item.overrides == config.contexts[item.place].overrides)
  {
  }

  /** What settling by the chosen overrides means for the entries of the context table. */
  lemma SettledByEntries(config: ContextAwareConfig, request: Request, value: Value, key: string)
    requires key in config.defaultConfig
    requires Settled(Pushed(config, request, |config.contexts|), config.defaultConfig[key], value, key)
    ensures (forall i :: !Sets(config, request, i, key)) ==> value == config.defaultConfig[key]
    ensures (exists i :: Sets(config, request, i, key)) ==>
      exists i :: Tops(config, request, i, key) && value == MembersOf(config.contexts[i].overrides)[key]
  {
    var pushed := Pushed(config, request, |config.contexts|);
    PushedItems(config, request);
    if forall item :: item in pushed ==> key !in MembersOf(item.overrides) {
      forall i ensures !Sets(config, request, i, key) {
        if Chosen(config, request, i) {
          assert ContextualOverride(i, Priority(config, i), config.contexts[i].overrides) in pushed;
        }
      }
    } else {
      var item :| item in pushed && key in MembersOf(item.overrides) && value == MembersOf(item.overrides)[key]
               && forall other :: other in pushed && key in MembersOf(other.overrides) ==>
                 other.priority <= item.priority;
      assert Sets(config, request, item.place, key);
      forall j | Sets(config, request, j, key)
        ensures Priority(config, j) <= Priority(config, item.place)
      {
        var other := ContextualOverride(j, Priority(config, j), config.contexts[j].overrides);
        assert other in pushed;
      }
      assert Tops(config, request, item.place, key);
    }
  }

  /** Resolution: a default key that no holding entry sets keeps its default, any other takes
      the value of a holding entry of the highest priority among those that set it. It panics
      exactly when an expression has no value or one that holds mentions an undeclared
      dimension. */
  method GetResolvedConfig(config: ContextAwareConfig, request: Request) returns (resolved: Option<Entries>)
    ensures resolved.Some? <==> NoPanic(config, request)
    ensures resolved.Some? ==> resolved.value.Keys == config.defaultConfig.Keys
    ensures resolved.Some? ==> forall key :: key in config.defaultConfig ==>
      && ((forall i :: !Sets(config, request, i, key)) ==> resolved.value[key] == config.defaultConfig[key])
      && ((exists i :: Sets(config, request, i, key)) ==>
            exists i :: Tops(config, request, i, key)
                     && resolved.value[key] == MembersOf(config.contexts[i].overrides)[key])
  {
    var heap := Choose(config, request);
    if heap.None? {
      return None;
    }
    var merged := Drain(config.defaultConfig, heap.value);
    forall key | key in config.defaultConfig {
      SettledByEntries(config, request, merged[key], key);
    }
    return Some(merged);
  }
}
