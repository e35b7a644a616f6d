/** Resolving a configuration for a request. */
module Resolution {
  import opened Wrappers
  import opened JsonValues
  import opened JsonMerge
  import opened MergeFolding
  import opened Matching
  import opened Configuration
  import opened Sequences

  datatype MergeStrategy = REPLACE | MERGE

  // ---------- What resolving means, key by key ----------

  /** The contexts that apply to the request and name an existing override, in order. */
  function Selected(contexts: seq<Context>, overrides: Overrides, given: map<string, Json>): seq<Context> {
    if contexts == [] then []
    else
      var last := contexts[|contexts| - 1];
      Selected(contexts[..|contexts| - 1], overrides, given) +
      if Applies(last.condition, given) && last.overrideKey in overrides then [last] else []
  }

  /** The overrides of the selected contexts, as the object patches they are applied as. */
  function Patches(contexts: seq<Context>, overrides: Overrides, given: map<string, Json>): (patches: seq<Json>)
    ensures AllObjects(patches)
  {
    if contexts == [] then []
    else
      var last := contexts[|contexts| - 1];
      Patches(contexts[..|contexts| - 1], overrides, given) +
      if Applies(last.condition, given) && last.overrideKey in overrides
      then [Object(overrides[last.overrideKey])] else []
  }

  /** One value out of the values that the overrides give to a key: the last one, or all of
      them merged in turn. */
  function Combined(strategy: MergeStrategy, values: seq<Json>): Json
    requires values != []
  {
    match strategy
    case REPLACE => values[|values| - 1]
    case MERGE => MergeAll(Null, values)
  }

  /** The value of a key with this default, given the values its overrides set. */
  function Outcome(strategy: MergeStrategy, default: Json, values: seq<Json>): Json {
    if values == [] then default
    else
      match strategy
      case REPLACE => Combined(REPLACE, values)
      case MERGE => Merge(default, Combined(MERGE, values))
  }

  /** The resolved configuration: every default key with its outcome, and no other key. */
  function Resolve(config: Config, query: map<string, Json>, strategy: MergeStrategy, expand: Expansion)
    : map<string, Json>
  {
    var patches := Patches(config.contexts, config.overrides, expand(config.dimensions, query));
    map key | key in config.defaultConfigs :: Outcome(strategy, config.defaultConfigs[key], At(patches, key))
  }

  // ---------- How the program resolves ----------

  method ReplaceTopLevel(doc: map<string, Json>, patch: Json) returns (patched: map<string, Json>, overridden: bool)
    ensures patch.Object? ==> overridden && patched == doc + patch.members
    ensures !patch.Object? ==> !overridden && patched == doc
  {
    patched := doc;
    if !patch.Object? {
      return patched, false;
    }
    var remaining := patch.members.Keys;
    while remaining != {}
      invariant remaining <= patch.members.Keys
      invariant patched == doc + map key | key in patch.members && key !in remaining :: patch.members[key]
    {
      var key :| key in remaining;
      patched := patched[key := patch.members[key]];
      remaining := remaining - {key};
    }
    assert patch.members == map key | key in patch.members && key !in remaining :: patch.members[key];
    overridden := true;
  }

  /** What the accumulator holds after these patches. */
  ghost function Accumulated(strategy: MergeStrategy, patches: seq<Json>): map<string, Json>
    requires AllObjects(patches)
  {
    if patches == [] then map[]
    else
      var n := |patches| - 1;
      var before := Accumulated(strategy, patches[..n]);
      match strategy
      case REPLACE => before + patches[n].members
      case MERGE => Merge(Object(before), patches[n]).members
  }

  /** The accumulator holds exactly the keys that some patch sets, each with the combined
      value of the patches that set it. */
  lemma {:induction false} AccumulatedMember(strategy: MergeStrategy, patches: seq<Json>, key: string)
    requires AllObjects(patches)
    ensures key in Accumulated(strategy, patches) <==> At(patches, key) != []
    ensures key in Accumulated(strategy, patches) ==>
      Accumulated(strategy, patches)[key] == Combined(strategy, At(patches, key))
  {
    if patches != [] {
      var n := |patches| - 1;
      AccumulatedMember(strategy, patches[..n], key);
      var values := At(patches, key);
      assert strategy == MERGE ==>
        MemberOrNull(Object(Accumulated(strategy, patches[..n])), key) == MergeAll(Null, At(patches[..n], key));
      if key in patches[n].members {
        assert values[|values| - 1] == patches[n].members[key];
        assert values[..|values| - 1] == At(patches[..n], key);
      } else {
        assert values == At(patches[..n], key);
      }
    }
  }

  lemma AccumulatedSnoc(strategy: MergeStrategy, patches: seq<Json>, patch: Json)
    requires AllObjects(patches) && patch.Object?
    ensures Accumulated(strategy, patches + [patch]) ==
      match strategy
      case REPLACE => Accumulated(strategy, patches) + patch.members
      case MERGE => Merge(Object(Accumulated(strategy, patches)), patch).members
  {
    assert (patches + [patch])[..|patches|] == patches;
  }

  /** Gathers the overrides of the contexts that apply, in the order of the contexts, and
      reports each context whose override was used. */
  method GetOverrides(given: map<string, Json>, contexts: seq<Context>, overrides: Overrides, strategy: MergeStrategy)
    returns (gathered: Result<map<string, Json>>, reported: seq<Context>)
    ensures gathered == Success(Accumulated(strategy, Patches(contexts, overrides, given)))
    ensures reported == Selected(contexts, overrides, given)
  {
    var required := Object(map[]);
    reported := [];
    for i := 0 to |contexts|
      invariant required == Object(Accumulated(strategy, Patches(contexts[..i], overrides, given)))
      invariant reported == Selected(contexts[..i], overrides, given)
    {
      ghost var before := Patches(contexts[..i], overrides, given);
      assert contexts[..i + 1][..i] == contexts[..i];
      var applies := ApplyLogic(contexts[i].condition, given, false);
      var id := contexts[i].overrideKey;
      if applies && id in overrides {
        var patch := Object(overrides[id]);
        AccumulatedSnoc(strategy, before, patch);
        match strategy {
          case REPLACE =>
            var replaced, overridden := ReplaceTopLevel(required.members, patch);
            required := Object(replaced);
            if overridden {
              reported := reported + [contexts[i]];
            }
          case MERGE =>
            required := MergeInPlace(required, patch);
            reported := reported + [contexts[i]];
        }
      } else {
        assert before + [] == before;
      }
    }
    assert contexts[..|contexts|] == contexts;
    gathered := if required.Object? then Success(required.members) else Failure("Failed to create overrides map");
  }

  /** Puts the gathered overrides onto the defaults; keys without a default are ignored. */
  method MergeOverridesOnDefaults(defaults: map<string, Json>, overrides: map<string, Json>, strategy: MergeStrategy)
    returns (resolved: map<string, Json>)
    ensures resolved.Keys == defaults.Keys
    ensures forall key :: key in defaults ==>
      resolved[key] ==
        if key !in overrides then defaults[key]
        else if strategy == REPLACE then overrides[key]
        else Merge(defaults[key], overrides[key])
  {
    resolved := defaults;
    var remaining := overrides.Keys;
    while remaining != {}
      invariant remaining <= overrides.Keys
      invariant resolved.Keys == defaults.Keys
      invariant forall key :: key in defaults ==>
        resolved[key] ==
          if key !in overrides || key in remaining then defaults[key]
          else if strategy == REPLACE then overrides[key]
          else Merge(defaults[key], overrides[key])
    {
      var key :| key in remaining;
      if key in resolved {
        match strategy {
          case REPLACE =>
            resolved := resolved[key := overrides[key]];
          case MERGE =>
            var value := MergeInPlace(resolved[key], overrides[key]);
            resolved := resolved[key := value];
        }
      }
      remaining := remaining - {key};
    }
  }

  /** Resolution proper: expand the request, gather, put onto the defaults. */
  method Evaluate(config: Config, query: map<string, Json>, strategy: MergeStrategy, expand: Expansion)
    returns (resolved: Result<map<string, Json>>, reported: seq<Context>)
    ensures resolved == Success(Resolve(config, query, strategy, expand))
    ensures reported == Selected(config.contexts, config.overrides, expand(config.dimensions, query))
  {
    var given := expand(config.dimensions, query);
    var gathered;
    gathered, reported := GetOverrides(given, config.contexts, config.overrides, strategy);
    ghost var patches := Patches(config.contexts, config.overrides, given);
    var result := MergeOverridesOnDefaults(config.defaultConfigs, gathered.value, strategy);
    forall key | key in config.defaultConfigs
      ensures result[key] == Outcome(strategy, config.defaultConfigs[key], At(patches, key))
    {
      AccumulatedMember(strategy, patches, key);
    }
    assert result == Resolve(config, query, strategy, expand);
    resolved := Success(result);
  }

  /** The configuration a request is evaluated on: an empty prefix list does not filter. */
  function Narrowed(config: Config, prefixes: Option<seq<string>>): Config {
    if prefixes.Some? && prefixes.value != [] then FilteredByPrefix(config, set p | p in prefixes.value) else config
  }

  method EvalConfig(config: Config, query: map<string, Json>, strategy: MergeStrategy,
                    prefixes: Option<seq<string>>, expand: Expansion)
    returns (resolved: Result<map<string, Json>>)
    ensures resolved == Success(Resolve(Narrowed(config, prefixes), query, strategy, expand))
  {
    var narrowed := config;
    if prefixes.Some? && prefixes.value != [] {
      narrowed := FilterByPrefix(config, set p | p in prefixes.value);
    }
    var used;
    resolved, used := Evaluate(narrowed, query, strategy, expand);
  }

  /** The places of the contexts that apply and name an existing override. */
  ghost predicate UsedPlaces(contexts: seq<Context>, overrides: Overrides, given: map<string, Json>, places: seq<nat>)
  {
    && Ascending(places, |contexts|)
    && forall i :: 0 <= i < |contexts| ==>
         (i in places <==> Applies(contexts[i].condition, given) && contexts[i].overrideKey in overrides)
  }

  lemma UsedOneMore(contexts: seq<Context>, overrides: Overrides, given: map<string, Json>, places: seq<nat>,
                    last: Context)
    requires UsedPlaces(contexts, overrides, given, places)
    ensures UsedPlaces(contexts + [last], overrides, given,
                       if Applies(last.condition, given) && last.overrideKey in overrides
                       then places + [|contexts|] else places)
  {
    PlacesOneMore(places, |contexts|);
  }

  lemma SelectedSnoc(init: seq<Context>, last: Context, overrides: Overrides, given: map<string, Json>)
    ensures Selected(init + [last], overrides, given)
         == Selected(init, overrides, given)
            + if Applies(last.condition, given) && last.overrideKey in overrides then [last] else []
  {
    SnocParts(init, last);
  }

  /** The selected contexts are those at these places, in order. */
  lemma {:induction false} SelectedAreUsed(contexts: seq<Context>, overrides: Overrides, given: map<string, Json>)
    returns (places: seq<nat>)
    ensures UsedPlaces(contexts, overrides, given, places)
    ensures Picks(contexts, Selected(contexts, overrides, given), places)
  {
    if contexts == [] {
      places := [];
    } else {
      var n := |contexts| - 1;
      var init, last := contexts[..n], contexts[n];
      assert init + [last] == contexts;
      var before := SelectedAreUsed(init, overrides, given);
      var used := Applies(last.condition, given) && last.overrideKey in overrides;
      places := if used then before + [n] else before;
      UsedOneMore(init, overrides, given, before, last);
      PicksOneMore(init, Selected(init, overrides, given), before, last);
      SelectedSnoc(init, last, overrides, given);
    }
  }

  /** The patches are the overrides of the selected contexts. */
  lemma {:induction false} SelectedHavePatches(contexts: seq<Context>, overrides: Overrides, given: map<string, Json>)
    ensures var selected, patches := Selected(contexts, overrides, given), Patches(contexts, overrides, given);
            && |patches| == |selected|
            && forall j :: 0 <= j < |selected| ==>
                 selected[j].overrideKey in overrides && patches[j] == Object(overrides[selected[j].overrideKey])
  {
    if contexts != [] {
      SelectedHavePatches(contexts[..|contexts| - 1], overrides, given);
    }
  }

  const METADATA := "metadata"

  /** The record of one context that took part in a resolution. */
  function Reason(context: Context): Json {
    Object(map["context" := Object(context.condition), "override" := Array([String(context.overrideKey)])])
  }

  /** The record says exactly which condition the context has and which override it names. */
  ghost predicate Records(record: Json, context: Context) {
    && record.Object? && record.members.Keys == {"context", "override"}
    && record.members["context"] == Object(context.condition)
    && record.members["override"].Array? && record.members["override"].items == [String(context.overrideKey)]
  }

  lemma RecordTells(context: Context, other: Context)
    ensures Records(Reason(context), context)
    ensures Reason(context) == Reason(other) <==>
      context.condition == other.condition && context.overrideKey == other.overrideKey
  {
    if Reason(context) == Reason(other) {
      assert Reason(context).members["context"] == Reason(other).members["context"];
      assert Reason(context).members["override"] == Reason(other).members["override"];
    }
  }

  /** Under "metadata" stands one record for each context that applies and names an existing
      override, in the order of the contexts. */
  method EvalConfigWithReasoning(config: Config, query: map<string, Json>, strategy: MergeStrategy,
                                 prefixes: Option<seq<string>>, expand: Expansion)
    returns (resolved: Result<map<string, Json>>, ghost places: seq<nat>)
    ensures var narrowed := Narrowed(config, prefixes);
            && resolved.Success? && "metadata" in resolved.value && resolved.value["metadata"].Array?
            && resolved.value ==
                 Resolve(narrowed, query, strategy, expand)["metadata" := resolved.value["metadata"]]
            && UsedPlaces(narrowed.contexts, narrowed.overrides, expand(narrowed.dimensions, query), places)
            && |resolved.value["metadata"].items| == |places|
            && forall j :: 0 <= j < |places| ==>
                 Records(resolved.value["metadata"].items[j], narrowed.contexts[places[j]])
  {
    var narrowed := config;
    if prefixes.Some? && prefixes.value != [] {
      narrowed := FilterByPrefix(config, set p | p in prefixes.value);
    }
    var result, used := Evaluate(narrowed, query, strategy, expand);
    var reasons := seq(|used|, i requires 0 <= i < |used| => Reason(used[i]));
    resolved := Success(result.value[METADATA := Array(reasons)]);
    places := SelectedAreUsed(narrowed.contexts, narrowed.overrides, expand(narrowed.dimensions, query));
    forall j | 0 <= j < |used| ensures Records(reasons[j], used[j]) {
      RecordTells(used[j], used[j]);
    }
  }
}
