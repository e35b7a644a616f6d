/** Configurations and the two filters that clients apply to them. */
module Configuration {
  import opened Wrappers
  import opened JsonValues
  import opened Matching

  datatype DimensionType = Regular | LocalCohort(basedOn: string) | RemoteCohort(basedOn: string)

  type Int32 = n: int | -0x8000_0000 <= n < 0x8000_0000

  /** A number cut down to 32 bits. */
  function AsInt32(number: nat): Int32 {
    (number + 0x8000_0000) % 0x1_0000_0000 - 0x8000_0000
  }

  datatype DimensionInfo = DimensionInfo(
    schema: map<string, Json>,
    position: Int32,
    dimensionType: DimensionType,
    dependencyGraph: map<string, seq<string>>,
    valueComputeFunction: Option<string>)

  type Dimensions = map<string, DimensionInfo>

  datatype Context = Context(
    id: string,
    condition: map<string, Json>,
    priority: Int32,
    weight: Int32,
    overrideKey: string)

  type Overrides = map<string, map<string, Json>>

  datatype Config = Config(
    contexts: seq<Context>,
    overrides: Overrides,
    defaultConfigs: map<string, Json>,
    dimensions: Dimensions)

  /** How a request is completed with the cohorts that its dimensions determine. */
  type Expansion = (Dimensions, map<string, Json>) -> map<string, Json>

  // ---------- Filtering by key prefix ----------

  predicate HasPrefix(key: string, prefixes: set<string>) {
    exists prefix | prefix in prefixes :: prefix <= key
  }

  function KeysWithPrefix(entries: map<string, Json>, prefixes: set<string>): map<string, Json> {
    map key | key in entries && HasPrefix(key, prefixes) :: entries[key]
  }

  /** The overrides that still set something once only the prefixed keys are kept. */
  function PrefixedOverrides(overrides: Overrides, prefixes: set<string>): Overrides {
    map id | id in overrides && KeysWithPrefix(overrides[id], prefixes) != map[] ::
      KeysWithPrefix(overrides[id], prefixes)
  }

  /** The contexts whose override is still there. */
  function WithOverride(contexts: seq<Context>, overrides: Overrides): seq<Context> {
    if contexts == [] then []
    else
      var last := contexts[|contexts| - 1];
      WithOverride(contexts[..|contexts| - 1], overrides) + if last.overrideKey in overrides then [last] else []
  }

  function FilteredByPrefix(config: Config, prefixes: set<string>): Config {
    var overrides := PrefixedOverrides(config.overrides, prefixes);
    Config(WithOverride(config.contexts, overrides), overrides,
           KeysWithPrefix(config.defaultConfigs, prefixes), config.dimensions)
  }

  /** An override must set something to be valid. */
  function ValidateOverride(entries: map<string, Json>): Result<map<string, Json>> {
    if entries == map[] then Failure("Override should not be empty") else Success(entries)
  }

  /** The prefix filter: a loop over the overrides in map order drops the emptied ones, a
      second one drops the contexts that point at a dropped override. */
  method FilterByPrefix(config: Config, prefixes: set<string>) returns (filtered: Config)
    ensures filtered == FilteredByPrefix(config, prefixes)
  {
    var overrides: Overrides := map[];
    var remaining := config.overrides.Keys;
    while remaining != {}
      invariant remaining <= config.overrides.Keys
      invariant overrides ==
        PrefixedOverrides(map id | id in config.overrides && id !in remaining :: config.overrides[id], prefixes)
    {
      var id :| id in remaining;
      var validated := ValidateOverride(KeysWithPrefix(config.overrides[id], prefixes));
      if validated.Success? {
        overrides := overrides[id := validated.value];
      }
      remaining := remaining - {id};
    }
    assert config.overrides == map id | id in config.overrides && id !in remaining :: config.overrides[id];
    var contexts := [];
    for i := 0 to |config.contexts|
      invariant contexts == WithOverride(config.contexts[..i], overrides)
    {
      assert config.contexts[..i + 1][..i] == config.contexts[..i];
      if config.contexts[i].overrideKey in overrides {
        contexts := contexts + [config.contexts[i]];
      }
    }
    assert config.contexts[..|config.contexts|] == config.contexts;
    filtered := Config(contexts, overrides, KeysWithPrefix(config.defaultConfigs, prefixes), config.dimensions);
  }

  // ---------- Filtering by dimension values ----------

  /** The contexts that could still apply once the missing dimensions are supplied. */
  function PartiallyMatching(contexts: seq<Context>, given: map<string, Json>): seq<Context> {
    if contexts == [] then []
    else
      var last := contexts[|contexts| - 1];
      PartiallyMatching(contexts[..|contexts| - 1], given) +
      if PartiallyApplies(last.condition, given) then [last] else []
  }

  function OverridesOf(contexts: seq<Context>, overrides: Overrides): Overrides {
    map id | id in overrides && (exists context | context in contexts :: context.overrideKey == id) :: overrides[id]
  }

  function FilteredByDimensions(config: Config, data: map<string, Json>, expand: Expansion): Config {
    var contexts := PartiallyMatching(config.contexts, expand(config.dimensions, data));
    Config(contexts, OverridesOf(contexts, config.overrides), config.defaultConfigs, config.dimensions)
  }

  // ---------- What the filters keep ----------

  /** Cutting down keeps the number modulo two to the 32, and a small number as it is. */
  lemma AsInt32Wraps(number: nat)
    ensures (AsInt32(number) - number) % 0x1_0000_0000 == 0
    ensures number < 0x8000_0000 ==> AsInt32(number) == number
  {
  }

  /** Of the defaults the prefix filter keeps exactly the keys that continue one of the prefixes,
      with their values. */
  lemma PrefixFilterDefaults(config: Config, prefixes: set<string>)
    ensures var kept := FilteredByPrefix(config, prefixes).defaultConfigs;
            && (forall p, rest :: p in prefixes && p + rest in config.defaultConfigs ==>
                  p + rest in kept && kept[p + rest] == config.defaultConfigs[p + rest])
            && forall key :: key in kept ==>
                 key in config.defaultConfigs && exists p, rest :: p in prefixes && key == p + rest
  {
    KeptKeysContinue(config.defaultConfigs, prefixes);
  }

  lemma KeptKeysContinue(entries: map<string, Json>, prefixes: set<string>)
    ensures var kept := KeysWithPrefix(entries, prefixes);
            && (forall p, rest :: p in prefixes && p + rest in entries ==>
                  p + rest in kept && kept[p + rest] == entries[p + rest])
            && forall key :: key in kept ==>
                 key in entries && kept[key] == entries[key] && exists p, rest :: p in prefixes && key == p + rest
  {
    forall p, rest | p in prefixes && p + rest in entries ensures HasPrefix(p + rest, prefixes) {
      assert p <= p + rest;
    }
    forall key | key in KeysWithPrefix(entries, prefixes)
      ensures exists p, rest :: p in prefixes && key == p + rest
    {
      var p :| p in prefixes && p <= key;
      assert key == p + key[|p|..];
    }
  }

  /** An override stays exactly when it sets some key that continues a prefix, and sets exactly
      such keys afterwards, as before. */
  lemma PrefixFilterOverrides(config: Config, prefixes: set<string>, id: string)
    ensures var kept := FilteredByPrefix(config, prefixes).overrides;
            && (id in kept <==>
                  id in config.overrides && exists p, rest :: p in prefixes && p + rest in config.overrides[id])
            && (id in kept ==>
                  && (forall p, rest :: p in prefixes && p + rest in config.overrides[id] ==> p + rest in kept[id])
                  && (forall key :: key in kept[id] ==>
                        && key in config.overrides[id] && kept[id][key] == config.overrides[id][key]
                        && exists p, rest :: p in prefixes && key == p + rest))
  {
    if id in config.overrides {
      KeptKeysContinue(config.overrides[id], prefixes);
      var kept := KeysWithPrefix(config.overrides[id], prefixes);
      if kept != map[] {
        var key :| key in kept;
        var p, rest :| p in prefixes && key == p + rest;
      }
    }
  }

  /** A context stays exactly when its override sets some key that continues a prefix. */
  lemma PrefixFilterContexts(config: Config, prefixes: set<string>, context: Context)
    ensures context in FilteredByPrefix(config, prefixes).contexts <==>
      && context in config.contexts && context.overrideKey in config.overrides
      && exists p, rest :: p in prefixes && p + rest in config.overrides[context.overrideKey]
  {
    WithOverrideHas(config.contexts, PrefixedOverrides(config.overrides, prefixes), context);
    PrefixFilterOverrides(config, prefixes, context.overrideKey);
  }

  /** Filtering by dimension values keeps exactly the contexts whose condition the completed
      values do not contradict, exactly the overrides that one of those names, and everything
      else. */
  lemma DimensionFilterKeeps(config: Config, data: map<string, Json>, expand: Expansion)
    ensures var given, filtered := expand(config.dimensions, data), FilteredByDimensions(config, data, expand);
            && (forall context :: context in filtered.contexts <==>
                  context in config.contexts && PartiallyApplies(context.condition, given))
            && (forall id :: id in filtered.overrides <==>
                  && id in config.overrides
                  && exists context :: context in config.contexts && context.overrideKey == id
                                    && PartiallyApplies(context.condition, given))
            && (forall id :: id in filtered.overrides ==> filtered.overrides[id] == config.overrides[id])
            && filtered.defaultConfigs == config.defaultConfigs && filtered.dimensions == config.dimensions
  {
    forall context {
      PartiallyMatchingHas(config.contexts, expand(config.dimensions, data), context);
    }
  }

  lemma {:induction false} PartiallyMatchingHas(contexts: seq<Context>, given: map<string, Json>, context: Context)
    ensures context in PartiallyMatching(contexts, given)
       <==> context in contexts && PartiallyApplies(context.condition, given)
  {
    if contexts != [] {
      var init, last := contexts[..|contexts| - 1], contexts[|contexts| - 1];
      PartiallyMatchingHas(init, given, context);
      assert contexts == init + [last];
    }
  }

  // ---------- The filters among themselves ----------

  lemma {:induction false} WithOverrideHas(contexts: seq<Context>, overrides: Overrides, context: Context)
    ensures context in WithOverride(contexts, overrides) <==> context in contexts && context.overrideKey in overrides
  {
    if contexts != [] {
      var init, last := contexts[..|contexts| - 1], contexts[|contexts| - 1];
      WithOverrideHas(init, overrides, context);
      assert contexts == init + [last];
    }
  }

  lemma {:induction false} WithOverrideDependsOnKeys(contexts: seq<Context>, one: Overrides, other: Overrides)
    requires forall context :: context in contexts ==>
      (context.overrideKey in one <==> context.overrideKey in other)
    ensures WithOverride(contexts, one) == WithOverride(contexts, other)
  {
    if contexts != [] {
      assert contexts[|contexts| - 1] in contexts;
      WithOverrideDependsOnKeys(contexts[..|contexts| - 1], one, other);
    }
  }

  lemma {:induction false} ContextFiltersCommute(contexts: seq<Context>, given: map<string, Json>, overrides: Overrides)
    ensures WithOverride(PartiallyMatching(contexts, given), overrides)
         == PartiallyMatching(WithOverride(contexts, overrides), given)
  {
    if contexts != [] {
      var init, last := contexts[..|contexts| - 1], contexts[|contexts| - 1];
      ContextFiltersCommute(init, given, overrides);
      var partial, kept := PartiallyMatching(init, given), WithOverride(init, overrides);
      assert (partial + [last])[..|partial|] == partial;
      assert (kept + [last])[..|kept|] == kept;
      assert partial + [] == partial && kept + [] == kept;
    }
  }

  lemma {:induction false} PartiallyMatchingIdempotent(contexts: seq<Context>, given: map<string, Json>)
    ensures PartiallyMatching(PartiallyMatching(contexts, given), given) == PartiallyMatching(contexts, given)
  {
    if contexts != [] {
      var init, last := contexts[..|contexts| - 1], contexts[|contexts| - 1];
      PartiallyMatchingIdempotent(init, given);
      var partial := PartiallyMatching(init, given);
      assert (partial + [last])[..|partial|] == partial;
      assert partial + [] == partial;
    }
  }

  lemma {:induction false} WithOverrideIdempotent(contexts: seq<Context>, overrides: Overrides)
    ensures WithOverride(WithOverride(contexts, overrides), overrides) == WithOverride(contexts, overrides)
  {
    if contexts != [] {
      var init, last := contexts[..|contexts| - 1], contexts[|contexts| - 1];
      WithOverrideIdempotent(init, overrides);
      var kept := WithOverride(init, overrides);
      assert (kept + [last])[..|kept|] == kept;
      assert kept + [] == kept;
    }
  }

  /** Filtering twice by the same prefixes is filtering once. */
  lemma FilterByPrefixIdempotent(config: Config, prefixes: set<string>)
    ensures FilteredByPrefix(FilteredByPrefix(config, prefixes), prefixes) == FilteredByPrefix(config, prefixes)
  {
    var once := FilteredByPrefix(config, prefixes);
    forall entries: map<string, Json>
      ensures KeysWithPrefix(KeysWithPrefix(entries, prefixes), prefixes) == KeysWithPrefix(entries, prefixes)
    {
    }
    assert PrefixedOverrides(once.overrides, prefixes) == once.overrides;
    WithOverrideIdempotent(config.contexts, once.overrides);
  }

  /** Filtering twice by the same dimension values is filtering once. */
  lemma FilterByDimensionsIdempotent(config: Config, data: map<string, Json>, expand: Expansion)
    ensures FilteredByDimensions(FilteredByDimensions(config, data, expand), data, expand)
         == FilteredByDimensions(config, data, expand)
  {
    PartiallyMatchingIdempotent(config.contexts, expand(config.dimensions, data));
    var once := FilteredByDimensions(config, data, expand);
    assert OverridesOf(once.contexts, once.overrides) == once.overrides;
  }

  lemma OverridesCommute(contexts: seq<Context>, overrides: Overrides, prefixes: set<string>)
    ensures var kept := PrefixedOverrides(overrides, prefixes);
            OverridesOf(WithOverride(contexts, kept), kept)
              == PrefixedOverrides(OverridesOf(contexts, overrides), prefixes)
  {
    var kept := PrefixedOverrides(overrides, prefixes);
    var survivors := WithOverride(contexts, kept);
    forall id | id in kept
      ensures (exists c | c in survivors :: c.overrideKey == id) <==> (exists c | c in contexts :: c.overrideKey == id)
    {
      forall c ensures c in survivors <==> c in contexts && c.overrideKey in kept {
        WithOverrideHas(contexts, kept, c);
      }
      if c :| c in contexts && c.overrideKey == id {
        assert c in survivors;
      }
    }
  }

  /** The two filters give the same configuration in either order: the same contexts in the
      same order, the same overrides, the same defaults. */
  lemma FiltersCommute(config: Config, prefixes: set<string>, data: map<string, Json>, expand: Expansion)
    ensures FilteredByDimensions(FilteredByPrefix(config, prefixes), data, expand)
         == FilteredByPrefix(FilteredByDimensions(config, data, expand), prefixes)
  {
    var given := expand(config.dimensions, data);
    var kept := PrefixedOverrides(config.overrides, prefixes);
    var partial := PartiallyMatching(config.contexts, given);
    ContextFiltersCommute(config.contexts, given, kept);
    OverridesCommute(partial, config.overrides, prefixes);
    WithOverrideDependsOnKeys(partial, kept, PrefixedOverrides(OverridesOf(partial, config.overrides), prefixes));
  }
}
