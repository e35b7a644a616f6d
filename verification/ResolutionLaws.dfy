/** What resolution promises: which override wins, and which changes to a configuration
    cannot be observed. */
module ResolutionLaws {
  import opened Wrappers
  import opened JsonValues
  import opened JsonMerge
  import opened MergeFolding
  import opened Matching
  import opened Configuration
  import opened Resolution

  // ---------- Who wins ----------

  /** The i-th context applies and its override sets `key`. */
  ghost predicate Sets(contexts: seq<Context>, overrides: Overrides, given: map<string, Json>, i: int, key: string) {
    0 <= i < |contexts| &&
    Applies(contexts[i].condition, given) &&
    contexts[i].overrideKey in overrides &&
    key in overrides[contexts[i].overrideKey]
  }

  lemma {:induction false} LastSetterIsLastValue(
      contexts: seq<Context>, overrides: Overrides, given: map<string, Json>, winner: int, key: string)
    requires Sets(contexts, overrides, given, winner, key)
    requires forall j :: winner < j ==> !Sets(contexts, overrides, given, j, key)
    ensures var values := At(Patches(contexts, overrides, given), key);
            values != [] && values[|values| - 1] == overrides[contexts[winner].overrideKey][key]
  {
    var n := |contexts| - 1;
    var init := contexts[..n];
    var before := Patches(init, overrides, given);
    PatchesSnoc(init, contexts[n], overrides, given, key);
    assert init + [contexts[n]] == contexts;
    if winner < n {
      assert !Sets(contexts, overrides, given, n, key);
      forall j | winner < j
        ensures !Sets(init, overrides, given, j, key)
      {
        assert !Sets(contexts, overrides, given, j, key);
      }
      LastSetterIsLastValue(init, overrides, given, winner, key);
    }
  }

  /** One more context adds at most one value to a key. */
  lemma PatchesSnoc(init: seq<Context>, last: Context, overrides: Overrides, given: map<string, Json>, key: string)
    ensures At(Patches(init + [last], overrides, given), key) ==
      At(Patches(init, overrides, given), key) +
      if Applies(last.condition, given) && last.overrideKey in overrides && key in overrides[last.overrideKey]
      then [overrides[last.overrideKey][key]] else []
  {
    assert (init + [last])[..|init|] == init;
    var before := Patches(init, overrides, given);
    if Applies(last.condition, given) && last.overrideKey in overrides {
      assert (before + [Object(overrides[last.overrideKey])])[..|before|] == before;
    } else {
      assert before + [] == before;
    }
  }

  lemma {:induction false} NoSetterNoValue(contexts: seq<Context>, overrides: Overrides, given: map<string, Json>,
                                           key: string)
    requires forall i :: !Sets(contexts, overrides, given, i, key)
    ensures At(Patches(contexts, overrides, given), key) == []
  {
    if contexts != [] {
      var n := |contexts| - 1;
      var init := contexts[..n];
      assert init + [contexts[n]] == contexts;
      PatchesSnoc(init, contexts[n], overrides, given, key);
      assert !Sets(contexts, overrides, given, n, key);
      forall j
        ensures !Sets(init, overrides, given, j, key)
      {
        assert !Sets(contexts, overrides, given, j, key);
      }
      NoSetterNoValue(init, overrides, given, key);
    }
  }

  /** Under REPLACE the last applying context that sets a key decides it, and the default
      stands when there is none. */
  lemma LastSetterWins(config: Config, query: map<string, Json>, expand: Expansion, key: string, winner: int)
    requires key in config.defaultConfigs
    ensures var given := expand(config.dimensions, query);
            var resolved := Resolve(config, query, REPLACE, expand);
            && ((forall i :: !Sets(config.contexts, config.overrides, given, i, key)) ==>
                  resolved[key] == config.defaultConfigs[key])
            && (Sets(config.contexts, config.overrides, given, winner, key)
                && (forall j :: winner < j ==> !Sets(config.contexts, config.overrides, given, j, key)) ==>
                  resolved[key] == config.overrides[config.contexts[winner].overrideKey][key])
  {
    var given := expand(config.dimensions, query);
    if forall i :: !Sets(config.contexts, config.overrides, given, i, key) {
      NoSetterNoValue(config.contexts, config.overrides, given, key);
    } else if Sets(config.contexts, config.overrides, given, winner, key)
           && forall j :: winner < j ==> !Sets(config.contexts, config.overrides, given, j, key) {
      LastSetterIsLastValue(config.contexts, config.overrides, given, winner, key);
    }
  }

  // ---------- Two phases against one ----------

  /** The defaults after each patch has been merged straight onto them, in turn. */
  ghost function MergedDirectly(defaults: map<string, Json>, patches: seq<Json>): (resolved: map<string, Json>)
    requires AllObjects(patches)
    ensures resolved.Keys == defaults.Keys
  {
    if patches == [] then defaults
    else
      var n := |patches| - 1;
      var before := MergedDirectly(defaults, patches[..n]);
      map key | key in defaults ::
        if key in patches[n].members then Merge(before[key], patches[n].members[key]) else before[key]
  }

  lemma {:induction false} MergedDirectlyAt(defaults: map<string, Json>, patches: seq<Json>, key: string)
    requires AllObjects(patches) && key in defaults
    ensures MergedDirectly(defaults, patches)[key] == MergeAll(defaults[key], At(patches, key))
  {
    if patches != [] {
      var n := |patches| - 1;
      var values := At(patches, key);
      MergedDirectlyAt(defaults, patches[..n], key);
      if key in patches[n].members {
        assert values[..|values| - 1] == At(patches[..n], key);
      } else {
        assert values == At(patches[..n], key);
      }
    }
  }

  /** Under MERGE, gathering the overrides before merging them onto the defaults gives what
      merging each override straight onto the defaults gives, exactly when for no key the
      gathering revives a part of the default that the overrides erase on their way. */
  lemma TwoPhasesAreDirectIff(config: Config, query: map<string, Json>, expand: Expansion)
    ensures var patches := Patches(config.contexts, config.overrides, expand(config.dimensions, query));
            (Resolve(config, query, MERGE, expand) == MergedDirectly(config.defaultConfigs, patches)
             <==> forall key | key in config.defaultConfigs && At(patches, key) != [] ::
                    NothingRevived(config.defaultConfigs[key], At(patches, key)))
  {
    var patches := Patches(config.contexts, config.overrides, expand(config.dimensions, query));
    var resolved, direct := Resolve(config, query, MERGE, expand), MergedDirectly(config.defaultConfigs, patches);
    forall key | key in config.defaultConfigs
      ensures resolved[key] == direct[key]
         <==> (At(patches, key) != [] ==> NothingRevived(config.defaultConfigs[key], At(patches, key)))
    {
      MergedDirectlyAt(config.defaultConfigs, patches, key);
      if At(patches, key) != [] {
        GatheringIsFaithfulIff(config.defaultConfigs[key], At(patches, key));
      }
    }
    assert resolved == direct <==> forall key | key in config.defaultConfigs :: resolved[key] == direct[key];
  }

  /** It is enough that no later override has an object where an earlier one has none. */
  lemma CompatibleOverridesAreDirect(config: Config, query: map<string, Json>, expand: Expansion)
    requires PairwiseCompatible(Patches(config.contexts, config.overrides, expand(config.dimensions, query)))
    ensures Resolve(config, query, MERGE, expand)
         == MergedDirectly(config.defaultConfigs,
                           Patches(config.contexts, config.overrides, expand(config.dimensions, query)))
  {
    var patches := Patches(config.contexts, config.overrides, expand(config.dimensions, query));
    forall key | key in config.defaultConfigs && At(patches, key) != []
      ensures NothingRevived(config.defaultConfigs[key], At(patches, key))
    {
      AtKeepsCompatible(patches, key);
      CompatibleRevivesNothing(config.defaultConfigs[key], At(patches, key));
    }
    TwoPhasesAreDirectIff(config, query, expand);
  }

  /** The default, and the two values that a number and then an object override give it. */
  const DEFAULT := Object(map["x" := Number("1")])
  const FIRST := Number("0")
  const SECOND := Object(map["y" := Number("2")])

  ghost function RevivingConfig(): Config {
    Config([Context("a", map[], 0, 0, "a"), Context("b", map[], 1, 1, "b")],
           map["a" := map["k" := FIRST], "b" := map["k" := SECOND]],
           map["k" := DEFAULT], map[])
  }

  lemma RevivingValues()
    ensures var config := RevivingConfig();
            At(Patches(config.contexts, config.overrides, map[]), "k") == [FIRST, SECOND]
  {
    var config := RevivingConfig();
    var first, second := config.contexts[0], config.contexts[1];
    assert [] + [first] == [first] && [first] + [second] == config.contexts;
    PatchesSnoc([], first, config.overrides, map[], "k");
    PatchesSnoc([first], second, config.overrides, map[], "k");
  }

  lemma MergeAllTwo(doc: Json, first: Json, second: Json)
    ensures MergeAll(doc, [first, second]) == Merge(Merge(doc, first), second)
  {
    var one, both := [first], [first, second];
    assert one[..|one| - 1] == [] && both[..|both| - 1] == one;
    assert MergeAll(doc, one) == Merge(doc, first);
  }

  lemma RevivedValue()
    ensures Merge(DEFAULT, MergeAll(Null, [FIRST, SECOND])) == Object(map["x" := Number("1"), "y" := Number("2")])
    ensures MergeAll(DEFAULT, [FIRST, SECOND]) == SECOND
  {
    MergeAllTwo(DEFAULT, FIRST, SECOND);
    MergeAllTwo(Null, FIRST, SECOND);
    MergeOntoNonObject(FIRST, SECOND);
    assert Merge(DEFAULT, SECOND).members == map["x" := Number("1"), "y" := Number("2")];
  }

  /** The number erases the default, yet the object that follows brings it back. */
  lemma TwoPhasesCanRevive(same: Expansion)
    requires same(map[], map[]) == map[]
    ensures var config := RevivingConfig();
            var patches := Patches(config.contexts, config.overrides, map[]);
            && Resolve(config, map[], MERGE, same)["k"] == Object(map["x" := Number("1"), "y" := Number("2")])
            && MergedDirectly(config.defaultConfigs, patches)["k"] == SECOND
  {
    var config := RevivingConfig();
    RevivingValues();
    MergedDirectlyAt(config.defaultConfigs, Patches(config.contexts, config.overrides, map[]), "k");
    RevivedValue();
  }

  // ---------- Filtering by prefix ----------

  lemma {:induction false} PrefixKeepsValues(
      contexts: seq<Context>, overrides: Overrides, prefixes: set<string>, given: map<string, Json>, key: string)
    requires HasPrefix(key, prefixes)
    ensures var kept := PrefixedOverrides(overrides, prefixes);
            At(Patches(WithOverride(contexts, kept), kept, given), key) == At(Patches(contexts, overrides, given), key)
  {
    if contexts != [] {
      var kept := PrefixedOverrides(overrides, prefixes);
      var n := |contexts| - 1;
      var init, last := contexts[..n], contexts[n];
      PrefixKeepsValues(init, overrides, prefixes, given, key);
      assert init + [last] == contexts;
      PatchesSnoc(init, last, overrides, given, key);
      var survivors := WithOverride(init, kept);
      if last.overrideKey in overrides {
        assert key in overrides[last.overrideKey] <==> key in KeysWithPrefix(overrides[last.overrideKey], prefixes);
      }
      if last.overrideKey in kept {
        PatchesSnoc(survivors, last, kept, given, key);
      } else {
        assert survivors + [] == survivors;
      }
    }
  }

  /** Filtering by prefixes before resolving gives exactly the part of the resolved
      configuration that has those prefixes, although it drops overrides and contexts. */
  lemma PrefixFilterPreservesMeaning(config: Config, prefixes: set<string>, query: map<string, Json>,
                                     strategy: MergeStrategy, expand: Expansion)
    ensures Resolve(FilteredByPrefix(config, prefixes), query, strategy, expand)
         == KeysWithPrefix(Resolve(config, query, strategy, expand), prefixes)
  {
    var given := expand(config.dimensions, query);
    var filtered := FilteredByPrefix(config, prefixes);
    forall key | key in filtered.defaultConfigs
      ensures At(Patches(filtered.contexts, filtered.overrides, given), key)
           == At(Patches(config.contexts, config.overrides, given), key)
    {
      PrefixKeepsValues(config.contexts, config.overrides, prefixes, given, key);
    }
  }

  /** What a prefix list does to the resolved configuration: of an unfiltered one it leaves
      exactly the keys that continue one of the prefixes, with their values. */
  ghost predicate RestrictedTo(all: map<string, Json>, some: map<string, Json>, prefixes: set<string>) {
    && (forall p, rest :: p in prefixes && p + rest in all ==> p + rest in some)
    && forall key :: key in some ==>
         && key in all && some[key] == all[key]
         && exists p, rest :: p in prefixes && key == p + rest
  }

  lemma PrefixFilterRestricts(config: Config, prefixes: set<string>, query: map<string, Json>,
                              strategy: MergeStrategy, expand: Expansion)
    ensures RestrictedTo(Resolve(config, query, strategy, expand),
                         Resolve(FilteredByPrefix(config, prefixes), query, strategy, expand), prefixes)
  {
    PrefixFilterPreservesMeaning(config, prefixes, query, strategy, expand);
    KeptKeysContinue(Resolve(config, query, strategy, expand), prefixes);
  }

  /** An absent or empty list restricts nothing. */
  lemma NarrowingRestricts(config: Config, prefixes: Option<seq<string>>, query: map<string, Json>,
                           strategy: MergeStrategy, expand: Expansion)
    ensures prefixes == None || prefixes == Some([]) ==> Narrowed(config, prefixes) == config
    ensures prefixes.Some? && prefixes.value != [] ==>
      RestrictedTo(Resolve(config, query, strategy, expand),
                   Resolve(Narrowed(config, prefixes), query, strategy, expand), set p | p in prefixes.value)
  {
    if prefixes.Some? && prefixes.value != [] {
      var some := set p | p in prefixes.value;
      PrefixFilterRestricts(config, some, query, strategy, expand);
    }
  }

  // ---------- Filtering by dimension values ----------

  lemma {:induction false} DimensionsKeepPatches(
      contexts: seq<Context>, overrides: Overrides, kept: Overrides, some: map<string, Json>, full: map<string, Json>)
    requires Consistent(some, full)
    requires forall id :: id in kept ==> id in overrides && kept[id] == overrides[id]
    requires forall context :: context in PartiallyMatching(contexts, some) && context.overrideKey in overrides ==>
      context.overrideKey in kept
    ensures Patches(PartiallyMatching(contexts, some), kept, full) == Patches(contexts, overrides, full)
  {
    if contexts != [] {
      var n := |contexts| - 1;
      var init, last := contexts[..n], contexts[n];
      var survivors := PartiallyMatching(init, some);
      if PartiallyApplies(last.condition, some) {
        assert (survivors + [last])[..|survivors|] == survivors;
        forall context | context in survivors && context.overrideKey in overrides
          ensures context.overrideKey in kept
        {
          assert context in survivors + [last];
        }
        assert last in survivors + [last];
      } else {
        assert survivors + [] == survivors;
        SurvivesIffConsistent(some, full);
        assert !Applies(last.condition, full);
      }
      DimensionsKeepPatches(init, overrides, kept, some, full);
    }
  }

  lemma DimensionFilterPreserves(config: Config, data: map<string, Json>, query: map<string, Json>,
                                 strategy: MergeStrategy, expand: Expansion)
    requires Consistent(expand(config.dimensions, data), expand(config.dimensions, query))
    ensures Resolve(FilteredByDimensions(config, data, expand), query, strategy, expand)
         == Resolve(config, query, strategy, expand)
  {
    var some, full := expand(config.dimensions, data), expand(config.dimensions, query);
    var contexts := PartiallyMatching(config.contexts, some);
    DimensionsKeepPatches(config.contexts, config.overrides, OverridesOf(contexts, config.overrides), some, full);
  }

  /** Filtering by the very values that are resolved afterwards changes nothing. */
  lemma DimensionFilterPreservesMeaning(config: Config, data: map<string, Json>,
                                        strategy: MergeStrategy, expand: Expansion)
    ensures Resolve(FilteredByDimensions(config, data, expand), data, strategy, expand)
         == Resolve(config, data, strategy, expand)
  {
    DimensionFilterPreserves(config, data, data, strategy, expand);
  }

  /** A configuration filtered by some values may be resolved for other, fuller ones: for
      these dimensions and every configuration over them that is right exactly when the two
      requests, completed with their cohorts, are consistent. */
  lemma DimensionFilterPreservesIff(dimensions: Dimensions, data: map<string, Json>,
                                    query: map<string, Json>, strategy: MergeStrategy, expand: Expansion)
    ensures (forall config: Config | config.dimensions == dimensions ::
               Resolve(FilteredByDimensions(config, data, expand), query, strategy, expand)
                 == Resolve(config, query, strategy, expand))
       <==> Consistent(expand(dimensions, data), expand(dimensions, query))
  {
    var some, full := expand(dimensions, data), expand(dimensions, query);
    if Consistent(some, full) {
      forall config: Config | config.dimensions == dimensions {
        DimensionFilterPreserves(config, data, query, strategy, expand);
      }
    } else {
      var condition := TellingCondition(some, full);
      var config := OneContext(dimensions, condition, "k");
      OneContextDropped(dimensions, condition, data, query, strategy, expand);
      assert Resolve(FilteredByDimensions(config, data, expand), query, strategy, expand)
          != Resolve(config, query, strategy, expand);
    }
  }

  ghost function OneContext(dimensions: Dimensions, condition: map<string, Json>, key: string): Config {
    Config([Context("c", condition, 0, 0, "o")], map["o" := map[key := Bool(true)]],
           map[key := Bool(false)], dimensions)
  }

  /** The single override decides the key when its context applies; otherwise the default. */
  lemma OneContextAnswer(dimensions: Dimensions, condition: map<string, Json>, key: string,
                         query: map<string, Json>, strategy: MergeStrategy, expand: Expansion)
    ensures Resolve(OneContext(dimensions, condition, key), query, strategy, expand)[key]
         == Bool(Applies(condition, expand(dimensions, query)))
  {
    var config := OneContext(dimensions, condition, key);
    var full := expand(dimensions, query);
    assert [] + config.contexts == config.contexts;
    PatchesSnoc([], config.contexts[0], config.overrides, full, key);
    assert [Bool(true)][..0] == [];
  }

  lemma OneContextDropped(dimensions: Dimensions, condition: map<string, Json>, data: map<string, Json>,
                          query: map<string, Json>, strategy: MergeStrategy, expand: Expansion)
    requires Applies(condition, expand(dimensions, query))
    requires !PartiallyApplies(condition, expand(dimensions, data))
    ensures var config := OneContext(dimensions, condition, "k");
            && Resolve(config, query, strategy, expand)["k"] == Bool(true)
            && Resolve(FilteredByDimensions(config, data, expand), query, strategy, expand)["k"] == Bool(false)
  {
    OneContextAnswer(dimensions, condition, "k", query, strategy, expand);
    assert PartiallyMatching(OneContext(dimensions, condition, "k").contexts, expand(dimensions, data)) == [];
  }
}
