/** For which requests, completed by the program, a configuration filtered by the one may be
    resolved for the other. */
module CompletedRequests {
  import opened Wrappers
  import opened JsonValues
  import opened Matching
  import opened Configuration
  import opened Resolution
  import opened ResolutionLaws
  import opened Dependencies
  import opened Lineages
  import opened StartingDimensions
  import opened LocalCohorts
  import opened Removal
  import opened Workspaces
  import opened Retention

  /** The completion of requests that the program uses. */
  ghost function Completing(holds: Rule): Expansion {
    (dimensions, query) =>
      if dimensions != map[] && WellFormed(dimensions) then Completed(dimensions, query, holds) else query
  }

  // ---------- What a completed request holds ----------

  /** The dimension keeps the value it is given. */
  ghost predicate Kept(dimensions: Dimensions, query: map<string, Json>, d: string)
    requires WellFormed(dimensions)
  {
    d in query && !Gap(dimensions, query, d)
  }

  /** The value of a local cohort, by what is given for it and for its base. */
  ghost function Settled(dimensions: Dimensions, query: map<string, Json>, holds: Rule, base: string, d: string): Json
    requires WellFormed(dimensions) && d in dimensions
  {
    if Kept(dimensions, query, base) then String(CohortOf(base, query[base], dimensions[d].schema, holds))
    else if d in query && IsWaiting(dimensions, query, base) then query[d]
    else String(OTHERWISE)
  }

  lemma ActiveHasGiven(dimensions: Dimensions, query: map<string, Json>, holds: Rule, d: string)
    requires WellFormed(dimensions) && d in dimensions && !IsLocal(dimensions, d)
    requires StatusOf(dimensions, query, holds, d).Active?
    ensures d in query && StatusOf(dimensions, query, holds, d) == Active(query[d])
  {
    if !IsRegular(dimensions, d) {
      var base :| IsBase(dimensions, base, d);
      StatusOfCohort(dimensions, query, holds, base, d);
    }
  }

  lemma CompletedGiven(dimensions: Dimensions, query: map<string, Json>, holds: Rule, d: string)
    requires Tidy(dimensions) && LocalsAreLeaves(dimensions) && d in dimensions && !IsLocal(dimensions, d)
    ensures d in Completed(dimensions, query, holds) <==> Kept(dimensions, query, d)
    ensures Kept(dimensions, query, d) ==> Completed(dimensions, query, holds)[d] == query[d]
  {
    DeadIffGap(dimensions, query, holds, d);
    if Kept(dimensions, query, d) {
      ActiveHasGiven(dimensions, query, holds, d);
    }
  }

  lemma CompletedLocal(dimensions: Dimensions, query: map<string, Json>, holds: Rule, base: string, d: string)
    requires Tidy(dimensions) && LocalsAreLeaves(dimensions) && IsBase(dimensions, base, d) && IsLocal(dimensions, d)
    ensures d in Completed(dimensions, query, holds)
    ensures Completed(dimensions, query, holds)[d] == Settled(dimensions, query, holds, base, d)
  {
    StatusOfCohort(dimensions, query, holds, base, d);
    DeadIffGap(dimensions, query, holds, base);
    WaitingIsStatus(dimensions, query, holds, base);
    if Kept(dimensions, query, base) {
      ActiveHasGiven(dimensions, query, holds, base);
    }
  }

  // ---------- Consistent completions ----------

  /** Where both requests give a value that is kept, the first covers the second. */
  ghost predicate GivenAgree(dimensions: Dimensions, data: map<string, Json>, query: map<string, Json>)
    requires WellFormed(dimensions)
  {
    forall d | d in dimensions && !IsLocal(dimensions, d) ::
      Kept(dimensions, data, d) && Kept(dimensions, query, d) ==> Covers(d, data[d], query[d])
  }

  /** A local cohort comes to the same, unless both requests give its base a value that is
      kept. */
  ghost predicate CohortsAgree(dimensions: Dimensions, data: map<string, Json>, query: map<string, Json>, holds: Rule)
    requires WellFormed(dimensions)
  {
    forall base, d {:trigger IsBase(dimensions, base, d)} | IsBase(dimensions, base, d) && IsLocal(dimensions, d) ::
      (Kept(dimensions, data, base) && Kept(dimensions, query, base)) ||
      Settled(dimensions, data, holds, base, d) == Settled(dimensions, query, holds, base, d)
  }

  lemma LocalHasBase(dimensions: Dimensions, d: string) returns (base: string)
    requires TypesAgree(dimensions) && IsLocal(dimensions, d)
    ensures IsBase(dimensions, base, d)
  {
    base := BaseOf(dimensions[d]).value;
    assert d in dimensions && BaseOf(dimensions[d]) == Some(base);
  }

  lemma VariantsAreNoBase(dimensions: Dimensions, base: string, d: string)
    requires Compact(dimensions) && VariantsFirst(dimensions) && CohortsLower(dimensions)
    requires IsBase(dimensions, base, d) && IsLocal(dimensions, d)
    ensures base != VARIANT_IDS && d != VARIANT_IDS
  {
  }

  /** A base that keeps the same value in both requests gives its cohort the same value. */
  lemma SameBaseSameCohort(dimensions: Dimensions, data: map<string, Json>, query: map<string, Json>, holds: Rule,
                           base: string, d: string)
    requires WellFormed(dimensions) && GivenAgree(dimensions, data, query) && d in dimensions
    requires base in dimensions && base != VARIANT_IDS && !IsLocal(dimensions, base)
    requires Kept(dimensions, data, base) && Kept(dimensions, query, base)
    ensures Settled(dimensions, data, holds, base, d) == Settled(dimensions, query, holds, base, d)
  {
    assert Covers(base, data[base], query[base]);
  }

  lemma LocalCovers(dimensions: Dimensions, data: map<string, Json>, query: map<string, Json>, holds: Rule, d: string)
    requires Sound(dimensions) && IsLocal(dimensions, d)
    requires GivenAgree(dimensions, data, query) && CohortsAgree(dimensions, data, query, holds)
    requires d in Completed(dimensions, data, holds) && d in Completed(dimensions, query, holds)
    ensures Covers(d, Completed(dimensions, data, holds)[d], Completed(dimensions, query, holds)[d])
  {
    var base := LocalHasBase(dimensions, d);
    VariantsAreNoBase(dimensions, base, d);
    CompletedLocal(dimensions, data, holds, base, d);
    CompletedLocal(dimensions, query, holds, base, d);
    if Kept(dimensions, data, base) && Kept(dimensions, query, base) {
      SameBaseSameCohort(dimensions, data, query, holds, base, d);
    }
  }

  lemma AgreeingIsConsistent(dimensions: Dimensions, data: map<string, Json>, query: map<string, Json>, holds: Rule)
    requires Sound(dimensions)
    requires GivenAgree(dimensions, data, query) && CohortsAgree(dimensions, data, query, holds)
    ensures Consistent(Completed(dimensions, data, holds), Completed(dimensions, query, holds))
  {
    forall d | d in Completed(dimensions, data, holds) && d in Completed(dimensions, query, holds)
      ensures Covers(d, Completed(dimensions, data, holds)[d], Completed(dimensions, query, holds)[d])
    {
      if IsLocal(dimensions, d) {
        LocalCovers(dimensions, data, query, holds, d);
      } else {
        CompletedGiven(dimensions, data, holds, d);
        CompletedGiven(dimensions, query, holds, d);
      }
    }
  }

  lemma ConsistentAgrees(dimensions: Dimensions, data: map<string, Json>, query: map<string, Json>, holds: Rule)
    requires Sound(dimensions)
    requires Consistent(Completed(dimensions, data, holds), Completed(dimensions, query, holds))
    ensures GivenAgree(dimensions, data, query) && CohortsAgree(dimensions, data, query, holds)
  {
    forall d | d in dimensions && !IsLocal(dimensions, d)
      && Kept(dimensions, data, d) && Kept(dimensions, query, d)
      ensures Covers(d, data[d], query[d])
    {
      CompletedGiven(dimensions, data, holds, d);
      CompletedGiven(dimensions, query, holds, d);
    }
    forall base, d | IsBase(dimensions, base, d) && IsLocal(dimensions, d)
      ensures Settled(dimensions, data, holds, base, d) == Settled(dimensions, query, holds, base, d)
    {
      VariantsAreNoBase(dimensions, base, d);
      CompletedLocal(dimensions, data, holds, base, d);
      CompletedLocal(dimensions, query, holds, base, d);
    }
  }

  /** Two completed requests are consistent exactly when the given values that are kept agree,
      and every local cohort comes to the same whose base does not keep a value in both. */
  lemma CompletionsConsistentIff(dimensions: Dimensions, data: map<string, Json>, query: map<string, Json>, holds: Rule)
    requires Sound(dimensions)
    ensures Consistent(Completed(dimensions, data, holds), Completed(dimensions, query, holds))
       <==> GivenAgree(dimensions, data, query) && CohortsAgree(dimensions, data, query, holds)
  {
    if GivenAgree(dimensions, data, query) && CohortsAgree(dimensions, data, query, holds) {
      AgreeingIsConsistent(dimensions, data, query, holds);
    }
    if Consistent(Completed(dimensions, data, holds), Completed(dimensions, query, holds)) {
      ConsistentAgrees(dimensions, data, query, holds);
    }
  }

  /** So every configuration over these dimensions may be filtered by `data` and then resolved
      for `query` exactly when that holds. */
  lemma FilteringPreservesIff(dimensions: Dimensions, data: map<string, Json>, query: map<string, Json>,
                              strategy: MergeStrategy, holds: Rule)
    requires Sound(dimensions)
    ensures (forall config: Config | config.dimensions == dimensions ::
               Resolve(FilteredByDimensions(config, data, Completing(holds)), query, strategy, Completing(holds))
                 == Resolve(config, query, strategy, Completing(holds)))
       <==> GivenAgree(dimensions, data, query) && CohortsAgree(dimensions, data, query, holds)
  {
    assert VARIANT_IDS in dimensions;
    CompletionsConsistentIff(dimensions, data, query, holds);
    DimensionFilterPreservesIff(dimensions, data, query, strategy, Completing(holds));
  }

  // ---------- Fewer values ----------

  /** Filtering by fewer values than are resolved afterwards drops contexts that apply: without a
      value for the base, the cohort is "otherwise" already. */
  lemma FewerValuesAreInconsistent(dimensions: Dimensions, data: map<string, Json>, query: map<string, Json>,
                                   holds: Rule, base: string, d: string)
    requires Sound(dimensions)
    requires IsBase(dimensions, base, d) && IsRegular(dimensions, base) && IsLocal(dimensions, d)
    requires base !in data && d !in data && base in query
    requires CohortOf(base, query[base], dimensions[d].schema, holds) != OTHERWISE
    ensures !CohortsAgree(dimensions, data, query, holds)
  {
    if Gap(dimensions, query, base) {
      GapMeansCohort(dimensions, query, base);
    }
    assert Settled(dimensions, data, holds, base, d) != Settled(dimensions, query, holds, base, d);
  }

  const TOWN := NewDimension("town", 1, Regular, map[], None)

  /** A cohort for the towns that the rule holds of. */
  function SizeAsked(rule: Json): NewDimension {
    NewDimension("size", 1, LocalCohort("town"),
                 map["enum" := Array([String("big")]), "definitions" := Object(map["big" := rule])], None)
  }

  lemma TownServed(table: Dimensions)
    requires Sound(table) && table.Keys == {VARIANT_IDS} && |table| == 1
    ensures var served := Served(table, Create(TOWN, true));
            served.Keys == {VARIANT_IDS} + {"town"} && |served| == 2 && served["town"] == InfoOf(TOWN)
  {
    assert CanCreate(table, TOWN);
    OneMore(table, TOWN);
  }

  lemma SizeServed(table: Dimensions, rule: Json)
    requires Sound(table)
    requires table.Keys == {VARIANT_IDS} + {"town"} && |table| == 2 && table["town"] == InfoOf(TOWN)
    ensures var served := Served(table, Create(SizeAsked(rule), true));
            && "size" in served && served["size"] == InfoOf(SizeAsked(rule))
            && IsBase(served, "town", "size") && IsRegular(served, "town")
  {
    assert CanCreate(table, SizeAsked(rule));
    OneMore(table, SizeAsked(rule));
  }

  lemma BigTown(rule: Json, town: Json, holds: Rule)
    requires holds(rule, Object(map["town" := town]))
    ensures CohortOf("town", town, SizeAsked(rule).schema, holds) == "big"
  {
  }

  lemma SizesServed(rule: Json) returns (requests: seq<Request>)
    ensures var table := TableOf(map[], requests);
            && "size" in table && table["size"] == InfoOf(SizeAsked(rule))
            && IsBase(table, "town", "size") && IsRegular(table, "town")
  {
    FreshIsSound(map[]);
    assert |Fresh(map[]).Keys| == 1;
    requests := [] + [Create(TOWN, true)];
    AllServedSnoc(Fresh(map[]), [], Create(TOWN, true));
    TownServed(Fresh(map[]));
    AllServedSnoc(Fresh(map[]), requests, Create(SizeAsked(rule), true));
    SizeServed(TableOf(map[], requests), rule);
    requests := requests + [Create(SizeAsked(rule), true)];
  }

  /** For instance in a workspace with towns and their sizes: filtered without a town, some
      configuration answers wrongly for a town that the rule holds of. */
  lemma FilteringCanDropContexts(rule: Json, town: Json, strategy: MergeStrategy, holds: Rule)
    returns (requests: seq<Request>, config: Config)
    requires holds(rule, Object(map["town" := town]))
    ensures config.dimensions == TableOf(map[], requests)
    ensures Resolve(FilteredByDimensions(config, map[], Completing(holds)), map["town" := town], strategy,
                    Completing(holds))
         != Resolve(config, map["town" := town], strategy, Completing(holds))
  {
    requests := SizesServed(rule);
    var dimensions := TableOf(map[], requests);
    BigTown(rule, town, holds);
    FewerValuesAreInconsistent(dimensions, map[], map["town" := town], holds, "town", "size");
    FilteringPreservesIff(dimensions, map[], map["town" := town], strategy, holds);
    config :| config.dimensions == dimensions
      && Resolve(FilteredByDimensions(config, map[], Completing(holds)), map["town" := town], strategy,
                 Completing(holds))
      != Resolve(config, map["town" := town], strategy, Completing(holds));
  }
}
