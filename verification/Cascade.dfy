/** From the stored contexts to a configuration in which the most specific context wins. */
module Cascade {
  import opened Wrappers
  import opened JsonValues
  import opened Matching
  import opened Configuration
  import opened Resolution
  import opened ResolutionLaws
  import opened Weights

  /** A row of the contexts table. */
  datatype ContextRow = ContextRow(
    id: string,
    condition: map<string, Json>,
    overrideId: string,
    entries: map<string, Json>,
    weight: nat,
    createdAt: int)

  /** The order in which the database delivers the rows. */
  ghost predicate Ordered(rows: seq<ContextRow>) {
    forall i, j :: 0 <= i < j < |rows| ==>
      rows[i].weight < rows[j].weight ||
      (rows[i].weight == rows[j].weight && rows[i].createdAt <= rows[j].createdAt)
  }

  ghost predicate ValidRow(row: ContextRow) {
    row.condition != map[] && row.entries != map[]
  }

  ghost function RowContext(row: ContextRow, index: nat): Context {
    Context(row.id, row.condition, AsInt32(index), AsInt32(index), row.overrideId)
  }

  ghost function RowContexts(rows: seq<ContextRow>): seq<Context> {
    seq(|rows|, i requires 0 <= i < |rows| => RowContext(rows[i], i))
  }

  /** The overrides by id; of rows that share an id the last one counts. */
  ghost function RowOverrides(rows: seq<ContextRow>): Overrides {
    if rows == [] then map[]
    else
      var last := rows[|rows| - 1];
      RowOverrides(rows[..|rows| - 1])[last.overrideId := last.entries]
  }

  ghost function Generated(rows: seq<ContextRow>, defaults: map<string, Json>, dimensions: Dimensions)
    : Config
  {
    Config(RowContexts(rows), RowOverrides(rows), defaults, dimensions)
  }

  /** Builds the configuration from the rows; an empty condition or override is an error. */
  method GenerateCac(rows: seq<ContextRow>, defaults: map<string, Json>, dimensions: Dimensions)
    returns (result: Result<Config>)
    ensures result.Success? <==>
      forall i :: 0 <= i < |rows| ==> rows[i].condition != map[] && rows[i].entries != map[]
    ensures result.Success? ==> result.value == Generated(rows, defaults, dimensions)
  {
    var contexts := [];
    var overrides: Overrides := map[];
    for i := 0 to |rows|
      invariant forall j :: 0 <= j < i ==> ValidRow(rows[j])
      invariant contexts == RowContexts(rows[..i])
      invariant overrides == RowOverrides(rows[..i])
    {
      var row := rows[i];
      assert rows[..i + 1][..i] == rows[..i];
      if row.condition == map[] {
        return Failure("Context should not be empty");
      }
      var validated := ValidateOverride(row.entries);
      if validated.Failure? {
        return Failure(validated.error);
      }
      contexts := contexts + [Context(row.id, row.condition, AsInt32(i), AsInt32(i), row.overrideId)];
      overrides := overrides[row.overrideId := validated.value];
    }
    assert rows[..|rows|] == rows;
    return Success(Config(contexts, overrides, defaults, dimensions));
  }

  /** Every row becomes a context in its place, with its own id, condition and override, and with
      the place as priority and weight as long as that fits. */
  lemma GeneratedContexts(rows: seq<ContextRow>, defaults: map<string, Json>, dimensions: Dimensions)
    ensures var config := Generated(rows, defaults, dimensions);
            && |config.contexts| == |rows|
            && (forall i :: 0 <= i < |rows| ==>
                  && config.contexts[i].id == rows[i].id && config.contexts[i].condition == rows[i].condition
                  && config.contexts[i].overrideKey == rows[i].overrideId
                  && (config.contexts[i].priority - i) % 0x1_0000_0000 == 0
                  && config.contexts[i].weight == config.contexts[i].priority
                  && (i < 0x8000_0000 ==> config.contexts[i].priority == i))
            && config.defaultConfigs == defaults && config.dimensions == dimensions
  {
    forall i | 0 <= i < |rows| {
      AsInt32Wraps(i);
    }
  }

  /** Under an id stands what the last row with that id overrides. */
  lemma {:induction false} LastOfIdCounts(rows: seq<ContextRow>, id: string)
    ensures id in RowOverrides(rows) <==> exists i :: 0 <= i < |rows| && rows[i].overrideId == id
    ensures forall i | 0 <= i < |rows| && rows[i].overrideId == id ::
      (forall j :: i < j < |rows| ==> rows[j].overrideId != id) ==> RowOverrides(rows)[id] == rows[i].entries
  {
    if rows != [] {
      var n := |rows| - 1;
      var init := rows[..n];
      LastOfIdCounts(init, id);
      assert forall i :: 0 <= i < n ==> init[i] == rows[i];
      if id in RowOverrides(init) {
        var i :| 0 <= i < n && init[i].overrideId == id;
        assert rows[i].overrideId == id;
      }
      forall i | 0 <= i < |rows| && rows[i].overrideId == id && forall j :: i < j < |rows| ==> rows[j].overrideId != id
        ensures RowOverrides(rows)[id] == rows[i].entries
      {
        if i < n {
          assert rows[n].overrideId != id;
          assert init[i].overrideId == id && forall j :: i < j < n ==> init[j].overrideId != id;
        }
      }
    }
  }

  // ---------- The most specific context wins ----------

  /** Every stored weight is the weight of the row's condition. */
  ghost predicate WeightsStored(rows: seq<ContextRow>, dimensions: Dimensions) {
    forall i :: 0 <= i < |rows| ==>
      rows[i].condition.Keys <= dimensions.Keys &&
      rows[i].weight == Weight(rows[i].condition.Keys, dimensions)
  }

  /** The stored weights order the rows as the positions rank their conditions. */
  ghost predicate RanksStored(rows: seq<ContextRow>, dimensions: Dimensions) {
    && (forall i :: 0 <= i < |rows| ==> rows[i].condition.Keys <= dimensions.Keys)
    && (forall i, j :: 0 <= i < |rows| && 0 <= j < |rows| ==>
          (rows[i].weight < rows[j].weight
           <==> Outranks(rows[j].condition.Keys, rows[i].condition.Keys, dimensions)))
  }

  lemma WeightsRank(rows: seq<ContextRow>, dimensions: Dimensions)
    requires DistinctPositions(dimensions) && WeightsStored(rows, dimensions)
    ensures RanksStored(rows, dimensions)
  {
    forall i, j | 0 <= i < |rows| && 0 <= j < |rows|
      ensures rows[i].weight < rows[j].weight
         <==> Outranks(rows[j].condition.Keys, rows[i].condition.Keys, dimensions)
    {
      WeightOrder(rows[j].condition.Keys, rows[i].condition.Keys, dimensions);
    }
  }

  ghost predicate IdDeterminesOverride(rows: seq<ContextRow>) {
    forall i, j :: 0 <= i < |rows| && 0 <= j < |rows| && rows[i].overrideId == rows[j].overrideId ==>
      rows[i].entries == rows[j].entries
  }

  lemma {:induction false} OverrideOfRow(rows: seq<ContextRow>, i: nat)
    requires i < |rows| && IdDeterminesOverride(rows)
    ensures rows[i].overrideId in RowOverrides(rows)
    ensures RowOverrides(rows)[rows[i].overrideId] == rows[i].entries
  {
    if i < |rows| - 1 {
      OverrideOfRow(rows[..|rows| - 1], i);
    }
  }

  /** The i-th row applies and sets `key`. */
  ghost predicate RowSets(rows: seq<ContextRow>, given: map<string, Json>, i: int, key: string) {
    0 <= i < |rows| && Applies(rows[i].condition, given) && key in rows[i].entries
  }

  lemma RowSetsAsContext(rows: seq<ContextRow>, given: map<string, Json>, i: int, key: string)
    requires IdDeterminesOverride(rows)
    ensures RowSets(rows, given, i, key) <==> Sets(RowContexts(rows), RowOverrides(rows), given, i, key)
  {
    if 0 <= i < |rows| {
      OverrideOfRow(rows, i);
    }
  }

  lemma {:induction false} LastSetter(rows: seq<ContextRow>, given: map<string, Json>, key: string, upTo: nat)
    returns (winner: int)
    requires upTo <= |rows|
    ensures -1 <= winner < upTo
    ensures winner >= 0 ==> RowSets(rows, given, winner, key)
    ensures forall j :: winner < j < upTo ==> !RowSets(rows, given, j, key)
  {
    if upTo == 0 {
      winner := -1;
    } else if RowSets(rows, given, upTo - 1, key) {
      winner := upTo - 1;
    } else {
      winner := LastSetter(rows, given, key, upTo - 1);
    }
  }

  /** End to end under REPLACE: a key with some row that applies and sets it takes the value
      of one of those rows, and every other one of them is outranked by it on the highest
      dimension in which they differ, or has the same dimensions and is not newer. In
      particular no row that applies and sets the key has all the winner's dimensions and
      more. Without such a row the default stands. */
  lemma MostSpecificWins(rows: seq<ContextRow>, defaults: map<string, Json>, dimensions: Dimensions,
                         query: map<string, Json>, expand: Expansion, key: string)
    returns (winner: int)
    requires Ordered(rows) && IdDeterminesOverride(rows)
    requires DistinctPositions(dimensions) && RanksStored(rows, dimensions)
    requires key in defaults
    ensures var given := expand(dimensions, query);
            var resolved := Resolve(Generated(rows, defaults, dimensions), query, REPLACE, expand);
            if winner < 0 then
              resolved[key] == defaults[key] && forall i :: !RowSets(rows, given, i, key)
            else
              && RowSets(rows, given, winner, key)
              && resolved[key] == rows[winner].entries[key]
              && forall i :: RowSets(rows, given, i, key) && i != winner ==>
                   && !(rows[winner].condition.Keys < rows[i].condition.Keys)
                   && (Outranks(rows[winner].condition.Keys, rows[i].condition.Keys, dimensions)
                       || (rows[winner].condition.Keys == rows[i].condition.Keys
                           && rows[i].createdAt <= rows[winner].createdAt))
  {
    var given := expand(dimensions, query);
    var config := Generated(rows, defaults, dimensions);
    winner := LastSetter(rows, given, key, |rows|);
    forall i
      ensures RowSets(rows, given, i, key) <==> Sets(config.contexts, config.overrides, given, i, key)
    {
      RowSetsAsContext(rows, given, i, key);
    }
    LastSetterWins(config, query, expand, key, winner);
    if winner >= 0 {
      OverrideOfRow(rows, winner);
      forall i | RowSets(rows, given, i, key) && i != winner
        ensures Outranks(rows[winner].condition.Keys, rows[i].condition.Keys, dimensions)
             || (rows[winner].condition.Keys == rows[i].condition.Keys && rows[i].createdAt <= rows[winner].createdAt)
      {
        assert i < winner;
        if rows[i].condition.Keys != rows[winner].condition.Keys {
          OneOutranksTheOther(rows[winner].condition.Keys, rows[i].condition.Keys, dimensions);
        }
      }
    }
  }
}
