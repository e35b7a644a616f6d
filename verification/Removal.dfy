/** Deleting dimensions, and what creation and deletion keep of their dependency graphs. */
module Removal {
  import opened Wrappers
  import opened Configuration
  import opened Sequences
  import opened Dependencies
  import opened Lineages

  /** The dimension a cohort is based on, according to its type. */
  function BaseOf(info: DimensionInfo): Option<string> {
    match info.dimensionType
    case Regular => None
    case LocalCohort(base) => Some(base)
    case RemoteCohort(base) => Some(base)
  }

  // ---------- Tidy graphs ----------

  /** Every entry of a graph but that of the dimension itself is there because of another. */
  ghost predicate EntriesHaveBases(dimensions: Dimensions) {
    forall r, d {:trigger HasBaseIn(dimensions[r].dependencyGraph, d)} ::
      r in dimensions && d in dimensions[r].dependencyGraph && d != r ==> HasBaseIn(dimensions[r].dependencyGraph, d)
  }

  ghost predicate HasBaseIn(graph: Graph, d: string) {
    exists p :: p in graph && d in graph[p]
  }

  /** A dimension without cohorts has no entry for itself. */
  ghost predicate NoEmptyOwnEntry(dimensions: Dimensions) {
    forall d :: d in dimensions && d in dimensions[d].dependencyGraph ==> dimensions[d].dependencyGraph[d] != []
  }

  /** The graphs and the types of the dimensions say the same. */
  ghost predicate TypesAgree(dimensions: Dimensions) {
    forall p, c {:trigger IsBase(dimensions, p, c)} ::
      IsBase(dimensions, p, c) <==> c in dimensions && BaseOf(dimensions[c]) == Some(p)
  }

  ghost predicate Tidy(dimensions: Dimensions) {
    WellFormed(dimensions) && EntriesHaveBases(dimensions) && NoEmptyOwnEntry(dimensions) && TypesAgree(dimensions)
  }

  /** An entry of the graph of `r` is that of `r` itself, or deeper, and then `r` has one too. */
  lemma {:induction false} EntryIsDeeper(dimensions: Dimensions, r: string, d: string)
    requires Tidy(dimensions) && r in dimensions && d in dimensions[r].dependencyGraph
    ensures r in dimensions[r].dependencyGraph
    ensures d == r || LayersOf(Own(dimensions)).depth(r) < LayersOf(Own(dimensions)).depth(d)
    decreases LayersOf(Own(dimensions)).depth(d)
  {
    if d != r {
      var graph := dimensions[r].dependencyGraph;
      assert HasBaseIn(graph, d);
      var p :| p in graph && d in graph[p];
      assert Fits(dimensions, r, p);
      EntryIsDeeper(dimensions, r, p);
    }
  }

  /** The graph of a dimension is empty, so that it may be deleted, exactly when no cohort is
      based on it. */
  lemma DeletableIffNoCohorts(dimensions: Dimensions, d: string)
    requires Tidy(dimensions) && d in dimensions
    ensures dimensions[d].dependencyGraph == map[] <==> forall c :: !IsBase(dimensions, d, c)
  {
    var graph := dimensions[d].dependencyGraph;
    if graph != map[] {
      var e :| e in graph;
      EntryIsDeeper(dimensions, d, e);
      assert graph[d] != [];
      assert IsBase(dimensions, d, graph[d][0]);
    }
  }

  // ---------- Deleting a dimension ----------

  /** The list with every occurrence of `name` taken out. */
  function Without(names: seq<string>, name: string): seq<string> {
    if names == [] then []
    else
      var last := names[|names| - 1];
      Without(names[..|names| - 1], name) + if last != name then [last] else []
  }

  lemma {:induction false} WithoutMeans(names: seq<string>, name: string)
    ensures forall c :: c in Without(names, name) <==> c in names && c != name
    ensures name !in names ==> Without(names, name) == names
  {
    if names != [] {
      var init, last := names[..|names| - 1], names[|names| - 1];
      assert names == init + [last];
      WithoutMeans(init, name);
    }
  }

  lemma {:induction false} WithoutIsDistinct(names: seq<string>, name: string)
    requires Distinct(names)
    ensures Distinct(Without(names, name))
  {
    if names != [] {
      var init, last := names[..|names| - 1], names[|names| - 1];
      WithoutIsDistinct(init, name);
      WithoutMeans(init, name);
      assert last !in Without(init, name);
    }
  }

  /** A dependency graph after the cohort `name` on `base` has been deleted. It is stored only
      if it belongs to `base` or mentions it. */
  function DisconnectedGraph(d: string, graph: Graph, base: string, name: string): Graph {
    var rest := graph - {name};
    if base in rest then
      var remaining := Without(rest[base], name);
      if remaining == [] && d == base then rest - {base} else rest[base := remaining]
    else if d == base then rest
    else graph
  }

  function Disconnected(dimensions: Dimensions, base: string, name: string): Dimensions {
    map d | d in dimensions ::
      dimensions[d].(dependencyGraph := DisconnectedGraph(d, dimensions[d].dependencyGraph, base, name))
  }

  /** The loop over all dimensions that takes a deleted cohort out of their graphs. */
  method RemoveConnections(name: string, base: string, dimensions: Dimensions) returns (disconnected: Dimensions)
    ensures disconnected == Disconnected(dimensions, base, name)
  {
    disconnected := dimensions;
    var remaining := dimensions.Keys;
    while remaining != {}
      invariant remaining <= dimensions.Keys && disconnected.Keys == dimensions.Keys
      invariant forall d :: d in dimensions ==>
        disconnected[d] == if d in remaining then dimensions[d] else Disconnected(dimensions, base, name)[d]
    {
      var d :| d in remaining;
      var updated := d == base;
      var graph := disconnected[d].dependencyGraph - {name};
      if base in graph {
        graph := graph[base := Without(graph[base], name)];
        if graph[base] == [] && d == base {
          graph := graph - {base};
        }
        updated := true;
      }
      if updated {
        disconnected := disconnected[d := disconnected[d].(dependencyGraph := graph)];
      }
      remaining := remaining - {d};
    }
  }

  /** The table after a dimension has been deleted. */
  function Deleted(dimensions: Dimensions, name: string): Dimensions
    requires name in dimensions
  {
    var base := BaseOf(dimensions[name]);
    (if base.Some? then Disconnected(dimensions, base.value, name) else dimensions) - {name}
  }

  lemma DisconnectedEntry(r: string, before: Graph, base: string, name: string, d: string)
    requires base != name && (name in before && r != base ==> base in before)
    requires forall p :: p in before && name in before[p] ==> p == base
    ensures var after := DisconnectedGraph(r, before, base, name);
            && (d in after <==> d in before && d != name && !(d == r && d == base && Without(before[d], name) == []))
            && (d in after ==> after[d] == Without(before[d], name))
  {
    if d in before {
      WithoutMeans(before[d], name);
    }
  }

  /** The graphs mention a dimension only where they mention what it is based on. */
  lemma MentionedWithBase(dimensions: Dimensions, name: string, r: string)
    requires Tidy(dimensions) && name in dimensions && r in dimensions && r != name
    requires name in dimensions[r].dependencyGraph
    ensures BaseOf(dimensions[name]).Some? && BaseOf(dimensions[name]).value in dimensions[r].dependencyGraph
  {
    var graph := dimensions[r].dependencyGraph;
    assert HasBaseIn(graph, name);
    var p :| p in graph && name in graph[p];
    assert Fits(dimensions, r, p);
    assert IsBase(dimensions, p, name);
  }

  lemma NotItsOwnBase(dimensions: Dimensions, base: string, name: string)
    requires Tidy(dimensions) && name in dimensions && BaseOf(dimensions[name]) == Some(base)
    ensures IsBase(dimensions, base, name) && base != name
  {
    var layers := LayersOf(Own(dimensions));
    assert IsBase(dimensions, base, name);
    assert layers.depth(base) < layers.depth(name);
  }

  lemma OnlyUnderBase(dimensions: Dimensions, name: string, r: string, p: string)
    requires Tidy(dimensions) && name in dimensions && r in dimensions
    requires p in dimensions[r].dependencyGraph && name in dimensions[r].dependencyGraph[p]
    ensures BaseOf(dimensions[name]) == Some(p)
  {
    assert Fits(dimensions, r, p);
    assert IsBase(dimensions, p, name);
  }

  /** What the graph of `r` may say of `name` and of `r`. */
  ghost predicate Mentions(dimensions: Dimensions, name: string, r: string)
    requires name in dimensions && r in dimensions
  {
    var graph, base := dimensions[r].dependencyGraph, BaseOf(dimensions[name]);
    && (forall p :: p in graph && name in graph[p] ==> base == Some(p))
    && (name in graph ==> base.Some? && base.value in graph)
    && (r in graph ==> graph[r] != [])
    && base != Some(name)
  }

  lemma MentionsIfTidy(dimensions: Dimensions, name: string, r: string)
    requires Tidy(dimensions) && name in dimensions && r in dimensions && r != name
    ensures Mentions(dimensions, name, r)
  {
    var graph := dimensions[r].dependencyGraph;
    forall p | p in graph && name in graph[p] ensures BaseOf(dimensions[name]) == Some(p) {
      OnlyUnderBase(dimensions, name, r, p);
    }
    if name in graph {
      MentionedWithBase(dimensions, name, r);
    }
    if BaseOf(dimensions[name]).Some? {
      NotItsOwnBase(dimensions, BaseOf(dimensions[name]).value, name);
    }
    if r in graph {
      OwnEntryIsNotEmpty(dimensions, r);
    }
  }

  lemma DeletedMention(dimensions: Dimensions, name: string, r: string, d: string)
    requires name in dimensions && r in dimensions && r != name && Mentions(dimensions, name, r)
    ensures var before, after := dimensions[r].dependencyGraph, Deleted(dimensions, name)[r].dependencyGraph;
            && (d in after <==> d in before && d != name && !(d == r && Without(before[d], name) == []))
            && (d in after ==> after[d] == Without(before[d], name))
  {
    var before := dimensions[r].dependencyGraph;
    if d in before {
      WithoutMeans(before[d], name);
    }
    if BaseOf(dimensions[name]).Some? {
      DisconnectedEntry(r, before, BaseOf(dimensions[name]).value, name, d);
    }
  }

  /** Entry by entry, deletion takes the name out of every graph; of the entries left, only a
      dimension's own can disappear, namely when nothing is left of it. */
  lemma DeletedEntry(dimensions: Dimensions, name: string, r: string, d: string)
    requires Tidy(dimensions) && name in dimensions && r in dimensions && r != name
    ensures var before, after := dimensions[r].dependencyGraph, Deleted(dimensions, name)[r].dependencyGraph;
            && (d in after <==> d in before && d != name && !(d == r && Without(before[d], name) == []))
            && (d in after ==> after[d] == Without(before[d], name))
  {
    MentionsIfTidy(dimensions, name, r);
    DeletedMention(dimensions, name, r, d);
  }

  lemma OwnEntryIsNotEmpty(dimensions: Dimensions, r: string)
    requires Tidy(dimensions) && r in dimensions && r in dimensions[r].dependencyGraph
    ensures dimensions[r].dependencyGraph[r] != []
  {
  }

  /** Afterwards each dimension has the cohorts it had, but for the deleted one. */
  lemma OwnDeleted(dimensions: Dimensions, name: string, d: string)
    requires Tidy(dimensions) && name in dimensions && d in dimensions && d != name
    ensures d in Deleted(dimensions, name)
    ensures Own(Deleted(dimensions, name))[d] == Without(Own(dimensions)[d], name)
  {
    DeletedEntry(dimensions, name, d, d);
  }

  lemma OwnDeletedHas(dimensions: Dimensions, name: string)
    requires Tidy(dimensions) && name in dimensions && dimensions[name].dependencyGraph == map[]
    ensures forall p, c :: IsBase(Deleted(dimensions, name), p, c) <==> IsBase(dimensions, p, c) && c != name
  {
    forall p, c
      ensures IsBase(Deleted(dimensions, name), p, c) <==> IsBase(dimensions, p, c) && c != name
    {
      if p in dimensions && p != name {
        OwnDeleted(dimensions, name, p);
        WithoutMeans(Own(dimensions)[p], name);
      }
    }
  }

  lemma DeletedForest(dimensions: Dimensions, name: string)
    requires Tidy(dimensions) && name in dimensions && dimensions[name].dependencyGraph == map[]
    ensures Forest(Own(Deleted(dimensions, name)))
  {
    var own := Own(Deleted(dimensions, name));
    OwnDeletedHas(dimensions, name);
    forall p, c | p in own && c in own[p] ensures p in dimensions && c in Own(dimensions)[p] {
      assert IsBase(Deleted(dimensions, name), p, c);
    }
    forall p | p in own ensures Distinct(own[p]) {
      OwnDeleted(dimensions, name, p);
      WithoutIsDistinct(Own(dimensions)[p], name);
    }
    assert Layered(own, LayersOf(Own(dimensions)));
  }

  lemma DeletedFits(dimensions: Dimensions, name: string, r: string, d: string)
    requires Tidy(dimensions) && name in dimensions && dimensions[name].dependencyGraph == map[]
    requires r in Deleted(dimensions, name) && d in Deleted(dimensions, name)[r].dependencyGraph
    ensures Fits(Deleted(dimensions, name), r, d)
  {
    var before := dimensions[r].dependencyGraph;
    DeletedEntry(dimensions, name, r, d);
    assert Fits(dimensions, r, d);
    OwnDeleted(dimensions, name, d);
    WithoutMeans(before[d], name);
    forall c | c in Without(before[d], name) ensures c in Deleted(dimensions, name)[r].dependencyGraph {
      DeletedEntry(dimensions, name, r, c);
      EntryIsDeeper(dimensions, r, d);
      assert d in Own(dimensions) && c in Own(dimensions)[d];
    }
  }

  lemma DeletedEntriesHaveBases(dimensions: Dimensions, name: string, r: string, d: string)
    requires Tidy(dimensions) && name in dimensions && dimensions[name].dependencyGraph == map[]
    requires r in Deleted(dimensions, name) && d in Deleted(dimensions, name)[r].dependencyGraph && d != r
    ensures HasBaseIn(Deleted(dimensions, name)[r].dependencyGraph, d)
  {
    var before := dimensions[r].dependencyGraph;
    DeletedEntry(dimensions, name, r, d);
    assert HasBaseIn(before, d);
    var p :| p in before && d in before[p];
    assert Fits(dimensions, r, p);
    DeletedEntry(dimensions, name, r, p);
    WithoutMeans(before[p], name);
    assert d in Without(before[p], name);
  }

  /** Deleting a dimension without cohorts keeps the graphs tidy. */
  lemma DeletionKeepsTidy(dimensions: Dimensions, name: string)
    requires Tidy(dimensions) && name in dimensions && dimensions[name].dependencyGraph == map[]
    ensures Tidy(Deleted(dimensions, name))
  {
    var after := Deleted(dimensions, name);
    DeletedForest(dimensions, name);
    OwnDeletedHas(dimensions, name);
    forall p, c | p in after && c in Own(after)[p] ensures c in after && !after[c].dimensionType.Regular? {
      assert IsBase(after, p, c);
      assert IsBase(dimensions, p, c);
    }
    forall r, d | r in after && d in after[r].dependencyGraph
      ensures Fits(after, r, d) && (d != r ==> HasBaseIn(after[r].dependencyGraph, d))
      ensures d == r ==> after[r].dependencyGraph[d] != []
    {
      DeletedFits(dimensions, name, r, d);
      if d != r {
        DeletedEntriesHaveBases(dimensions, name, r, d);
      } else {
        DeletedEntry(dimensions, name, r, r);
      }
    }
    DeletedTypesAgree(dimensions, name);
  }

  lemma DeletedTypesAgree(dimensions: Dimensions, name: string)
    requires Tidy(dimensions) && name in dimensions && dimensions[name].dependencyGraph == map[]
    ensures TypesAgree(Deleted(dimensions, name))
  {
    var after := Deleted(dimensions, name);
    OwnDeletedHas(dimensions, name);
    forall p, c
      ensures IsBase(after, p, c) <==> c in after && BaseOf(after[c]) == Some(p)
    {
      assert IsBase(dimensions, p, c) <==> c in dimensions && BaseOf(dimensions[c]) == Some(p);
    }
  }

  // ---------- Creating dimensions ----------

  lemma CreatedEntry(dimensions: Dimensions, base: string, name: string, info: DimensionInfo, r: string, d: string)
    requires Tidy(dimensions) && base in dimensions && name !in dimensions && info.dependencyGraph == map[]
    requires r in dimensions && d in WithCohort(dimensions, base, name, info)[r].dependencyGraph
    ensures var before := dimensions[r].dependencyGraph;
            var after := WithCohort(dimensions, base, name, info)[r].dependencyGraph;
            && before.Keys <= after.Keys
            && (d == name ==> base in after && after[base] == Children(before, base) + [name])
            && (d == base ==> after[d] == Children(before, base) + [name])
            && (d != name && d != base ==> d in before && after[d] == before[d])
            && (d == base && base !in before ==> r == base)
  {
    NotMentionedBefore(dimensions, name, r);
    ConnectedEntry(r, dimensions[r].dependencyGraph, base, name, d);
  }

  lemma CreatedHasBase(dimensions: Dimensions, base: string, name: string, info: DimensionInfo, r: string, d: string)
    requires Tidy(dimensions) && base in dimensions && name !in dimensions && info.dependencyGraph == map[]
    requires r in dimensions && d in WithCohort(dimensions, base, name, info)[r].dependencyGraph && d != r
    ensures HasBaseIn(WithCohort(dimensions, base, name, info)[r].dependencyGraph, d)
  {
    var before, after := dimensions[r].dependencyGraph, WithCohort(dimensions, base, name, info)[r].dependencyGraph;
    CreatedEntry(dimensions, base, name, info, r, d);
    if d == name {
      assert name in after[base];
    } else {
      assert HasBaseIn(before, d);
      var p :| p in before && d in before[p];
      CreatedEntry(dimensions, base, name, info, r, p);
      assert p != name by {
        assert Fits(dimensions, r, p);
      }
      assert d in after[p];
    }
  }

  /** Creating a cohort keeps the graphs tidy. */
  lemma CreationKeepsTidy(dimensions: Dimensions, base: string, name: string, info: DimensionInfo)
    requires Tidy(dimensions) && base in dimensions && name !in dimensions
    requires info.dependencyGraph == map[] && BaseOf(info) == Some(base)
    ensures Tidy(WithCohort(dimensions, base, name, info))
  {
    var after := WithCohort(dimensions, base, name, info);
    CreationKeepsWellFormed(dimensions, base, name, info);
    forall r, d | r in after && d in after[r].dependencyGraph
      ensures d != r ==> HasBaseIn(after[r].dependencyGraph, d)
      ensures d == r ==> after[r].dependencyGraph[d] != []
    {
      CreatedEntry(dimensions, base, name, info, r, d);
      if d != r {
        CreatedHasBase(dimensions, base, name, info, r, d);
      }
    }
    CreatedTypesAgree(dimensions, base, name, info);
  }

  lemma CreatedTypesAgree(dimensions: Dimensions, base: string, name: string, info: DimensionInfo)
    requires Tidy(dimensions) && base in dimensions && name !in dimensions
    requires info.dependencyGraph == map[] && BaseOf(info) == Some(base)
    ensures TypesAgree(WithCohort(dimensions, base, name, info))
  {
    var after := WithCohort(dimensions, base, name, info);
    forall p, c
      ensures IsBase(after, p, c) <==> c in after && BaseOf(after[c]) == Some(p)
    {
      CreatedIsBase(dimensions, base, name, info, p, c);
      assert IsBase(dimensions, p, c) <==> c in dimensions && BaseOf(dimensions[c]) == Some(p);
    }
  }

  /** Creation bases the new cohort on its base, and changes nothing else. */
  lemma CreatedIsBase(dimensions: Dimensions, base: string, name: string, info: DimensionInfo, p: string, c: string)
    requires base in dimensions && name !in dimensions && info.dependencyGraph == map[]
    ensures IsBase(WithCohort(dimensions, base, name, info), p, c)
       <==> IsBase(dimensions, p, c) || (p == base && c == name)
  {
    if p in dimensions || p == name {
      OwnEntry(dimensions, base, name, info, p);
    }
  }

  lemma RegularKeepsTidy(dimensions: Dimensions, name: string, info: DimensionInfo)
    requires Tidy(dimensions) && name !in dimensions
    requires info.dependencyGraph == map[] && BaseOf(info) == None
    ensures Tidy(dimensions[name := info])
  {
    var after := dimensions[name := info];
    RegularKeepsWellFormed(dimensions, name, info);
    forall p, c
      ensures IsBase(after, p, c) <==> c in after && BaseOf(after[c]) == Some(p)
    {
      assert IsBase(dimensions, p, c) <==> c in dimensions && BaseOf(dimensions[c]) == Some(p);
    }
  }

  // ---------- Deletion undoes creation ----------

  /** In a graph that mentions the base: the new cohort goes as it came. */
  lemma MentionRestored(r: string, graph: Graph, base: string, name: string)
    requires base != name && name !in graph && base in graph && name !in graph[base]
    requires r == base ==> graph[base] != []
    ensures DisconnectedGraph(r, graph[base := graph[base] + [name]][name := []], base, name) == graph
  {
    var before, connected := graph[base], graph[base := graph[base] + [name]][name := []];
    SnocParts(before, name);
    WithoutMeans(before, name);
    assert Without(before + [name], name) == before;
    assert connected - {name} == graph[base := before + [name]];
  }

  lemma DisconnectedConnected(r: string, graph: Graph, base: string, name: string)
    requires base != name && name !in graph && (base in graph ==> name !in graph[base])
    requires r == base && base in graph ==> graph[base] != []
    ensures DisconnectedGraph(r, ConnectedGraph(r, graph, base, name), base, name) == graph
  {
    if base in graph {
      MentionRestored(r, graph, base, name);
    } else if r == base {
      var connected := graph[base := []][base := [] + [name]][name := []];
      assert ConnectedGraph(r, graph, base, name) == connected;
      SnocParts([], name);
      assert Without([] + [name], name) == [];
      assert connected - {name} - {base} == graph;
    }
  }

  lemma RestoredEntry(dimensions: Dimensions, base: string, name: string, info: DimensionInfo, r: string)
    requires base in dimensions && name !in dimensions && r in dimensions
    requires info.dependencyGraph == map[] && BaseOf(info) == Some(base)
    requires var graph := dimensions[r].dependencyGraph;
             && name !in graph && (base in graph ==> name !in graph[base])
             && (r == base && base in graph ==> graph[base] != [])
    ensures r in Deleted(WithCohort(dimensions, base, name, info), name)
    ensures Deleted(WithCohort(dimensions, base, name, info), name)[r] == dimensions[r]
  {
    DisconnectedConnected(r, dimensions[r].dependencyGraph, base, name);
  }

  /** Deleting a cohort right after its creation restores the table. */
  lemma DeletionUndoesCreation(dimensions: Dimensions, base: string, name: string, info: DimensionInfo)
    requires Tidy(dimensions) && base in dimensions && name !in dimensions
    requires info.dependencyGraph == map[] && BaseOf(info) == Some(base)
    ensures Deleted(WithCohort(dimensions, base, name, info), name) == dimensions
  {
    var after := Deleted(WithCohort(dimensions, base, name, info), name);
    forall r | r in dimensions ensures r in after && after[r] == dimensions[r] {
      NotMentionedBefore(dimensions, name, r);
      RestoredEntry(dimensions, base, name, info, r);
    }
    assert after.Keys == dimensions.Keys;
  }
}
