/** Which cohorts are computed from which dimensions, and how they are traversed. */
module Dependencies {
  import opened Configuration

  /** For each dimension, the cohorts based on it. */
  type Graph = map<string, seq<string>>

  function Children(graph: Graph, d: string): seq<string> {
    if d in graph then graph[d] else []
  }

  // ---------- Forests ----------

  /** Evidence that a graph has no cycle: depths that grow from a dimension to its cohorts. */
  datatype Layers = Layers(depth: string -> nat, bound: nat)

  ghost predicate Layered(graph: Graph, layers: Layers) {
    forall p, c :: p in graph && c in graph[p] ==> layers.depth(p) < layers.depth(c) <= layers.bound
  }

  /** No cohort is listed twice, under one dimension or under two. */
  ghost predicate OneBase(graph: Graph) {
    && (forall p, q, c :: p in graph && q in graph && c in graph[p] && c in graph[q] ==> p == q)
    && (forall p, i, j :: p in graph && 0 <= i < j < |graph[p]| ==> graph[p][i] != graph[p][j])
  }

  ghost predicate Forest(graph: Graph) {
    OneBase(graph) && exists layers :: Layered(graph, layers)
  }

  ghost function LayersOf(graph: Graph): (layers: Layers)
    requires Forest(graph)
    ensures Layered(graph, layers)
  {
    var layers :| Layered(graph, layers);
    layers
  }

  /** How far `d` is from the deepest layer. */
  ghost function Room(graph: Graph, d: string): nat
    requires Forest(graph)
  {
    var layers := LayersOf(graph);
    if layers.depth(d) <= layers.bound then layers.bound - layers.depth(d) + 1 else 0
  }

  /** The live cohorts that are reached from `d` through live cohorts only. */
  ghost function Below(graph: Graph, live: set<string>, d: string): set<string>
    requires Forest(graph)
    decreases Room(graph, d)
  {
    if d !in graph then {}
    else
      (set c | c in graph[d] && c in live) +
      (set c, x | c in graph[d] && c in live && x in Below(graph, live, c) :: x)
  }

  lemma {:induction false} BelowIsDeeper(graph: Graph, live: set<string>, d: string, x: string)
    requires Forest(graph) && x in Below(graph, live, d)
    ensures LayersOf(graph).depth(d) < LayersOf(graph).depth(x)
    decreases Room(graph, d)
  {
    if !(x in graph[d] && x in live) {
      var c :| c in graph[d] && c in live && x in Below(graph, live, c);
      BelowIsDeeper(graph, live, c, x);
    }
  }

  /** What lies below a cohort below `d` lies below `d`. */
  lemma {:induction false} BelowIsTransitive(graph: Graph, live: set<string>, d: string, x: string, y: string)
    requires Forest(graph) && x in Below(graph, live, d) && y in Below(graph, live, x)
    ensures y in Below(graph, live, d)
    decreases Room(graph, d)
  {
    if !(x in graph[d] && x in live) {
      var c :| c in graph[d] && c in live && x in Below(graph, live, c);
      BelowIsTransitive(graph, live, c, x, y);
    }
  }

  /** A set that holds the live children of `d` and of its own members holds all below `d`. */
  lemma {:induction false} ClosedHoldsBelow(graph: Graph, live: set<string>, d: string, closed: set<string>)
    requires Forest(graph)
    requires forall p, c :: (p == d || p in closed) && c in Children(graph, p) && c in live ==> c in closed
    ensures Below(graph, live, d) <= closed
    decreases Room(graph, d)
  {
    forall x | x in Below(graph, live, d)
      ensures x in closed
    {
      if x in graph[d] && x in live {
        assert x in Children(graph, d);
      } else {
        var c :| c in graph[d] && c in live && x in Below(graph, live, c);
        assert c in Children(graph, d);
        ClosedHoldsBelow(graph, live, c, closed);
      }
    }
  }

  // ---------- The depth-first traversal ----------

  /** A cohort on the stack, and the dimension it is based on. */
  datatype Pending = Pending(cohort: string, base: string)

  function Pushed(graph: Graph, d: string): (pending: seq<Pending>)
    ensures |pending| == |Children(graph, d)|
    ensures forall i :: 0 <= i < |pending| ==> pending[i] == Pending(Children(graph, d)[i], d)
  {
    seq(|Children(graph, d)|, i requires 0 <= i < |Children(graph, d)| => Pending(Children(graph, d)[i], d))
  }

  ghost predicate Based(graph: Graph, c: string, base: string, start: string, visited: set<string>) {
    c in Children(graph, base) && (base == start || base in visited)
  }

  ghost predicate OnStack(stack: seq<Pending>, c: string) {
    exists i :: 0 <= i < |stack| && stack[i].cohort == c
  }

  /** Every visited cohort is based on the start or on a visited one. */
  ghost predicate AllBased(graph: Graph, start: string, visited: set<string>) {
    forall v :: v in visited ==> exists base :: Based(graph, v, base, start, visited)
  }

  /** The stack holds different cohorts, not visited yet, each beside what it is based on. */
  ghost predicate StackSound(graph: Graph, start: string, visited: set<string>, stack: seq<Pending>) {
    && (forall i :: 0 <= i < |stack| ==>
          Based(graph, stack[i].cohort, stack[i].base, start, visited) && stack[i].cohort !in visited)
    && (forall i, j :: 0 <= i < j < |stack| ==> stack[i].cohort != stack[j].cohort)
  }

  /** No live cohort of the start or of a visited one has been forgotten. */
  ghost predicate Complete(graph: Graph, live: set<string>, start: string, visited: set<string>, stack: seq<Pending>) {
    forall p, c :: (p == start || p in visited) && c in Children(graph, p) && c in live ==>
      c in visited || OnStack(stack, c)
  }

  /** What holds between two turns of a traversal that goes on below live cohorts only. */
  ghost predicate Traversing(graph: Graph, live: set<string>, start: string, visited: set<string>, stack: seq<Pending>)
    requires Forest(graph)
  {
    && visited <= Below(graph, live, start)
    && AllBased(graph, start, visited)
    && StackSound(graph, start, visited, stack)
    && Complete(graph, live, start, visited, stack)
  }

  lemma TraversalStarts(graph: Graph, live: set<string>, start: string)
    requires Forest(graph)
    ensures Traversing(graph, live, start, {}, Pushed(graph, start))
  {
    var stack := Pushed(graph, start);
    forall c | c in Children(graph, start) ensures OnStack(stack, c) {
      var i :| 0 <= i < |Children(graph, start)| && Children(graph, start)[i] == c;
      assert stack[i].cohort == c;
    }
  }

  /** The next cohort, if live, is below the start and not visited yet. */
  lemma NextIsNew(graph: Graph, live: set<string>, start: string, visited: set<string>, stack: seq<Pending>)
    requires Forest(graph) && Traversing(graph, live, start, visited, stack) && stack != []
    requires stack[|stack| - 1].cohort in live
    ensures var next := stack[|stack| - 1];
            next.cohort in Below(graph, live, start) && next.cohort !in visited
            && next.cohort != start && next.base != next.cohort
  {
    var next := stack[|stack| - 1];
    assert Based(graph, next.cohort, next.base, start, visited);
    if next.base != start {
      assert next.cohort in Below(graph, live, next.base);
      BelowIsTransitive(graph, live, start, next.base, next.cohort);
    }
    BelowIsDeeper(graph, live, start, next.cohort);
  }

  lemma PopDead(graph: Graph, live: set<string>, start: string, visited: set<string>, stack: seq<Pending>)
    requires Forest(graph) && Traversing(graph, live, start, visited, stack) && stack != []
    requires stack[|stack| - 1].cohort !in live
    ensures Traversing(graph, live, start, visited, stack[..|stack| - 1])
  {
    var rest := stack[..|stack| - 1];
    forall p, c | (p == start || p in visited) && c in Children(graph, p) && c in live && c !in visited
      ensures OnStack(rest, c)
    {
      StaysInRest(stack, c);
    }
  }

  lemma StaysInRest(stack: seq<Pending>, c: string)
    requires stack != [] && OnStack(stack, c) && c != stack[|stack| - 1].cohort
    ensures OnStack(stack[..|stack| - 1], c)
  {
    var i :| 0 <= i < |stack| && stack[i].cohort == c;
    assert stack[..|stack| - 1][i].cohort == c;
  }

  /** The cohorts of a newly visited one are neither visited nor on the stack. */
  lemma ChildrenAreNew(graph: Graph, live: set<string>, start: string, visited: set<string>, stack: seq<Pending>,
                       c: string)
    requires Forest(graph) && Traversing(graph, live, start, visited, stack)
    requires c !in visited && c != start
    ensures forall x :: x in Children(graph, c) ==> x !in visited && !OnStack(stack, x)
  {
  }

  /** The next cohort gives way to its own cohorts. */
  function Advanced(graph: Graph, stack: seq<Pending>): seq<Pending>
    requires stack != []
  {
    stack[..|stack| - 1] + Pushed(graph, stack[|stack| - 1].cohort)
  }

  lemma PopLive(graph: Graph, live: set<string>, start: string, visited: set<string>, stack: seq<Pending>)
    requires Forest(graph) && Traversing(graph, live, start, visited, stack) && stack != []
    requires stack[|stack| - 1].cohort in live
    ensures Traversing(graph, live, start, visited + {stack[|stack| - 1].cohort}, Advanced(graph, stack))
  {
    NextIsNew(graph, live, start, visited, stack);
    OneMoreBased(graph, start, visited, stack);
    AdvancedIsSound(graph, live, start, visited, stack);
    AdvancedIsComplete(graph, live, start, visited, stack);
  }

  lemma OneMoreBased(graph: Graph, start: string, visited: set<string>, stack: seq<Pending>)
    requires AllBased(graph, start, visited) && StackSound(graph, start, visited, stack) && stack != []
    ensures AllBased(graph, start, visited + {stack[|stack| - 1].cohort})
  {
    var next := stack[|stack| - 1];
    forall v | v in visited + {next.cohort}
      ensures exists base :: Based(graph, v, base, start, visited + {next.cohort})
    {
      if v in visited {
        var base :| Based(graph, v, base, start, visited);
        assert Based(graph, v, base, start, visited + {next.cohort});
      } else {
        assert Based(graph, next.cohort, next.base, start, visited + {next.cohort});
      }
    }
  }

  lemma AdvancedIsComplete(graph: Graph, live: set<string>, start: string, visited: set<string>, stack: seq<Pending>)
    requires Complete(graph, live, start, visited, stack) && stack != []
    ensures Complete(graph, live, start, visited + {stack[|stack| - 1].cohort}, Advanced(graph, stack))
  {
    var c := stack[|stack| - 1].cohort;
    forall p, x | (p == start || p in visited + {c}) && x in Children(graph, p) && x in live && x !in visited + {c}
      ensures OnStack(Advanced(graph, stack), x)
    {
      if p == c {
        PushedIsOnStack(graph, stack, x);
      } else {
        StaysOnStack(graph, stack, x);
      }
    }
  }

  lemma PushedIsOnStack(graph: Graph, stack: seq<Pending>, x: string)
    requires stack != [] && x in Children(graph, stack[|stack| - 1].cohort)
    ensures OnStack(Advanced(graph, stack), x)
  {
    var children := Children(graph, stack[|stack| - 1].cohort);
    var i :| 0 <= i < |children| && children[i] == x;
    assert Advanced(graph, stack)[|stack| - 1 + i].cohort == x;
  }

  lemma StaysOnStack(graph: Graph, stack: seq<Pending>, x: string)
    requires stack != [] && OnStack(stack, x) && x != stack[|stack| - 1].cohort
    ensures OnStack(Advanced(graph, stack), x)
  {
    var i :| 0 <= i < |stack| && stack[i].cohort == x;
    assert Advanced(graph, stack)[i].cohort == x;
  }

  lemma AdvancedIsSound(graph: Graph, live: set<string>, start: string, visited: set<string>, stack: seq<Pending>)
    requires Forest(graph) && Traversing(graph, live, start, visited, stack) && stack != []
    requires stack[|stack| - 1].cohort in live
    ensures StackSound(graph, start, visited + {stack[|stack| - 1].cohort}, Advanced(graph, stack))
  {
    var c := stack[|stack| - 1].cohort;
    var rest, pushed := stack[..|stack| - 1], Pushed(graph, c);
    var stack', visited' := Advanced(graph, stack), visited + {c};
    NextIsNew(graph, live, start, visited, stack);
    ChildrenAreNew(graph, live, start, visited, stack, c);
    forall i | 0 <= i < |stack'|
      ensures Based(graph, stack'[i].cohort, stack'[i].base, start, visited') && stack'[i].cohort !in visited'
    {
      if i < |rest| {
        assert Based(graph, stack[i].cohort, stack[i].base, start, visited);
        assert stack[i].cohort != stack[|stack| - 1].cohort;
      } else {
        assert pushed[i - |rest|].cohort in Children(graph, c);
        assert c in graph && LayersOf(graph).depth(c) < LayersOf(graph).depth(pushed[i - |rest|].cohort);
      }
    }
    forall i, j | 0 <= i < j < |stack'|
      ensures stack'[i].cohort != stack'[j].cohort
    {
      if j >= |rest| {
        assert pushed[j - |rest|].cohort in Children(graph, c);
        if i < |rest| {
          assert OnStack(stack, stack[i].cohort);
        }
      }
    }
  }

  /** With the stack empty, exactly the live cohorts below the start have been visited. */
  lemma TraversalEnds(graph: Graph, live: set<string>, start: string, visited: set<string>)
    requires Forest(graph) && Traversing(graph, live, start, visited, [])
    ensures visited == Below(graph, live, start)
  {
    ClosedHoldsBelow(graph, live, start, visited);
  }

  /** A live cohort of `d`, or of something below `d`, lies below `d`. */
  lemma {:induction false} ChildIsBelow(graph: Graph, live: set<string>, d: string, p: string, c: string)
    requires Forest(graph) && (p == d || p in Below(graph, live, d)) && c in Children(graph, p) && c in live
    ensures c in Below(graph, live, d)
  {
    if p != d {
      assert c in Below(graph, live, p);
      BelowIsTransitive(graph, live, d, p, c);
    }
  }

  // ---------- The dimensions of a workspace ----------

  /** The cohorts based on each dimension, as its own dependency graph lists them. */
  function Own(dimensions: Dimensions): Graph {
    map d | d in dimensions :: Children(dimensions[d].dependencyGraph, d)
  }

  /** The cohorts are known, and not regular. */
  ghost predicate CohortsKnown(dimensions: Dimensions) {
    forall p, c :: p in dimensions && c in Own(dimensions)[p] ==>
      c in dimensions && !dimensions[c].dimensionType.Regular?
  }

  /** What the graph of `r` says of `d` is what the graph of `d` says, and it goes on from there. */
  ghost predicate Fits(dimensions: Dimensions, r: string, d: string)
    requires r in dimensions && d in dimensions[r].dependencyGraph
  {
    && d in dimensions
    && dimensions[r].dependencyGraph[d] == Own(dimensions)[d]
    && forall c :: c in dimensions[r].dependencyGraph[d] ==> c in dimensions[r].dependencyGraph
  }

  /** The dependency graphs of the dimensions fit together: they form one forest of known
      cohorts, and each of them agrees with the others and goes all the way down. */
  ghost predicate WellFormed(dimensions: Dimensions) {
    && Forest(Own(dimensions))
    && CohortsKnown(dimensions)
    && (forall r, d {:trigger Fits(dimensions, r, d)} ::
          r in dimensions && d in dimensions[r].dependencyGraph ==> Fits(dimensions, r, d))
  }

  // ---------- Creating dimensions ----------

  /** A dependency graph after a cohort on `base` has been created: where `base` occurs, or in
      the graph of `base` itself, the new cohort is appended to it. */
  function ConnectedGraph(d: string, graph: Graph, base: string, name: string): Graph {
    var based := if d == base && base !in graph then graph[base := []] else graph;
    if base in based then based[base := based[base] + [name]][name := []] else based
  }

  function Connected(dimensions: Dimensions, base: string, name: string): Dimensions {
    map d | d in dimensions ::
      dimensions[d].(dependencyGraph := ConnectedGraph(d, dimensions[d].dependencyGraph, base, name))
  }

  /** The loop over all dimensions that records a new cohort in their graphs. */
  method CreateConnections(base: string, name: string, dimensions: Dimensions)
    returns (connected: Dimensions)
    ensures connected == Connected(dimensions, base, name)
  {
    connected := dimensions;
    var remaining := dimensions.Keys;
    while remaining != {}
      invariant remaining <= dimensions.Keys && connected.Keys == dimensions.Keys
      invariant forall d :: d in dimensions ==>
        connected[d] == if d in remaining then dimensions[d] else Connected(dimensions, base, name)[d]
    {
      var d :| d in remaining;
      var graph := connected[d].dependencyGraph;
      if d == base && base !in graph {
        graph := graph[base := []];
      }
      if base in graph {
        graph := graph[base := graph[base] + [name]];
        graph := graph[name := []];
      }
      connected := connected[d := connected[d].(dependencyGraph := graph)];
      remaining := remaining - {d};
    }
  }

  /** The table after a cohort has been created on a known dimension. */
  function WithCohort(dimensions: Dimensions, base: string, name: string, info: DimensionInfo)
    : Dimensions
  {
    Connected(dimensions, base, name)[name := info]
  }

  lemma OwnWithCohort(dimensions: Dimensions, base: string, name: string, info: DimensionInfo)
    requires base in dimensions && name !in dimensions && info.dependencyGraph == map[]
    ensures Own(WithCohort(dimensions, base, name, info))
         == Own(dimensions)[base := Own(dimensions)[base] + [name]][name := []]
  {
    var grown := Own(dimensions)[base := Own(dimensions)[base] + [name]][name := []];
    var created := Own(WithCohort(dimensions, base, name, info));
    assert created.Keys == grown.Keys;
    forall d | d in grown ensures created[d] == grown[d] {
      OwnEntry(dimensions, base, name, info, d);
    }
  }

  lemma OwnEntry(dimensions: Dimensions, base: string, name: string, info: DimensionInfo, d: string)
    requires base in dimensions && name !in dimensions && info.dependencyGraph == map[]
    requires d in dimensions || d == name
    ensures Own(WithCohort(dimensions, base, name, info))[d]
         == if d == name then [] else if d == base then Own(dimensions)[base] + [name] else Own(dimensions)[d]
  {
  }

  lemma GrownForest(graph: Graph, base: string, name: string)
    requires Forest(graph) && base in graph && name !in graph
    requires forall p :: p in graph ==> name !in graph[p]
    ensures Forest(graph[base := graph[base] + [name]][name := []])
  {
    var grown := graph[base := graph[base] + [name]][name := []];
    var layers := LayersOf(graph);
    var deep := layers.depth(base) + 1;
    var depth := (d: string) => if d == name then deep else layers.depth(d);
    var grownLayers := Layers(depth, if layers.bound < deep then deep else layers.bound);
    assert Layered(grown, grownLayers);
    assert OneBase(grown);
  }

  lemma NotMentionedBefore(dimensions: Dimensions, name: string, r: string)
    requires WellFormed(dimensions) && name !in dimensions && r in dimensions
    ensures name !in dimensions[r].dependencyGraph
    ensures forall p :: p in dimensions[r].dependencyGraph ==> name !in dimensions[r].dependencyGraph[p]
  {
    var graph := dimensions[r].dependencyGraph;
    forall d | d in graph ensures d in dimensions && forall c :: c in graph[d] ==> c in graph {
      assert Fits(dimensions, r, d);
    }
  }

  lemma CreatedFits(dimensions: Dimensions, base: string, name: string, info: DimensionInfo,
                    r: string, d: string)
    requires WellFormed(dimensions) && base in dimensions && name !in dimensions && info.dependencyGraph == map[]
    requires var created := WithCohort(dimensions, base, name, info);
             r in created && d in created[r].dependencyGraph
    ensures Fits(WithCohort(dimensions, base, name, info), r, d)
  {
    var graph := dimensions[r].dependencyGraph;
    assert r in dimensions;
    NotMentionedBefore(dimensions, name, r);
    if d in graph {
      assert Fits(dimensions, r, d);
    }
    ConnectedEntry(r, graph, base, name, d);
    OwnEntry(dimensions, base, name, info, d);
  }

  /** The entries of a graph in which a new cohort has been recorded. */
  lemma ConnectedEntry(r: string, graph: Graph, base: string, name: string, d: string)
    requires base != name && name !in graph && d in ConnectedGraph(r, graph, base, name)
    ensures var connected := ConnectedGraph(r, graph, base, name);
            && graph.Keys <= connected.Keys
            && (d == name ==> connected[d] == [])
            && (d == base ==> connected[d] == Children(graph, base) + [name] && name in connected)
            && (d != name && d != base ==> d in graph && connected[d] == graph[d])
            && (d == base && base !in graph ==> r == base)
  {
  }

  lemma CreatedCohortsKnown(dimensions: Dimensions, base: string, name: string, info: DimensionInfo)
    requires CohortsKnown(dimensions) && base in dimensions && name !in dimensions
    requires info.dependencyGraph == map[] && !info.dimensionType.Regular?
    ensures CohortsKnown(WithCohort(dimensions, base, name, info))
  {
    OwnWithCohort(dimensions, base, name, info);
    var created := WithCohort(dimensions, base, name, info);
    forall p, c | p in created && c in Own(created)[p]
      ensures c in created && !created[c].dimensionType.Regular?
    {
      assert c == name || (p in dimensions && c in Own(dimensions)[p]);
    }
  }

  /** Creating a cohort on a known dimension keeps the graphs a well-formed forest. */
  lemma CreationKeepsWellFormed(dimensions: Dimensions, base: string, name: string, info: DimensionInfo)
    requires WellFormed(dimensions) && base in dimensions && name !in dimensions
    requires info.dependencyGraph == map[] && !info.dimensionType.Regular?
    ensures WellFormed(WithCohort(dimensions, base, name, info))
  {
    var created := WithCohort(dimensions, base, name, info);
    OwnWithCohort(dimensions, base, name, info);
    GrownForest(Own(dimensions), base, name);
    CreatedCohortsKnown(dimensions, base, name, info);
    forall r, d | r in created && d in created[r].dependencyGraph ensures Fits(created, r, d) {
      CreatedFits(dimensions, base, name, info, r, d);
    }
  }

  /** So does creating a regular dimension. */
  lemma RegularKeepsWellFormed(dimensions: Dimensions, name: string, info: DimensionInfo)
    requires WellFormed(dimensions) && name !in dimensions
    requires info.dependencyGraph == map[] && info.dimensionType.Regular?
    ensures WellFormed(dimensions[name := info])
  {
    var created := dimensions[name := info];
    assert Own(created) == Own(dimensions)[name := []];
    LonelyForest(Own(dimensions), name);
    forall r, d | r in created && d in created[r].dependencyGraph ensures Fits(created, r, d) {
      assert Fits(dimensions, r, d);
    }
  }

  lemma LonelyForest(graph: Graph, name: string)
    requires Forest(graph) && name !in graph
    ensures Forest(graph[name := []])
  {
    assert Layered(graph[name := []], LayersOf(graph));
  }

  lemma EmptyIsWellFormed()
    ensures WellFormed(map[])
  {
    assert Layered(Own(map[]), Layers(d => 0, 0));
  }
}
