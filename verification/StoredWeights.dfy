/** What becomes of the stored weights of contexts when dimensions come, go and move: they are
    not computed anew. */
module StoredWeights {
  import opened JsonValues
  import opened Matching
  import opened Configuration
  import opened Resolution
  import opened ResolutionLaws
  import opened Weights
  import opened Workspaces
  import opened Cascade

  // ---------- Ranks ----------

  /** The dimensions of `names` are in the same order in both tables. */
  ghost predicate SameOrder(one: Dimensions, other: Dimensions, names: set<string>) {
    && names <= one.Keys && names <= other.Keys
    && forall x, y :: x in names && y in names ==>
         (Rank(x, one) < Rank(y, one) <==> Rank(x, other) < Rank(y, other))
  }

  ghost function Differing(a: set<string>, b: set<string>): set<string> {
    (a - b) + (b - a)
  }

  lemma DifferingWithin(names: set<string>, a: set<string>, b: set<string>)
    requires a <= names && b <= names
    ensures Differing(a, b) <= names
  {
  }

  /** Only the dimensions in which two sets differ decide which outranks the other. */
  lemma SameOrderSameRanks(one: Dimensions, other: Dimensions, names: set<string>, a: set<string>, b: set<string>)
    requires SameOrder(one, other, names) && Differing(a, b) <= names
    requires a <= one.Keys && b <= one.Keys && a <= other.Keys && b <= other.Keys
    ensures Outranks(a, b, one) <==> Outranks(a, b, other)
  {
    if Outranks(a, b, one) {
      var top :| top in a - b && forall d :: d in b - a ==> Rank(d, one) < Rank(top, one);
      assert forall d :: d in b - a ==> Rank(d, other) < Rank(top, other);
    }
    if Outranks(a, b, other) {
      var top :| top in a - b && forall d :: d in b - a ==> Rank(d, other) < Rank(top, other);
      assert forall d :: d in b - a ==> Rank(d, one) < Rank(top, one);
    }
  }

  lemma SameOrderKeepsRanks(one: Dimensions, other: Dimensions, names: set<string>, rows: seq<ContextRow>)
    requires SameOrder(one, other, names) && RanksStored(rows, one)
    requires forall i :: 0 <= i < |rows| ==> rows[i].condition.Keys <= names
    ensures RanksStored(rows, other)
  {
    forall i, j | 0 <= i < |rows| && 0 <= j < |rows|
      ensures rows[i].weight < rows[j].weight
         <==> Outranks(rows[j].condition.Keys, rows[i].condition.Keys, other)
    {
      DifferingWithin(names, rows[j].condition.Keys, rows[i].condition.Keys);
      SameOrderSameRanks(one, other, names, rows[j].condition.Keys, rows[i].condition.Keys);
    }
  }

  lemma RankIsPosition(dimensions: Dimensions, d: string)
    requires Compact(dimensions) && d in dimensions
    ensures Rank(d, dimensions) == dimensions[d].position
  {
  }

  lemma SingleOutranks(dimensions: Dimensions, x: string, y: string)
    requires x in dimensions && y in dimensions && x != y
    ensures Outranks({x}, {y}, dimensions) <==> Rank(y, dimensions) < Rank(x, dimensions)
  {
    assert {x} - {y} == {x} && {y} - {x} == {y};
  }

  // ---------- Creating and deleting ----------

  /** Creating a dimension keeps the order of the rows that are already stored. */
  lemma CreationKeepsRanks(dimensions: Dimensions, asked: NewDimension, rows: seq<ContextRow>)
    requires Sound(dimensions) && CanCreate(dimensions, asked) && RanksStored(rows, dimensions)
    ensures CanShift(dimensions) && RanksStored(rows, Created(dimensions, asked))
  {
    CompactCanShift(dimensions);
    CreationOrder(dimensions, asked);
    SameOrderKeepsRanks(dimensions, Created(dimensions, asked), dimensions.Keys, rows);
  }

  lemma CreatedRank(dimensions: Dimensions, asked: NewDimension, d: string)
    requires CanShift(dimensions) && CanCreate(dimensions, asked) && d in dimensions
    ensures d in Created(dimensions, asked)
    ensures Rank(d, Created(dimensions, asked))
         == Rank(d, dimensions) + if dimensions[d].position >= asked.position then 1 else 0
  {
    CreatedRow(dimensions, asked, d);
  }

  lemma CreationOrder(dimensions: Dimensions, asked: NewDimension)
    requires CanShift(dimensions) && CanCreate(dimensions, asked)
    ensures SameOrder(dimensions, Created(dimensions, asked), dimensions.Keys)
  {
    var created := Created(dimensions, asked);
    forall d | d in dimensions ensures d in created {
      CreatedRank(dimensions, asked, d);
    }
    forall x, y | x in dimensions && y in dimensions
      ensures Rank(x, dimensions) < Rank(y, dimensions) <==> Rank(x, created) < Rank(y, created)
    {
      CreatedRank(dimensions, asked, x);
      CreatedRank(dimensions, asked, y);
    }
  }

  /** So does deleting one that no stored row mentions. */
  lemma DeletionKeepsRanks(dimensions: Dimensions, name: string, rows: seq<ContextRow>)
    requires Sound(dimensions) && CanDelete(dimensions, name) && RanksStored(rows, dimensions)
    requires forall i :: 0 <= i < |rows| ==> name !in rows[i].condition
    ensures RanksStored(rows, WithoutDimension(dimensions, name))
  {
    var after := WithoutDimension(dimensions, name);
    DeletionOrder(dimensions, name);
    SameOrderKeepsRanks(dimensions, after, dimensions.Keys - {name}, rows);
  }

  lemma DeletionOrder(dimensions: Dimensions, name: string)
    requires Compact(dimensions) && name in dimensions
    ensures SameOrder(dimensions, WithoutDimension(dimensions, name), dimensions.Keys - {name})
  {
    var after, others := WithoutDimension(dimensions, name), dimensions.Keys - {name};
    DeletedRows(dimensions, name);
    DeletionKeepsCompact(dimensions, name);
    forall x, y | x in others && y in others
      ensures Rank(x, dimensions) < Rank(y, dimensions) <==> Rank(x, after) < Rank(y, after)
    {
      RankIsPosition(dimensions, x);
      RankIsPosition(dimensions, y);
      RankIsPosition(after, x);
      RankIsPosition(after, y);
      assert dimensions[x].position != dimensions[name].position && dimensions[y].position != dimensions[name].position;
    }
  }

  // ---------- Moving ----------

  /** The dimension passes `d` when it moves. */
  predicate Passed(dimensions: Dimensions, name: string, to: Int32, d: string)
    requires name in dimensions && d in dimensions
  {
    Shifted(dimensions[d].position, dimensions[name].position, to) != dimensions[d].position
  }

  /** The highest dimension but `name` that only one of the two sets has. */
  ghost predicate HighestOther(a: set<string>, b: set<string>, dimensions: Dimensions, name: string, top: string)
    requires a <= dimensions.Keys && b <= dimensions.Keys
  {
    && top in Differing(a, b) - {name}
    && forall d :: d in Differing(a, b) - {name} ==> Rank(d, dimensions) <= Rank(top, dimensions)
  }

  /** Only `a` has the dimension that moves, and the highest other one in which the two differ
      is of `b`, and is passed. */
  ghost predicate Crossed(a: set<string>, b: set<string>, dimensions: Dimensions, name: string, to: Int32)
    requires a <= dimensions.Keys && b <= dimensions.Keys && name in dimensions
  {
    && name in a && name !in b
    && exists top :: top in b && HighestOther(a, b, dimensions, name, top) && Passed(dimensions, name, to, top)
  }

  lemma MovedRows(dimensions: Dimensions, name: string, to: Int32)
    requires Sound(dimensions) && CanMove(dimensions, name, to)
    ensures var moved := Moved(dimensions, name, to);
            moved.Keys == dimensions.Keys && Compact(dimensions) && Compact(moved)
  {
    MoveKeepsRows(dimensions, name, to);
  }

  /** The other dimensions keep their order. */
  lemma OthersKeepOrder(dimensions: Dimensions, name: string, to: Int32, x: string, y: string)
    requires Compact(dimensions) && name in dimensions && Compact(Moved(dimensions, name, to))
    requires x in dimensions && y in dimensions && x != name && y != name
    ensures Rank(x, dimensions) < Rank(y, dimensions)
       <==> Rank(x, Moved(dimensions, name, to)) < Rank(y, Moved(dimensions, name, to))
  {
    RankIsPosition(dimensions, x);
    RankIsPosition(dimensions, y);
    RankIsPosition(Moved(dimensions, name, to), x);
    RankIsPosition(Moved(dimensions, name, to), y);
    assert dimensions[x].position != dimensions[name].position && dimensions[y].position != dimensions[name].position;
    MoveKeepsOrder(dimensions[x].position, dimensions[y].position, dimensions[name].position, to);
  }

  /** Another dimension changes sides with the one that moves when it is passed. */
  lemma PassedChangesSides(dimensions: Dimensions, name: string, to: Int32, d: string)
    requires Compact(dimensions) && name in dimensions && Compact(Moved(dimensions, name, to))
    requires d in dimensions && d != name
    ensures (Rank(d, Moved(dimensions, name, to)) < Rank(name, Moved(dimensions, name, to))
             <==> Rank(d, dimensions) < Rank(name, dimensions))
       <==> !Passed(dimensions, name, to, d)
  {
    RankIsPosition(dimensions, d);
    RankIsPosition(dimensions, name);
    RankIsPosition(Moved(dimensions, name, to), d);
    RankIsPosition(Moved(dimensions, name, to), name);
    assert dimensions[d].position != dimensions[name].position;
  }

  lemma MovedOrder(dimensions: Dimensions, name: string, to: Int32)
    requires Compact(dimensions) && name in dimensions && Compact(Moved(dimensions, name, to))
    ensures SameOrder(dimensions, Moved(dimensions, name, to), dimensions.Keys - {name})
  {
    var moved, others := Moved(dimensions, name, to), dimensions.Keys - {name};
    assert moved.Keys == dimensions.Keys;
    forall x, y | x in others && y in others
      ensures Rank(x, dimensions) < Rank(y, dimensions) <==> Rank(x, moved) < Rank(y, moved)
    {
      OthersKeepOrder(dimensions, name, to, x, y);
    }
  }

  /** Without another difference, or with a highest one of its own, `a` is above. */
  lemma OwnHighestOutranks(dimensions: Dimensions, a: set<string>, b: set<string>, name: string)
    requires a <= dimensions.Keys && b <= dimensions.Keys && DistinctPositions(dimensions)
    requires name in a - b
    requires forall top :: HighestOther(a, b, dimensions, name, top) ==> top in a
    ensures Outranks(a, b, dimensions)
  {
    var others := Differing(a, b) - {name};
    if others == {} {
      assert b - a <= others;
    } else {
      var top := HighestRank(others, dimensions);
      assert HighestOther(a, b, dimensions, name, top);
      HighestOutranks(a, b, dimensions, top);
    }
  }

  /** With a highest other difference of `b`, `a` is above exactly when `name` is above that. */
  lemma OthersHighestDecides(dimensions: Dimensions, a: set<string>, b: set<string>, name: string, top: string)
    requires a <= dimensions.Keys && b <= dimensions.Keys && DistinctPositions(dimensions)
    requires name in a - b && top in b && HighestOther(a, b, dimensions, name, top)
    ensures Outranks(a, b, dimensions) <==> Rank(top, dimensions) < Rank(name, dimensions)
  {
    if Outranks(a, b, dimensions) {
      var highest :| highest in a - b && forall d :: d in b - a ==> Rank(d, dimensions) < Rank(highest, dimensions);
      assert highest != name ==> highest in Differing(a, b) - {name};
    }
    if Rank(top, dimensions) < Rank(name, dimensions) {
      forall d | d in b - a ensures Rank(d, dimensions) < Rank(name, dimensions) {
        assert d in Differing(a, b) - {name};
      }
    }
  }

  lemma SameHighestOther(one: Dimensions, other: Dimensions, a: set<string>, b: set<string>, name: string, top: string)
    requires one.Keys == other.Keys && SameOrder(one, other, one.Keys - {name})
    requires a <= one.Keys && b <= one.Keys
    ensures HighestOther(a, b, one, name, top) <==> HighestOther(a, b, other, name, top)
  {
  }

  lemma HighestIsUnique(dimensions: Dimensions, a: set<string>, b: set<string>, name: string, x: string, y: string)
    requires a <= dimensions.Keys && b <= dimensions.Keys && Compact(dimensions)
    requires HighestOther(a, b, dimensions, name, x) && HighestOther(a, b, dimensions, name, y)
    ensures x == y
  {
    RankIsPosition(dimensions, x);
    RankIsPosition(dimensions, y);
  }

  /** The ranks of two sets only one of which has the dimension that moves, when the other has
      the highest other difference. */
  lemma MoveSwapsIffPassed(dimensions: Dimensions, name: string, to: Int32, a: set<string>, b: set<string>, top: string)
    requires Compact(dimensions) && name in dimensions && Compact(Moved(dimensions, name, to))
    requires a <= dimensions.Keys && b <= dimensions.Keys && name in a - b
    requires top in b && HighestOther(a, b, dimensions, name, top)
    ensures Moved(dimensions, name, to).Keys == dimensions.Keys
    ensures (Outranks(a, b, Moved(dimensions, name, to)) <==> Outranks(a, b, dimensions))
       <==> !Passed(dimensions, name, to, top)
  {
    var moved := Moved(dimensions, name, to);
    assert moved.Keys == dimensions.Keys;
    MovedOrder(dimensions, name, to);
    SameHighestOther(dimensions, moved, a, b, name, top);
    OthersHighestDecides(dimensions, a, b, name, top);
    OthersHighestDecides(moved, a, b, name, top);
    PassedChangesSides(dimensions, name, to, top);
  }

  /** The same when it has not. */
  lemma OwnHighestStaysAbove(dimensions: Dimensions, name: string, to: Int32, a: set<string>, b: set<string>)
    requires Compact(dimensions) && name in dimensions && Compact(Moved(dimensions, name, to))
    requires a <= dimensions.Keys && b <= dimensions.Keys && name in a - b
    requires forall top :: HighestOther(a, b, dimensions, name, top) ==> top in a
    ensures Moved(dimensions, name, to).Keys == dimensions.Keys
    ensures Outranks(a, b, Moved(dimensions, name, to)) && Outranks(a, b, dimensions)
  {
    var moved := Moved(dimensions, name, to);
    assert moved.Keys == dimensions.Keys;
    MovedOrder(dimensions, name, to);
    forall top ensures HighestOther(a, b, moved, name, top) ==> top in a {
      SameHighestOther(dimensions, moved, a, b, name, top);
    }
    OwnHighestOutranks(dimensions, a, b, name);
    OwnHighestOutranks(moved, a, b, name);
  }

  /** Of two sets only one of which has the dimension that moves, the ranks change exactly when
      they are crossed. */
  lemma MoveSwapsIffCrossed(dimensions: Dimensions, name: string, to: Int32, a: set<string>, b: set<string>)
    requires Compact(dimensions) && name in dimensions && Compact(Moved(dimensions, name, to))
    requires a <= dimensions.Keys && b <= dimensions.Keys && name in a - b
    ensures Moved(dimensions, name, to).Keys == dimensions.Keys
    ensures (Outranks(a, b, Moved(dimensions, name, to)) <==> Outranks(a, b, dimensions))
       <==> !Crossed(a, b, dimensions, name, to)
  {
    if top :| top in b && HighestOther(a, b, dimensions, name, top) {
      MoveSwapsIffPassed(dimensions, name, to, a, b, top);
      forall other | HighestOther(a, b, dimensions, name, other) ensures other == top {
        HighestIsUnique(dimensions, a, b, name, other, top);
      }
    } else {
      forall top | HighestOther(a, b, dimensions, name, top) ensures top in a {
        assert top in Differing(a, b);
      }
      OwnHighestStaysAbove(dimensions, name, to, a, b);
    }
  }

  lemma NotBothOutrank(dimensions: Dimensions, a: set<string>, b: set<string>)
    requires a <= dimensions.Keys && b <= dimensions.Keys && DistinctPositions(dimensions) && a != b
    ensures Outranks(a, b, dimensions) <==> !Outranks(b, a, dimensions)
  {
    WeightOrder(a, b, dimensions);
    WeightOrder(b, a, dimensions);
  }

  /** Sets that are not crossed keep their ranks. */
  lemma UncrossedKeepRanks(dimensions: Dimensions, name: string, to: Int32, a: set<string>, b: set<string>)
    requires Compact(dimensions) && name in dimensions && Compact(Moved(dimensions, name, to))
    requires a <= dimensions.Keys && b <= dimensions.Keys
    requires !Crossed(a, b, dimensions, name, to) && !Crossed(b, a, dimensions, name, to)
    ensures Moved(dimensions, name, to).Keys == dimensions.Keys
    ensures Outranks(a, b, Moved(dimensions, name, to)) <==> Outranks(a, b, dimensions)
  {
    var moved := Moved(dimensions, name, to);
    assert moved.Keys == dimensions.Keys;
    if name in a - b {
      MoveSwapsIffCrossed(dimensions, name, to, a, b);
    } else if name in b - a {
      MoveSwapsIffCrossed(dimensions, name, to, b, a);
      NotBothOutrank(dimensions, a, b);
      NotBothOutrank(moved, a, b);
    } else {
      MovedOrder(dimensions, name, to);
      SameOrderSameRanks(dimensions, moved, dimensions.Keys - {name}, a, b);
    }
  }

  ghost predicate NoneCrossed(rows: seq<ContextRow>, dimensions: Dimensions, name: string, to: Int32)
    requires name in dimensions && forall i :: 0 <= i < |rows| ==> rows[i].condition.Keys <= dimensions.Keys
  {
    forall i, j :: 0 <= i < |rows| && 0 <= j < |rows| ==>
      !Crossed(rows[i].condition.Keys, rows[j].condition.Keys, dimensions, name, to)
  }

  /** Moving a dimension keeps the order of the rows that are stored exactly when no two of them
      are crossed. */
  lemma MoveKeepsRanksIff(dimensions: Dimensions, name: string, to: Int32, rows: seq<ContextRow>)
    requires Sound(dimensions) && CanMove(dimensions, name, to) && RanksStored(rows, dimensions)
    ensures RanksStored(rows, Moved(dimensions, name, to)) <==> NoneCrossed(rows, dimensions, name, to)
  {
    MovedRows(dimensions, name, to);
    if NoneCrossed(rows, dimensions, name, to) {
      UncrossedKeepOrder(dimensions, name, to, rows);
    } else {
      var i, j :| 0 <= i < |rows| && 0 <= j < |rows|
        && Crossed(rows[i].condition.Keys, rows[j].condition.Keys, dimensions, name, to);
      MoveSwapsIffCrossed(dimensions, name, to, rows[i].condition.Keys, rows[j].condition.Keys);
    }
  }

  lemma UncrossedKeepOrder(dimensions: Dimensions, name: string, to: Int32, rows: seq<ContextRow>)
    requires Compact(dimensions) && name in dimensions && Compact(Moved(dimensions, name, to))
    requires RanksStored(rows, dimensions) && NoneCrossed(rows, dimensions, name, to)
    ensures RanksStored(rows, Moved(dimensions, name, to))
  {
    forall i, j | 0 <= i < |rows| && 0 <= j < |rows|
      ensures rows[i].condition.Keys <= Moved(dimensions, name, to).Keys
      ensures rows[j].condition.Keys <= Moved(dimensions, name, to).Keys
      ensures rows[i].weight < rows[j].weight
         <==> Outranks(rows[j].condition.Keys, rows[i].condition.Keys, Moved(dimensions, name, to))
    {
      UncrossedKeepRanks(dimensions, name, to, rows[j].condition.Keys, rows[i].condition.Keys);
    }
  }

  lemma SingleCrossed(dimensions: Dimensions, name: string, to: Int32, d: string)
    requires name in dimensions && d in dimensions && d != name
    requires dimensions[d].position == to && to != dimensions[name].position
    ensures Crossed({name}, {d}, dimensions, name, to)
  {
    assert Differing({name}, {d}) - {name} == {d};
    assert HighestOther({name}, {d}, dimensions, name, d) && Passed(dimensions, name, to, d);
  }

  lemma NewPositionIsHeld(dimensions: Dimensions, name: string, to: Int32) returns (d: string)
    requires Compact(dimensions) && name in dimensions && Compact(Moved(dimensions, name, to))
    requires 0 <= to < |dimensions| && to != dimensions[name].position
    ensures d in dimensions && Moved(dimensions, name, to).Keys == dimensions.Keys
    ensures Outranks({name}, {d}, Moved(dimensions, name, to)) != Outranks({name}, {d}, dimensions)
  {
    d := Holder(dimensions, to);
    SingleCrossed(dimensions, name, to, d);
    MoveSwapsIffCrossed(dimensions, name, to, {name}, {d});
  }

  /** Every move that changes the position changes the ranks of some conditions. */
  lemma EveryMoveChangesRanks(dimensions: Dimensions, name: string, to: Int32)
    requires Sound(dimensions) && CanMove(dimensions, name, to)
    ensures Moved(dimensions, name, to).Keys == dimensions.Keys
    ensures (forall a, b | a <= dimensions.Keys && b <= dimensions.Keys ::
               Outranks(a, b, Moved(dimensions, name, to)) <==> Outranks(a, b, dimensions))
       <==> to == dimensions[name].position
  {
    MovedRows(dimensions, name, to);
    AllRanksKeptIff(dimensions, name, to);
  }

  lemma AllRanksKeptIff(dimensions: Dimensions, name: string, to: Int32)
    requires Compact(dimensions) && name in dimensions && Compact(Moved(dimensions, name, to))
    requires 0 <= to < |dimensions| && Moved(dimensions, name, to).Keys == dimensions.Keys
    ensures (forall a, b | a <= dimensions.Keys && b <= dimensions.Keys ::
               Outranks(a, b, Moved(dimensions, name, to)) <==> Outranks(a, b, dimensions))
       <==> to == dimensions[name].position
  {
    if to == dimensions[name].position {
      StayingChangesNothing(dimensions, name);
    } else {
      var d := NewPositionIsHeld(dimensions, name, to);
      assert {name} <= dimensions.Keys && {d} <= dimensions.Keys;
    }
  }

  lemma StayingChangesNothing(dimensions: Dimensions, name: string)
    requires name in dimensions
    ensures Moved(dimensions, name, dimensions[name].position) == dimensions
  {
  }

  // ---------- Rows stored before and after ----------

  lemma {:induction false} SameRankSameWeight(one: Dimensions, other: Dimensions, names: set<string>)
    requires names <= one.Keys && names <= other.Keys
    requires forall d :: d in names ==> Rank(d, one) == Rank(d, other)
    ensures Weight(names, one) == Weight(names, other)
    decreases names
  {
    if names != {} {
      var d :| d in names;
      WeightWithout(names, one, d);
      WeightWithout(names, other, d);
      SameRankSameWeight(one, other, names - {d});
    }
  }

  lemma SingleWeight(dimensions: Dimensions, d: string)
    requires d in dimensions
    ensures Weight({d}, dimensions) == Pow2(Rank(d, dimensions))
  {
    WeightWithout({d}, dimensions, d);
    assert {d} - {d} == {};
  }

  /** The weights that are stored stay those of the conditions exactly when nobody stands at or
      above the new dimension. */
  lemma CreationKeepsWeightsIff(dimensions: Dimensions, asked: NewDimension)
    requires CanCreate(dimensions, asked) && CanShift(dimensions)
    ensures dimensions.Keys <= Created(dimensions, asked).Keys
    ensures (forall names | names <= dimensions.Keys ::
               Weight(names, Created(dimensions, asked)) == Weight(names, dimensions))
       <==> forall d :: d in dimensions ==> dimensions[d].position < asked.position
  {
    var created := Created(dimensions, asked);
    CreatedKeys(dimensions, asked);
    if forall d :: d in dimensions ==> dimensions[d].position < asked.position {
      forall names | names <= dimensions.Keys ensures Weight(names, created) == Weight(names, dimensions) {
        forall d | d in names ensures Rank(d, created) == Rank(d, dimensions) {
          CreatedRank(dimensions, asked, d);
        }
        SameRankSameWeight(dimensions, created, names);
      }
    } else {
      var d :| d in dimensions && dimensions[d].position >= asked.position;
      CreatedRank(dimensions, asked, d);
      SingleWeight(dimensions, d);
      SingleWeight(created, d);
      assert Weight({d}, created) != Weight({d}, dimensions);
    }
  }

  /** Otherwise a row stored afterwards for the new dimension alone weighs as much as one stored
      before for the dimension that had its position, which outranks it. */
  lemma StaleTie(dimensions: Dimensions, asked: NewDimension, d: string)
    requires Sound(dimensions) && CanCreate(dimensions, asked) && CanShift(dimensions)
    requires d in dimensions && dimensions[d].position == asked.position
    ensures var created := Created(dimensions, asked);
            && d in created && asked.name in created
            && Weight({asked.name}, created) == Weight({d}, dimensions)
            && Outranks({d}, {asked.name}, created)
  {
    var created := Created(dimensions, asked);
    CreatedKeys(dimensions, asked);
    CreatedRow(dimensions, asked, d);
    SingleWeight(dimensions, d);
    SingleWeight(created, asked.name);
    SingleOutranks(created, d, asked.name);
  }

  /** An older row for `d` and a newer one for the dimension that took its position, each for
      the value that is given. */
  ghost function TiedRows(given: map<string, Json>, d: string, name: string, weight: nat): seq<ContextRow>
    requires d in given && name in given
  {
    [ContextRow("old", map[d := given[d]], "old", map["k" := Bool(false)], weight, 0),
     ContextRow("new", map[name := given[name]], "new", map["k" := Bool(true)], weight, 1)]
  }

  /** Whatever the weights, the last row decides if it applies and sets the key. */
  lemma LastRowWins(rows: seq<ContextRow>, defaults: map<string, Json>, dimensions: Dimensions,
                    query: map<string, Json>, expand: Expansion, key: string)
    requires rows != [] && key in rows[|rows| - 1].entries && key in defaults
    requires Applies(rows[|rows| - 1].condition, expand(dimensions, query))
    ensures Resolve(Generated(rows, defaults, dimensions), query, REPLACE, expand)[key]
         == rows[|rows| - 1].entries[key]
  {
    LastSetterWins(Generated(rows, defaults, dimensions), query, expand, key, |rows| - 1);
  }

  lemma TiedWeights(dimensions: Dimensions, asked: NewDimension, d: string, given: map<string, Json>)
    requires Sound(dimensions) && CanCreate(dimensions, asked) && CanShift(dimensions)
    requires d in dimensions && dimensions[d].position == asked.position
    requires d in given && asked.name in given
    ensures var created := Created(dimensions, asked);
            var rows := TiedRows(given, d, asked.name, Weight({d}, dimensions));
            && rows[0].condition.Keys == {d} && rows[1].condition.Keys == {asked.name}
            && d in created && asked.name in created
            && rows[0].weight == Weight({d}, dimensions) && rows[1].weight == Weight({asked.name}, created)
            && Ordered(rows) && Outranks({d}, {asked.name}, created)
  {
    StaleTie(dimensions, asked, d);
  }

  lemma NoVariants(dimensions: Dimensions, asked: NewDimension, d: string)
    requires VariantsFirst(dimensions) && CanCreate(dimensions, asked)
    requires d in dimensions && dimensions[d].position == asked.position
    ensures d != VARIANT_IDS && asked.name != VARIANT_IDS
  {
  }

  lemma TiedRowsApply(given: map<string, Json>, d: string, name: string, weight: nat)
    requires d in given && name in given && d != VARIANT_IDS && name != VARIANT_IDS
    ensures var rows := TiedRows(given, d, name, weight);
            Applies(rows[0].condition, given) && Applies(rows[1].condition, given)
  {
  }

  /** For whatever values a request gives the two dimensions, there are two rows for them that
      both apply, and the newer one wins, although the older one outranks it. */
  lemma LowerRankWins(dimensions: Dimensions, asked: NewDimension, d: string, defaults: map<string, Json>,
                      query: map<string, Json>, expand: Expansion)
    requires Sound(dimensions) && CanCreate(dimensions, asked) && CanShift(dimensions)
    requires d in dimensions && dimensions[d].position == asked.position && "k" in defaults
    requires d in expand(Created(dimensions, asked), query) && asked.name in expand(Created(dimensions, asked), query)
    ensures var created := Created(dimensions, asked);
            var given := expand(created, query);
            var rows := TiedRows(given, d, asked.name, Weight({d}, dimensions));
            && rows[0].condition == map[d := given[d]] && rows[1].condition == map[asked.name := given[asked.name]]
            && Applies(rows[0].condition, given) && Applies(rows[1].condition, given)
            && d in created && asked.name in created
            && rows[0].weight == Weight({d}, dimensions) && rows[1].weight == Weight({asked.name}, created)
            && Ordered(rows) && Outranks({d}, {asked.name}, created)
            && Resolve(Generated(rows, defaults, created), query, REPLACE, expand)["k"] == rows[1].entries["k"]
            && rows[0].entries["k"] != rows[1].entries["k"]
  {
    var created := Created(dimensions, asked);
    var given := expand(created, query);
    var rows := TiedRows(given, d, asked.name, Weight({d}, dimensions));
    TiedWeights(dimensions, asked, d, given);
    NoVariants(dimensions, asked, d);
    TiedRowsApply(given, d, asked.name, Weight({d}, dimensions));
    LastRowWins(rows, defaults, created, query, expand, "k");
  }
}
