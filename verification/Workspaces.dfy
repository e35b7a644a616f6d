/** The dimensions table of a workspace: what requests do to it, and what they keep. */
module Workspaces {
  import opened Wrappers
  import opened JsonValues
  import opened Matching
  import opened Configuration
  import opened Dependencies
  import opened Lineages
  import opened Sequences
  import opened Removal
  import opened Weights

  // ---------- What every request keeps ----------

  /** No cohort is based on a local one. */
  ghost predicate LocalsAreLeaves(dimensions: Dimensions) {
    forall p, c {:trigger IsBase(dimensions, p, c)} :: IsBase(dimensions, p, c) ==> !IsLocal(dimensions, p)
  }

  /** The positions count the dimensions from zero. */
  ghost predicate Compact(dimensions: Dimensions) {
    (forall d :: d in dimensions ==> 0 <= dimensions[d].position < |dimensions|) && DistinctPositions(dimensions)
  }

  /** A cohort stands lower than what it is based on. */
  ghost predicate CohortsLower(dimensions: Dimensions) {
    forall p, c {:trigger IsBase(dimensions, p, c)} :: IsBase(dimensions, p, c) ==>
      c in dimensions && dimensions[c].position < dimensions[p].position
  }

  /** Remote cohorts, and they must, have a function that computes them; local ones have none. */
  predicate FunctionFits(dimensionType: DimensionType, valueFunction: Option<string>) {
    match dimensionType
    case Regular => true
    case LocalCohort(_) => valueFunction.None?
    case RemoteCohort(_) => valueFunction.Some?
  }

  ghost predicate FunctionsFit(dimensions: Dimensions) {
    forall d :: d in dimensions ==> FunctionFits(dimensions[d].dimensionType, dimensions[d].valueComputeFunction)
  }

  ghost predicate VariantsFirst(dimensions: Dimensions) {
    && VARIANT_IDS in dimensions
    && dimensions[VARIANT_IDS].position == 0 && dimensions[VARIANT_IDS].dimensionType.Regular?
  }

  /** The rows one by one: their positions and functions. */
  ghost predicate RowsSound(dimensions: Dimensions) {
    Compact(dimensions) && FunctionsFit(dimensions) && VariantsFirst(dimensions)
  }

  /** The cohorts: their graphs, types and positions. */
  ghost predicate CohortsSound(dimensions: Dimensions) {
    Tidy(dimensions) && LocalsAreLeaves(dimensions) && CohortsLower(dimensions)
  }

  ghost predicate Sound(dimensions: Dimensions) {
    RowsSound(dimensions) && CohortsSound(dimensions)
  }

  /** No position is the highest 32-bit number. */
  predicate CanShift(dimensions: Dimensions) {
    forall d :: d in dimensions ==> 0 <= dimensions[d].position < 0x7FFF_FFFF
  }

  // ---------- Positions ----------

  lemma {:induction false} NamesBetween(names: set<string>, dimensions: Dimensions, low: int, high: int)
    requires names <= dimensions.Keys && DistinctPositions(dimensions) && low <= high
    requires forall d :: d in names ==> low <= dimensions[d].position < high
    ensures |names| <= high - low
    decreases high - low
  {
    if names != {} {
      if d :| d in names && dimensions[d].position == high - 1 {
        NamesBetween(names - {d}, dimensions, low, high - 1);
      } else {
        NamesBetween(names, dimensions, low, high - 1);
      }
    }
  }

  lemma FreePosition(dimensions: Dimensions, position: int, high: int)
    requires DistinctPositions(dimensions) && 0 <= position < high
    requires forall d :: d in dimensions ==> 0 <= dimensions[d].position < high && dimensions[d].position != position
    ensures |dimensions| < high
  {
    var below := set d | d in dimensions && dimensions[d].position < position;
    var above := dimensions.Keys - below;
    NamesBetween(below, dimensions, 0, position);
    NamesBetween(above, dimensions, position + 1, high);
    assert dimensions.Keys == below + above && |dimensions.Keys| == |below| + |above|;
  }

  /** No position is free. */
  lemma Holder(dimensions: Dimensions, position: int) returns (d: string)
    requires Compact(dimensions) && 0 <= position < |dimensions|
    ensures d in dimensions && dimensions[d].position == position
  {
    if forall x :: x in dimensions ==> dimensions[x].position != position {
      FreePosition(dimensions, position, |dimensions|);
      assert false;
    }
    d :| d in dimensions && dimensions[d].position == position;
  }

  /** The two tables have the same graphs and types. */
  ghost predicate SameGraphs(a: Dimensions, b: Dimensions) {
    a.Keys == b.Keys && forall d :: d in a ==>
      b[d].dependencyGraph == a[d].dependencyGraph && b[d].dimensionType == a[d].dimensionType
  }

  lemma SameGraphsOwn(a: Dimensions, b: Dimensions)
    requires SameGraphs(a, b)
    ensures Own(b) == Own(a)
    ensures forall p, c :: IsBase(b, p, c) <==> IsBase(a, p, c)
  {
    assert Own(b) == Own(a);
  }

  lemma SameGraphsTypes(a: Dimensions, b: Dimensions)
    requires TypesAgree(a) && SameGraphs(a, b)
    ensures TypesAgree(b)
  {
    SameGraphsOwn(a, b);
    forall p, c ensures IsBase(b, p, c) <==> c in b && BaseOf(b[c]) == Some(p) {
      assert IsBase(a, p, c) <==> c in a && BaseOf(a[c]) == Some(p);
    }
  }

  lemma SameGraphsEntry(a: Dimensions, b: Dimensions, r: string, d: string)
    requires Tidy(a) && SameGraphs(a, b) && r in b && d in b[r].dependencyGraph
    ensures Fits(b, r, d) && (d != r ==> HasBaseIn(b[r].dependencyGraph, d))
    ensures d == r ==> b[r].dependencyGraph[d] != []
  {
    SameGraphsOwn(a, b);
    assert Fits(a, r, d);
    assert d != r ==> HasBaseIn(a[r].dependencyGraph, d);
  }

  lemma SameGraphsWellFormed(a: Dimensions, b: Dimensions)
    requires Tidy(a) && SameGraphs(a, b)
    ensures WellFormed(b)
  {
    SameGraphsOwn(a, b);
    forall r, d | r in b && d in b[r].dependencyGraph ensures Fits(b, r, d) {
      SameGraphsEntry(a, b, r, d);
    }
  }

  lemma SameGraphsTidy(a: Dimensions, b: Dimensions)
    requires Tidy(a) && SameGraphs(a, b)
    ensures Tidy(b) && Own(b) == Own(a)
    ensures forall p, c :: IsBase(b, p, c) <==> IsBase(a, p, c)
  {
    SameGraphsOwn(a, b);
    SameGraphsTypes(a, b);
    SameGraphsWellFormed(a, b);
    forall r, d | r in b && d in b[r].dependencyGraph
      ensures d != r ==> HasBaseIn(b[r].dependencyGraph, d)
      ensures d == r ==> b[r].dependencyGraph[d] != []
    {
      SameGraphsEntry(a, b, r, d);
    }
  }

  /** Makes room at a position. */
  function ShiftedUp(dimensions: Dimensions, from: Int32): Dimensions
    requires CanShift(dimensions)
  {
    map d | d in dimensions ::
      if dimensions[d].position >= from then dimensions[d].(position := dimensions[d].position + 1) else dimensions[d]
  }

  /** Closes the gap at a position. */
  function ShiftedDown(dimensions: Dimensions, gap: Int32): Dimensions {
    map d | d in dimensions ::
      if dimensions[d].position > gap then dimensions[d].(position := dimensions[d].position - 1) else dimensions[d]
  }

  /** Where another dimension stands after one has been moved. */
  function Shifted(at: Int32, from: Int32, to: Int32): Int32 {
    if from < at <= to then at - 1
    else if to <= at < from then at + 1
    else at
  }

  function Moved(dimensions: Dimensions, name: string, to: Int32): Dimensions
    requires name in dimensions
  {
    map d | d in dimensions ::
      if d == name then dimensions[d].(position := to)
      else dimensions[d].(position := Shifted(dimensions[d].position, dimensions[name].position, to))
  }

  // ---------- Requests ----------

  datatype NewDimension = NewDimension(
    name: string,
    position: Int32,
    dimensionType: DimensionType,
    schema: map<string, Json>,
    valueComputeFunction: Option<string>)

  function InfoOf(asked: NewDimension): DimensionInfo {
    DimensionInfo(asked.schema, asked.position, asked.dimensionType, map[], asked.valueComputeFunction)
  }

  predicate PositionAllowed(name: string, position: Int32, highest: int) {
    if name == VARIANT_IDS then position == 0 else 0 < position <= highest
  }

  /** The positions fit into 32 bits even after one more row. */
  predicate HasRoom(dimensions: Dimensions) {
    |dimensions| < 0x8000_0000
  }

  predicate CanCreate(dimensions: Dimensions, asked: NewDimension) {
    && asked.name !in dimensions
    && HasRoom(dimensions)
    && PositionAllowed(asked.name, asked.position, |dimensions|)
    && FunctionFits(asked.dimensionType, asked.valueComputeFunction)
    && var base := BaseOf(InfoOf(asked));
       base.Some? ==>
         base.value in dimensions && !dimensions[base.value].dimensionType.LocalCohort?
         && asked.position <= dimensions[base.value].position
  }

  function Created(dimensions: Dimensions, asked: NewDimension): Dimensions
    requires CanShift(dimensions)
  {
    var base, shifted := BaseOf(InfoOf(asked)), ShiftedUp(dimensions, asked.position);
    if base.Some? then WithCohort(shifted, base.value, asked.name, InfoOf(asked))
    else shifted[asked.name := InfoOf(asked)]
  }

  predicate CanDelete(dimensions: Dimensions, name: string) {
    name != VARIANT_IDS && name in dimensions && dimensions[name].dependencyGraph == map[]
  }

  function WithoutDimension(dimensions: Dimensions, name: string): Dimensions
    requires name in dimensions
  {
    ShiftedDown(Deleted(dimensions, name), dimensions[name].position)
  }

  predicate CanMove(dimensions: Dimensions, name: string, to: Int32) {
    && name in dimensions
    && PositionAllowed(name, to, |dimensions| - 1)
    && (var base := BaseOf(dimensions[name]);
        base.Some? ==> base.value in dimensions && !dimensions[base.value].dimensionType.LocalCohort?
                       && to < dimensions[base.value].position)
    && (forall c :: c in Children(dimensions[name].dependencyGraph, name) ==>
          c in dimensions && dimensions[c].position < to)
  }

  /** What an update asks for; what is absent stays. */
  datatype Change = Change(
    position: Option<Int32>,
    schema: Option<map<string, Json>>,
    valueFunction: Option<Option<string>>)

  predicate CanUpdate(dimensions: Dimensions, name: string, change: Change) {
    && name in dimensions
    && (change.position.Some? ==> CanMove(dimensions, name, change.position.value))
    && (change.valueFunction.Some? ==> FunctionFits(dimensions[name].dimensionType, change.valueFunction.value))
  }

  function Described(dimensions: Dimensions, name: string, change: Change): Dimensions
    requires name in dimensions
  {
    var row := dimensions[name];
    dimensions[name := row.(schema := if change.schema.Some? then change.schema.value else row.schema,
                            valueComputeFunction := if change.valueFunction.Some? then change.valueFunction.value
                                                    else row.valueComputeFunction)]
  }

  function Updated(dimensions: Dimensions, name: string, change: Change): Dimensions
    requires name in dimensions
  {
    var moved := if change.position.Some? then Moved(dimensions, name, change.position.value) else dimensions;
    Described(moved, name, change)
  }

  // ---------- Each request keeps the table sound ----------

  lemma ShiftedUpIsTidy(dimensions: Dimensions, from: Int32)
    requires Tidy(dimensions) && CanShift(dimensions)
    ensures Tidy(ShiftedUp(dimensions, from))
    ensures forall p, c :: IsBase(ShiftedUp(dimensions, from), p, c) <==> IsBase(dimensions, p, c)
  {
    SameGraphsTidy(dimensions, ShiftedUp(dimensions, from));
  }

  lemma CreatedIsTidy(dimensions: Dimensions, asked: NewDimension)
    requires Tidy(dimensions) && CanShift(dimensions) && CanCreate(dimensions, asked)
    ensures Tidy(Created(dimensions, asked))
    ensures forall p, c :: IsBase(Created(dimensions, asked), p, c) <==>
      IsBase(dimensions, p, c) || (c == asked.name && BaseOf(InfoOf(asked)) == Some(p))
  {
    var base, shifted, info := BaseOf(InfoOf(asked)), ShiftedUp(dimensions, asked.position), InfoOf(asked);
    ShiftedUpIsTidy(dimensions, asked.position);
    if base.Some? {
      CreationKeepsTidy(shifted, base.value, asked.name, info);
      forall p, c {
        CreatedIsBase(shifted, base.value, asked.name, info, p, c);
      }
    } else {
      RegularKeepsTidy(shifted, asked.name, info);
    }
  }

  lemma CreatedKeys(dimensions: Dimensions, asked: NewDimension)
    requires CanShift(dimensions) && CanCreate(dimensions, asked)
    ensures var created := Created(dimensions, asked);
            && created.Keys == dimensions.Keys + {asked.name} && |created| == |dimensions| + 1
            && created[asked.name] == InfoOf(asked)
  {
    CreatedNames(dimensions, asked);
    assert |Created(dimensions, asked).Keys| == |dimensions.Keys| + 1;
  }

  lemma CreatedNames(dimensions: Dimensions, asked: NewDimension)
    requires CanShift(dimensions)
    ensures Created(dimensions, asked).Keys == dimensions.Keys + {asked.name}
  {
    var base, shifted := BaseOf(InfoOf(asked)), ShiftedUp(dimensions, asked.position);
    assert shifted.Keys == dimensions.Keys;
    assert base.Some? ==> Connected(shifted, base.value, asked.name).Keys == dimensions.Keys;
  }

  /** A row after a creation, but for its graph. */
  lemma CreatedRow(dimensions: Dimensions, asked: NewDimension, d: string)
    requires CanShift(dimensions) && CanCreate(dimensions, asked) && d in dimensions
    ensures d in Created(dimensions, asked)
    ensures var before, after := dimensions[d], Created(dimensions, asked)[d];
            && after.dimensionType == before.dimensionType
            && after.valueComputeFunction == before.valueComputeFunction
            && after.position == before.position + if before.position >= asked.position then 1 else 0
  {
  }

  lemma CompactCanShift(dimensions: Dimensions)
    requires Compact(dimensions) && HasRoom(dimensions)
    ensures CanShift(dimensions)
  {
  }

  lemma CreatedAreDistinct(dimensions: Dimensions, asked: NewDimension, a: string, b: string)
    requires DistinctPositions(dimensions) && CanShift(dimensions) && CanCreate(dimensions, asked)
    requires a in dimensions && (b in dimensions || b == asked.name) && a != b
    ensures Created(dimensions, asked)[a].position != Created(dimensions, asked)[b].position
  {
    CreatedRow(dimensions, asked, a);
    if b in dimensions {
      CreatedRow(dimensions, asked, b);
      assert dimensions[a].position != dimensions[b].position;
    } else {
      CreatedKeys(dimensions, asked);
    }
  }

  lemma CreatedIsCompact(dimensions: Dimensions, asked: NewDimension)
    requires Compact(dimensions) && CanShift(dimensions) && CanCreate(dimensions, asked)
    ensures Compact(Created(dimensions, asked))
  {
    var created := Created(dimensions, asked);
    CreatedKeys(dimensions, asked);
    forall d | d in created ensures 0 <= created[d].position < |created| {
      if d in dimensions {
        CreatedRow(dimensions, asked, d);
      }
    }
    forall a, b | a in created && b in created && created[a].position == created[b].position ensures a == b {
      if a != b && a in dimensions {
        CreatedAreDistinct(dimensions, asked, a, b);
      } else if a != b {
        CreatedAreDistinct(dimensions, asked, b, a);
      }
    }
  }

  lemma CreationKeepsRows(dimensions: Dimensions, asked: NewDimension)
    requires RowsSound(dimensions) && CanShift(dimensions) && CanCreate(dimensions, asked)
    ensures RowsSound(Created(dimensions, asked))
  {
    var created := Created(dimensions, asked);
    CreatedIsCompact(dimensions, asked);
    CreatedKeys(dimensions, asked);
    forall d | d in created ensures FunctionFits(created[d].dimensionType, created[d].valueComputeFunction) {
      if d in dimensions {
        CreatedRow(dimensions, asked, d);
      }
    }
    CreatedRow(dimensions, asked, VARIANT_IDS);
  }

  lemma CreationKeepsCohorts(dimensions: Dimensions, asked: NewDimension)
    requires CohortsSound(dimensions) && CanShift(dimensions) && CanCreate(dimensions, asked)
    ensures CohortsSound(Created(dimensions, asked))
  {
    var created := Created(dimensions, asked);
    CreatedIsTidy(dimensions, asked);
    CreatedKeys(dimensions, asked);
    forall p, c | IsBase(created, p, c)
      ensures !IsLocal(created, p) && c in created && created[c].position < created[p].position
    {
      CreatedRow(dimensions, asked, p);
      if c in dimensions {
        CreatedRow(dimensions, asked, c);
      }
    }
  }

  lemma DeletedRows(dimensions: Dimensions, name: string)
    requires name in dimensions
    ensures var after := WithoutDimension(dimensions, name);
            && after.Keys == dimensions.Keys - {name} && |after| == |dimensions| - 1
            && forall d :: d in after ==>
                 && after[d].dimensionType == dimensions[d].dimensionType
                 && after[d].valueComputeFunction == dimensions[d].valueComputeFunction
                 && after[d].position ==
                      dimensions[d].position - if dimensions[d].position > dimensions[name].position then 1 else 0
  {
    var after := WithoutDimension(dimensions, name);
    assert after.Keys == dimensions.Keys - {name};
    assert |after.Keys| == |dimensions.Keys| - 1;
  }

  lemma DeletionKeepsRows(dimensions: Dimensions, name: string)
    requires RowsSound(dimensions) && name in dimensions && name != VARIANT_IDS
    ensures RowsSound(WithoutDimension(dimensions, name))
  {
    DeletedRows(dimensions, name);
    DeletionKeepsCompact(dimensions, name);
    assert dimensions[name].position != 0;
  }

  lemma DeletionKeepsCompact(dimensions: Dimensions, name: string)
    requires Compact(dimensions) && name in dimensions
    ensures Compact(WithoutDimension(dimensions, name))
  {
    var after, gap := WithoutDimension(dimensions, name), dimensions[name].position;
    DeletedRows(dimensions, name);
    forall d | d in after ensures 0 <= after[d].position < |after| && dimensions[d].position != gap {
      assert d != name;
    }
  }

  lemma DeletionKeepsCohorts(dimensions: Dimensions, name: string)
    requires CohortsSound(dimensions) && DistinctPositions(dimensions) && CanDelete(dimensions, name)
    ensures CohortsSound(WithoutDimension(dimensions, name))
  {
    var deleted, after := Deleted(dimensions, name), WithoutDimension(dimensions, name);
    DeletionKeepsTidy(dimensions, name);
    OwnDeletedHas(dimensions, name);
    SameGraphsTidy(deleted, after);
    forall p, c | IsBase(after, p, c)
      ensures !IsLocal(after, p) && c in after && after[c].position < after[p].position
    {
      assert IsBase(dimensions, p, c) && c != name;
      DeletionKeepsLower(dimensions, name, p, c);
    }
  }

  lemma DeletionKeepsLower(dimensions: Dimensions, name: string, p: string, c: string)
    requires DistinctPositions(dimensions) && name in dimensions && p in dimensions && c in dimensions
    requires p != name && c != name && dimensions[c].position < dimensions[p].position
    ensures var after := WithoutDimension(dimensions, name);
            && p in after && c in after && after[c].position < after[p].position
            && (IsLocal(after, p) <==> IsLocal(dimensions, p))
  {
    DeletedRows(dimensions, name);
    assert dimensions[p].position != dimensions[name].position;
  }

  /** The others keep their order, and nobody comes to stand where someone else is. */
  lemma MoveKeepsOrder(a: Int32, b: Int32, from: Int32, to: Int32)
    requires a != from && b != from
    ensures Shifted(a, from, to) < Shifted(b, from, to) <==> a < b
    ensures Shifted(a, from, to) != to
  {
  }

  lemma MoveKeepsDistinct(dimensions: Dimensions, name: string, to: Int32, a: string, b: string)
    requires DistinctPositions(dimensions) && name in dimensions && a in dimensions && b in dimensions && a != b
    ensures Moved(dimensions, name, to)[a].position != Moved(dimensions, name, to)[b].position
  {
    var from := dimensions[name].position;
    assert dimensions[a].position != dimensions[b].position;
    if a != name {
      assert dimensions[a].position != from;
      MoveKeepsOrder(dimensions[a].position, dimensions[a].position, from, to);
    }
    if b != name {
      assert dimensions[b].position != from;
      MoveKeepsOrder(dimensions[b].position, dimensions[b].position, from, to);
    }
  }

  lemma MoveKeepsRows(dimensions: Dimensions, name: string, to: Int32)
    requires RowsSound(dimensions) && name in dimensions && PositionAllowed(name, to, |dimensions| - 1)
    ensures RowsSound(Moved(dimensions, name, to))
  {
    var moved := Moved(dimensions, name, to);
    assert moved.Keys == dimensions.Keys;
    forall a, b | a in moved && b in moved && moved[a].position == moved[b].position ensures a == b {
      if a != b {
        MoveKeepsDistinct(dimensions, name, to, a, b);
      }
    }
    assert name != VARIANT_IDS ==> dimensions[name].position != 0;
  }

  lemma MoveKeepsLower(dimensions: Dimensions, name: string, to: Int32, p: string, c: string)
    requires DistinctPositions(dimensions) && name in dimensions && p in dimensions && c in dimensions
    requires dimensions[c].position < dimensions[p].position
    requires c == name ==> to < dimensions[p].position
    requires p == name ==> dimensions[c].position < to
    ensures Moved(dimensions, name, to)[c].position < Moved(dimensions, name, to)[p].position
  {
    if c != name && p != name {
      assert dimensions[c].position != dimensions[name].position;
      assert dimensions[p].position != dimensions[name].position;
      MoveKeepsOrder(dimensions[c].position, dimensions[p].position, dimensions[name].position, to);
    }
  }

  lemma MoveKeepsCohorts(dimensions: Dimensions, name: string, to: Int32)
    requires CohortsSound(dimensions) && DistinctPositions(dimensions) && CanMove(dimensions, name, to)
    ensures CohortsSound(Moved(dimensions, name, to))
  {
    var moved := Moved(dimensions, name, to);
    SameGraphsTidy(dimensions, moved);
    forall p, c | IsBase(moved, p, c)
      ensures !IsLocal(moved, p) && c in moved && moved[c].position < moved[p].position
    {
      assert IsBase(dimensions, p, c);
      assert c == name ==> BaseOf(dimensions[name]) == Some(p);
      assert p == name ==> c in Children(dimensions[name].dependencyGraph, name);
      MoveKeepsLower(dimensions, name, to, p, c);
    }
  }

  lemma DescriptionKeepsSound(dimensions: Dimensions, name: string, change: Change)
    requires Sound(dimensions) && name in dimensions
    requires change.valueFunction.Some? ==> FunctionFits(dimensions[name].dimensionType, change.valueFunction.value)
    ensures Sound(Described(dimensions, name, change))
  {
    var described := Described(dimensions, name, change);
    SameGraphsTidy(dimensions, described);
    assert described.Keys == dimensions.Keys;
    DescriptionKeepsRows(dimensions, name, change);
    forall p, c | IsBase(described, p, c)
      ensures !IsLocal(described, p) && c in described && described[c].position < described[p].position
    {
      assert IsBase(dimensions, p, c);
    }
  }

  lemma DescriptionKeepsRows(dimensions: Dimensions, name: string, change: Change)
    requires RowsSound(dimensions) && name in dimensions
    requires change.valueFunction.Some? ==> FunctionFits(dimensions[name].dimensionType, change.valueFunction.value)
    ensures RowsSound(Described(dimensions, name, change))
  {
    assert Described(dimensions, name, change).Keys == dimensions.Keys;
  }

  lemma UpdateKeepsSound(dimensions: Dimensions, name: string, change: Change)
    requires Sound(dimensions) && CanUpdate(dimensions, name, change)
    ensures Sound(Updated(dimensions, name, change))
  {
    if change.position.Some? {
      MoveKeepsRows(dimensions, name, change.position.value);
      MoveKeepsCohorts(dimensions, name, change.position.value);
      DescriptionKeepsSound(Moved(dimensions, name, change.position.value), name, change);
    } else {
      DescriptionKeepsSound(dimensions, name, change);
    }
  }

  lemma RequestKeepsSound(dimensions: Dimensions, request: Request)
    requires Sound(dimensions) && Accepted(dimensions, request)
    ensures request.Create? ==> CanShift(dimensions) && Sound(Created(dimensions, request.asked))
    ensures request.Delete? ==> Sound(WithoutDimension(dimensions, request.name))
    ensures request.Update? ==> Sound(Updated(dimensions, request.name, request.change))
  {
    match request
    case Create(asked, _) =>
      CompactCanShift(dimensions);
      CreationKeepsRows(dimensions, asked);
      CreationKeepsCohorts(dimensions, asked);
    case Delete(name, _) =>
      DeletionKeepsRows(dimensions, name);
      DeletionKeepsCohorts(dimensions, name);
    case Update(name, change, _) =>
      UpdateKeepsSound(dimensions, name, change);
  }

  // ---------- Runs ----------

  /** A request; `valid` sums up the checks of schemas and functions, `used` says whether some
      context mentions the dimension. */
  datatype Request =
    | Create(asked: NewDimension, valid: bool)
    | Delete(name: string, used: bool)
    | Update(name: string, change: Change, valid: bool)

  predicate Accepted(dimensions: Dimensions, request: Request) {
    match request
    case Create(asked, valid) => valid && CanCreate(dimensions, asked)
    case Delete(name, used) => !used && CanDelete(dimensions, name)
    case Update(name, change, valid) => valid && CanUpdate(dimensions, name, change)
  }

  /** The table after a request; a rejected one changes nothing. */
  ghost function Served(dimensions: Dimensions, request: Request): (served: Dimensions)
    requires Sound(dimensions)
    ensures Sound(served)
  {
    if !Accepted(dimensions, request) then dimensions
    else
      RequestKeepsSound(dimensions, request);
      match request
      case Create(asked, _) => Created(dimensions, asked)
      case Delete(name, _) => WithoutDimension(dimensions, name)
      case Update(name, change, _) => Updated(dimensions, name, change)
  }

  ghost function AllServed(dimensions: Dimensions, requests: seq<Request>): (served: Dimensions)
    requires Sound(dimensions)
    ensures Sound(served)
  {
    if requests == [] then dimensions
    else Served(AllServed(dimensions, requests[..|requests| - 1]), requests[|requests| - 1])
  }

  /** A new workspace has one dimension, for the variants. */
  function Fresh(schema: map<string, Json>): Dimensions {
    map[VARIANT_IDS := DimensionInfo(schema, 0, Regular, map[], None)]
  }

  lemma FreshIsSound(schema: map<string, Json>)
    ensures Sound(Fresh(schema))
  {
    EmptyIsWellFormed();
    assert Tidy(map[]);
    RegularKeepsTidy(map[], VARIANT_IDS, Fresh(schema)[VARIANT_IDS]);
    assert map[][VARIANT_IDS := Fresh(schema)[VARIANT_IDS]] == Fresh(schema);
    assert |Fresh(schema).Keys| == 1;
  }

  /** The table of a workspace that has served these requests. */
  ghost function TableOf(schema: map<string, Json>, requests: seq<Request>): (dimensions: Dimensions)
    ensures Sound(dimensions)
  {
    FreshIsSound(schema);
    AllServed(Fresh(schema), requests)
  }

  lemma AllServedSnoc(start: Dimensions, init: seq<Request>, last: Request)
    requires Sound(start)
    ensures AllServed(start, init + [last]) == Served(AllServed(start, init), last)
  {
    SnocParts(init, last);
  }

  lemma OneMore(dimensions: Dimensions, asked: NewDimension)
    requires Sound(dimensions) && CanCreate(dimensions, asked)
    ensures var created := Served(dimensions, Create(asked, true));
            && created.Keys == dimensions.Keys + {asked.name} && |created| == |dimensions| + 1
            && created[asked.name] == InfoOf(asked)
            && (forall d :: d in dimensions ==> created[d].dimensionType == dimensions[d].dimensionType)
            && (forall p, c :: IsBase(dimensions, p, c) ==> IsBase(created, p, c))
            && (BaseOf(InfoOf(asked)).Some? ==> IsBase(created, BaseOf(InfoOf(asked)).value, asked.name))
  {
    CompactCanShift(dimensions);
    CreatedKeys(dimensions, asked);
    CreatedIsTidy(dimensions, asked);
    forall d | d in dimensions {
      CreatedRow(dimensions, asked, d);
    }
  }

  /** Whatever requests a workspace has served, its dependency graphs are a forest in which
      they all agree, no two dimensions share a position, and cohorts stand lower than what
      they are based on: what weights and cohort evaluation rely on. */
  lemma EveryWorkspaceIsSound(schema: map<string, Json>, requests: seq<Request>)
    ensures Sound(Fresh(schema))
    ensures var dimensions := AllServed(Fresh(schema), requests);
            && WellFormed(dimensions) && DistinctPositions(dimensions)
            && (forall d :: d in dimensions ==> 0 <= dimensions[d].position < |dimensions|)
            && VARIANT_IDS in dimensions && dimensions[VARIANT_IDS].dimensionType.Regular?
            && (forall p, c :: IsBase(dimensions, p, c) ==> dimensions[c].position < dimensions[p].position)
            && (forall d :: d in dimensions && dimensions[d].dimensionType.RemoteCohort? ==>
                  dimensions[d].valueComputeFunction.Some?)
            && (forall d :: d in dimensions && dimensions[d].dimensionType.LocalCohort? ==>
                  dimensions[d].valueComputeFunction.None? && forall c :: !IsBase(dimensions, d, c))
  {
    FreshIsSound(schema);
  }

  // ---------- Requests that undo each other ----------

  lemma ShiftedBack(dimensions: Dimensions, at: Int32)
    requires CanShift(dimensions)
    ensures ShiftedDown(ShiftedUp(dimensions, at), at) == dimensions
  {
  }

  lemma CreatedThenDeleted(dimensions: Dimensions, asked: NewDimension)
    requires Tidy(dimensions) && CanShift(dimensions) && CanCreate(dimensions, asked)
    ensures Deleted(Created(dimensions, asked), asked.name) == ShiftedUp(dimensions, asked.position)
  {
    var base, shifted := BaseOf(InfoOf(asked)), ShiftedUp(dimensions, asked.position);
    if base.Some? {
      ShiftedUpIsTidy(dimensions, asked.position);
      DeletionUndoesCreation(shifted, base.value, asked.name, InfoOf(asked));
    } else {
      assert shifted[asked.name := InfoOf(asked)] - {asked.name} == shifted;
    }
  }

  /** Deleting a dimension right after its creation restores the whole table. */
  lemma DeleteUndoesCreate(dimensions: Dimensions, asked: NewDimension)
    requires Sound(dimensions) && Accepted(dimensions, Create(asked, true))
    ensures Served(Served(dimensions, Create(asked, true)), Delete(asked.name, false)) == dimensions
  {
    CompactCanShift(dimensions);
    CreatedKeys(dimensions, asked);
    CreatedThenDeleted(dimensions, asked);
    ShiftedBack(dimensions, asked.position);
  }

  lemma MovedBack(dimensions: Dimensions, name: string, to: Int32)
    requires DistinctPositions(dimensions) && name in dimensions
    ensures Moved(Moved(dimensions, name, to), name, dimensions[name].position) == dimensions
  {
    var moved, from := Moved(dimensions, name, to), dimensions[name].position;
    forall d | d in dimensions
      ensures Moved(moved, name, from)[d] == dimensions[d]
    {
      assert d != name ==> dimensions[d].position != from;
    }
  }

  lemma StillAllowed(dimensions: Dimensions, name: string, to: Int32)
    requires RowsSound(dimensions) && name in dimensions
    ensures PositionAllowed(name, dimensions[name].position, |Moved(dimensions, name, to)| - 1)
  {
    assert Moved(dimensions, name, to).Keys == dimensions.Keys;
    assert name != VARIANT_IDS ==> dimensions[name].position != 0;
  }

  lemma BackIsAllowed(dimensions: Dimensions, name: string, to: Int32)
    requires TypesAgree(dimensions) && LocalsAreLeaves(dimensions) && CanMove(dimensions, name, to)
    requires CohortsLower(dimensions) && CohortsLower(Moved(dimensions, name, to))
    requires PositionAllowed(name, dimensions[name].position, |Moved(dimensions, name, to)| - 1)
    ensures CanMove(Moved(dimensions, name, to), name, dimensions[name].position)
  {
    var moved, from := Moved(dimensions, name, to), dimensions[name].position;
    SameGraphsOwn(dimensions, moved);
    if BaseOf(dimensions[name]).Some? {
      var base := BaseOf(dimensions[name]).value;
      assert IsBase(dimensions, base, name) && IsBase(moved, base, name);
    }
    forall c | c in Children(moved[name].dependencyGraph, name)
      ensures c in moved && moved[c].position < from
    {
      assert IsBase(dimensions, name, c);
    }
  }

  /** Moving a dimension back is always allowed, and restores the whole table. */
  lemma MoveUndoesMove(dimensions: Dimensions, name: string, to: Int32)
    requires Sound(dimensions) && CanMove(dimensions, name, to)
    ensures CanMove(Moved(dimensions, name, to), name, dimensions[name].position)
    ensures Moved(Moved(dimensions, name, to), name, dimensions[name].position) == dimensions
  {
    MoveKeepsCohorts(dimensions, name, to);
    StillAllowed(dimensions, name, to);
    BackIsAllowed(dimensions, name, to);
    MovedBack(dimensions, name, to);
  }

  // ---------- The handlers ----------

  method CheckNew(dimensions: Dimensions, asked: NewDimension, valid: bool) returns (checked: Result<()>)
    ensures checked.Success? <==> valid && CanCreate(dimensions, asked)
  {
    if !PositionAllowed(asked.name, asked.position, |dimensions|) {
      return Failure("invalid position");
    }
    var base := BaseOf(InfoOf(asked));
    if base.Some? {
      if base.value !in dimensions {
        return Failure("no such base");
      }
      if dimensions[base.value].dimensionType.LocalCohort? {
        return Failure("local base");
      }
      if asked.position > dimensions[base.value].position {
        return Failure("above its base");
      }
    }
    if !FunctionFits(asked.dimensionType, asked.valueComputeFunction) || !valid {
      return Failure("invalid");
    }
    if asked.name in dimensions || !HasRoom(dimensions) {
      return Failure("create failed");
    }
    return Success(());
  }

  /** Makes room, records a cohort in the graphs, and inserts the row. */
  method InsertDimension(dimensions: Dimensions, asked: NewDimension) returns (created: Dimensions)
    requires CanShift(dimensions)
    ensures created == Created(dimensions, asked)
  {
    var base := BaseOf(InfoOf(asked));
    created := ShiftedUp(dimensions, asked.position);
    if base.Some? {
      created := CreateConnections(base.value, asked.name, created);
    }
    created := created[asked.name := InfoOf(asked)];
  }

  /** Takes a cohort out of the graphs, deletes the row, and closes the gap. */
  method RemoveDimension(dimensions: Dimensions, name: string) returns (after: Dimensions)
    requires name in dimensions
    ensures after == WithoutDimension(dimensions, name)
  {
    var base, gap := BaseOf(dimensions[name]), dimensions[name].position;
    after := dimensions;
    if base.Some? {
      after := RemoveConnections(name, base.value, after);
    }
    after := ShiftedDown(after - {name}, gap);
  }

  method CheckMove(dimensions: Dimensions, name: string, to: Int32) returns (checked: Result<()>)
    ensures checked.Success? <==> CanMove(dimensions, name, to)
  {
    if name !in dimensions {
      return Failure("not found");
    }
    var base := BaseOf(dimensions[name]);
    if base.Some? && (base.value !in dimensions || dimensions[base.value].dimensionType.LocalCohort?
                      || to >= dimensions[base.value].position) {
      return Failure("above its base");
    }
    if !PositionAllowed(name, to, |dimensions| - 1) {
      return Failure("invalid position");
    }
    var cohorts := Children(dimensions[name].dependencyGraph, name);
    for i := 0 to |cohorts|
      invariant forall j :: 0 <= j < i ==> cohorts[j] in dimensions && dimensions[cohorts[j]].position < to
    {
      if cohorts[i] !in dimensions || dimensions[cohorts[i]].position >= to {
        return Failure("below a cohort");
      }
    }
    return Success(());
  }

  method CheckUpdate(dimensions: Dimensions, name: string, change: Change, valid: bool) returns (checked: Result<()>)
    ensures checked.Success? <==> valid && CanUpdate(dimensions, name, change)
  {
    if name !in dimensions {
      return Failure("not found");
    }
    if !valid {
      return Failure("invalid");
    }
    if change.valueFunction.Some? && !FunctionFits(dimensions[name].dimensionType, change.valueFunction.value) {
      return Failure("invalid");
    }
    if change.position.Some? {
      checked := CheckMove(dimensions, name, change.position.value);
    } else {
      checked := Success(());
    }
  }

  /** Parks the row beyond the others, closes the gap it leaves and makes room at the new
      position, and places the row there. */
  method MoveRow(dimensions: Dimensions, name: string, to: Int32) returns (after: Dimensions)
    requires name in dimensions
    ensures after == Moved(dimensions, name, to)
  {
    var from := dimensions[name].position;
    after := dimensions[name := dimensions[name].(position := AsInt32(|dimensions| + 100))];
    if from < to {
      after := map d | d in after ::
        if from < after[d].position <= to then after[d].(position := after[d].position - 1) else after[d];
    } else {
      after := map d | d in after ::
        if to <= after[d].position < from then after[d].(position := after[d].position + 1) else after[d];
    }
    after := after[name := after[name].(position := to)];
  }

  /** Moves the row if that is asked for, and writes whatever else the update asks for. */
  method ApplyUpdate(dimensions: Dimensions, name: string, change: Change) returns (after: Dimensions)
    requires name in dimensions
    ensures after == Updated(dimensions, name, change)
  {
    after := dimensions;
    if change.position.Some? {
      after := MoveRow(after, name, change.position.value);
    }
    var row := after[name];
    if change.schema.Some? {
      row := row.(schema := change.schema.value);
    }
    if change.valueFunction.Some? {
      row := row.(valueComputeFunction := change.valueFunction.value);
    }
    after := after[name := row];
  }

  // ---------- The table in the database ----------

  class Workspace {
    var dimensions: Dimensions

    ghost predicate Valid()
      reads this
    {
      Sound(dimensions)
    }

    constructor (schema: map<string, Json>)
      ensures Valid() && dimensions == Fresh(schema)
    {
      dimensions := Fresh(schema);
      FreshIsSound(schema);
    }

    method CreateDimension(asked: NewDimension, valid: bool) returns (result: Result<()>)
      requires Valid()
      modifies this
      ensures Valid()
      ensures result.Success? <==> old(Accepted(dimensions, Create(asked, valid)))
      ensures dimensions == Served(old(dimensions), Create(asked, valid))
    {
      result := CheckNew(dimensions, asked, valid);
      if result.Success? {
        RequestKeepsSound(dimensions, Create(asked, valid));
        dimensions := InsertDimension(dimensions, asked);
      }
    }

    method DeleteDimension(name: string, used: bool) returns (result: Result<()>)
      requires Valid()
      modifies this
      ensures Valid()
      ensures result.Success? <==> old(Accepted(dimensions, Delete(name, used)))
      ensures dimensions == Served(old(dimensions), Delete(name, used))
    {
      if name == VARIANT_IDS {
        return Failure("reserved");
      }
      if name !in dimensions {
        return Failure("not found");
      }
      if used {
        return Failure("in use");
      }
      if dimensions[name].dependencyGraph != map[] {
        return Failure("has cohorts");
      }
      RequestKeepsSound(dimensions, Delete(name, used));
      dimensions := RemoveDimension(dimensions, name);
      return Success(());
    }

    method UpdateDimension(name: string, change: Change, valid: bool) returns (result: Result<()>)
      requires Valid()
      modifies this
      ensures Valid()
      ensures result.Success? <==> old(Accepted(dimensions, Update(name, change, valid)))
      ensures dimensions == Served(old(dimensions), Update(name, change, valid))
    {
      result := CheckUpdate(dimensions, name, change, valid);
      if result.Success? {
        RequestKeepsSound(dimensions, Update(name, change, valid));
        dimensions := ApplyUpdate(dimensions, name, change);
      }
    }
  }
}
