/** The checks of requests are exact: they let through what keeps the table sound, and nothing
    else; and what a request writes. */
module Acceptance {
  import opened Wrappers
  import opened Matching
  import opened Configuration
  import opened Dependencies
  import opened Lineages
  import opened Removal
  import opened Weights
  import opened Workspaces

  // ---------- Creation ----------

  /** What a creation writes: the new row as asked for, without cohorts; the others move up by one
      where they stand at or above it, and keep all but their graphs. */
  lemma CreationWrites(dimensions: Dimensions, asked: NewDimension)
    requires CanShift(dimensions) && asked.name !in dimensions
    ensures var created := Created(dimensions, asked);
            && created.Keys == dimensions.Keys + {asked.name}
            && created[asked.name].schema == asked.schema && created[asked.name].position == asked.position
            && created[asked.name].dimensionType == asked.dimensionType
            && created[asked.name].valueComputeFunction == asked.valueComputeFunction
            && created[asked.name].dependencyGraph == map[]
            && forall d :: d in dimensions ==>
                 && created[d].schema == dimensions[d].schema
                 && created[d].dimensionType == dimensions[d].dimensionType
                 && created[d].valueComputeFunction == dimensions[d].valueComputeFunction
                 && created[d].position == if dimensions[d].position >= asked.position then dimensions[d].position + 1
                                           else dimensions[d].position
  {
    CreatedNames(dimensions, asked);
  }

  lemma SoundPositionAllowed(dimensions: Dimensions, asked: NewDimension)
    requires CanShift(dimensions) && asked.name !in dimensions && VariantsFirst(dimensions)
    requires Compact(Created(dimensions, asked)) && VariantsFirst(Created(dimensions, asked))
    ensures PositionAllowed(asked.name, asked.position, |dimensions|)
  {
    var created := Created(dimensions, asked);
    CreationWrites(dimensions, asked);
    assert |created.Keys| == |dimensions.Keys| + 1;
    assert created[asked.name].position != created[VARIANT_IDS].position;
  }

  /** In a sound outcome the base of a new cohort is known, not local, and not lower. */
  lemma SoundBaseAllowed(dimensions: Dimensions, asked: NewDimension, base: string)
    requires CanShift(dimensions) && asked.name !in dimensions
    requires BaseOf(InfoOf(asked)) == Some(base)
    requires CohortsSound(Created(dimensions, asked))
    ensures base in dimensions && !dimensions[base].dimensionType.LocalCohort?
    ensures asked.position <= dimensions[base].position
  {
    var created := Created(dimensions, asked);
    CreationWrites(dimensions, asked);
    assert BaseOf(created[asked.name]) == Some(base);
    assert IsBase(created, base, asked.name);
  }

  lemma SoundIsCreatable(dimensions: Dimensions, asked: NewDimension)
    requires HasRoom(dimensions) && CanShift(dimensions) && asked.name !in dimensions && VariantsFirst(dimensions)
    requires Sound(Created(dimensions, asked))
    ensures CanCreate(dimensions, asked)
  {
    SoundPositionAllowed(dimensions, asked);
    if BaseOf(InfoOf(asked)).Some? {
      SoundBaseAllowed(dimensions, asked, BaseOf(InfoOf(asked)).value);
    }
    CreationWrites(dimensions, asked);
  }

  /** A creation with a new name is accepted exactly when the table it leads to is sound. */
  lemma CreatableIff(dimensions: Dimensions, asked: NewDimension)
    requires Sound(dimensions) && HasRoom(dimensions)
    ensures CanShift(dimensions)
    ensures CanCreate(dimensions, asked) <==> asked.name !in dimensions && Sound(Created(dimensions, asked))
  {
    CompactCanShift(dimensions);
    if CanCreate(dimensions, asked) {
      RequestKeepsSound(dimensions, Create(asked, true));
    } else if asked.name !in dimensions && Sound(Created(dimensions, asked)) {
      SoundIsCreatable(dimensions, asked);
    }
  }

  // ---------- Deletion ----------

  /** What a deletion writes: the row is gone, and the others close the gap and keep all but their
      graphs. */
  lemma DeletionWrites(dimensions: Dimensions, name: string)
    requires name in dimensions
    ensures var after, gap := WithoutDimension(dimensions, name), dimensions[name].position;
            && after.Keys == dimensions.Keys - {name}
            && forall d :: d in after ==>
                 && after[d].schema == dimensions[d].schema
                 && after[d].dimensionType == dimensions[d].dimensionType
                 && after[d].valueComputeFunction == dimensions[d].valueComputeFunction
                 && after[d].position == if dimensions[d].position > gap then dimensions[d].position - 1
                                         else dimensions[d].position
  {
    DeletedRows(dimensions, name);
  }

  lemma CohortLosesBase(dimensions: Dimensions, name: string, c: string)
    requires TypesAgree(dimensions) && name in dimensions && IsBase(dimensions, name, c) && c != name
    ensures !TypesAgree(WithoutDimension(dimensions, name))
  {
    var after := WithoutDimension(dimensions, name);
    DeletedRows(dimensions, name);
    assert c in dimensions && BaseOf(dimensions[c]) == Some(name);
    assert BaseOf(after[c]) == Some(name) && !IsBase(after, name, c);
  }

  /** A deletion is accepted exactly when the table it leads to is sound. */
  lemma DeletableIff(dimensions: Dimensions, name: string)
    requires Sound(dimensions)
    ensures CanDelete(dimensions, name) <==> name in dimensions && Sound(WithoutDimension(dimensions, name))
  {
    if CanDelete(dimensions, name) {
      RequestKeepsSound(dimensions, Delete(name, false));
    } else if name in dimensions && Sound(WithoutDimension(dimensions, name)) {
      SoundIsDeletable(dimensions, name);
    }
  }

  lemma SoundIsDeletable(dimensions: Dimensions, name: string)
    requires Tidy(dimensions) && CohortsLower(dimensions) && name in dimensions
    requires VariantsFirst(WithoutDimension(dimensions, name)) && TypesAgree(WithoutDimension(dimensions, name))
    ensures CanDelete(dimensions, name)
  {
    DeletedRows(dimensions, name);
    DeletableIffNoCohorts(dimensions, name);
    forall c ensures !IsBase(dimensions, name, c) {
      if IsBase(dimensions, name, c) {
        CohortLosesBase(dimensions, name, c);
      }
    }
  }

  // ---------- Updates ----------

  lemma SoundPositionMoves(dimensions: Dimensions, name: string, to: Int32)
    requires RowsSound(dimensions) && name in dimensions && RowsSound(Moved(dimensions, name, to))
    ensures PositionAllowed(name, to, |dimensions| - 1)
  {
    var moved := Moved(dimensions, name, to);
    assert moved.Keys == dimensions.Keys;
    if name != VARIANT_IDS {
      assert moved[name].position != moved[VARIANT_IDS].position;
    }
  }

  /** Of two dimensions one of which moves, the order afterwards tells the order before. */
  lemma MovedBelow(dimensions: Dimensions, name: string, to: Int32, other: string)
    requires DistinctPositions(dimensions) && name in dimensions && other in dimensions && other != name
    ensures dimensions[name].position < dimensions[other].position && to < Moved(dimensions, name, to)[other].position
        ==> to < dimensions[other].position
    ensures dimensions[other].position < dimensions[name].position && Moved(dimensions, name, to)[other].position < to
        ==> dimensions[other].position < to
  {
    assert dimensions[name].position != dimensions[other].position;
  }

  lemma SoundBaseMoves(dimensions: Dimensions, name: string, to: Int32, base: string)
    requires CohortsSound(dimensions) && DistinctPositions(dimensions) && name in dimensions
    requires CohortsSound(Moved(dimensions, name, to)) && BaseOf(dimensions[name]) == Some(base)
    ensures base in dimensions && !dimensions[base].dimensionType.LocalCohort? && to < dimensions[base].position
  {
    var moved := Moved(dimensions, name, to);
    assert IsBase(dimensions, base, name);
    assert BaseOf(moved[name]) == Some(base);
    assert IsBase(moved, base, name);
    MovedBelow(dimensions, name, to, base);
  }

  lemma SoundCohortMoves(dimensions: Dimensions, name: string, to: Int32, c: string)
    requires CohortsSound(dimensions) && DistinctPositions(dimensions) && name in dimensions
    requires CohortsSound(Moved(dimensions, name, to)) && IsBase(dimensions, name, c)
    ensures c in dimensions && dimensions[c].position < to
  {
    var moved := Moved(dimensions, name, to);
    assert BaseOf(moved[c]) == Some(name);
    assert IsBase(moved, name, c);
    MovedBelow(dimensions, name, to, c);
  }

  lemma SoundIsMovable(dimensions: Dimensions, name: string, to: Int32)
    requires Sound(dimensions) && name in dimensions && Sound(Moved(dimensions, name, to))
    ensures CanMove(dimensions, name, to)
  {
    SoundPositionMoves(dimensions, name, to);
    if BaseOf(dimensions[name]).Some? {
      SoundBaseMoves(dimensions, name, to, BaseOf(dimensions[name]).value);
    }
    forall c | c in Children(dimensions[name].dependencyGraph, name)
      ensures c in dimensions && dimensions[c].position < to
    {
      assert IsBase(dimensions, name, c);
      SoundCohortMoves(dimensions, name, to, c);
    }
  }

  /** A description does not touch what else soundness is about. */
  lemma UndescribedIsSound(dimensions: Dimensions, name: string, change: Change)
    requires name in dimensions && FunctionsFit(dimensions) && Sound(Described(dimensions, name, change))
    ensures Sound(dimensions)
    ensures change.valueFunction.Some? ==> FunctionFits(dimensions[name].dimensionType, change.valueFunction.value)
  {
    var described := Described(dimensions, name, change);
    assert described.Keys == dimensions.Keys;
    SameGraphsTidy(described, dimensions);
    UndescribedRows(dimensions, name, change);
    forall p, c | IsBase(dimensions, p, c)
      ensures !IsLocal(dimensions, p) && c in dimensions && dimensions[c].position < dimensions[p].position
    {
      assert IsBase(described, p, c);
    }
  }

  lemma UndescribedRows(dimensions: Dimensions, name: string, change: Change)
    requires name in dimensions && FunctionsFit(dimensions) && RowsSound(Described(dimensions, name, change))
    ensures RowsSound(dimensions)
    ensures change.valueFunction.Some? ==> FunctionFits(dimensions[name].dimensionType, change.valueFunction.value)
  {
    var described := Described(dimensions, name, change);
    assert described.Keys == dimensions.Keys;
    forall d | d in dimensions
      ensures described[d].position == dimensions[d].position
      ensures described[d].dimensionType == dimensions[d].dimensionType
    {
    }
    assert FunctionFits(described[name].dimensionType, described[name].valueComputeFunction);
  }

  lemma SoundIsUpdatable(dimensions: Dimensions, name: string, change: Change)
    requires Sound(dimensions) && name in dimensions && Sound(Updated(dimensions, name, change))
    ensures CanUpdate(dimensions, name, change)
  {
    if change.position.Some? {
      var moved := Moved(dimensions, name, change.position.value);
      assert FunctionsFit(moved);
      UndescribedIsSound(moved, name, change);
      SoundIsMovable(dimensions, name, change.position.value);
    } else {
      UndescribedIsSound(dimensions, name, change);
    }
  }

  /** An update is accepted exactly when the table it leads to is sound. */
  lemma UpdatableIff(dimensions: Dimensions, name: string, change: Change)
    requires Sound(dimensions)
    ensures CanUpdate(dimensions, name, change) <==> name in dimensions && Sound(Updated(dimensions, name, change))
  {
    if CanUpdate(dimensions, name, change) {
      RequestKeepsSound(dimensions, Update(name, change, true));
    } else if name in dimensions && Sound(Updated(dimensions, name, change)) {
      SoundIsUpdatable(dimensions, name, change);
    }
  }

  /** What an update writes: exactly what is asked for, in that row alone, but that the rows it
      passes make room by one; graphs and types stay. */
  lemma UpdateWrites(dimensions: Dimensions, name: string, change: Change)
    requires name in dimensions
    ensures var before, after := dimensions[name], Updated(dimensions, name, change)[name];
            && after.schema == (if change.schema.Some? then change.schema.value else before.schema)
            && after.valueComputeFunction ==
                 (if change.valueFunction.Some? then change.valueFunction.value else before.valueComputeFunction)
            && after.position == (if change.position.Some? then change.position.value else before.position)
            && after.dimensionType == before.dimensionType && after.dependencyGraph == before.dependencyGraph
    ensures Updated(dimensions, name, change).Keys == dimensions.Keys
    ensures forall d :: d in dimensions && d != name ==>
              var at, from := dimensions[d].position, dimensions[name].position;
              var updated := Updated(dimensions, name, change)[d];
              && updated == dimensions[d].(position := updated.position)
              && updated.position ==
                   if change.position.Some? && from < at <= change.position.value then at - 1
                   else if change.position.Some? && change.position.value <= at < from then at + 1
                   else at
  {
  }
}
