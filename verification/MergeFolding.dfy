/** Merging a list of patches: all at once onto a document, or gathered first and merged
    onto the document afterwards. */
module MergeFolding {
  import opened JsonValues
  import opened JsonMerge
  import opened Sequences

  /** `doc` after every patch of the list has been merged onto it in turn. */
  function MergeAll(doc: Json, patches: seq<Json>): Json {
    if patches == [] then doc
    else Merge(MergeAll(doc, patches[..|patches| - 1]), patches[|patches| - 1])
  }

  lemma {:induction false} MergeAllAppend(doc: Json, first: seq<Json>, second: seq<Json>)
    ensures MergeAll(doc, first + second) == MergeAll(MergeAll(doc, first), second)
    decreases |second|
  {
    if second == [] {
      assert first + second == first;
    } else {
      var init := second[..|second| - 1];
      assert (first + second)[..|first + second| - 1] == first + init;
      MergeAllAppend(doc, first, init);
    }
  }

  // ---------- Patches seen from one key ----------

  /** The values the object patches of the list give to `key`, in order. */
  function At(patches: seq<Json>, key: string): (values: seq<Json>)
    ensures forall v :: v in values ==>
      exists i :: 0 <= i < |patches| && key in Members(patches[i]) && v == Members(patches[i])[key]
  {
    if patches == [] then []
    else
      var last := patches[|patches| - 1];
      At(patches[..|patches| - 1], key) + if key in Members(last) then [Members(last)[key]] else []
  }

  ghost function Tallest(patches: seq<Json>): (top: nat)
    ensures forall p :: p in patches ==> Height(p) <= top
  {
    if patches == [] then 0
    else
      var rest := Tallest(patches[1..]);
      assert forall p :: p in patches ==> p == patches[0] || p in patches[1..];
      if rest < Height(patches[0]) || patches[1..] == [] then Height(patches[0]) else rest
  }

  lemma TallestWitness(patches: seq<Json>) returns (p: Json)
    requires patches != []
    ensures p in patches && Height(p) == Tallest(patches)
  {
    p := patches[0];
    if patches[1..] != [] && Height(patches[0]) <= Tallest(patches[1..]) {
      p := TallestWitness(patches[1..]);
    }
  }

  ghost predicate AllObjects(patches: seq<Json>) {
    forall i :: 0 <= i < |patches| ==> patches[i].Object?
  }

  lemma AtIsLower(patches: seq<Json>, key: string)
    requires AllObjects(patches) && patches != []
    ensures Tallest(At(patches, key)) < Tallest(patches)
  {
    var values := At(patches, key);
    if values != [] {
      var v := TallestWitness(values);
      var i :| 0 <= i < |patches| && key in Members(patches[i]) && v == Members(patches[i])[key];
      MemberIsLower(patches[i], key);
      assert patches[i] in patches;
    } else {
      MemberFreeHeight(patches[0]);
      assert patches[0] in patches;
    }
  }

  lemma MemberFreeHeight(j: Json)
    requires j.Object?
    ensures Height(j) > 0
  {
  }

  lemma MergeAllSnoc(doc: Json, init: seq<Json>, last: Json)
    ensures MergeAll(doc, init + [last]) == Merge(MergeAll(doc, init), last)
  {
    SnocParts(init, last);
  }

  /** Folding a non-empty list of object patches works on each key separately. */
  lemma {:induction false} MergeAllMember(doc: Json, patches: seq<Json>, key: string)
    requires AllObjects(patches) && patches != []
    ensures MergeAll(doc, patches).Object?
    ensures key in MergeAll(doc, patches).members <==> key in Members(doc) || At(patches, key) != []
    ensures MemberOrNull(MergeAll(doc, patches), key) == MergeAll(MemberOrNull(doc, key), At(patches, key))
    decreases |patches|
  {
    var init, last := patches[..|patches| - 1], patches[|patches| - 1];
    var before, values := MergeAll(doc, init), At(init, key);
    if init != [] {
      MergeAllMember(doc, init, key);
    }
    assert MemberOrNull(before, key) == MergeAll(MemberOrNull(doc, key), values);
    MemberAfterMerge(before, last, key);
    if key in last.members {
      MergeAllSnoc(MemberOrNull(doc, key), values, last.members[key]);
    } else {
      assert values + [] == values;
    }
  }

  lemma MemberAfterMerge(doc: Json, patch: Json, key: string)
    requires patch.Object?
    ensures key in Merge(doc, patch).members <==> key in Members(doc) || key in patch.members
    ensures MemberOrNull(Merge(doc, patch), key)
         == if key in patch.members then Merge(MemberOrNull(doc, key), patch.members[key]) else MemberOrNull(doc, key)
  {
  }

  // ---------- Gathering first, merging afterwards ----------

  /** The index of the last patch that is not an object, or -1. */
  function LastScalar(patches: seq<Json>): (i: int)
    ensures -1 <= i < |patches|
    ensures i >= 0 ==> !patches[i].Object?
    ensures forall j :: i < j < |patches| ==> patches[j].Object?
  {
    if patches == [] then -1
    else if !patches[|patches| - 1].Object? then |patches| - 1
    else LastScalar(patches[..|patches| - 1])
  }

  /** Gathering the patches away from `doc` revives nothing of `doc` that the patches erase
      on their way: at every path, either no patch has a non-object there, or the last
      non-object is the last word, or the objects after it cover what `doc` has there. */
  ghost predicate NothingRevived(doc: Json, patches: seq<Json>)
    decreases Tallest(patches)
  {
    var last := LastScalar(patches);
    if last >= 0 then
      last == |patches| - 1 || Covered(doc, MergeAll(Null, patches[last + 1..]))
    else
      forall key | At(patches, key) != [] ::
        AtIsLower(patches, key);
        NothingRevived(MemberOrNull(doc, key), At(patches, key))
  }

  /** Gathering a non-empty list of patches and merging the outcome onto `doc` gives what
      merging them onto `doc` one by one gives, exactly when nothing is revived. */
  lemma {:induction false} GatheringIsFaithfulIff(doc: Json, patches: seq<Json>)
    requires patches != []
    ensures Merge(doc, MergeAll(Null, patches)) == MergeAll(doc, patches) <==> NothingRevived(doc, patches)
    decreases Tallest(patches)
  {
    var last := LastScalar(patches);
    if last >= 0 {
      GatheringAfterScalar(doc, patches, last);
    } else {
      forall key | At(patches, key) != []
        ensures FaithfulAt(doc, patches, key) <==> NothingRevived(MemberOrNull(doc, key), At(patches, key))
      {
        AtIsLower(patches, key);
        GatheringIsFaithfulIff(MemberOrNull(doc, key), At(patches, key));
      }
      GatheringMemberwise(doc, patches);
    }
  }

  ghost predicate FaithfulAt(doc: Json, patches: seq<Json>, key: string) {
    Merge(MemberOrNull(doc, key), MergeAll(Null, At(patches, key)))
      == MergeAll(MemberOrNull(doc, key), At(patches, key))
  }

  /** Both ways of merging object patches work on each key separately. */
  lemma GatheringMemberwise(doc: Json, patches: seq<Json>)
    requires patches != [] && AllObjects(patches)
    ensures Merge(doc, MergeAll(Null, patches)) == MergeAll(doc, patches)
       <==> forall key | At(patches, key) != [] :: FaithfulAt(doc, patches, key)
  {
    var gathered, direct := MergeAll(Null, patches), MergeAll(doc, patches);
    MergeAllMember(Null, patches, "");
    MergeAllMember(doc, patches, "");
    forall key
      ensures SameMember(Merge(doc, gathered), direct, key)
         <==> (At(patches, key) != [] ==> FaithfulAt(doc, patches, key))
    {
      MergeAllMember(Null, patches, key);
      MergeAllMember(doc, patches, key);
    }
    SameMembers(Merge(doc, gathered), direct);
  }

  ghost predicate SameMember(a: Json, b: Json, key: string) {
    (key in Members(a) <==> key in Members(b)) && MemberOrNull(a, key) == MemberOrNull(b, key)
  }

  lemma SameMembers(a: Json, b: Json)
    requires a.Object? && b.Object?
    ensures a == b <==> forall key :: SameMember(a, b, key)
  {
    if forall key :: SameMember(a, b, key) {
      forall key ensures key in a.members <==> key in b.members {
        assert SameMember(a, b, key);
      }
      forall key | key in a.members ensures a.members[key] == b.members[key] {
        assert SameMember(a, b, key);
      }
      assert a.members == b.members;
    }
  }

  /** From the last non-object on, `doc` is forgotten by the direct way. */
  lemma GatheringAfterScalar(doc: Json, patches: seq<Json>, last: nat)
    requires last < |patches| && last == LastScalar(patches)
    ensures Merge(doc, MergeAll(Null, patches)) == MergeAll(doc, patches)
       <==> last == |patches| - 1 || Covered(doc, MergeAll(Null, patches[last + 1..]))
  {
    var before, rest := patches[..last + 1], patches[last + 1..];
    assert patches == before + rest;
    MergeAllAppend(doc, before, rest);
    MergeAllAppend(Null, before, rest);
    assert MergeAll(doc, before) == patches[last] == MergeAll(Null, before);
    if rest != [] {
      ObjectsIgnoreScalar(patches[last], rest);
      MergeYieldsPatchIff(doc, MergeAll(Null, rest));
    }
  }

  lemma {:induction false} ObjectsIgnoreScalar(scalar: Json, patches: seq<Json>)
    requires !scalar.Object? && patches != [] && patches[0].Object?
    ensures MergeAll(scalar, patches) == MergeAll(Null, patches)
    decreases |patches|
  {
    var init := patches[..|patches| - 1];
    if init == [] {
      MergeOntoNonObject(scalar, patches[0]);
      MergeOntoNonObject(Null, patches[0]);
    } else {
      ObjectsIgnoreScalar(scalar, init);
    }
  }

  // ---------- A condition on the patches alone ----------

  /** `later` has no object at a path where `earlier` has something else. */
  ghost predicate Compatible(earlier: Json, later: Json) {
    later.Object? ==>
      earlier.Object? &&
      forall key :: key in earlier.members && key in later.members ==>
        Compatible(earlier.members[key], later.members[key])
  }

  ghost predicate PairwiseCompatible(patches: seq<Json>) {
    forall i, j :: 0 <= i < j < |patches| ==> Compatible(patches[i], patches[j])
  }

  /** When no later patch puts an object where an earlier one has something else, nothing is
      revived whatever the document. */
  lemma {:induction false} CompatibleRevivesNothing(doc: Json, patches: seq<Json>)
    requires PairwiseCompatible(patches)
    ensures NothingRevived(doc, patches)
    decreases Tallest(patches)
  {
    var last := LastScalar(patches);
    if last < 0 {
      forall key | At(patches, key) != []
        ensures NothingRevived(MemberOrNull(doc, key), At(patches, key))
      {
        AtKeepsCompatible(patches, key);
        AtIsLower(patches, key);
        CompatibleRevivesNothing(MemberOrNull(doc, key), At(patches, key));
      }
    } else if last + 1 < |patches| {
      ScalarBeforeObject(patches, last, last + 1);
    }
  }

  lemma ScalarBeforeObject(patches: seq<Json>, i: nat, j: nat)
    requires i < j < |patches| && !patches[i].Object? && patches[j].Object?
    ensures !PairwiseCompatible(patches)
  {
    assert !Compatible(patches[i], patches[j]);
  }

  lemma {:induction false} AtKeepsCompatible(patches: seq<Json>, key: string)
    requires PairwiseCompatible(patches)
    ensures PairwiseCompatible(At(patches, key))
  {
    if patches != [] {
      var init, last := patches[..|patches| - 1], patches[|patches| - 1];
      AtKeepsCompatible(init, key);
      var values := At(init, key);
      if key in Members(last) {
        forall i | 0 <= i < |values|
          ensures Compatible(values[i], Members(last)[key])
        {
          assert values[i] in values;
          var p :| 0 <= p < |init| && key in Members(init[p]) && values[i] == Members(init[p])[key];
          assert Compatible(patches[p], last);
        }
      }
    }
  }
}
