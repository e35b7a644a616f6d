/** The recursive JSON merge and its laws. */
module JsonMerge {
  import opened JsonValues

  // ---------- What merging means ----------

  /** `doc` after it has been patched: a patch that is not an object replaces the document,
      an object patch is merged member by member onto the document's members. */
  function Merge(doc: Json, patch: Json): Json
    decreases patch
  {
    if !patch.Object? then patch
    else
      Object(map key | key in Members(doc).Keys + patch.members.Keys ::
               if key in patch.members then Merge(MemberOrNull(doc, key), patch.members[key])
               else Members(doc)[key])
  }

  /** The merge itself: the members of the patch are visited one by one, in whatever order
      the map yields them, and each is merged onto the entry of the document. */
  method MergeInPlace(doc: Json, patch: Json) returns (merged: Json)
    ensures merged == Merge(doc, patch)
    decreases patch
  {
    if !patch.Object? {
      return patch;
    }
    merged := doc;
    if !merged.Object? {
      merged := Object(map[]);
    }
    var remaining := patch.members.Keys;
    while remaining != {}
      invariant remaining <= patch.members.Keys
      invariant merged.Object?
      invariant merged.members.Keys == Members(doc).Keys + (patch.members.Keys - remaining)
      invariant forall key :: key in merged.members ==>
        merged.members[key] ==
          if key in patch.members && key !in remaining
          then Merge(MemberOrNull(doc, key), patch.members[key])
          else Members(doc)[key]
    {
      var key :| key in remaining;
      var entry := if key in merged.members then merged.members[key] else Null;
      entry := MergeInPlace(entry, patch.members[key]);
      merged := Object(merged.members[key := entry]);
      remaining := remaining - {key};
    }
  }

  // ---------- Units and idempotence ----------

  /** Onto anything that is not an object, a merge leaves exactly the patch. */
  lemma {:induction false} MergeOntoNonObject(doc: Json, patch: Json)
    requires !doc.Object?
    ensures Merge(doc, patch) == patch
    decreases patch
  {
    if patch.Object? {
      forall key | key in patch.members
        ensures Merge(Null, patch.members[key]) == patch.members[key]
      {
        MergeOntoNonObject(Null, patch.members[key]);
      }
      assert Merge(doc, patch).members == patch.members;
    }
  }

  /** Onto the empty object, a merge of an object leaves exactly the patch. */
  lemma MergeOntoEmpty(patch: Json)
    requires patch.Object?
    ensures Merge(Object(map[]), patch) == patch
  {
    MergeOntoNonObject(Null, patch);
    assert Merge(Object(map[]), patch) == Merge(Null, patch);
  }

  /** Every member of `doc` is overwritten by `patch`, all the way down. */
  ghost predicate Covered(doc: Json, patch: Json) {
    doc.Object? && patch.Object? ==>
      forall key :: key in doc.members ==>
        key in patch.members && Covered(doc.members[key], patch.members[key])
  }

  /** A patch erases every trace of a document exactly when it covers it. */
  lemma {:induction false} MergeYieldsPatchIff(doc: Json, patch: Json)
    ensures Merge(doc, patch) == patch <==> Covered(doc, patch)
    decreases patch
  {
    if !doc.Object? {
      MergeOntoNonObject(doc, patch);
    } else if patch.Object? {
      forall key | key in patch.members
        ensures Merge(MemberOrNull(doc, key), patch.members[key]) == patch.members[key]
           <==> (key in doc.members ==> Covered(doc.members[key], patch.members[key]))
      {
        MergeYieldsPatchIff(MemberOrNull(doc, key), patch.members[key]);
      }
      var merged := Merge(doc, patch);
      if Covered(doc, patch) {
        assert merged.members == patch.members;
      }
      if merged == patch {
        forall key | key in doc.members
          ensures key in patch.members && Covered(doc.members[key], patch.members[key])
        {
          assert key in merged.members;
        }
      }
    }
  }

  /** Applying the same patch twice is applying it once. */
  lemma {:induction false} MergeIdempotent(doc: Json, patch: Json)
    ensures Merge(Merge(doc, patch), patch) == Merge(doc, patch)
    decreases patch
  {
    if patch.Object? {
      var once := Merge(doc, patch);
      forall key | key in patch.members
        ensures Merge(once.members[key], patch.members[key]) == once.members[key]
      {
        MergeIdempotent(MemberOrNull(doc, key), patch.members[key]);
      }
      assert Merge(once, patch).members == once.members;
    }
  }

  // ---------- JSON Merge Patch ----------

  /** MergePatch of section 2 of RFC 7396: like a merge, but a null member deletes. */
  function MergePatch(target: Json, patch: Json): Json
    decreases patch
  {
    if !patch.Object? then patch
    else
      Object(map name | name in Members(target).Keys + patch.members.Keys
                        && !(name in patch.members && patch.members[name].Null?) ::
               if name in patch.members then MergePatch(MemberOrNull(target, name), patch.members[name])
               else Members(target)[name])
  }

  ghost predicate HasNullMember(patch: Json) {
    patch.Object? &&
    exists name :: name in patch.members &&
                   (patch.members[name].Null? || HasNullMember(patch.members[name]))
  }

  /** The merge agrees with RFC 7396 on exactly those patches that have no null member at
      any object depth; it stores a null where the RFC deletes. */
  lemma {:induction false} MergeIsMergePatchIff(doc: Json, patch: Json)
    ensures Merge(doc, patch) == MergePatch(doc, patch) <==> !HasNullMember(patch)
    decreases patch
  {
    if patch.Object? {
      var ours, theirs := Merge(doc, patch).members, MergePatch(doc, patch).members;
      forall name | name in patch.members
        ensures Merge(MemberOrNull(doc, name), patch.members[name])
             == MergePatch(MemberOrNull(doc, name), patch.members[name])
           <==> !HasNullMember(patch.members[name])
      {
        MergeIsMergePatchIff(MemberOrNull(doc, name), patch.members[name]);
      }
      if HasNullMember(patch) {
        var name :| name in patch.members &&
                    (patch.members[name].Null? || HasNullMember(patch.members[name]));
        assert name in ours;
        if patch.members[name].Null? {
          assert name !in theirs;
        }
      } else {
        assert ours == theirs;
      }
    }
  }

  // ---------- When merging is associative ----------

  /** Merging `a` and `b` first forgets nothing that merging them in turn onto `doc` would
      have erased: wherever `b` has an object and `a` has something else, that object covers
      what `doc` has there. */
  ghost predicate NothingForgotten(doc: Json, a: Json, b: Json)
    decreases b
  {
    b.Object? ==>
      if a.Object? then
        forall key :: key in a.members && key in b.members ==>
          NothingForgotten(MemberOrNull(doc, key), a.members[key], b.members[key])
      else Covered(doc, b)
  }

  /** Merging is not associative in general; this says for which documents it is. */
  lemma {:induction false} MergeAssociativeIff(doc: Json, a: Json, b: Json)
    ensures Merge(Merge(doc, a), b) == Merge(doc, Merge(a, b)) <==> NothingForgotten(doc, a, b)
    decreases b
  {
    if b.Object? && !a.Object? {
      MergeOntoNonObject(a, b);
      MergeYieldsPatchIff(doc, b);
    } else if b.Object? {
      var left, right := Merge(Merge(doc, a), b), Merge(doc, Merge(a, b));
      forall key | key in b.members
        ensures left.members[key] == right.members[key]
           <==> (key in a.members ==> NothingForgotten(MemberOrNull(doc, key), a.members[key], b.members[key]))
      {
        MergeMemberwise(doc, a, b, key);
        if key in a.members {
          MergeAssociativeIff(MemberOrNull(doc, key), a.members[key], b.members[key]);
        } else {
          MergeOntoNonObject(Null, b.members[key]);
        }
      }
      if NothingForgotten(doc, a, b) {
        assert left.members == right.members;
      }
      if left == right {
        forall key | key in a.members && key in b.members
          ensures NothingForgotten(MemberOrNull(doc, key), a.members[key], b.members[key])
        {
          assert left.members[key] == right.members[key];
        }
      }
    }
  }

  lemma MergeMemberwise(doc: Json, a: Json, b: Json, key: string)
    requires a.Object? && b.Object? && key in b.members
    ensures key in Merge(Merge(doc, a), b).members && key in Merge(doc, Merge(a, b)).members
    ensures Merge(Merge(doc, a), b).members[key]
         == Merge(if key in a.members then Merge(MemberOrNull(doc, key), a.members[key])
                  else MemberOrNull(doc, key), b.members[key])
    ensures Merge(doc, Merge(a, b)).members[key]
         == Merge(MemberOrNull(doc, key), Merge(MemberOrNull(a, key), b.members[key]))
  {
  }
}
