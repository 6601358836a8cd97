/**
  JSON values and the recursive merge that `meta.merge` operations use.

  The reference point is MergePatch of section 2 of RFC 7396. The code departs from it in one
  place: a patch object is copied verbatim, nulls included, when the target has no object
  under that key. `MergesCleanly` is the exact condition under which the departure is invisible.
*/
module Json {
  datatype Json =
    | Null
    | Bool(b: bool)
    | Number(n: real)
    | String(s: string)
    | Array(elements: seq<Json>)
    | Object(fields: map<string, Json>)

  /** What `deepMerge(target, patch)` returns. */
  function DeepMerge(target: Json, patch: Json): (merged: Json)
    requires target.Object? && patch.Object?
    ensures merged.Object?
    decreases patch
  {
    Object(map key | key in target.fields.Keys + patch.fields.Keys && !Deletes(patch, key) ::
      MergeField(target, patch, key))
  }

  predicate Deletes(patch: Json, key: string)
    requires patch.Object?
  {
    key in patch.fields && patch.fields[key].Null?
  }

  /** The value one key ends up with. */
  function MergeField(target: Json, patch: Json, key: string): Json
    requires target.Object? && patch.Object?
    requires key in target.fields.Keys + patch.fields.Keys
    decreases patch, 0
  {
    if key !in patch.fields then target.fields[key]
    else if patch.fields[key].Object? && HasObject(target, key)
    then DeepMerge(target.fields[key], patch.fields[key])
    else patch.fields[key]
  }

  predicate HasObject(target: Json, key: string)
    requires target.Object?
  {
    key in target.fields && target.fields[key].Object?
  }

  /** The loop of the source, over the entries of the patch in any order. */
  method DeepMergeLoop(target: Json, patch: Json) returns (merged: Json)
    requires target.Object? && patch.Object?
    ensures merged == DeepMerge(target, patch)
    decreases patch
  {
    var fields := target.fields;
    var pending := patch.fields.Keys;
    while pending != {}
      invariant pending <= patch.fields.Keys
      invariant forall key :: key in fields <==>
        (key in target.fields || key in patch.fields.Keys - pending) &&
        !(key in patch.fields.Keys - pending && Deletes(patch, key))
      invariant forall key :: key in fields ==>
        fields[key] == if key in pending then target.fields[key] else MergeField(target, patch, key)
      decreases pending
    {
      var key :| key in pending;
      var value := patch.fields[key];
      if value.Null? {
        fields := fields - {key};
      } else if value.Object? && key in fields && fields[key].Object? {
        var inner := DeepMergeLoop(fields[key], value);
        fields := fields[key := inner];
      } else {
        fields := fields[key := value];
      }
      pending := pending - {key};
    }
    merged := Object(fields);
  }

  /** MergePatch of section 2 of RFC 7396; a missing target is any value that is not an object. */
  function MergePatch(target: Json, patch: Json): Json
    decreases patch
  {
    if !patch.Object? then patch
    else
      var base := if target.Object? then target.fields else map[];
      Object(map key | key in base.Keys + patch.fields.Keys && !Deletes(patch, key) ::
        if key !in patch.fields then base[key]
        else MergePatch(if key in base then base[key] else Null, patch.fields[key]))
  }

  /** No object anywhere inside `value`, arrays aside, has a null member. */
  predicate NullFree(value: Json) {
    value.Object? ==>
      forall key :: key in value.fields ==> !value.fields[key].Null? && NullFree(value.fields[key])
  }

  /** Every patch object that lands where the target has no object is free of nulls. */
  predicate MergesCleanly(target: Json, patch: Json)
    requires target.Object? && patch.Object?
    decreases patch
  {
    forall key :: key in patch.fields && patch.fields[key].Object? ==>
      if HasObject(target, key) then MergesCleanly(target.fields[key], patch.fields[key])
      else NullFree(patch.fields[key])
  }

  /** Nulls occur only as members of the patch itself. */
  predicate NullsOnlyAtTop(patch: Json)
    requires patch.Object?
  {
    forall key :: key in patch.fields ==> NullFree(patch.fields[key])
  }

  // ---------- agreement with RFC 7396 ----------

  /** Patching "nothing" with an object strips its nulls, so it copies it exactly when there are none. */
  lemma {:induction false} PatchingNothing(patch: Json)
    requires patch.Object?
    ensures MergePatch(Null, patch) == patch <==> NullFree(patch)
    decreases patch
  {
    forall key | key in patch.fields && patch.fields[key].Object? {
      PatchingNothing(patch.fields[key]);
    }
    var merged := MergePatch(Null, patch);
    forall key | key in patch.fields && !patch.fields[key].Null?
      ensures key in merged.fields && merged.fields[key] == MergePatch(Null, patch.fields[key])
    {}
    if NullFree(patch) {
      assert merged.fields.Keys == patch.fields.Keys;
      assert merged.fields == patch.fields;
    }
    if merged == patch {
      assert forall key :: key in patch.fields ==> key in merged.fields && !patch.fields[key].Null?;
    }
  }

  /** Outside an object the old value under a key does not matter to MergePatch. */
  lemma PatchIgnoresNonObjects(target: Json, patch: Json)
    requires !target.Object?
    ensures MergePatch(target, patch) == MergePatch(Null, patch)
  {
    if patch.Object? {
      assert MergePatch(target, patch).fields == MergePatch(Null, patch).fields;
    }
  }

  /** The code computes RFC 7396's MergePatch exactly when the patch merges cleanly. */
  lemma {:induction false} MergesLikeRfc7396(target: Json, patch: Json)
    requires target.Object? && patch.Object?
    ensures DeepMerge(target, patch) == MergePatch(target, patch) <==> MergesCleanly(target, patch)
    decreases patch
  {
    var ours, theirs := DeepMerge(target, patch).fields, MergePatch(target, patch).fields;
    assert ours.Keys == theirs.Keys;
    forall key | key in patch.fields && !patch.fields[key].Null?
      ensures key in ours && key in theirs
      ensures ours[key] == theirs[key] <==>
        (patch.fields[key].Object? ==>
          if HasObject(target, key) then MergesCleanly(target.fields[key], patch.fields[key])
          else NullFree(patch.fields[key]))
    {
      var value := patch.fields[key];
      var previous := if key in target.fields then target.fields[key] else Null;
      assert theirs[key] == MergePatch(previous, value);
      assert ours[key] == MergeField(target, patch, key);
      if value.Object? {
        if HasObject(target, key) {
          MergesLikeRfc7396(target.fields[key], value);
        } else {
          PatchIgnoresNonObjects(previous, value);
          PatchingNothing(value);
        }
      }
    }
    if ours == theirs {
      assert MergesCleanly(target, patch);
    } else {
      var key :| key in ours && ours[key] != theirs[key];
      assert ours[key] == MergeField(target, patch, key);
      assert !MergesCleanly(target, patch);
    }
  }

  /** Where it does not: a null under a new key is stored instead of dropped. */
  lemma NestedNullExample()
    ensures var patch := Object(map["a" := Object(map["b" := Null])]);
      && DeepMerge(Object(map[]), patch) == patch
      && MergePatch(Object(map[]), patch) == Object(map["a" := Object(map[])])
      && DeepMerge(DeepMerge(Object(map[]), patch), patch) == Object(map["a" := Object(map[])])
  {
    var inner := Object(map["b" := Null]);
    var patch := Object(map["a" := inner]);
    assert DeepMerge(Object(map[]), patch).fields == patch.fields;
    assert DeepMerge(inner, inner).fields == map[];
    assert DeepMerge(patch, patch).fields == map["a" := Object(map[])];
    assert MergePatch(Null, inner).fields == map[];
    assert MergePatch(Object(map[]), patch).fields == map["a" := Object(map[])];
  }

  /** A patch merges cleanly into every target exactly when its nulls are all at the top. */
  lemma CleanForEveryTarget(patch: Json)
    requires patch.Object?
    ensures NullsOnlyAtTop(patch) <==>
      forall target: Json :: target.Object? ==> MergesCleanly(target, patch)
  {
    if NullsOnlyAtTop(patch) {
      forall target: Json | target.Object? ensures MergesCleanly(target, patch) {
        forall key | key in patch.fields && patch.fields[key].Object? && HasObject(target, key)
          ensures MergesCleanly(target.fields[key], patch.fields[key])
        {
          NullFreeMergesCleanly(target.fields[key], patch.fields[key]);
        }
      }
    } else {
      assert !MergesCleanly(Object(map[]), patch);
    }
  }

  lemma {:induction false} NullFreeMergesCleanly(target: Json, patch: Json)
    requires target.Object? && patch.Object? && NullFree(patch)
    ensures MergesCleanly(target, patch)
    decreases patch
  {
    forall key | key in patch.fields && patch.fields[key].Object? && HasObject(target, key) {
      NullFreeMergesCleanly(target.fields[key], patch.fields[key]);
    }
  }

  // ---------- applying a patch twice ----------

  /** Merging an object into itself changes nothing exactly when it has no null member. */
  lemma {:induction false} MergingIntoItself(value: Json)
    requires value.Object?
    ensures DeepMerge(value, value) == value <==> NullFree(value)
    decreases value
  {
    var merged := DeepMerge(value, value).fields;
    forall key | key in value.fields && !value.fields[key].Null?
      ensures key in merged
      ensures merged[key] == value.fields[key] <==> NullFree(value.fields[key])
    {
      assert merged[key] == MergeField(value, value, key);
      if value.fields[key].Object? {
        MergingIntoItself(value.fields[key]);
      }
    }
    if NullFree(value) {
      assert merged.Keys == value.fields.Keys;
      assert merged == value.fields;
    } else {
      var key :| key in value.fields && (value.fields[key].Null? || !NullFree(value.fields[key]));
      assert key !in merged || merged[key] != value.fields[key];
    }
  }

  /** Replaying a patch is harmless exactly when the patch merges cleanly. */
  lemma {:induction false} MergeIsIdempotent(target: Json, patch: Json)
    requires target.Object? && patch.Object?
    ensures DeepMerge(DeepMerge(target, patch), patch) == DeepMerge(target, patch)
      <==> MergesCleanly(target, patch)
    decreases patch
  {
    var once := DeepMerge(target, patch);
    var twice := DeepMerge(once, patch);
    assert once.fields.Keys == twice.fields.Keys;
    forall key | key in patch.fields && !patch.fields[key].Null?
      ensures key in once.fields
      ensures twice.fields[key] == once.fields[key] <==>
        (patch.fields[key].Object? ==>
          if HasObject(target, key) then MergesCleanly(target.fields[key], patch.fields[key])
          else NullFree(patch.fields[key]))
    {
      var value := patch.fields[key];
      assert once.fields[key] == MergeField(target, patch, key);
      assert twice.fields[key] == MergeField(once, patch, key);
      if value.Object? {
        if HasObject(target, key) {
          MergeIsIdempotent(target.fields[key], value);
        } else {
          MergingIntoItself(value);
        }
      }
    }
    if once == twice {
      assert MergesCleanly(target, patch);
    } else {
      var key :| key in once.fields && once.fields[key] != twice.fields[key];
      assert twice.fields[key] == MergeField(once, patch, key);
      assert !MergesCleanly(target, patch);
    }
  }
}
