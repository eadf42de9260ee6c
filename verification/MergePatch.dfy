/** JSON merge patch, the update CreateOrUpdate sends (section 2 of RFC 7396). */
module MergePatch {
  import opened Json
  import Subset

  function Merge(target: Value, patch: Value): Value
    decreases patch
  {
    if !patch.Obj? then patch
    else
      var base := if target.Obj? then target.fields else map[];
      var changes := patch.fields;
      Obj(map k | k in base.Keys + changes.Keys && !(k in changes && changes[k].Null?)
            :: if k in changes then Merge(if k in base then base[k] else Null, changes[k]) else base[k])
  }

  /** No null is reachable through object keys alone; lists are replaced whole, so their nulls do not matter. */
  ghost predicate NoNullMembers(v: Value)
  {
    v.Obj? ==> forall k :: k in v.fields ==> !v.fields[k].Null? && NoNullMembers(v.fields[k])
  }

  /** After a merge the target matches the patch, for every target, exactly when the patch deletes nothing. */
  lemma {:induction false} MergeContainsPatch(target: Value, patch: Value)
    ensures Subset.IsSubsetOf(patch, Merge(target, patch)) <==> NoNullMembers(patch)
    decreases patch
  {
    if !patch.Obj? {
      Subset.Reflexive(patch);
    } else {
      var base := if target.Obj? then target.fields else map[];
      var merged := Merge(target, patch).fields;
      forall k | k in patch.fields && !patch.fields[k].Null?
        ensures k in merged && (Subset.IsSubsetOf(patch.fields[k], merged[k]) <==> NoNullMembers(patch.fields[k]))
      {
        MergeContainsPatch(if k in base then base[k] else Null, patch.fields[k]);
      }
    }
  }

  /** Sending the same patch again changes nothing. */
  lemma {:induction false} MergeIdempotent(target: Value, patch: Value)
    ensures Merge(Merge(target, patch), patch) == Merge(target, patch)
    decreases patch
  {
    if patch.Obj? {
      var base := if target.Obj? then target.fields else map[];
      var once := Merge(target, patch).fields;
      var twice := Merge(Merge(target, patch), patch).fields;
      forall k | k in once ensures k in twice && twice[k] == once[k] {
        if k in patch.fields { MergeIdempotent(if k in base then base[k] else Null, patch.fields[k]); }
      }
      assert twice.Keys == once.Keys;
      assert twice == once;
    }
  }

  /** A merge of an object touches no key the patch does not name, and only a null removes one. */
  lemma MergeFrame(target: Value, patch: Value, k: string)
    requires target.Obj? && patch.Obj?
    ensures Merge(target, patch).Obj?
    ensures k !in patch.fields ==>
      (k in Merge(target, patch).fields <==> k in target.fields) &&
      (k in target.fields ==> Merge(target, patch).fields[k] == target.fields[k])
    ensures k in patch.fields ==> (k in Merge(target, patch).fields <==> !patch.fields[k].Null?)
  {
  }
}
