/** Apply, then assert: what a successful call stores matches the given object, but for a named resource version. */
module AssertApplied {
  import opened Json
  import opened Outcomes
  import opened Objects
  import opened Cluster
  import opened Subset
  import opened Apply
  import opened ApplySafety
  import opened Lookup
  import MergePatch

  function Unversioned(o: Fields): Fields { WithMeta(o, "resourceVersion", "") }

  /** The resource version, where `o` names one, is that of `m`. */
  ghost predicate VersionAgrees(o: Fields, m: Fields)
  {
    "resourceVersion" in Metadata(o) ==>
      "resourceVersion" in Metadata(m) && IsSubsetOf(Metadata(o)["resourceVersion"], Metadata(m)["resourceVersion"])
  }

  /** The version is one field among the others. */
  lemma MatchesWithVersion(o: Fields, m: Fields)
    ensures IsSubsetOf(Obj(o), Obj(m)) <==> IsSubsetOf(Obj(Unversioned(o)), Obj(m)) && VersionAgrees(o, m)
  {
    var u := Unversioned(o);
    if "metadata" in o && o["metadata"].Obj? {
      assert u["metadata"] == Obj(Metadata(o) - {"resourceVersion"});
      assert forall k :: k in Metadata(o) <==> k in Metadata(u) || (k == "resourceVersion" && k in Metadata(o));
      if IsSubsetOf(Obj(u), Obj(m)) && VersionAgrees(o, m) {
        assert IsSubsetOf(u["metadata"], m["metadata"]);
        forall k | k in Metadata(o) ensures k in Metadata(m) && IsSubsetOf(Metadata(o)[k], Metadata(m)[k]) {
          if k != "resourceVersion" { assert k in Metadata(u); }
        }
        assert IsSubsetOf(o["metadata"], m["metadata"]);
      }
    }
  }

  lemma UnversionedIsPart(o: Fields)
    ensures IsSubsetOf(Obj(Unversioned(o)), Obj(o)) && "resourceVersion" !in Metadata(Unversioned(o))
  {
    Reflexive(Obj(o));
    MatchesWithVersion(o, o);
  }

  /** An object that names no resource version stays matched when the version of its superset changes or goes. */
  lemma VersionIrrelevant(o: Fields, m: Fields, v: string)
    requires IsSubsetOf(Obj(o), Obj(m)) && "resourceVersion" !in Metadata(o)
    ensures IsSubsetOf(Obj(o), Obj(WithMeta(m, "resourceVersion", v)))
  {
  }

  lemma SentHasNoNull(o: Fields, v: string)
    requires MergePatch.NoNullMembers(Obj(o))
    ensures MergePatch.NoNullMembers(Obj(WithMeta(o, "resourceVersion", v)))
  {
  }

  /** What was submitted, but for the version, is in what was stored. */
  lemma StoredHasAll(args: Args, w: Write)
    requires WriteOk(args, w)
    requires w.read.Some? ==> MergePatch.NoNullMembers(Obj(args.orig))
    ensures IsSubsetOf(Obj(Unversioned(args.orig)), Obj(w.stored))
  {
    var o, u := args.orig, Unversioned(args.orig);
    UnversionedIsPart(o);
    match w.read
    case None =>
      VersionIrrelevant(u, o, VersionOf(w.stored));
      Transitive(Obj(u), Obj(WithMeta(o, "resourceVersion", VersionOf(w.stored))), Obj(w.stored));
    case Some(x) =>
      VersionIrrelevant(u, o, VersionOf(x));
      SentHasNoNull(o, VersionOf(x));
      MergePatch.MergeContainsPatch(Obj(x), Obj(w.sent));
      var merged := Patched(x, w.sent);
      Transitive(Obj(u), Obj(w.sent), Obj(merged));
      if merged != x || w.stored != x {
        VersionIrrelevant(u, merged, VersionOf(w.stored));
        Transitive(Obj(u), Obj(WithMeta(merged, "resourceVersion", VersionOf(w.stored))), Obj(w.stored));
      }
  }

  /** What a successful call leaves in the store matches the object it was given, unless the object names a resource
      version: then if and only if the stored object got that very version. */
  lemma WriteMatches(args: Args, w: Write)
    requires WriteOk(args, w)
    requires w.read.Some? ==> MergePatch.NoNullMembers(Obj(args.orig))
    ensures IsSubsetOf(Obj(args.orig), Obj(w.stored)) <==> VersionAgrees(args.orig, w.stored)
  {
    StoredHasAll(args, w);
    MatchesWithVersion(args.orig, w.stored);
  }

  /** The server stores what it was sent, merged, and changes nothing but the version. */
  predicate StoredAsMerged(w: Write)
    requires w.read.Some?
  {
    w.stored == WithMeta(Patched(w.read.value, w.sent), "resourceVersion", VersionOf(w.stored))
  }

  lemma SentMatchesMerged(o: Fields, x: Fields, stored: Fields)
    requires NameOf(o) != "" && VersionOf(x) != "" && VersionOf(stored) != ""
    requires stored == WithMeta(Patched(x, Expected(o, x)), "resourceVersion", VersionOf(stored))
    requires IsSubsetOf(Obj(Unversioned(o)), Obj(stored))
    ensures IsSubsetOf(Obj(Expected(o, x)), Obj(Patched(x, Expected(o, x))))
  {
    var u, sent, merged := Unversioned(o), Expected(o, x), Patched(x, Expected(o, x));
    UnversionedIsPart(o);
    VersionIrrelevant(u, stored, VersionOf(x));
    PatchNamesVersion(o, x, x);
    UnversionedAgain(o, VersionOf(x));
    VersionPutBack(merged, VersionOf(stored), VersionOf(x));
    MatchesWithVersion(sent, merged);
  }

  lemma UnversionedAgain(o: Fields, v: string)
    requires "metadata" in o && o["metadata"].Obj? && v != ""
    ensures Unversioned(WithMeta(o, "resourceVersion", v)) == Unversioned(o)
  {
    assert Metadata(o)["resourceVersion" := Str(v)] - {"resourceVersion"} == Metadata(o) - {"resourceVersion"};
  }

  lemma VersionPutBack(o: Fields, v: string, own: string)
    requires v != "" && own != "" && VersionOf(o) == own
    ensures WithMeta(WithMeta(o, "resourceVersion", v), "resourceVersion", own) == o
  {
    assert Metadata(o)["resourceVersion" := Str(v)]["resourceVersion" := Str(own)] == Metadata(o);
  }

  lemma NoNullWithVersion(o: Fields, v: string)
    requires MergePatch.NoNullMembers(Obj(WithMeta(o, "resourceVersion", v))) && v != ""
    requires "resourceVersion" in Metadata(o) ==> Metadata(o)["resourceVersion"].Str?
    ensures MergePatch.NoNullMembers(Obj(o))
  {
    var sent := WithMeta(o, "resourceVersion", v);
    forall k | k in o ensures !o[k].Null? && MergePatch.NoNullMembers(o[k]) {
      if k == "metadata" && o[k].Obj? {
        assert sent[k] == Obj(Metadata(o)["resourceVersion" := Str(v)]);
        forall l | l in Metadata(o) ensures !Metadata(o)[l].Null? && MergePatch.NoNullMembers(Metadata(o)[l]) {
          assert l in sent[k].fields;
        }
      } else {
        assert sent[k] == o[k];
      }
    }
  }

  lemma MatchHasNoNull(o: Fields, x: Fields, stored: Fields)
    requires NameOf(o) != "" && VersionOf(x) != "" && VersionOf(stored) != ""
    requires stored == WithMeta(Patched(x, Expected(o, x)), "resourceVersion", VersionOf(stored))
    requires IsSubsetOf(Obj(o), Obj(stored))
    ensures MergePatch.NoNullMembers(Obj(o)) && VersionAgrees(o, stored)
  {
    MatchesWithVersion(o, stored);
    SentMatchesMerged(o, x, stored);
    MergePatch.MergeContainsPatch(Obj(x), Obj(Expected(o, x)));
    NoNullWithVersion(o, VersionOf(x));
  }

  /** After an update that the server stores as merged, the stored object matches the one given if and only if this has
      no null under an object key, and names no resource version or the one that was stored. */
  lemma PlainUpdateMatches(args: Args, w: Write)
    requires WriteOk(args, w) && w.read.Some? && StoredAsMerged(w)
    requires NameOf(args.orig) != "" && VersionOf(w.read.value) != ""
    ensures IsSubsetOf(Obj(args.orig), Obj(w.stored)) <==>
            MergePatch.NoNullMembers(Obj(args.orig)) && VersionAgrees(args.orig, w.stored)
  {
    if IsSubsetOf(Obj(args.orig), Obj(w.stored)) { MatchHasNoNull(args.orig, w.read.value, w.stored); }
    if MergePatch.NoNullMembers(Obj(args.orig)) { WriteMatches(args, w); }
  }

  /** An object that says where it is, is looked up under its own key. */
  lemma OwnAddress(disc: Discovery, store: Store, o: Fields, namespace: string)
    requires Namespaced(disc, o, namespace).Ok? && Namespaced(disc, o, namespace).value.content == o
    requires Coherent(disc) && WellFormed(disc, store) && KeyOf(o) in store
    ensures var r := Namespaced(disc, o, namespace).value;
      Address(disc, Key(GvkOf(o), r.namespace, r.name)) == Ok(KeyOf(o))
  {
    StoredKindKnown(disc, store, KeyOf(o));
  }

  lemma OneCandidate(l: Looked, a: Fields)
    requires l.found == Ok([a])
    ensures Matches(l) <==> IsSubsetOf(Obj(l.content), Obj(a))
  {
  }

  /** An assertion on a stored, named object that says where it is finds just this object. */
  lemma StoredSupersetIsFound(env: Env, w: World, client: nat, o: Fields, namespace: string)
    requires NameOf(o) != "" && Namespaced(env.disc, o, namespace).Ok?
    requires Namespaced(env.disc, o, namespace).value.content == o
    requires Coherent(env.disc) && WellFormed(env.disc, Moved(env, w).store) && env.fault(w.calls).None?
    requires KeyOf(o) in Moved(env, w).store
    ensures Matches(Look(env, w, client, o, namespace)) <==> IsSubsetOf(Obj(o), Obj(Moved(env, w).store[KeyOf(o)]))
  {
    OwnAddress(env.disc, Moved(env, w).store, o, namespace);
    FoundByName(env, w, client, o, namespace, KeyOf(o));
    OneCandidate(Look(env, w, client, o, namespace), Moved(env, w).store[KeyOf(o)]);
  }

  /** Apply then assert: after a nil error, as long as other writers only add fields or change the version, an assertion
      on the applied object passes if and only if the object names no version, or the one it has now. */
  lemma AppliedObjectPasses(args: Args, run: seq<State>, n: nat, write: Write, env: Env, w: World, client: nat,
                            namespace: string)
    requires IsRun(args, run) && n < |run| && run[n].result.Some? && run[n].result.value.1.None?
    requires run[n].writes == [write]
    requires write.read.Some? ==> MergePatch.NoNullMembers(Obj(args.orig))
    requires NameOf(args.orig) != ""
    requires Namespaced(env.disc, args.orig, namespace).Ok?
    requires Namespaced(env.disc, args.orig, namespace).value.content == args.orig
    requires Coherent(env.disc) && WellFormed(env.disc, Moved(env, w).store) && env.fault(w.calls).None?
    requires KeyOf(args.orig) in Moved(env, w).store
    requires IsSubsetOf(Obj(Unversioned(write.stored)), Obj(Moved(env, w).store[KeyOf(args.orig)]))
    ensures Matches(Look(env, w, client, args.orig, namespace)) <==>
            VersionAgrees(args.orig, Moved(env, w).store[KeyOf(args.orig)])
  {
    var now := Moved(env, w).store[KeyOf(args.orig)];
    NilErrorMeansOneWrite(args, run, n);
    assert WriteOk(args, run[n].writes[0]);
    StoredHasAll(args, write);
    UnversionedIsPart(args.orig);
    VersionIrrelevant(Unversioned(args.orig), write.stored, "");
    Transitive(Obj(Unversioned(args.orig)), Obj(Unversioned(write.stored)), Obj(now));
    MatchesWithVersion(args.orig, now);
    StoredSupersetIsFound(env, w, client, args.orig, namespace);
  }
}
