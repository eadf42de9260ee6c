/** How an assertion finds the objects it is compared with, and why the lookup never changes the verdict. */
module Lookup {
  import opened Json
  import opened Outcomes
  import opened Errors
  import opened Objects
  import opened Cluster
  import opened Subset

  /** Outcome of a lookup: the world after it, the expected object with its namespace, the candidates found. */
  datatype Looked = Looked(world: World, content: Fields, found: Result<seq<Fields>, Error>)

  /** By name when there is one, otherwise by kind, namespace and labels. */
  function Look(env: Env, w: World, client: nat, o: Fields, namespace: string): Looked
  {
    match Namespaced(env.disc, o, namespace)
    case Err(e) => Looked(w, o, Err(e))
    case Ok(r) =>
      if r.name != "" then
        var got := DoGet(env, w, client, Key(GvkOf(r.content), r.namespace, r.name));
        Looked(got.0, r.content, if got.1.Ok? then Ok([got.1.value]) else Err(got.1.error))
      else
        var listed := DoList(env, w, GvkOf(r.content), r.namespace, LabelsOf(r.content));
        Looked(listed.0, r.content, listed.1)
  }

  /** Some candidate is a superset of the expected object. */
  ghost predicate Matches(l: Looked)
  {
    l.found.Ok? && exists a :: a in l.found.value && IsSubsetOf(Obj(l.content), Obj(a))
  }

  /** `n` has what `m` asks for, a namespace aside where that is left open. */
  ghost predicate MetadataFits(open: bool, m: Value, n: Value)
  {
    if m.Obj? then
      n.Obj? && forall f :: f in m.fields && !(open && f == "namespace") ==>
        f in n.fields && IsSubsetOf(m.fields[f], n.fields[f])
    else IsSubsetOf(m, n)
  }

  /** `a` has all that `o` asks for; and where `o` is of a namespaced kind but names no namespace, `a` is in the given
      one, if there is one. */
  ghost predicate Fits(disc: Discovery, o: Fields, namespace: string, a: Fields)
  {
    var open := NamespaceOf(o) == "" && HasScope(disc, GvkOf(o), true);
    && (open && namespace != "" ==> NamespaceOf(a) == namespace)
    && (forall k :: k in o && k != "metadata" ==> k in a && IsSubsetOf(o[k], a[k]))
    && ("metadata" in o ==> "metadata" in a && MetadataFits(open, o["metadata"], a["metadata"]))
  }

  /** The plain scan of the whole store for an object, as it is given. */
  ghost predicate ScanFinds(disc: Discovery, store: Store, o: Fields, namespace: string)
  {
    exists key :: key in store && Fits(disc, o, namespace, store[key])
  }

  /** For an object that names a namespace or has no such field, fitting is being a superset in the right namespace. */
  lemma FitsPlainly(disc: Discovery, o: Fields, namespace: string, a: Fields)
    requires "namespace" in Metadata(o) ==> NamespaceOf(o) != ""
    ensures Fits(disc, o, namespace, a) <==>
      IsSubsetOf(Obj(o), Obj(a)) &&
      (NamespaceOf(o) == "" && namespace != "" && HasScope(disc, GvkOf(o), true) ==> NamespaceOf(a) == namespace)
  {
    SplitAtMetadata(o, a);
  }

  lemma SplitAtMetadata(o: Fields, a: Fields)
    ensures IsSubsetOf(Obj(o), Obj(a)) <==>
      && (forall k :: k in o && k != "metadata" ==> k in a && IsSubsetOf(o[k], a[k]))
      && ("metadata" in o ==> "metadata" in a && MetadataFits(false, o["metadata"], a["metadata"]))
  {
  }

  /** Metadata with the namespace filled in. */
  lemma MetaFilledFits(m: Fields, namespace: string, n: Fields)
    ensures var filled := if namespace != "" then m["namespace" := Str(namespace)] else m - {"namespace"};
      MetadataFits(false, Obj(filled), Obj(n)) <==>
        MetadataFits(true, Obj(m), Obj(n)) && (namespace != "" ==> StringAt(n, "namespace") == namespace)
  {
    var filled := if namespace != "" then m["namespace" := Str(namespace)] else m - {"namespace"};
    assert forall f :: f != "namespace" ==> (f in filled <==> f in m) && (f in m ==> filled[f] == m[f]);
    assert namespace != "" ==> filled["namespace"] == Str(namespace);
  }

  /** An object of a namespaced kind that names no namespace. */
  lemma OpenFits(disc: Discovery, o: Fields, namespace: string, a: Fields)
    requires NamespaceOf(o) == "" && HasScope(disc, GvkOf(o), true) && NameOf(a) != ""
    ensures IsSubsetOf(Obj(WithMeta(o, "namespace", namespace)), Obj(a)) <==> Fits(disc, o, namespace, a)
  {
    var filled := WithMeta(o, "namespace", namespace);
    SplitAtMetadata(filled, a);
    MetaFilledFits(Metadata(o), namespace, Metadata(a));
    assert forall k :: k != "metadata" ==> (k in filled <==> k in o) && (k in o ==> filled[k] == o[k]);
  }

  /** A superset of the object with its namespace filled in is one that fits the object as given. */
  lemma FilledFits(disc: Discovery, o: Fields, namespace: string, a: Fields)
    requires Namespaced(disc, o, namespace).Ok? && NameOf(a) != ""
    ensures IsSubsetOf(Obj(Namespaced(disc, o, namespace).value.content), Obj(a)) <==> Fits(disc, o, namespace, a)
  {
    ScopeExactly(disc, GvkOf(o), true);
    if NamespaceOf(o) == "" && HasScope(disc, GvkOf(o), true) {
      OpenFits(disc, o, namespace, a);
    } else {
      SplitAtMetadata(o, a);
    }
  }

  /** A named object needs a namespace to be looked up in, unless its kind has none. */
  predicate Addressable(disc: Discovery, o: Fields, namespace: string)
  {
    NameOf(o) == "" || NamespaceOf(o) != "" || namespace != "" ||
    var r := ApiResourceFor(disc, GvkOf(o)); r.Ok? && !r.value.namespaced
  }

  /** What fits an object with a kind is of this kind, so that discovery knows it. */
  lemma FitsIsKnown(disc: Discovery, store: Store, o: Fields, namespace: string, key: Key)
    requires Coherent(disc) && WellFormed(disc, store) && key in store && Fits(disc, o, namespace, store[key])
    requires "kind" in o && o["kind"].Str? && "apiVersion" in o && o["apiVersion"].Str?
    ensures Namespaced(disc, o, namespace).Ok? && NameOf(store[key]) != ""
  {
    assert KeyOf(store[key]) == key && GvkOf(o) == key.gvk;
    StoredKindKnown(disc, store, key);
  }

  /** The lookup agrees with the plain scan of the store it saw, unless a named, namespaced object has no namespace:
      such an object never matches. */
  lemma LookupAgreesWithScan(env: Env, w: World, client: nat, o: Fields, namespace: string)
    requires Coherent(env.disc) && ListsAll(env) && WellFormed(env.disc, Moved(env, w).store)
    requires env.fault(w.calls).None?
    requires "kind" in o && o["kind"].Str? && "apiVersion" in o && o["apiVersion"].Str?
    ensures Matches(Look(env, w, client, o, namespace)) <==>
      Addressable(env.disc, o, namespace) && ScanFinds(env.disc, Moved(env, w).store, o, namespace)
  {
    var l := Look(env, w, client, o, namespace);
    var store := Moved(env, w).store;
    if Matches(l) {
      var key := FoundInStore(env, w, client, o, namespace);
      MatchIsAddressable(env, w, client, o, namespace, key);
      FilledFits(env.disc, o, namespace, store[key]);
    }
    if ScanFinds(env.disc, store, o, namespace) && Addressable(env.disc, o, namespace) {
      var key :| key in store && Fits(env.disc, o, namespace, store[key]);
      FitsIsKnown(env.disc, store, o, namespace, key);
      FilledFits(env.disc, o, namespace, store[key]);
      SupersetIsFound(env, w, client, o, namespace, key);
    }
  }

  /** A negative assertion is accepted on NotFound, or when every candidate fails to match. */
  ghost predicate AcceptsAbsence(l: Looked)
  {
    l.found == Err(Api(NotFound)) || (l.found.Ok? && !Matches(l))
  }

  /** For kinds the server knows, a negative assertion is the negation of the plain scan; for others it is an error. */
  lemma AbsenceAgreesWithScan(env: Env, w: World, client: nat, o: Fields, namespace: string)
    requires Coherent(env.disc) && ListsAll(env) && WellFormed(env.disc, Moved(env, w).store)
    requires env.fault(w.calls).None?
    requires "kind" in o && o["kind"].Str? && "apiVersion" in o && o["apiVersion"].Str?
    ensures var l := Look(env, w, client, o, namespace);
      AcceptsAbsence(l) <==>
        Namespaced(env.disc, o, namespace).Ok? && Served(env.disc, GvkOf(o)).Some?
        && !(Addressable(env.disc, o, namespace) && ScanFinds(env.disc, Moved(env, w).store, o, namespace))
  {
    LookupAgreesWithScan(env, w, client, o, namespace);
    var l := Look(env, w, client, o, namespace);
    if Namespaced(env.disc, o, namespace).Ok? {
      NamespacedFrame(env.disc, o, namespace);
      if l.found.Ok? { assert Served(env.disc, GvkOf(o)).Some?; }
    }
  }

  lemma LookFollowsKey(env: Env, w: World, client: nat, o: Fields, namespace: string)
    requires Namespaced(env.disc, o, namespace).Ok?
    ensures var r, l := Namespaced(env.disc, o, namespace).value, Look(env, w, client, o, namespace);
      && l.content == r.content
      && (r.name != "" ==>
        l.found == var got := GetAnswer(env, Moved(env, w), Key(GvkOf(o), r.namespace, r.name));
          if got.Ok? then Ok([got.value]) else Err(got.error))
      && (r.name == "" ==> l.found == ListAnswer(env, Moved(env, w), GvkOf(o), r.namespace, LabelsOf(o)))
  {
    NamespacedFrame(env.disc, o, namespace);
  }

  lemma ListedInStore(env: Env, w: World, gvk: Gvk, namespace: string, labels: map<string, string>, a: Fields)
    returns (key: Key)
    requires ListAnswer(env, w, gvk, namespace, labels).Ok? && a in ListAnswer(env, w, gvk, namespace, labels).value
    ensures key in w.store && w.store[key] == a
  {
    var keys := env.listing(w.calls, Selected(env.disc, w.store, gvk, namespace, labels));
    key :| key in keys && key in w.store && w.store[key] == a;
  }

  lemma FoundInStore(env: Env, w: World, client: nat, o: Fields, namespace: string) returns (key: Key)
    requires Matches(Look(env, w, client, o, namespace))
    ensures key in Moved(env, w).store
    ensures IsSubsetOf(Obj(Look(env, w, client, o, namespace).content), Obj(Moved(env, w).store[key]))
    ensures Namespaced(env.disc, o, namespace).Ok?
    ensures NameOf(o) != "" ==>
      var r := Namespaced(env.disc, o, namespace).value;
        Address(env.disc, Key(GvkOf(o), r.namespace, r.name)) == Ok(key)
  {
    LookFollowsKey(env, w, client, o, namespace);
    var l := Look(env, w, client, o, namespace);
    var a :| a in l.found.value && IsSubsetOf(Obj(l.content), Obj(a));
    var r := Namespaced(env.disc, o, namespace).value;
    assert r.name == NameOf(o);
    if r.name != "" {
      key := Address(env.disc, Key(GvkOf(o), r.namespace, r.name)).value;
    } else {
      key := ListedInStore(env, Moved(env, w), GvkOf(o), r.namespace, LabelsOf(o), a);
    }
  }

  /** What a superset shares with the expected object: kind, and name, namespace and labels where given. */
  lemma SupersetShares(e: Fields, a: Fields)
    requires IsSubsetOf(Obj(e), Obj(a))
    requires forall l :: l in MapAt(Metadata(a), "labels") ==> MapAt(Metadata(a), "labels")[l].Str?
    ensures forall k :: StringAt(e, k) != "" ==> StringAt(a, k) == StringAt(e, k)
    ensures forall k :: StringAt(Metadata(e), k) != "" ==> StringAt(Metadata(a), k) == StringAt(Metadata(e), k)
    ensures forall l :: l in LabelsOf(e) ==> l in LabelsOf(a) && LabelsOf(a)[l] == LabelsOf(e)[l]
    ensures "metadata" in e ==> "metadata" in a && (a["metadata"].Obj? <==> e["metadata"].Obj?)
  {
    if "metadata" in e && e["metadata"].Obj? {
      var me, ma := Metadata(e), Metadata(a);
      assert forall k :: k in me ==> k in ma && IsSubsetOf(me[k], ma[k]);
    }
  }

  lemma ExactIsFound(resources: seq<ApiResource>, kind: string)
    requires FirstExact(resources, kind).Some?
    ensures FirstExact(resources, kind).value in resources && FirstExact(resources, kind).value.kind == kind
    ensures FirstOfKind(resources, kind).Some? && FirstOfKind(resources, kind).value in resources
    ensures EqualFold(FirstOfKind(resources, kind).value.kind, kind)
  {
  }

  lemma MatchIsAddressable(env: Env, w: World, client: nat, o: Fields, namespace: string, key: Key)
    requires Coherent(env.disc) && WellFormed(env.disc, Moved(env, w).store)
    requires key in Moved(env, w).store && Namespaced(env.disc, o, namespace).Ok?
    requires NameOf(o) != "" ==>
      var r := Namespaced(env.disc, o, namespace).value;
        Address(env.disc, Key(GvkOf(o), r.namespace, r.name)) == Ok(key)
    ensures Addressable(env.disc, o, namespace)
  {
    if NameOf(o) != "" && NamespaceOf(o) == "" && namespace == "" {
      var r := Namespaced(env.disc, o, namespace).value;
      assert r.namespace == "" && key.gvk == GvkOf(o) && key.namespace == "";
      ExactIsFound(env.disc[key.gvk.groupVersion], key.gvk.kind);
    }
  }

  /** A stored key's kind is known to discovery, with the scope its key shows. */
  lemma StoredKindKnown(disc: Discovery, store: Store, key: Key)
    requires Coherent(disc) && WellFormed(disc, store) && key in store
    ensures ApiResourceFor(disc, key.gvk).Ok?
    ensures (ApiResourceFor(disc, key.gvk).value.namespaced <==> key.namespace != "")
  {
    ExactIsFound(disc[key.gvk.groupVersion], key.gvk.kind);
  }

  lemma SupersetGvk(content: Fields, a: Fields)
    requires IsSubsetOf(Obj(content), Obj(a))
    requires "kind" in content && content["kind"].Str? && "apiVersion" in content && content["apiVersion"].Str?
    ensures GvkOf(content) == GvkOf(a)
  {
  }

  /** A superset has the expected kind, and discovery knows that kind's scope. */
  lemma SupersetKind(disc: Discovery, store: Store, o: Fields, namespace: string, content: Fields, key: Key)
    requires Coherent(disc) && WellFormed(disc, store) && key in store
    requires "kind" in o && o["kind"].Str? && "apiVersion" in o && o["apiVersion"].Str?
    requires content == if Namespaced(disc, o, namespace).Ok? then Namespaced(disc, o, namespace).value.content else o
    requires IsSubsetOf(Obj(content), Obj(store[key]))
    ensures GvkOf(o) == GvkOf(content) == key.gvk
    ensures ApiResourceFor(disc, key.gvk).Ok?
    ensures (ApiResourceFor(disc, key.gvk).value.namespaced <==> key.namespace != "")
    ensures Namespaced(disc, o, namespace).Ok?
  {
    if Namespaced(disc, o, namespace).Ok? { NamespacedFrame(disc, o, namespace); }
    SupersetGvk(content, store[key]);
    StoredKindKnown(disc, store, key);
  }

  /** Where the expected object says more than the lookup key, the superset's own key agrees. */
  lemma SupersetKey(disc: Discovery, store: Store, o: Fields, namespace: string, key: Key)
    requires Coherent(disc) && WellFormed(disc, store) && key in store
    requires "kind" in o && o["kind"].Str? && "apiVersion" in o && o["apiVersion"].Str?
    requires Namespaced(disc, o, namespace).Ok?
    requires IsSubsetOf(Obj(Namespaced(disc, o, namespace).value.content), Obj(store[key]))
    ensures var r := Namespaced(disc, o, namespace).value;
      && (r.name != "" ==> key.name == r.name)
      && (r.namespace != "" && key.namespace != "" ==> key.namespace == r.namespace)
      && (key.namespace == "" ==> r.namespace == "")
  {
    var r := Namespaced(disc, o, namespace).value;
    SupersetKind(disc, store, o, namespace, r.content, key);
    SupersetNames(r.content, store[key]);
    NamespacedFrame(disc, o, namespace);
    assert KeyOf(store[key]) == key;
    NamespaceFilledIn(disc, o, namespace);
  }

  /** Names and namespaces that both have agree, provided that the superset has metadata. */
  lemma SupersetNames(e: Fields, a: Fields)
    requires IsSubsetOf(Obj(e), Obj(a)) && NameOf(a) != ""
    ensures NameOf(e) != "" ==> NameOf(a) == NameOf(e)
    ensures NamespaceOf(e) != "" ==> NamespaceOf(a) == NamespaceOf(e)
    ensures "metadata" in e ==> e["metadata"].Obj?
  {
    if "metadata" in e { assert IsSubsetOf(e["metadata"], a["metadata"]); }
  }

  /** The namespace to look in is the object's own, unless its metadata is not a map or its kind has none. */
  lemma NamespaceFilledIn(disc: Discovery, o: Fields, namespace: string)
    requires Namespaced(disc, o, namespace).Ok?
    ensures var r := Namespaced(disc, o, namespace).value;
      && ("metadata" in r.content ==> r.content["metadata"].Obj?) ==> NamespaceOf(r.content) == r.namespace
  {
  }

  lemma SupersetIsFound(env: Env, w: World, client: nat, o: Fields, namespace: string, key: Key)
    requires Coherent(env.disc) && ListsAll(env) && WellFormed(env.disc, Moved(env, w).store)
    requires env.fault(w.calls).None? && Addressable(env.disc, o, namespace)
    requires "kind" in o && o["kind"].Str? && "apiVersion" in o && o["apiVersion"].Str?
    requires key in Moved(env, w).store
    requires IsSubsetOf(Obj(Look(env, w, client, o, namespace).content), Obj(Moved(env, w).store[key]))
    ensures Matches(Look(env, w, client, o, namespace))
  {
    var store := Moved(env, w).store;
    var l := Look(env, w, client, o, namespace);
    SupersetKind(env.disc, store, o, namespace, l.content, key);
    SupersetKey(env.disc, store, o, namespace, key);
    var r := Namespaced(env.disc, o, namespace).value;
    if r.name != "" {
      FoundByName(env, w, client, o, namespace, key);
    } else {
      FoundByList(env, w, client, o, namespace, key);
    }
    assert store[key] in l.found.value;
  }

  lemma FoundByName(env: Env, w: World, client: nat, o: Fields, namespace: string, key: Key)
    requires env.fault(w.calls).None? && Namespaced(env.disc, o, namespace).Ok? && NameOf(o) != ""
    requires var r := Namespaced(env.disc, o, namespace).value;
      Address(env.disc, Key(GvkOf(o), r.namespace, r.name)) == Ok(key)
    requires key in Moved(env, w).store
    ensures Look(env, w, client, o, namespace).found == Ok([Moved(env, w).store[key]])
  {
    LookFollowsKey(env, w, client, o, namespace);
  }

  lemma FoundByList(env: Env, w: World, client: nat, o: Fields, namespace: string, key: Key)
    requires ListsAll(env) && env.fault(w.calls).None? && WellFormed(env.disc, Moved(env, w).store)
    requires Namespaced(env.disc, o, namespace).Ok? && NameOf(o) == ""
    requires var r := Namespaced(env.disc, o, namespace).value;
      r.namespace == "" || key.namespace == "" || key.namespace == r.namespace
    requires key in Moved(env, w).store && key.gvk == GvkOf(o)
    requires IsSubsetOf(Obj(Namespaced(env.disc, o, namespace).value.content), Obj(Moved(env, w).store[key]))
    ensures var l := Look(env, w, client, o, namespace); l.found.Ok? && Moved(env, w).store[key] in l.found.value
  {
    var r := Namespaced(env.disc, o, namespace).value;
    LookFollowsKey(env, w, client, o, namespace);
    NamespacedFrame(env.disc, o, namespace);
    LabelsSelect(env, Moved(env, w).store, r.content, r.namespace, key);
    SelectedIsListed(env, Moved(env, w), key, r.namespace, LabelsOf(o));
  }

  lemma SelectedIsListed(env: Env, w: World, key: Key, namespace: string, labels: map<string, string>)
    requires ListsAll(env) && env.fault(w.calls).None? && Served(env.disc, key.gvk).Some?
    requires key in Selected(env.disc, w.store, key.gvk, namespace, labels)
    ensures ListAnswer(env, w, key.gvk, namespace, labels).Ok?
    ensures w.store[key] in ListAnswer(env, w, key.gvk, namespace, labels).value
  {
  }

  lemma LabelsSelect(env: Env, store: Store, content: Fields, namespace: string, key: Key)
    requires WellFormed(env.disc, store) && key in store && IsSubsetOf(Obj(content), Obj(store[key]))
    requires namespace == "" || key.namespace == "" || key.namespace == namespace
    ensures key in Selected(env.disc, store, key.gvk, namespace, LabelsOf(content))
  {
    SupersetShares(content, store[key]);
  }
}
