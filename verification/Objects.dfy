/** Kubernetes objects as unstructured trees, and the resolution of their namespace. */
module Objects {
  import opened Json
  import opened Outcomes
  import opened Errors

  datatype Gvk = Gvk(groupVersion: string, kind: string)

  datatype Key = Key(gvk: Gvk, namespace: string, name: string)

  // ----- accessors: a missing or ill-typed field reads as empty -----

  function StringAt(f: Fields, k: string): string
  {
    if k in f && f[k].Str? then f[k].s else ""
  }

  function MapAt(f: Fields, k: string): Fields
  {
    if k in f && f[k].Obj? then f[k].fields else map[]
  }

  function Metadata(o: Fields): Fields { MapAt(o, "metadata") }

  function NameOf(o: Fields): string { StringAt(Metadata(o), "name") }

  function NamespaceOf(o: Fields): string { StringAt(Metadata(o), "namespace") }

  function VersionOf(o: Fields): string { StringAt(Metadata(o), "resourceVersion") }

  function GvkOf(o: Fields): Gvk { Gvk(StringAt(o, "apiVersion"), StringAt(o, "kind")) }

  function KeyOf(o: Fields): Key { Key(GvkOf(o), NamespaceOf(o), NameOf(o)) }

  /** Labels read as none at all when any of them is not a string. */
  function LabelsOf(o: Fields): map<string, string>
  {
    var labels := MapAt(Metadata(o), "labels");
    if forall k | k in labels :: labels[k].Str? then map k | k in labels :: labels[k].s else map[]
  }

  /** The labels that can be asked for are those in the tree, where they are strings. */
  lemma LabelsExactly(o: Fields, l: string)
    requires forall k :: k in MapAt(Metadata(o), "labels") ==> MapAt(Metadata(o), "labels")[k].Str?
    ensures l in LabelsOf(o) <==> l in MapAt(Metadata(o), "labels")
    ensures l in LabelsOf(o) ==> MapAt(Metadata(o), "labels")[l] == Str(LabelsOf(o)[l])
  {
  }

  /** Sets a metadata field, or removes it when `v` is empty; metadata that is not a map is left alone. */
  function WithMeta(o: Fields, k: string, v: string): Fields
  {
    if "metadata" in o && !o["metadata"].Obj? then o
    else if v != "" then o["metadata" := Obj(Metadata(o)[k := Str(v)])]
    else if "metadata" in o then o["metadata" := Obj(Metadata(o) - {k})]
    else o
  }

  lemma WithMetaIdempotent(o: Fields, k: string, v: string)
    ensures WithMeta(WithMeta(o, k, v), k, v) == WithMeta(o, k, v)
  {
    var once := WithMeta(o, k, v);
    if !("metadata" in o && !o["metadata"].Obj?) {
      if v != "" {
        assert Metadata(once)[k := Str(v)] == Metadata(once);
      } else if "metadata" in o {
        assert Metadata(once) - {k} == Metadata(once);
      }
    }
    assert WithMeta(once, k, v) == once;
  }

  // ----- discovery -----

  datatype ApiResource = ApiResource(kind: string, namespaced: bool)

  /** What the server answers for each group and version; a missing entry is a discovery error. */
  type Discovery = map<string, seq<ApiResource>>

  function Lower(c: char): char
  {
    if 'A' <= c <= 'Z' then c - 'A' + 'a' else c
  }

  function ToLower(s: string): (r: string)
    ensures |r| == |s|
  {
    seq(|s|, i requires 0 <= i < |s| => Lower(s[i]))
  }

  predicate EqualFold(a: string, b: string) { ToLower(a) == ToLower(b) }

  function FirstOfKind(resources: seq<ApiResource>, kind: string): Option<ApiResource>
  {
    if resources == [] then None
    else if EqualFold(resources[0].kind, kind) then Some(resources[0])
    else FirstOfKind(resources[1..], kind)
  }

  function ApiResourceFor(disc: Discovery, gvk: Gvk): Result<ApiResource, Error>
  {
    if gvk.groupVersion !in disc then Err(Discovery)
    else match FirstOfKind(disc[gvk.groupVersion], gvk.kind)
      case Some(r) => Ok(r)
      case None => Err(Discovery)
  }

  predicate SameLetter(c: char, d: char)
  {
    c == d || ('A' <= c <= 'Z' && d as int == c as int + 32) || ('A' <= d <= 'Z' && c as int == d as int + 32)
  }

  /** Equal up to the case of letters. */
  lemma EqualFoldExactly(a: string, b: string)
    ensures EqualFold(a, b) <==> |a| == |b| && forall i :: 0 <= i < |a| ==> SameLetter(a[i], b[i])
  {
    if EqualFold(a, b) {
      forall i | 0 <= i < |a| ensures SameLetter(a[i], b[i]) { assert ToLower(a)[i] == ToLower(b)[i]; }
    }
  }

  ghost predicate IsFirst(resources: seq<ApiResource>, kind: string, i: nat)
  {
    && i < |resources| && EqualFold(resources[i].kind, kind)
    && forall j :: 0 <= j < i ==> !EqualFold(resources[j].kind, kind)
  }

  /** The kind is known, and its first resource has this scope. */
  ghost predicate HasScope(disc: Discovery, gvk: Gvk, namespaced: bool)
  {
    gvk.groupVersion in disc && exists i: nat ::
      IsFirst(disc[gvk.groupVersion], gvk.kind, i) && disc[gvk.groupVersion][i].namespaced == namespaced
  }

  lemma {:induction false} FirstOfKindIs(resources: seq<ApiResource>, kind: string) returns (i: nat)
    ensures FirstOfKind(resources, kind).Some? ==>
      IsFirst(resources, kind, i) && FirstOfKind(resources, kind).value == resources[i]
    ensures FirstOfKind(resources, kind).None? ==> forall j: nat :: !IsFirst(resources, kind, j)
  {
    i := 0;
    if resources != [] && !EqualFold(resources[0].kind, kind) {
      i := FirstOfKindIs(resources[1..], kind);
      forall j: nat | IsFirst(resources, kind, j) ensures IsFirst(resources[1..], kind, j - 1) {
        assert j > 0 && forall k :: 0 <= k < j - 1 ==> resources[1..][k] == resources[k + 1];
      }
      i := i + 1;
    }
  }

  /** A kind's scope is that of the resource found for it. */
  lemma ScopeExactly(disc: Discovery, gvk: Gvk, namespaced: bool)
    ensures HasScope(disc, gvk, namespaced) <==>
      ApiResourceFor(disc, gvk).Ok? && ApiResourceFor(disc, gvk).value.namespaced == namespaced
  {
    if gvk.groupVersion in disc {
      var i := FirstOfKindIs(disc[gvk.groupVersion], gvk.kind);
    }
  }

  /** Finds the first resource whose kind matches, ignoring case. */
  method GetAPIResource(disc: Discovery, gvk: Gvk) returns (r: Result<ApiResource, Error>)
    ensures r == ApiResourceFor(disc, gvk)
    ensures r.Ok? <==>
      gvk.groupVersion in disc &&
      exists i :: 0 <= i < |disc[gvk.groupVersion]| && EqualFold(disc[gvk.groupVersion][i].kind, gvk.kind)
    ensures r.Ok? ==> exists i: nat ::
      IsFirst(disc[gvk.groupVersion], gvk.kind, i) && r.value == disc[gvk.groupVersion][i]
  {
    if gvk.groupVersion !in disc {
      return Err(Discovery);
    }
    var resources := disc[gvk.groupVersion];
    for i := 0 to |resources|
      invariant forall j :: 0 <= j < i ==> !EqualFold(resources[j].kind, gvk.kind)
      invariant FirstOfKind(resources, gvk.kind) == FirstOfKind(resources[i..], gvk.kind)
    {
      if !EqualFold(resources[i].kind, gvk.kind) {
        continue;
      }
      assert IsFirst(resources, gvk.kind, i);
      return Ok(resources[i]);
    }
    return Err(Discovery);
  }

  // ----- Namespaced -----

  datatype Resolved = Resolved(content: Fields, name: string, namespace: string)

  /** The object with its namespace filled in, and the name and namespace to look it up by. */
  function Namespaced(disc: Discovery, o: Fields, namespace: string): Result<Resolved, Error>
  {
    if NamespaceOf(o) != "" then Ok(Resolved(o, NameOf(o), NamespaceOf(o)))
    else match ApiResourceFor(disc, GvkOf(o))
      case Err(e) => Err(Wrapped(e))
      case Ok(resource) =>
        if !resource.namespaced then Ok(Resolved(o, NameOf(o), ""))
        else Ok(Resolved(WithMeta(o, "namespace", namespace), NameOf(o), namespace))
  }

  /** Where an object belongs: in the namespace it names; or, if its kind has namespaces, in the given one, which is
      then filled in; or in none. Nothing else can go wrong than that the kind is not known. */
  lemma NamespacedExactly(disc: Discovery, o: Fields, namespace: string)
    ensures Namespaced(disc, o, namespace).Ok? <==>
      NamespaceOf(o) != "" || HasScope(disc, GvkOf(o), true) || HasScope(disc, GvkOf(o), false)
    ensures Namespaced(disc, o, namespace).Ok? ==>
      var r := Namespaced(disc, o, namespace).value;
      && (NamespaceOf(o) != "" ==> r.namespace == NamespaceOf(o))
      && (NamespaceOf(o) == "" && HasScope(disc, GvkOf(o), false) ==> r.namespace == "" && r.content == o)
      && (NamespaceOf(o) == "" && HasScope(disc, GvkOf(o), true) ==>
        r.namespace == namespace && ("metadata" !in o || o["metadata"].Obj? ==> NamespaceOf(r.content) == namespace))
  {
    ScopeExactly(disc, GvkOf(o), true);
    ScopeExactly(disc, GvkOf(o), false);
  }

  /** Resolution fills in at most the namespace: every other field, and a namespace already set, is kept. */
  lemma NamespacedFrame(disc: Discovery, o: Fields, namespace: string)
    requires Namespaced(disc, o, namespace).Ok?
    ensures var r := Namespaced(disc, o, namespace).value;
      && r.name == NameOf(o) == NameOf(r.content) && GvkOf(r.content) == GvkOf(o) && LabelsOf(r.content) == LabelsOf(o)
      && (NamespaceOf(o) != "" || ("metadata" in o && !o["metadata"].Obj?) ==> r.content == o)
      && (forall k :: k != "metadata" ==> (k in r.content <==> k in o) && (k in o ==> r.content[k] == o[k]))
      && (forall k :: k != "namespace" ==>
        (k in Metadata(r.content) <==> k in Metadata(o))
          && (k in Metadata(o) ==> Metadata(r.content)[k] == Metadata(o)[k]))
  {
  }

  /** Asking again gives the same answer, so repeated checks of one object look at the same place. */
  lemma NamespacedIdempotent(disc: Discovery, o: Fields, namespace: string)
    requires Namespaced(disc, o, namespace).Ok?
    ensures var r := Namespaced(disc, o, namespace).value; Namespaced(disc, r.content, namespace) == Ok(r)
  {
    NamespacedFrame(disc, o, namespace);
    var r := Namespaced(disc, o, namespace).value;
    WithMetaIdempotent(o, "namespace", namespace);
  }
}
