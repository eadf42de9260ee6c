/** What the references of a TestStep stand for, and what deleting does with it, call by call. */
module DeletionTargets {
  import opened Json
  import opened Outcomes
  import opened Errors
  import opened Objects
  import opened Cluster
  import opened Deletion
  import opened Seqs
  import Checks
  import Loading
  import Lookup

  // ----- what references stand for -----

  /** The namespace a reference is about: none for a kind of the cluster; else its own, or that of the test. */
  ghost function Meant(disc: Discovery, ref: Ref, namespace: string): string
  {
    if HasScope(disc, ref.gvk, false) then "" else if ref.namespace != "" then ref.namespace else namespace
  }

  ghost predicate Carries(o: Fields, labels: map<string, string>)
  {
    var own := MapAt(Metadata(o), "labels");
    forall l :: l in labels ==> l in own && own[l] == Str(labels[l])
  }

  /** A named reference stands for that object, stored or not; another one for every stored object of its kind that
      carries its labels, in its namespace if there is one. */
  ghost predicate StandsFor(disc: Discovery, store: Store, ref: Ref, namespace: string, key: Key)
  {
    key.gvk == ref.gvk &&
    if ref.name != "" then key.name == ref.name && key.namespace == Meant(disc, ref, namespace)
    else
      && key in store && (ref.labels.Some? ==> Carries(store[key], ref.labels.value))
      && (Meant(disc, ref, namespace) == "" || key.namespace == Meant(disc, ref, namespace))
  }

  /** The store as resolving the i-th reference finds it. */
  function SeenBy(env: Env, w: World, refs: seq<Ref>, namespace: string, i: nat): Store
    requires i < |refs|
  {
    Moved(env, ResolveAll(env, w, refs[..i], namespace).0).store
  }

  lemma ReferenceScope(disc: Discovery, ref: Ref, namespace: string)
    ensures var o := NewResource(ref.gvk, ref.name);
      && NamespaceOf(o) == "" && NameOf(o) == ref.name && GvkOf(o) == ref.gvk
      && (Namespaced(disc, o, ResolvedNamespace(ref, namespace)).Ok? <==>
           HasScope(disc, ref.gvk, true) || HasScope(disc, ref.gvk, false))
      && (Namespaced(disc, o, ResolvedNamespace(ref, namespace)).Ok? ==>
           var r := Namespaced(disc, o, ResolvedNamespace(ref, namespace)).value;
           r.namespace == Meant(disc, ref, namespace) == NamespaceOf(r.content)
             && GvkOf(r.content) == ref.gvk && NameOf(r.content) == ref.name)
  {
    var o := NewResource(ref.gvk, ref.name);
    ScopeExactly(disc, ref.gvk, true);
    ScopeExactly(disc, ref.gvk, false);
    NamespacedExactly(disc, o, ResolvedNamespace(ref, namespace));
    if Namespaced(disc, o, ResolvedNamespace(ref, namespace)).Ok? {
      NamespacedFrame(disc, o, ResolvedNamespace(ref, namespace));
    }
  }

  /** A reference with a name has one target, whatever is stored. */
  lemma NamedTarget(env: Env, w: World, ref: Ref, namespace: string, store: Store, key: Key)
    requires ref.name != "" && ResolveRef(env, w, ref, namespace).1.Ok?
    ensures |ResolveRef(env, w, ref, namespace).1.value| == 1
    ensures key in ResolveRef(env, w, ref, namespace).1.value <==> StandsFor(env.disc, store, ref, namespace, key)
  {
    ReferenceScope(env.disc, ref, namespace);
  }

  /** What is stored under a key selected by the listing, and nothing else, is listed. */
  lemma ListedKeys(env: Env, w: World, selected: set<Key>, key: Key)
    requires ListsAll(env) && WellFormed(env.disc, w.store) && selected <= w.store.Keys
    ensures key in KeysOf(ObjectsAt(w.store, env.listing(w.calls, selected))) <==> key in selected
  {
    var items := ObjectsAt(w.store, env.listing(w.calls, selected));
    var keys := KeysOf(items);
    if key in selected {
      assert w.store[key] in items;
      var i :| 0 <= i < |items| && items[i] == w.store[key];
      assert keys[i] == key;
    }
    if key in keys {
      var i :| 0 <= i < |keys| && keys[i] == key;
      assert items[i] in items;
      var k :| k in env.listing(w.calls, selected) && k in w.store && w.store[k] == items[i];
      assert KeyOf(w.store[k]) == k;
    }
  }

  lemma SameLabels(disc: Discovery, store: Store, key: Key, labels: map<string, string>)
    requires WellFormed(disc, store) && key in store
    ensures Carries(store[key], labels) <==>
      forall l :: l in labels ==> l in LabelsOf(store[key]) && LabelsOf(store[key])[l] == labels[l]
  {
    forall l ensures l in LabelsOf(store[key]) <==> l in MapAt(Metadata(store[key]), "labels") {
      LabelsExactly(store[key], l);
    }
  }

  lemma SelectedStands(disc: Discovery, store: Store, ref: Ref, namespace: string, key: Key)
    requires Coherent(disc) && WellFormed(disc, store) && ref.name == ""
    ensures key in Selected(disc, store, ref.gvk, Meant(disc, ref, namespace), WantedLabels(ref)) <==>
            StandsFor(disc, store, ref, namespace, key)
  {
    if key in store {
      Lookup.StoredKindKnown(disc, store, key);
      ScopeExactly(disc, key.gvk, false);
      SameLabels(disc, store, key, WantedLabels(ref));
    }
  }

  /** A reference without a name targets exactly the stored objects that it stands for. */
  lemma ListedTargets(env: Env, w: World, ref: Ref, namespace: string, key: Key)
    requires Coherent(env.disc) && ListsAll(env) && WellFormed(env.disc, Moved(env, w).store)
    requires ref.name == "" && ResolveRef(env, w, ref, namespace).1.Ok?
    ensures key in ResolveRef(env, w, ref, namespace).1.value <==>
            StandsFor(env.disc, Moved(env, w).store, ref, namespace, key)
  {
    var now := Moved(env, w);
    ReferenceScope(env.disc, ref, namespace);
    SelectedStands(env.disc, now.store, ref, namespace, key);
    ListedKeys(env, now, Selected(env.disc, now.store, ref.gvk, Meant(env.disc, ref, namespace), WantedLabels(ref)),
               key);
  }

  /** The targets that the i-th reference contributes. */
  ghost predicate PartOf(env: Env, w: World, refs: seq<Ref>, namespace: string, i: nat, part: seq<Key>)
    requires i < |refs|
  {
    && (forall key :: key in part <==> StandsFor(env.disc, SeenBy(env, w, refs, namespace, i), refs[i], namespace, key))
    && (refs[i].name != "" ==> |part| == 1)
  }

  ghost predicate AllFormed(env: Env, w: World, refs: seq<Ref>, namespace: string)
  {
    forall i: nat :: i < |refs| ==> WellFormed(env.disc, SeenBy(env, w, refs, namespace, i))
  }

  /** The targets are, reference by reference in their order, exactly what these stand for. */
  lemma {:induction false} TargetsExactly(env: Env, w: World, refs: seq<Ref>, namespace: string)
    returns (parts: seq<seq<Key>>)
    requires Coherent(env.disc) && ListsAll(env) && AllFormed(env, w, refs, namespace)
    requires ResolveAll(env, w, refs, namespace).1.Ok?
    ensures |parts| == |refs| && ResolveAll(env, w, refs, namespace).1.value == Flat(parts)
    ensures forall i: nat :: i < |refs| ==> PartOf(env, w, refs, namespace, i, parts[i])
  {
    if refs == [] {
      parts := [];
    } else {
      var n := |refs| - 1;
      FrontSeesSame(env, w, refs, namespace);
      parts := TargetsExactly(env, w, refs[..n], namespace);
      var last := LastTargets(env, w, refs, namespace);
      var more := parts + [last];
      assert more[..n] == parts;
      forall i: nat | i < |refs| ensures PartOf(env, w, refs, namespace, i, more[i]) {
        if i < n { PartOfFront(env, w, refs, namespace, i, parts[i]); }
      }
      parts := more;
    }
  }

  lemma FrontSeesSame(env: Env, w: World, refs: seq<Ref>, namespace: string)
    requires refs != [] && AllFormed(env, w, refs, namespace)
    ensures AllFormed(env, w, refs[..|refs| - 1], namespace)
  {
    var front := refs[..|refs| - 1];
    forall i: nat | i < |front| ensures WellFormed(env.disc, SeenBy(env, w, front, namespace, i)) {
      assert front[..i] == refs[..i];
      assert SeenBy(env, w, front, namespace, i) == SeenBy(env, w, refs, namespace, i);
    }
  }

  lemma PartOfFront(env: Env, w: World, refs: seq<Ref>, namespace: string, i: nat, part: seq<Key>)
    requires refs != [] && i < |refs| - 1 && PartOf(env, w, refs[..|refs| - 1], namespace, i, part)
    ensures PartOf(env, w, refs, namespace, i, part)
  {
    assert refs[..|refs| - 1][..i] == refs[..i];
  }

  lemma LastTargets(env: Env, w: World, refs: seq<Ref>, namespace: string) returns (part: seq<Key>)
    requires Coherent(env.disc) && ListsAll(env) && AllFormed(env, w, refs, namespace)
    requires refs != [] && ResolveAll(env, w, refs, namespace).1.Ok?
    ensures PartOf(env, w, refs, namespace, |refs| - 1, part)
    ensures ResolveAll(env, w, refs, namespace).1.value ==
            ResolveAll(env, w, refs[..|refs| - 1], namespace).1.value + part
  {
    var n := |refs| - 1;
    var before, ref := ResolveAll(env, w, refs[..n], namespace).0, refs[n];
    part := ResolveRef(env, before, ref, namespace).1.value;
    var store := SeenBy(env, w, refs, namespace, n);
    forall key ensures key in part <==> StandsFor(env.disc, store, ref, namespace, key) {
      if ref.name != "" {
        NamedTarget(env, before, ref, namespace, store, key);
      } else {
        ListedTargets(env, before, ref, namespace, key);
      }
    }
    if ref.name != "" { NamedTarget(env, before, ref, namespace, store, KeyOf(map[])); }
  }

  // ----- when references can be resolved -----

  ghost predicate Resolvable(env: Env, w: World, ref: Ref)
  {
    && (HasScope(env.disc, ref.gvk, true) || HasScope(env.disc, ref.gvk, false))
    && (ref.name == "" ==> env.fault(w.calls).None? && Served(env.disc, ref.gvk).Some?)
  }

  /** The i-th reference can be resolved when its turn comes. */
  ghost predicate ResolvableAt(env: Env, w: World, refs: seq<Ref>, namespace: string, i: nat)
    requires i < |refs|
  {
    Resolvable(env, ResolveAll(env, w, refs[..i], namespace).0, refs[i])
  }

  lemma RefResolved(env: Env, w: World, ref: Ref, namespace: string)
    ensures ResolveRef(env, w, ref, namespace).1.Ok? <==> Resolvable(env, w, ref)
  {
    ReferenceScope(env.disc, ref, namespace);
  }

  lemma ResolvedNext(env: Env, w: World, refs: seq<Ref>, namespace: string, n: nat)
    requires n < |refs|
    ensures ResolveAll(env, w, refs[..n + 1], namespace).1.Ok? <==>
            ResolveAll(env, w, refs[..n], namespace).1.Ok? && ResolvableAt(env, w, refs, namespace, n)
  {
    assert refs[..n + 1][..n] == refs[..n];
    RefResolved(env, ResolveAll(env, w, refs[..n], namespace).0, refs[n], namespace);
  }

  lemma {:induction false} EachResolved(env: Env, w: World, refs: seq<Ref>, namespace: string, n: nat, i: nat)
    requires i < n <= |refs| && ResolveAll(env, w, refs[..n], namespace).1.Ok?
    ensures ResolvableAt(env, w, refs, namespace, i)
    decreases n
  {
    var m := n - 1;
    ResolvedNext(env, w, refs, namespace, m);
    if i == m {
    } else {
      EachResolved(env, w, refs, namespace, m, i);
    }
  }

  lemma {:induction false} OneNotResolved(env: Env, w: World, refs: seq<Ref>, namespace: string, n: nat)
    returns (i: nat)
    requires n <= |refs| && ResolveAll(env, w, refs[..n], namespace).1.Err?
    ensures i < |refs| && !ResolvableAt(env, w, refs, namespace, i)
  {
    assert n > 0;
    ResolvedNext(env, w, refs, namespace, n - 1);
    i := n - 1;
    if ResolveAll(env, w, refs[..n - 1], namespace).1.Err? { i := OneNotResolved(env, w, refs, namespace, n - 1); }
  }

  /** Resolving fails only for a kind that is not known, or a listing that fails. */
  lemma ResolvedExactly(env: Env, w: World, refs: seq<Ref>, namespace: string)
    ensures ResolveAll(env, w, refs, namespace).1.Ok? <==>
      forall i: nat :: i < |refs| ==> ResolvableAt(env, w, refs, namespace, i)
  {
    assert refs[..|refs|] == refs;
    if ResolveAll(env, w, refs, namespace).1.Ok? {
      forall i: nat | i < |refs| ensures ResolvableAt(env, w, refs, namespace, i) {
        EachResolved(env, w, refs, namespace, |refs|, i);
      }
    } else {
      var i := OneNotResolved(env, w, refs, namespace, |refs|);
    }
  }

  // ----- the calls of a deletion -----

  predicate Tolerable(e: Option<Error>) { e.None? || Has(e.value, NotFound) }

  /** The history grew by deletions of the first `n` targets, in order. */
  ghost predicate DeletedInOrder(log: seq<Event>, after: seq<Event>, client: nat, targets: seq<Key>, n: nat)
  {
    && n <= |targets| && log <= after && |after| == |log| + n
    && forall j :: 0 <= j < n ==> after[|log| + j] == Event(client, Delete, targets[j], after[|log| + j].error)
  }

  ghost predicate AllTolerable(log: seq<Event>, from: nat, to: nat)
    requires to <= |log|
  {
    forall k :: from <= k < to ==> Tolerable(log[k].error)
  }

  /** Targets were deleted one by one up to the first error, which is the result; NotFound is none. */
  ghost predicate DeletedUpTo(log: seq<Event>, done: (World, Option<Error>), client: nat, targets: seq<Key>, n: nat)
  {
    var after := done.0.log;
    DeletedInOrder(log, after, client, targets, n) &&
    if done.1.None? then n == |targets| && AllTolerable(after, |log|, |after|)
    else
      && n > 0 && AllTolerable(after, |log|, |after| - 1)
      && var e := after[|after| - 1].error; !Tolerable(e) && done.1 == Some(Wrapped(e.value))
  }

  lemma DeletedFurther(env: Env, log: seq<Event>, before: World, client: nat, targets: seq<Key>)
    requires targets != [] && DeletedUpTo(log, (before, None), client, targets[..|targets| - 1], |targets| - 1)
    ensures var last := DoDelete(env, before, client, targets[|targets| - 1]);
      DeletedUpTo(log, (last.0, if Tolerable(last.1) then None else Some(Wrapped(last.1.value))), client, targets,
        |targets|)
  {
    var n := |targets| - 1;
    var last := DoDelete(env, before, client, targets[n]);
    assert last.0.log == before.log + [Event(client, Delete, targets[n], last.1)];
    assert forall j :: 0 <= j < n ==> last.0.log[|log| + j] == before.log[|log| + j] && targets[..n][j] == targets[j];
  }

  lemma {:induction false} DeleteAllExactly(env: Env, w: World, client: nat, targets: seq<Key>) returns (n: nat)
    ensures DeletedUpTo(w.log, DeleteAll(env, w, client, targets), client, targets, n)
  {
    if targets == [] {
      n := 0;
    } else {
      n := DeleteAllExactly(env, w, client, targets[..|targets| - 1]);
      var before := DeleteAll(env, w, client, targets[..|targets| - 1]);
      if before.1.None? {
        n := n + 1;
        DeletedFurther(env, w.log, before.0, client, targets);
      }
    }
  }

  /** The j-th new entry of the history is a Delete of this target, which was accepted or answered NotFound. */
  ghost predicate DeletedAt(log: seq<Event>, after: seq<Event>, client: nat, target: Key, j: nat)
  {
    && |log| + j < |after| && Tolerable(after[|log| + j].error)
    && after[|log| + j] == Event(client, Delete, target, after[|log| + j].error)
  }

  lemma TargetDeleted(env: Env, w: World, client: nat, targets: seq<Key>, after: seq<Event>, j: nat)
    requires DeleteAll(env, w, client, targets).1.None? && j < |targets|
    requires DeleteAll(env, w, client, targets).0.log <= after
    ensures DeletedAt(w.log, after, client, targets[j], j)
  {
    var n := DeleteAllExactly(env, w, client, targets);
  }

  /** When deletion ended without an error, a Delete was sent for every target in turn, and accepted or answered
      NotFound. */
  lemma EveryTargetDeleted(env: Env, w: World, client: nat, refs: seq<Ref>, namespace: string, polls: nat, j: nat)
    requires DeleteRefs(env, w, client, refs, namespace, polls).1.None?
    requires ResolveAll(env, w, refs, namespace).1.Ok? && j < |ResolveAll(env, w, refs, namespace).1.value|
    ensures DeletedAt(w.log, DeleteRefs(env, w, client, refs, namespace, polls).0.log, client,
                      ResolveAll(env, w, refs, namespace).1.value[j], j)
  {
    var resolved := ResolveAll(env, w, refs, namespace);
    ResolveAllOnlyLists(env, w, refs, namespace);
    PollOnlyReads(env, DeleteAll(env, resolved.0, client, resolved.1.value).0, client, resolved.1.value, polls);
    TargetDeleted(env, resolved.0, client, resolved.1.value,
                  DeleteRefs(env, w, client, refs, namespace, polls).0.log, j);
  }

  // ----- waiting -----

  /** The world after `i` polling passes. */
  function AfterPasses(env: Env, w: World, client: nat, targets: seq<Key>, i: nat): World
  {
    if i == 0 then w else Pass(env, AfterPasses(env, w, client, targets, i - 1), client, targets).0
  }

  lemma {:induction false} PassesShift(env: Env, w: World, client: nat, targets: seq<Key>, i: nat)
    ensures AfterPasses(env, Pass(env, w, client, targets).0, client, targets, i) ==
            AfterPasses(env, w, client, targets, i + 1)
  {
    if i == 0 {
    } else {
      PassesShift(env, w, client, targets, i - 1);
    }
  }

  /** Waiting succeeds if and only if one of the passes that there is time for sees every target gone. */
  lemma {:induction false} PollExactly(env: Env, w: World, client: nat, targets: seq<Key>, polls: nat)
    ensures Poll(env, w, client, targets, polls).1 <==>
      exists i: nat :: i <= polls && Pass(env, AfterPasses(env, w, client, targets, i), client, targets).1
    decreases polls
  {
    var pass := Pass(env, w, client, targets);
    assert AfterPasses(env, w, client, targets, 0) == w;
    if !pass.1 && polls > 0 {
      PollExactly(env, pass.0, client, targets, polls - 1);
      if i: nat :| i <= polls && Pass(env, AfterPasses(env, w, client, targets, i), client, targets).1 {
        PassesShift(env, w, client, targets, i - 1);
      }
      if i: nat :| i <= polls - 1 && Pass(env, AfterPasses(env, pass.0, client, targets, i), client, targets).1 {
        PassesShift(env, w, client, targets, i);
        assert i + 1 <= polls;
      }
    }
  }

  /** The target is absent and stays so. */
  ghost predicate GoneForGood(env: Env, w: World, target: Key)
  {
    Absent(env, w, target) && NoOtherCreator(env, target)
  }

  ghost predicate AllGone(env: Env, w: World, targets: seq<Key>)
  {
    forall t :: t in targets ==> GoneForGood(env, w, t)
  }

  lemma GoneStays(env: Env, w: World, client: nat, target: Key, t: Key)
    requires GoneForGood(env, w, t)
    ensures GoneForGood(env, DoGet(env, w, client, target).0, t)
    ensures GoneForGood(env, DoDelete(env, w, client, target).0, t)
    ensures Faultless(env) ==> DoGet(env, w, client, t).1 == Err(Api(NotFound))
  {
  }

  lemma {:induction false} GonePasses(env: Env, w: World, client: nat, targets: seq<Key>, gone: seq<Key>)
    requires Faultless(env) && AllGone(env, w, gone) && forall t :: t in targets ==> t in gone
    ensures Pass(env, w, client, targets).1 && AllGone(env, Pass(env, w, client, targets).0, gone)
    decreases |targets|
  {
    if targets == [] {
    } else {
      var front, last := targets[..|targets| - 1], targets[|targets| - 1];
      GonePasses(env, w, client, front, gone);
      var before := Pass(env, w, client, front).0;
      assert last in targets && GoneForGood(env, before, last);
      GoneStays(env, before, client, last, last);
      forall t | t in gone ensures GoneForGood(env, DoGet(env, before, client, last).0, t) {
        GoneStays(env, before, client, last, t);
      }
    }
  }

  /** Targets that are gone by one of the polls end the wait. */
  lemma GoneIsNoticed(env: Env, w: World, client: nat, targets: seq<Key>, polls: nat, i: nat)
    requires Faultless(env) && i <= polls && AllGone(env, AfterPasses(env, w, client, targets, i), targets)
    ensures Poll(env, w, client, targets, polls).1
  {
    PollExactly(env, w, client, targets, polls);
    GonePasses(env, AfterPasses(env, w, client, targets, i), client, targets, targets);
    assert Pass(env, AfterPasses(env, w, client, targets, i), client, targets).1;
  }

  // ----- the whole of it -----

  /** The target's kind is served, and nobody else creates it. */
  ghost predicate Removable(env: Env, target: Key) { Address(env.disc, target).Ok? && NoOtherCreator(env, target) }

  lemma {:induction false} AllDeleted(env: Env, w: World, client: nat, targets: seq<Key>)
    requires Faultless(env) && (forall n :: !env.lingers(n)) && forall t :: t in targets ==> Removable(env, t)
    ensures DeleteAll(env, w, client, targets).1.None? && AllGone(env, DeleteAll(env, w, client, targets).0, targets)
  {
    if targets == [] {
    } else {
      var front, last := targets[..|targets| - 1], targets[|targets| - 1];
      AllDeleted(env, w, client, front);
      var before := DeleteAll(env, w, client, front).0;
      forall t | t in targets ensures GoneForGood(env, DoDelete(env, before, client, last).0, t) {
        if t in front {
          GoneStays(env, before, client, last, t);
        } else {
          assert t == last && Removable(env, last);
          DeletedIsGone(env, before, client, last);
        }
      }
      DeletedIsGone(env, before, client, last);
    }
  }

  lemma DeletedIsGone(env: Env, w: World, client: nat, target: Key)
    requires Faultless(env) && (forall n :: !env.lingers(n)) && Removable(env, target)
    ensures Tolerable(DoDelete(env, w, client, target).1)
    ensures GoneForGood(env, DoDelete(env, w, client, target).0, target)
  {
    var n := w.calls;
    assert env.fault(n).None? && !env.lingers(n);
  }

  /** Where calls do not fail, deletions take effect at once and nobody else creates a target, all is deleted, even what
      was not there, and the first poll sees it. */
  lemma DeletionSucceeds(env: Env, w: World, client: nat, refs: seq<Ref>, namespace: string, polls: nat)
    requires Faultless(env) && forall n :: !env.lingers(n)
    requires ResolveAll(env, w, refs, namespace).1.Ok?
    requires forall t :: t in ResolveAll(env, w, refs, namespace).1.value ==> Removable(env, t)
    ensures DeleteRefs(env, w, client, refs, namespace, polls).1.None?
  {
    var resolved := ResolveAll(env, w, refs, namespace);
    AllDeleted(env, resolved.0, client, resolved.1.value);
    var deleted := DeleteAll(env, resolved.0, client, resolved.1.value).0;
    assert AfterPasses(env, deleted, client, resolved.1.value, 0) == deleted;
    GoneIsNoticed(env, deleted, client, resolved.1.value, polls, 0);
  }

  // ----- a step's deletion -----

  /** A step without a TestStep deletes nothing; another one has deleted, when it is done without an error, all that its
      references stand for. */
  lemma StepDeletes(a: Checks.Access, w: World, step: Option<Loading.TestStep>, namespace: string, polls: nat)
    requires Checks.DeletePhase(a, w, step, namespace, polls).1.None?
    ensures a.clientErr.None? && a.discoveryErr.None?
    ensures step.None? ==> Checks.DeletePhase(a, w, step, namespace, polls).0 == w
    ensures step.Some? ==>
      var resolved := ResolveAll(a.env, w, step.value.delete, namespace).1;
      var after := Checks.DeletePhase(a, w, step, namespace, polls).0;
      && resolved.Ok?
      && (forall j: nat :: j < |resolved.value| ==> DeletedAt(w.log, after.log, a.client, resolved.value[j], j))
      && (forall t :: t in resolved.value && NoOtherCreator(a.env, t) ==> Absent(a.env, after, t))
  {
    if step.Some? {
      var refs := step.value.delete;
      NilMeansGone(a.env, w, a.client, refs, namespace, polls);
      forall j: nat | j < |ResolveAll(a.env, w, refs, namespace).1.value|
        ensures DeletedAt(w.log, Checks.DeletePhase(a, w, step, namespace, polls).0.log, a.client,
                          ResolveAll(a.env, w, refs, namespace).1.value[j], j)
      {
        EveryTargetDeleted(a.env, w, a.client, refs, namespace, polls, j);
      }
    }
  }
}
