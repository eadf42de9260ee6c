/** Deletion of what a TestStep lists, and the wait until it is gone. */
module Deletion {
  import opened Json
  import opened Outcomes
  import opened Errors
  import opened Objects
  import opened Cluster

  /** An entry of TestStep.delete. */
  datatype Ref = Ref(gvk: Gvk, name: string, namespace: string, labels: Option<map<string, string>>)

  /** NewResource: an object with a kind and, when given, a name. */
  function NewResource(gvk: Gvk, name: string): Fields
  {
    map["apiVersion" := Str(gvk.groupVersion), "kind" := Str(gvk.kind),
        "metadata" := Obj(if name != "" then map["name" := Str(name)] else map[])]
  }

  function KeysOf(os: seq<Fields>): (r: seq<Key>)
    ensures |r| == |os| && forall i :: 0 <= i < |os| ==> r[i] == KeyOf(os[i])
  {
    seq(|os|, i requires 0 <= i < |os| => KeyOf(os[i]))
  }

  // ----- specification functions; lists are consumed from the front, so functions recurse on the last element -----

  /** A reference's own namespace, or else that of the test. */
  function ResolvedNamespace(ref: Ref, namespace: string): string
  {
    if ref.namespace != "" then ref.namespace else namespace
  }

  function WantedLabels(ref: Ref): map<string, string>
  {
    if ref.labels.Some? then ref.labels.value else map[]
  }

  /** What one reference stands for: the named object, or everything listed. */
  function ResolveRef(env: Env, w: World, ref: Ref, namespace: string): (World, Result<seq<Key>, Error>)
  {
    match Namespaced(env.disc, NewResource(ref.gvk, ref.name), ResolvedNamespace(ref, namespace))
    case Err(e) => (w, Err(e))
    case Ok(r) =>
      if ref.name != "" then (w, Ok([KeyOf(r.content)]))
      else
        var listed := DoList(env, w, ref.gvk, r.namespace, WantedLabels(ref));
        (listed.0, if listed.1.Ok? then Ok(KeysOf(listed.1.value)) else Err(Wrapped(listed.1.error)))
  }

  function ResolveAll(env: Env, w: World, refs: seq<Ref>, namespace: string): (World, Result<seq<Key>, Error>)
  {
    if refs == [] then (w, Ok([]))
    else
      var before := ResolveAll(env, w, refs[..|refs| - 1], namespace);
      if before.1.Err? then before
      else
        var last := ResolveRef(env, before.0, refs[|refs| - 1], namespace);
        (last.0, if last.1.Ok? then Ok(before.1.value + last.1.value) else last.1)
  }

  function DeleteAll(env: Env, w: World, client: nat, targets: seq<Key>): (World, Option<Error>)
  {
    if targets == [] then (w, None)
    else
      var before := DeleteAll(env, w, client, targets[..|targets| - 1]);
      if before.1.Some? then before
      else
        var last := DoDelete(env, before.0, client, targets[|targets| - 1]);
        (last.0, if last.1.Some? && !Has(last.1.value, NotFound) then Some(Wrapped(last.1.value)) else None)
  }

  /** One polling pass: stops at the first target that is not reported NotFound. */
  function Pass(env: Env, w: World, client: nat, targets: seq<Key>): (World, bool)
  {
    if targets == [] then (w, true)
    else
      var before := Pass(env, w, client, targets[..|targets| - 1]);
      if !before.1 then before
      else
        var last := DoGet(env, before.0, client, targets[|targets| - 1]);
        (last.0, last.1.Err? && Has(last.1.error, NotFound))
  }

  /** A first pass at once, then up to `polls` more until the time-out. */
  function Poll(env: Env, w: World, client: nat, targets: seq<Key>, polls: nat): (World, bool)
    decreases polls
  {
    var pass := Pass(env, w, client, targets);
    if pass.1 || polls == 0 then pass else Poll(env, pass.0, client, targets, polls - 1)
  }

  function WaitOutcome(gone: bool): Option<Error>
  {
    if gone then None else Some(Wrapped(ContextDone(true)))
  }

  /** The whole of DeleteExisting once the clients are there and a TestStep is present. */
  function DeleteRefs(env: Env, w: World, client: nat, refs: seq<Ref>, namespace: string, polls: nat): (World,
                      Option<Error>)
  {
    var resolved := ResolveAll(env, w, refs, namespace);
    if resolved.1.Err? then (resolved.0, Some(resolved.1.error))
    else
      var deleted := DeleteAll(env, resolved.0, client, resolved.1.value);
      if deleted.1.Some? then deleted
      else
        var polled := Poll(env, deleted.0, client, resolved.1.value, polls);
        (polled.0, WaitOutcome(polled.1))
  }

  // ----- the code -----

  /** Polls until every target is reported NotFound within one pass; `polls` is what the time-out allows. */
  method WaitForDelete(cl: Client, toDelete: seq<Key>, polls: nat) returns (err: Option<Error>)
    modifies cl
    ensures var polled := Poll(cl.env, old(cl.world), cl.id, toDelete, polls);
      cl.world == polled.0 && err == WaitOutcome(polled.1)
  {
    var left := polls;
    while true
      invariant 0 <= left <= polls
      invariant Poll(cl.env, old(cl.world), cl.id, toDelete, polls) == Poll(cl.env, cl.world, cl.id, toDelete, left)
      decreases left
    {
      var gone := true;
      var i := 0;
      ghost var start := cl.world;
      while i < |toDelete| && gone
        invariant 0 <= i <= |toDelete|
        invariant (cl.world, gone) == Pass(cl.env, start, cl.id, toDelete[..i])
      {
        var actual := cl.Get(toDelete[i]);
        gone := actual.Err? && Has(actual.error, NotFound);
        assert toDelete[..i + 1][..i] == toDelete[..i];
        i := i + 1;
      }
      assert toDelete[..|toDelete|] == toDelete;
      if !gone { PassStopped(cl.env, start, cl.id, toDelete, i); }
      if gone {
        return None;
      }
      if left == 0 {
        return WaitOutcome(false);
      }
      left := left - 1;
    }
  }

  lemma {:induction false} PassStopped(env: Env, w: World, client: nat, targets: seq<Key>, i: nat)
    requires i <= |targets| && !Pass(env, w, client, targets[..i]).1
    ensures Pass(env, w, client, targets) == Pass(env, w, client, targets[..i])
    decreases |targets|
  {
    if i < |targets| {
      var front := targets[..|targets| - 1];
      assert front[..i] == targets[..i];
      PassStopped(env, w, client, front, i);
    } else {
      assert targets[..i] == targets;
    }
  }

  lemma DeleteNext(env: Env, w: World, client: nat, targets: seq<Key>, i: nat)
    requires i < |targets| && DeleteAll(env, w, client, targets[..i]).1.None?
    ensures var last := DoDelete(env, DeleteAll(env, w, client, targets[..i]).0, client, targets[i]);
      DeleteAll(env, w, client, targets[..i + 1]) ==
        (last.0, if last.1.Some? && !Has(last.1.value, NotFound) then Some(Wrapped(last.1.value)) else None)
  {
    assert targets[..i + 1][..i] == targets[..i];
  }

  lemma {:induction false} DeleteStopped(env: Env, w: World, client: nat, targets: seq<Key>, i: nat)
    requires i <= |targets| && DeleteAll(env, w, client, targets[..i]).1.Some?
    ensures DeleteAll(env, w, client, targets) == DeleteAll(env, w, client, targets[..i])
    decreases |targets|
  {
    if i < |targets| {
      var front := targets[..|targets| - 1];
      assert front[..i] == targets[..i];
      DeleteStopped(env, w, client, front, i);
    } else {
      assert targets[..i] == targets;
    }
  }

  lemma {:induction false} ResolveStopped(env: Env, w: World, refs: seq<Ref>, namespace: string, i: nat)
    requires i <= |refs| && ResolveAll(env, w, refs[..i], namespace).1.Err?
    ensures ResolveAll(env, w, refs, namespace) == ResolveAll(env, w, refs[..i], namespace)
    decreases |refs|
  {
    if i < |refs| {
      var front := refs[..|refs| - 1];
      assert front[..i] == refs[..i];
      ResolveStopped(env, w, front, namespace, i);
    } else {
      assert refs[..i] == refs;
    }
  }

  // ----- what a nil error means -----

  /** The events of a complete pass: one NotFound answer for every target, in order. */
  function SeenGone(client: nat, targets: seq<Key>): seq<Event>
  {
    seq(|targets|, i requires 0 <= i < |targets| => Event(client, Get, targets[i], Some(Api(NotFound))))
  }

  /** No other writer ever brings a target into being. */
  ghost predicate NoOtherCreator(env: Env, target: Key)
  {
    var at := Address(env.disc, target);
    at.Ok? ==> NeverCreated(env, at.value)
  }

  ghost predicate Absent(env: Env, w: World, target: Key)
  {
    Address(env.disc, target).Ok? && Address(env.disc, target).value !in w.store
  }

  lemma {:induction false} PassSawAllGone(env: Env, w: World, client: nat, targets: seq<Key>)
    requires Pass(env, w, client, targets).1
    ensures Pass(env, w, client, targets).0.log == w.log + SeenGone(client, targets)
    ensures forall t :: t in targets && NoOtherCreator(env, t) ==> Absent(env, Pass(env, w, client, targets).0, t)
  {
    if targets == [] {
    } else {
      var front, last := targets[..|targets| - 1], targets[|targets| - 1];
      PassSawAllGone(env, w, client, front);
      var before := Pass(env, w, client, front).0;
      var got := DoGet(env, before, client, last);
      assert got.1 == Err(Api(NotFound));
      assert SeenGone(client, targets) == SeenGone(client, front) + [Event(client, Get, last, Some(Api(NotFound)))];
      forall t | t in targets && NoOtherCreator(env, t)
        ensures Absent(env, got.0, t)
      {
        assert t in front || t == last;
      }
    }
  }

  lemma {:induction false} PassOnlyReads(env: Env, w: World, client: nat, targets: seq<Key>)
    ensures DeletesOnly(w, Pass(env, w, client, targets).0, [])
    ensures CreatesNothing(w, Pass(env, w, client, targets).0)
  {
    if targets == [] {
    } else {
      PassOnlyReads(env, w, client, targets[..|targets| - 1]);
    }
  }

  lemma {:induction false} PollOnlyReads(env: Env, w: World, client: nat, targets: seq<Key>, polls: nat)
    ensures DeletesOnly(w, Poll(env, w, client, targets, polls).0, [])
    ensures CreatesNothing(w, Poll(env, w, client, targets, polls).0)
    decreases polls
  {
    var pass := Pass(env, w, client, targets);
    PassOnlyReads(env, w, client, targets);
    if !pass.1 && polls > 0 { PollOnlyReads(env, pass.0, client, targets, polls - 1); }
  }

  lemma {:induction false} DeleteAllOnlyTargets(env: Env, w: World, client: nat, targets: seq<Key>)
    ensures DeletesOnly(w, DeleteAll(env, w, client, targets).0, targets)
    ensures CreatesNothing(w, DeleteAll(env, w, client, targets).0)
  {
    if targets == [] {
    } else {
      DeleteAllOnlyTargets(env, w, client, targets[..|targets| - 1]);
    }
  }

  lemma {:induction false} ResolveAllOnlyLists(env: Env, w: World, refs: seq<Ref>, namespace: string)
    ensures ResolveAll(env, w, refs, namespace).0.log == w.log
  {
    if refs == [] {
    } else {
      ResolveAllOnlyLists(env, w, refs[..|refs| - 1], namespace);
    }
  }

  lemma {:induction false} PollEndsGone(env: Env, w: World, client: nat, targets: seq<Key>, polls: nat)
    returns (before: World)
    requires Poll(env, w, client, targets, polls).1
    ensures Pass(env, before, client, targets) == Poll(env, w, client, targets, polls)
    decreases polls
  {
    before := w;
    var pass := Pass(env, w, client, targets);
    if !pass.1 && polls > 0 { before := PollEndsGone(env, pass.0, client, targets, polls - 1); }
  }

  /** A nil error means that one final pass saw every resolved target NotFound; and a target that no other writer
      creates is not in the store. */
  lemma NilMeansGone(env: Env, w: World, client: nat, refs: seq<Ref>, namespace: string, polls: nat)
    requires DeleteRefs(env, w, client, refs, namespace, polls).1.None?
    ensures ResolveAll(env, w, refs, namespace).1.Ok?
    ensures var targets := ResolveAll(env, w, refs, namespace).1.value;
      var after := DeleteRefs(env, w, client, refs, namespace, polls).0;
      && |targets| <= |after.log| && after.log[|after.log| - |targets|..] == SeenGone(client, targets)
      && (forall t :: t in targets && NoOtherCreator(env, t) ==> Absent(env, after, t))
  {
    var resolved := ResolveAll(env, w, refs, namespace);
    var deleted := DeleteAll(env, resolved.0, client, resolved.1.value);
    var before := PollEndsGone(env, deleted.0, client, resolved.1.value, polls);
    PassSawAllGone(env, before, client, resolved.1.value);
  }

  /** Whatever the outcome, nothing is created and nothing but resolved targets is deleted. */
  lemma DeletesOnlyTargets(env: Env, w: World, client: nat, refs: seq<Ref>, namespace: string, polls: nat)
    ensures var resolved := ResolveAll(env, w, refs, namespace).1;
      var after := DeleteRefs(env, w, client, refs, namespace, polls).0;
      DeletesOnly(w, after, if resolved.Ok? then resolved.value else []) && CreatesNothing(w, after)
  {
    ResolveAllOnlyLists(env, w, refs, namespace);
    var resolved := ResolveAll(env, w, refs, namespace);
    if resolved.1.Ok? {
      DeleteAllOnlyTargets(env, resolved.0, client, resolved.1.value);
      var deleted := DeleteAll(env, resolved.0, client, resolved.1.value);
      if deleted.1.None? { PollOnlyReads(env, deleted.0, client, resolved.1.value, polls); }
    }
  }
}
