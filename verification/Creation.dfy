/** Specification of Step.Create: which clean-ups applying a list of objects registers. */
module Creation {
  import opened Json
  import opened Outcomes
  import opened Errors
  import opened Objects
  import opened Cluster
  import opened Loading
  import opened Checks
  import opened Testing
  import Apply
  import opened ApplyErrors
  import ApplySafety

  /** Outcome of CreateOrUpdate for one object, and the world it leaves. */
  datatype Applied = Applied(updated: bool, err: Option<Error>, world: World)

  /** CreateOrUpdate as seen by Step.Create: the outcome for the i-th object of the list, in a given world. */
  type Applier = (nat, World, Fields) -> Applied

  datatype Created = Created(world: World, objects: seq<Object>, errs: seq<Error>, cleanups: seq<Cleanup>)

  /** Applying the i-th object after the ones before it. */
  function CreateNext(a: Access, c: Created, i: nat, o: Object, namespace: string, apply: Applier,
                      skipDelete: bool): (r: Created)
    ensures |r.objects| == |c.objects| + 1
  {
    match Namespaced(a.env.disc, o.content, namespace)
    case Err(e) => c.(objects := c.objects + [o], errs := c.errs + [e])
    case Ok(r) =>
      var applied := apply(i, c.world, r.content);
      Created(applied.world,
              c.objects + [o.(content := r.content)],
              c.errs + (if applied.err.Some? then [Wrapped(applied.err.value)] else []),
              c.cleanups + if applied.err.None? && !applied.updated && !skipDelete
                           then [DeleteObject(a.client, KeyOf(r.content))] else [])
  }

  function CreateAll(a: Access, w: World, os: seq<Object>, namespace: string, apply: Applier,
                     skipDelete: bool): (c: Created)
    ensures |c.objects| == |os|
  {
    if os == [] then Created(w, [], [], [])
    else
      var n := |os| - 1;
      CreateNext(a, CreateAll(a, w, os[..n], namespace, apply, skipDelete), n, os[n], namespace, apply, skipDelete)
  }

  /** Step.Create: nothing is applied when a client cannot be had. */
  function CreatePhase(a: Access, w: World, os: seq<Object>, namespace: string, apply: Applier,
                       skipDelete: bool): Created
  {
    if a.clientErr.Some? then Created(w, os, [a.clientErr.value], [])
    else if a.discoveryErr.Some? then Created(w, os, [a.discoveryErr.value], [])
    else CreateAll(a, w, os, namespace, apply, skipDelete)
  }

  lemma CreateAllNext(a: Access, w: World, os: seq<Object>, i: nat, namespace: string, apply: Applier, skipDelete: bool)
    requires i < |os|
    ensures CreateAll(a, w, os[..i + 1], namespace, apply, skipDelete) ==
            CreateNext(a, CreateAll(a, w, os[..i], namespace, apply, skipDelete), i, os[i], namespace, apply,
              skipDelete)
  {
    assert os[..i + 1][..i] == os[..i];
  }

  // ----- which clean-ups are registered -----

  /** The i-th object as it was submitted, and the outcome of submitting it. */
  function Submitted(a: Access, os: seq<Object>, namespace: string, i: nat): Option<Fields>
    requires i < |os|
  {
    match Namespaced(a.env.disc, os[i].content, namespace)
    case Err(_) => None
    case Ok(r) => Some(r.content)
  }

  function OutcomeAt(a: Access, w: World, os: seq<Object>, namespace: string, apply: Applier, i: nat): Option<Applied>
    requires i < |os|
  {
    match Submitted(a, os, namespace, i)
    case None => None
    case Some(o) => Some(apply(i, CreateAll(a, w, os[..i], namespace, apply, false).world, o))
  }

  /** The call for the i-th object reports that it has created it. */
  predicate ReportsCreation(a: Access, w: World, os: seq<Object>, namespace: string, apply: Applier, i: nat)
    requires i < |os|
  {
    var outcome := OutcomeAt(a, w, os, namespace, apply, i);
    outcome.Some? && outcome.value.err.None? && !outcome.value.updated
  }

  function CleanupFor(a: Access, os: seq<Object>, namespace: string, i: nat): Cleanup
    requires i < |os| && Submitted(a, os, namespace, i).Some?
  {
    DeleteObject(a.client, KeyOf(Submitted(a, os, namespace, i).value))
  }

  lemma {:induction false} SkipDeleteSameWorld(a: Access, w: World, os: seq<Object>, namespace: string, apply: Applier,
                                               skipDelete: bool)
    ensures CreateAll(a, w, os, namespace, apply, skipDelete).world ==
      CreateAll(a, w, os, namespace, apply, false).world
  {
    if os == [] {
    } else {
      SkipDeleteSameWorld(a, w, os[..|os| - 1], namespace, apply, skipDelete);
    }
  }

  /** The clean-ups are those for the objects at the given places: exactly the created ones of the first `n`, in
      order. */
  ghost predicate Registers(a: Access, w: World, os: seq<Object>, namespace: string, apply: Applier, n: nat,
                            cleanups: seq<Cleanup>, at: seq<nat>)
    requires n <= |os|
  {
    && |at| == |cleanups|
    && (forall j :: 0 <= j < |at| ==> at[j] < n && ReportsCreation(a, w, os, namespace, apply, at[j]))
    && (forall j :: 0 <= j < |at| ==> cleanups[j] == CleanupFor(a, os, namespace, at[j]))
    && (forall j, k :: 0 <= j < k < |at| ==> at[j] < at[k])
    && (forall i: nat :: i < n && ReportsCreation(a, w, os, namespace, apply, i) ==> i in at)
  }

  lemma {:induction false} CleanupsUpTo(a: Access, w: World, os: seq<Object>, namespace: string, apply: Applier, n: nat)
      returns (at: seq<nat>)
    requires n <= |os|
    ensures Registers(a, w, os, namespace, apply, n, CreateAll(a, w, os[..n], namespace, apply, false).cleanups, at)
  {
    if n == 0 {
      at := [];
    } else {
      at := CleanupsUpTo(a, w, os, namespace, apply, n - 1);
      at := RegistersNext(a, w, os, namespace, apply, n - 1, at);
    }
  }

  lemma RegistersNext(a: Access, w: World, os: seq<Object>, namespace: string, apply: Applier, n: nat, front: seq<nat>)
      returns (at: seq<nat>)
    requires n < |os|
    requires Registers(a, w, os, namespace, apply, n, CreateAll(a, w, os[..n], namespace, apply, false).cleanups, front)
    ensures Registers(a, w, os, namespace, apply, n + 1,
                      CreateAll(a, w, os[..n + 1], namespace, apply, false).cleanups, at)
  {
    var before := CreateAll(a, w, os[..n], namespace, apply, false).cleanups;
    CleanupsNext(a, w, os, namespace, apply, n);
    if ReportsCreation(a, w, os, namespace, apply, n) {
      RegistersOneMore(a, w, os, namespace, apply, n, before, front);
      at := front + [n];
    } else {
      RegistersNoMore(a, w, os, namespace, apply, n, before, front);
      at := front;
    }
  }

  lemma CleanupsNext(a: Access, w: World, os: seq<Object>, namespace: string, apply: Applier, n: nat)
    requires n < |os|
    ensures CreateAll(a, w, os[..n + 1], namespace, apply, false).cleanups ==
            CreateAll(a, w, os[..n], namespace, apply, false).cleanups
            + if ReportsCreation(a, w, os, namespace, apply, n) then [CleanupFor(a, os, namespace, n)] else []
  {
    CreateAllNext(a, w, os, n, namespace, apply, false);
  }

  lemma RegistersOneMore(a: Access, w: World, os: seq<Object>, namespace: string, apply: Applier, n: nat,
                         cleanups: seq<Cleanup>, at: seq<nat>)
    requires n < |os| && Registers(a, w, os, namespace, apply, n, cleanups, at)
    requires ReportsCreation(a, w, os, namespace, apply, n)
    ensures Registers(a, w, os, namespace, apply, n + 1, cleanups + [CleanupFor(a, os, namespace, n)], at + [n])
  {
    var more, all := at + [n], cleanups + [CleanupFor(a, os, namespace, n)];
    forall j | 0 <= j < |more| ensures more[j] < n + 1 && ReportsCreation(a, w, os, namespace, apply, more[j])
      && all[j] == CleanupFor(a, os, namespace, more[j])
    {
      if j < |at| { assert more[j] == at[j] && all[j] == cleanups[j]; }
    }
    forall i: nat | i < n + 1 && ReportsCreation(a, w, os, namespace, apply, i) ensures i in more {
      if i < n { assert i in at; }
    }
  }

  lemma RegistersNoMore(a: Access, w: World, os: seq<Object>, namespace: string, apply: Applier, n: nat,
                        cleanups: seq<Cleanup>, at: seq<nat>)
    requires n < |os| && Registers(a, w, os, namespace, apply, n, cleanups, at)
    requires !ReportsCreation(a, w, os, namespace, apply, n)
    ensures Registers(a, w, os, namespace, apply, n + 1, cleanups, at)
  {
  }

  /** Clean-ups are registered for exactly the reported creations, in the order of the list. */
  lemma CleanupsAreForCreations(a: Access, w: World, os: seq<Object>, namespace: string, apply: Applier)
    returns (at: seq<nat>)
    ensures Registers(a, w, os, namespace, apply, |os|, CreateAll(a, w, os, namespace, apply, false).cleanups, at)
  {
    at := CleanupsUpTo(a, w, os, namespace, apply, |os|);
    assert os[..|os|] == os;
  }

  lemma {:induction false} NoCleanupsWhenSkipped(a: Access, w: World, os: seq<Object>, namespace: string,
                                                 apply: Applier)
    ensures CreateAll(a, w, os, namespace, apply, true).cleanups == []
  {
    if os == [] {
    } else {
      NoCleanupsWhenSkipped(a, w, os[..|os| - 1], namespace, apply);
    }
  }

  // ----- clean-ups and what was created -----

  /** The i-th object was submitted, and its outcome is that of a schedule of CreateOrUpdate, from the store that the
      objects before it left; the schedule may go on after the call has returned. */
  ghost predicate RanAs(a: Access, w: World, os: seq<Object>, namespace: string, apply: Applier, deadline: bool, i: nat,
                        run: seq<Apply.State>)
    requires i < |os|
  {
    var o, outcome := Submitted(a, os, namespace, i), OutcomeAt(a, w, os, namespace, apply, i);
    && o.Some? && IsRunOf(Apply.Args(o.value, true), deadline, run)
    && run[0].store == CreateAll(a, w, os[..i], namespace, apply, false).world.store
    && run[|run| - 1].store == outcome.value.world.store
    && run[|run| - 1].result == Some((outcome.value.updated, outcome.value.err))
  }

  /** Every object that was submitted went through such a schedule. */
  ghost predicate AllRan(a: Access, w: World, os: seq<Object>, namespace: string, apply: Applier, deadline: bool,
                      runs: seq<seq<Apply.State>>)
  {
    |runs| == |os| && forall i: nat :: i < |os| && Submitted(a, os, namespace, i).Some? ==>
      RanAs(a, w, os, namespace, apply, deadline, i, runs[i])
  }

  /** The call created an object that was not there. */
  predicate Creates(run: seq<Apply.State>)
    requires run != []
  {
    var writes := run[|run| - 1].writes;
    |writes| == 1 && writes[0].before.None?
  }

  ghost predicate CreatedAt(a: Access, os: seq<Object>, namespace: string, runs: seq<seq<Apply.State>>, i: nat)
  {
    i < |os| && i < |runs| && Submitted(a, os, namespace, i).Some? && runs[i] != [] && Creates(runs[i])
  }

  /** A clean-up is registered only for a key this run found absent and created, never for an object it patched. */
  lemma CleanupMeansCreated(a: Access, w: World, os: seq<Object>, namespace: string, apply: Applier, deadline: bool,
                            runs: seq<seq<Apply.State>>, c: Cleanup) returns (i: nat)
    requires AllRan(a, w, os, namespace, apply, deadline, runs)
    requires c in CreateAll(a, w, os, namespace, apply, false).cleanups
    ensures CreatedAt(a, os, namespace, runs, i) && c == CleanupFor(a, os, namespace, i)
  {
    var at := CleanupsAreForCreations(a, w, os, namespace, apply);
    var j: nat :| j < |at| && CreateAll(a, w, os, namespace, apply, false).cleanups[j] == c;
    i := at[j];
    assert RanAs(a, w, os, namespace, apply, deadline, i, runs[i]);
    ApplySafety.NilErrorMeansOneWrite(Apply.Args(Submitted(a, os, namespace, i).value, true), runs[i], |runs[i]| - 1);
  }

  /** Where the context had not ended, the converse holds too: whatever was created is cleaned up. */
  lemma CreatedMeansCleanup(a: Access, w: World, os: seq<Object>, namespace: string, apply: Applier, deadline: bool,
                            runs: seq<seq<Apply.State>>, i: nat)
    requires AllRan(a, w, os, namespace, apply, deadline, runs)
    requires CreatedAt(a, os, namespace, runs, i) && runs[i][|runs[i]| - 1].ctx.None?
    ensures CleanupFor(a, os, namespace, i) in CreateAll(a, w, os, namespace, apply, false).cleanups
  {
    assert RanAs(a, w, os, namespace, apply, deadline, i, runs[i]);
    var args := Apply.Args(Submitted(a, os, namespace, i).value, true);
    ErrorWithoutExpiryMeansNoWrite(args, runs[i], |runs[i]| - 1);
    ApplySafety.NilErrorMeansOneWrite(args, runs[i], |runs[i]| - 1);
    assert ReportsCreation(a, w, os, namespace, apply, i);
    var at := CleanupsAreForCreations(a, w, os, namespace, apply);
    var j: nat :| j < |at| && at[j] == i;
    assert CreateAll(a, w, os, namespace, apply, false).cleanups[j] == CleanupFor(a, os, namespace, i);
  }

  // ----- exactly when every created object is cleaned up -----

  /** The registered clean-ups are those of the created objects, no more and no less. */
  ghost predicate CleansUp(a: Access, w: World, os: seq<Object>, namespace: string, apply: Applier,
                           runs: seq<seq<Apply.State>>)
  {
    forall c :: c in CreateAll(a, w, os, namespace, apply, false).cleanups <==>
      exists i: nat :: CreatedAt(a, os, namespace, runs, i) && c == CleanupFor(a, os, namespace, i)
  }

  ghost predicate AlwaysCleansUp(a: Access, w: World, os: seq<Object>, namespace: string, deadline: bool)
  {
    forall apply: Applier, runs: seq<seq<Apply.State>> :: AllRan(a, w, os, namespace, apply, deadline, runs) ==>
      CleansUp(a, w, os, namespace, apply, runs)
  }

  /** Some object that is submitted can be created: it has a name and names no resource version. */
  ghost predicate SomeCreatable(a: Access, os: seq<Object>, namespace: string)
  {
    exists i: nat :: i < |os| && CreatableAt(a, os, namespace, i)
  }

  predicate Creatable(o: Fields) { NameOf(o) != "" && Apply.MayBeCreated(o) }

  predicate CreatableAt(a: Access, os: seq<Object>, namespace: string, i: nat)
    requires i < |os|
  {
    Submitted(a, os, namespace, i).Some? && Creatable(Submitted(a, os, namespace, i).value)
  }

  /** Every created object is cleaned up if and only if calls have no deadline or no object can be created: the deadline
      alone can leave an object behind. */
  lemma AlwaysCleansUpExactly(a: Access, w: World, os: seq<Object>, namespace: string, deadline: bool)
    requires AllKept(a, os, namespace, w.store)
    ensures AlwaysCleansUp(a, w, os, namespace, deadline) <==> !deadline || !SomeCreatable(a, os, namespace)
  {
    if deadline && SomeCreatable(a, os, namespace) {
      var apply, runs := Leak(a, w, os, namespace);
      var i: nat :| i < |os| && CreatableAt(a, os, namespace, i);
      assert CleanupFor(a, os, namespace, i) !in CreateAll(a, w, os, namespace, apply, false).cleanups;
    } else {
      forall apply: Applier, runs: seq<seq<Apply.State>> | AllRan(a, w, os, namespace, apply, deadline, runs)
        ensures CleansUp(a, w, os, namespace, apply, runs)
      {
        CleansUpAll(a, w, os, namespace, apply, deadline, runs);
      }
    }
  }

  lemma CleansUpAll(a: Access, w: World, os: seq<Object>, namespace: string, apply: Applier, deadline: bool,
                    runs: seq<seq<Apply.State>>)
    requires AllRan(a, w, os, namespace, apply, deadline, runs) && (!deadline || !SomeCreatable(a, os, namespace))
    ensures CleansUp(a, w, os, namespace, apply, runs)
  {
    forall c | c in CreateAll(a, w, os, namespace, apply, false).cleanups
      ensures exists i: nat :: CreatedAt(a, os, namespace, runs, i) && c == CleanupFor(a, os, namespace, i)
    {
      var i := CleanupMeansCreated(a, w, os, namespace, apply, deadline, runs, c);
    }
    forall i: nat | CreatedAt(a, os, namespace, runs, i)
      ensures CleanupFor(a, os, namespace, i) in CreateAll(a, w, os, namespace, apply, false).cleanups
    {
      assert RanAs(a, w, os, namespace, apply, deadline, i, runs[i]);
      if !deadline {
        CreatedMeansCleanup(a, w, os, namespace, apply, deadline, runs, i);
      } else {
        CreatedIsCreatable(Apply.Args(Submitted(a, os, namespace, i).value, true), runs[i], |runs[i]| - 1);
        assert CreatableAt(a, os, namespace, i);
      }
    }
  }

  /** What is stored under the keys of the submitted objects is under its own key and has a version. */
  ghost predicate AllKept(a: Access, os: seq<Object>, namespace: string, store: Store)
  {
    forall i: nat :: i < |os| && Submitted(a, os, namespace, i).Some? ==>
      Apply.KeptAt(KeyOf(Submitted(a, os, namespace, i).value), store)
  }

  /** Every call fails: those for objects that can be created because success came too late, the others without any
      answer. */
  function TooLate(w: World, o: Fields): Applied
  {
    if Creatable(o) then Applied(false, Some(LateSuccess), w.(store := w.store[KeyOf(o) := Plainly(o, w.store)]))
    else Applied(false, Some(Wrapped(ContextDone(true))), w)
  }

  ghost predicate IsLate(w: World, o: Fields, run: seq<Apply.State>)
  {
    && Apply.IsRun(Apply.Args(o, true), run) && run[0].store == w.store
    && run[|run| - 1].store == TooLate(w, o).world.store
    && run[|run| - 1].result == Some((false, TooLate(w, o).err))
    && (Creatable(o) ==> Creates(run))
  }

  lemma LateRun(w: World, o: Fields) returns (run: seq<Apply.State>)
    requires Apply.KeptAt(KeyOf(o), w.store)
    ensures IsLate(w, o, run)
  {
    var args := Apply.Args(o, true);
    if Creatable(o) {
      NamedIsStorable(o, w.store);
      run := ApplySafety.LateSuccessIsReportedAsFailure(args, w.store, Plainly(o, w.store));
    } else {
      run := NeverAnswered(args, w.store);
    }
  }

  function AllLate(): Applier { (i, w, o) => TooLate(w, o) }

  /** The world after the first `n` objects. */
  function LateWorld(a: Access, w: World, os: seq<Object>, namespace: string, n: nat): World
    requires n <= |os|
  {
    CreateAll(a, w, os[..n], namespace, AllLate(), false).world
  }

  lemma LateWorldNext(a: Access, w: World, os: seq<Object>, namespace: string, n: nat)
    requires n < |os|
    ensures var before, o := LateWorld(a, w, os, namespace, n), Submitted(a, os, namespace, n);
      LateWorld(a, w, os, namespace, n + 1) == if o.Some? then TooLate(before, o.value).world else before
  {
    CreateAllNext(a, w, os, n, namespace, AllLate(), false);
  }

  lemma TooLateKeeps(a: Access, w: World, os: seq<Object>, namespace: string, o: Fields)
    requires AllKept(a, os, namespace, w.store)
    ensures AllKept(a, os, namespace, TooLate(w, o).world.store)
  {
    if Creatable(o) { NamedIsStorable(o, w.store); }
  }

  /** Such calls leave the store as a server keeps it. */
  lemma {:induction false} LateKeeps(a: Access, w: World, os: seq<Object>, namespace: string, n: nat)
    requires n <= |os| && AllKept(a, os, namespace, w.store)
    ensures AllKept(a, os, namespace, LateWorld(a, w, os, namespace, n).store)
  {
    if n == 0 {
      assert os[..0] == [];
    } else {
      LateKeeps(a, w, os, namespace, n - 1);
      LateWorldNext(a, w, os, namespace, n - 1);
      var o := Submitted(a, os, namespace, n - 1);
      if o.Some? { TooLateKeeps(a, LateWorld(a, w, os, namespace, n - 1), os, namespace, o.value); }
    }
  }

  ghost predicate LateAt(a: Access, w: World, os: seq<Object>, namespace: string, i: nat, run: seq<Apply.State>)
    requires i < |os|
  {
    var o := Submitted(a, os, namespace, i);
    o.Some? ==> IsLate(LateWorld(a, w, os, namespace, i), o.value, run)
  }

  lemma LateOne(a: Access, w: World, os: seq<Object>, namespace: string, i: nat) returns (run: seq<Apply.State>)
    requires i < |os| && AllKept(a, os, namespace, w.store)
    ensures LateAt(a, w, os, namespace, i, run)
  {
    LateKeeps(a, w, os, namespace, i);
    run := [];
    var o := Submitted(a, os, namespace, i);
    if o.Some? { run := LateRun(LateWorld(a, w, os, namespace, i), o.value); }
  }

  lemma {:induction false} LateRuns(a: Access, w: World, os: seq<Object>, namespace: string, n: nat)
    returns (runs: seq<seq<Apply.State>>)
    requires n <= |os| && AllKept(a, os, namespace, w.store)
    ensures |runs| == n && forall i: nat :: i < n ==> LateAt(a, w, os, namespace, i, runs[i])
  {
    if n == 0 {
      runs := [];
    } else {
      runs := LateRuns(a, w, os, namespace, n - 1);
      var run := LateOne(a, w, os, namespace, n - 1);
      runs := runs + [run];
    }
  }

  /** With a deadline, every object of a list that can be created may be created, and none is cleaned up. */
  lemma Leak(a: Access, w: World, os: seq<Object>, namespace: string)
    returns (apply: Applier, runs: seq<seq<Apply.State>>)
    requires AllKept(a, os, namespace, w.store)
    ensures AllRan(a, w, os, namespace, apply, true, runs)
    ensures forall c :: c !in CreateAll(a, w, os, namespace, apply, false).cleanups
    ensures forall i: nat :: i < |os| && CreatableAt(a, os, namespace, i) ==> CreatedAt(a, os, namespace, runs, i)
  {
    apply := AllLate();
    runs := LateRuns(a, w, os, namespace, |os|);
    var at := CleanupsAreForCreations(a, w, os, namespace, apply);
    forall i: nat | i < |os|
      ensures !ReportsCreation(a, w, os, namespace, apply, i)
      ensures Submitted(a, os, namespace, i).Some? ==> RanAs(a, w, os, namespace, apply, true, i, runs[i])
      ensures CreatableAt(a, os, namespace, i) ==> CreatedAt(a, os, namespace, runs, i)
    {
      assert LateAt(a, w, os, namespace, i, runs[i]);
    }
  }
}
