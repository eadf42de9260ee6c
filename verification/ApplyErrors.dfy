/** What an error of CreateOrUpdate says about the server: nothing was written, unless the call had a deadline. */
module ApplyErrors {
  import opened Json
  import opened Outcomes
  import opened Errors
  import opened Objects
  import opened Cluster
  import opened Subset
  import opened Apply
  import opened ApplySafety
  import MergePatch
  import Retry

  /** The call has returned an error. */
  predicate Failed(s: State) { s.result.Some? && s.result.value.1.Some? }

  // ----- without a deadline -----

  /** Until the context ends, a call that returned has no attempt left, and reports what its loop returned. */
  ghost predicate Settled(s: State)
  {
    s.ctx.None? ==>
      && (s.loop.Returned? ==> forall i :: 0 <= i < |s.threads| ==> s.threads[i].Ended?)
      && (s.result.Some? ==> s.loop.Returned? && s.result.value.1 == s.loop.result)
  }

  lemma StepKeepsSettled(args: Args, s: State, step: Step)
    requires Settled(s) && Tally(s) && AllButLastEnded(s) && Enabled(args, s, step)
    ensures Settled(After(args, s, step))
  {
  }

  /** As long as the context has not ended, an error means that nothing was written, in every schedule. */
  lemma ErrorWithoutExpiryMeansNoWrite(args: Args, run: seq<State>, n: nat)
    requires IsRun(args, run) && n < |run| && run[n].ctx.None?
    ensures Failed(run[n]) ==> run[n].writes == []
  {
    ReachableOk(args, run, n);
    ReachableSettled(args, run, n);
  }

  lemma {:induction false} ReachableSettled(args: Args, run: seq<State>, n: nat)
    requires IsRun(args, run) && n < |run|
    ensures Settled(run[n])
  {
    if n == 0 {
      assert Init(args, run[0]);
    } else {
      ReachableSettled(args, run, n - 1);
      ReachableOk(args, run, n - 1);
      assert Next(args, run[n - 1], run[n - 1 + 1]);
      var step :| Enabled(args, run[n - 1], step) && run[n] == After(args, run[n - 1], step);
      var abs := RunRefinesRetry(args, run);
      Retry.RetryIsSafe(Validators(args), false, abs, n - 1);
      OutstandingThreads(run[n - 1]);
      StepKeepsSettled(args, run[n - 1], step);
    }
  }

  // ----- without a name -----

  /** No attempt knows whether the object is there, and none has written. */
  predicate Clueless(s: State)
  {
    s.writes == [] && forall i :: 0 <= i < |s.threads| ==> !s.threads[i].Found? && !s.threads[i].Missing?
  }

  lemma StepKeepsClueless(args: Args, s: State, step: Step)
    requires Clueless(s) && NameOf(args.orig) == "" && Enabled(args, s, step)
    ensures Clueless(After(args, s, step))
  {
    assert !step.GetOk? && !step.GetNotFound? && !step.PatchOk? && !step.CreateOk?;
  }

  /** The server refuses to look up an object without a name, so no attempt gets as far as a write. */
  lemma {:induction false} NamelessWritesNothing(args: Args, run: seq<State>, n: nat)
    requires IsRun(args, run) && n < |run| && NameOf(args.orig) == ""
    ensures Clueless(run[n])
  {
    if n == 0 {
      assert Init(args, run[0]);
    } else {
      NamelessWritesNothing(args, run, n - 1);
      assert Next(args, run[n - 1], run[n - 1 + 1]);
      var step :| Enabled(args, run[n - 1], step) && run[n] == After(args, run[n - 1], step);
      StepKeepsClueless(args, run[n - 1], step);
    }
  }

  /** A call creates its object only if that has a name and names no resource version. */
  lemma CreatedIsCreatable(args: Args, run: seq<State>, n: nat)
    requires IsRun(args, run) && n < |run| && |run[n].writes| == 1 && run[n].writes[0].before.None?
    ensures NameOf(args.orig) != "" && MayBeCreated(args.orig)
  {
    if NameOf(args.orig) == "" { NamelessWritesNothing(args, run, n); }
    ReachableOk(args, run, n);
    assert WriteOk(args, run[n].writes[0]);
  }

  // ----- exactly when an error means that nothing was written -----

  /** A schedule of a call; one without a deadline runs under a context that never ends. */
  ghost predicate IsRunOf(args: Args, deadline: bool, run: seq<State>)
  {
    IsRun(args, run) && (deadline || forall i :: 0 <= i < |run| ==> run[i].ctx.None?)
  }

  ghost predicate ErrorMeansNoWrite(args: Args, deadline: bool)
  {
    forall run: seq<State> :: IsRunOf(args, deadline, run) && Failed(run[|run| - 1]) ==> run[|run| - 1].writes == []
  }

  /** What a server may store for an object, whatever was in the store when the call began: a new version of it. */
  function Plainly(o: Fields, store: Store): Fields
  {
    WithMeta(o, "resourceVersion", if KeyOf(o) in store && VersionOf(store[KeyOf(o)]) == "1" then "2" else "1")
  }

  lemma NamedIsStorable(o: Fields, store: Store)
    requires NameOf(o) != ""
    ensures Stores(KeyOf(o), o, Plainly(o, store), Record(KeyOf(o), map[], store))
  {
    Reflexive(Obj(Plainly(o, store)));
  }

  lemma SelfMergeKeepsString(f: Fields, k: string)
    ensures StringAt(MergePatch.Merge(Obj(f), Obj(f)).fields, k) == StringAt(f, k)
  {
    var merged := MergePatch.Merge(Obj(f), Obj(f)).fields;
    if k in f && !f[k].Null? { assert merged[k] == MergePatch.Merge(f[k], f[k]); }
  }

  /** Merging an object with itself keeps the key it is stored under. */
  lemma SelfPatchKeepsKey(x: Fields)
    requires NameOf(x) != ""
    ensures KeyOf(Patched(x, x)) == KeyOf(x) && NameOf(Patched(x, x)) != ""
  {
    SelfMergeKeepsString(x, "apiVersion");
    SelfMergeKeepsString(x, "kind");
    assert Patched(x, x)["metadata"] == MergePatch.Merge(x["metadata"], x["metadata"]);
    SelfMergeKeepsString(Metadata(x), "name");
    SelfMergeKeepsString(Metadata(x), "namespace");
  }

  /** Other writers create the object, and the first attempt finds it. */
  lemma FirstAttemptFinds(args: Args, current: Fields) returns (run: seq<State>)
    requires NameOf(args.orig) != "" && KeyOf(current) == KeyOf(args.orig) && VersionOf(current) != ""
    ensures IsRun(args, run)
    ensures run[|run| - 1] == Starting(args, map[]).(store := map[KeyOf(args.orig) := current],
      seen := map[VersionOf(current) := current], threads := [Found(current)], loop := Retry.Waiting,
      history := [Retry.Started(0)], updated := true)
  {
    run := [Starting(args, map[])];
    run := Extend(args, run, OtherWriters(map[KeyOf(args.orig) := current]));
    run := Extend(args, run, Launch);
    run := Extend(args, run, GetOk(0));
  }

  lemma FirstAttemptUpdates(args: Args, current: Fields, stored: Fields) returns (run: seq<State>)
    requires NameOf(args.orig) != "" && KeyOf(current) == KeyOf(args.orig) && VersionOf(current) != ""
    requires VersionMatches(current, Expected(args.orig, current))
    requires Stores(KeyOf(args.orig), Patched(current, Expected(args.orig, current)), stored,
                    map[VersionOf(current) := current])
    ensures IsRun(args, run)
    ensures var s := run[|run| - 1];
      s.threads == [SendingDone] && s.loop.Waiting? && s.ctx.None? && s.result.None? && s.updated
      && |s.writes| == 1 && s.writes[0].read.Some?
  {
    run := FirstAttemptFinds(args, current);
    run := Extend(args, run, PatchOk(0, stored));
  }

  /** The object as it may be stored before and after its own update. */
  lemma OwnUpdate(o: Fields) returns (current: Fields, stored: Fields)
    requires NameOf(o) != ""
    ensures KeyOf(current) == KeyOf(o) && VersionOf(current) != "" && VersionMatches(current, Expected(o, current))
    ensures Stores(KeyOf(o), Patched(current, Expected(o, current)), stored, map[VersionOf(current) := current])
  {
    current := WithMeta(o, "resourceVersion", "1");
    assert Expected(o, current) == current;
    SelfPatchKeepsKey(current);
    PatchNamesVersion(o, current, current);
    stored := WithMeta(Patched(current, current), "resourceVersion", "2");
    Reflexive(Obj(stored));
  }

  /** An update that is noticed only after the deadline is reported as a failure, too. */
  lemma LateUpdateIsReportedAsFailure(args: Args) returns (run: seq<State>)
    requires NameOf(args.orig) != ""
    ensures IsRun(args, run)
    ensures var s := run[|run| - 1];
      s.result == Some((true, Some(LateSuccess))) && |s.writes| == 1 && s.writes[0].read.Some?
  {
    var current, stored := OwnUpdate(args.orig);
    run := FirstAttemptUpdates(args, current, stored);
    run := Extend(args, run, ReceiveDone(0));
    run := Extend(args, run, Expire(ContextDone(true)));
    run := Extend(args, run, Conclude);
  }

  /** An error means that nothing was written if and only if the call has no deadline or its object no name. */
  lemma ErrorMeansNoWriteExactly(args: Args, deadline: bool)
    ensures ErrorMeansNoWrite(args, deadline) <==> !deadline || NameOf(args.orig) == ""
  {
    if !deadline || NameOf(args.orig) == "" {
      forall run: seq<State> | IsRunOf(args, deadline, run) && Failed(run[|run| - 1])
        ensures run[|run| - 1].writes == []
      {
        if deadline {
          NamelessWritesNothing(args, run, |run| - 1);
        } else {
          ErrorWithoutExpiryMeansNoWrite(args, run, |run| - 1);
        }
      }
    } else {
      var run := LateUpdateIsReportedAsFailure(args);
      assert IsRunOf(args, deadline, run);
    }
  }

  /** The deadline passes while the call waits for its only attempt: the call returns, the attempt goes on. */
  lemma GivesUp(args: Args, run: seq<State>) returns (longer: seq<State>)
    requires IsRun(args, run)
    requires var s := run[|run| - 1]; s.loop.Waiting? && s.ctx.None? && s.result.None? && s.lastErr.None? && !s.updated
    ensures IsRun(args, longer) && longer[0] == run[0]
    ensures var s, t := run[|run| - 1], longer[|longer| - 1];
      t.threads == s.threads && t.store == s.store && t.seen == s.seen && t.writes == s.writes
      && t.result == Some((false, Some(Wrapped(ContextDone(true)))))
  {
    longer := Extend(args, run, Expire(ContextDone(true)));
    longer := Extend(args, longer, SelectCtx);
    longer := Extend(args, longer, Conclude);
  }

  /** A call whose only attempt gets no answer. */
  lemma NeverAnswered(args: Args, store: Store) returns (run: seq<State>)
    requires KeptAt(KeyOf(args.orig), store)
    ensures IsRun(args, run) && run[0].store == store == run[|run| - 1].store
    ensures run[|run| - 1].result == Some((false, Some(Wrapped(ContextDone(true)))))
  {
    run := [Starting(args, store)];
    run := Extend(args, run, Launch);
    run := GivesUp(args, run);
  }

  /** An abandoned attempt goes on: the object may be created after the call has returned its error. */
  lemma CreatedAfterReturn(args: Args, store: Store, stored: Fields) returns (run: seq<State>)
    requires NameOf(args.orig) != "" && MayBeCreated(args.orig) && KeptAt(KeyOf(args.orig), store)
    requires Stores(KeyOf(args.orig), args.orig, stored, Record(KeyOf(args.orig), map[], store))
    ensures IsRun(args, run) && |run| > 1 && run[0].store == store
    ensures var returned, later := run[|run| - 2], run[|run| - 1];
      && returned.result == later.result == Some((false, Some(Wrapped(ContextDone(true)))))
      && returned.writes == [] && KeyOf(args.orig) !in returned.store
      && |later.writes| == 1 && KeyOf(args.orig) in later.store && later.store[KeyOf(args.orig)] == stored
  {
    run := FirstAttemptFindsNothing(args, store);
    var abandoned := GivesUp(args, run);
    run := Extend(args, abandoned, CreateOk(0, stored));
    assert run[|abandoned| - 1] == run[..|abandoned|][|abandoned| - 1];
  }
}
