/** What becomes of the objects that steps created: when all clean-ups succeed they are gone, or about to be. */
module ObjectsGone {
  import opened Outcomes
  import opened Errors
  import opened Objects
  import opened Cluster
  import opened Testing
  import opened Creation
  import opened StepRuns
  import opened ApplyFrame
  import opened StepFrame
  import opened CaseRun
  import opened StepInCase

  // ----- clean-ups -----

  /** The object at `key` is gone, or its deletion has been accepted. */
  predicate GoneOrEnding(w: World, key: Key) { key in w.store ==> key in w.terminating }

  lemma CallsKeepGone(env: Env, w: World, client: nat, target: Key, key: Key)
    requires NeverCreated(env, key) && GoneOrEnding(w, key)
    ensures GoneOrEnding(DoGet(env, w, client, target).0, key)
    ensures GoneOrEnding(DoDelete(env, w, client, target).0, key)
  {
  }

  lemma {:induction false} PollKeepsGone(cs: CaseSpec, ws: Worlds, c: nat, polls: nat, k: nat, key: Key)
    requires NeverCreated(cs.fleet.envs(k), key) && GoneOrEnding(ws(k), key)
    ensures GoneOrEnding(PollGone(cs, ws, c, polls).0(k), key)
  {
    if k == cs.fleet.clusterOf(c) { CallsKeepGone(cs.fleet.envs(k), ws(k), c, NsKey(cs), key); }
    if polls == 0 {
    } else {
      PollKeepsGone(cs, CallGet(cs.fleet, ws, c, NsKey(cs)).0, c, polls - 1, k, key);
    }
  }

  lemma CleanUpKeepsGone(cs: CaseSpec, ws: Worlds, cleanup: Cleanup, k: nat, key: Key)
    requires NeverCreated(cs.fleet.envs(k), key) && GoneOrEnding(ws(k), key)
    ensures GoneOrEnding(CleanUp(cs, ws, cleanup).0(k), key)
  {
    var c := cleanup.client;
    var target := if cleanup.DeleteObject? then cleanup.key else NsKey(cs);
    if k == cs.fleet.clusterOf(c) { CallsKeepGone(cs.fleet.envs(k), ws(k), c, target, key); }
    if Effective(cs, cleanup) { PollKeepsGone(cs, CallDelete(cs.fleet, ws, c, target).0, c, cs.polls, k, key); }
  }

  lemma {:induction false} CleanUpAllKeepsGone(cs: CaseSpec, ws: Worlds, cleanups: seq<Cleanup>, k: nat, key: Key)
    requires NeverCreated(cs.fleet.envs(k), key) && GoneOrEnding(ws(k), key)
    ensures GoneOrEnding(CleanUpAll(cs, ws, cleanups).0(k), key)
    decreases |cleanups|
  {
    if cleanups == [] {
    } else {
      var n := |cleanups| - 1;
      CleanUpKeepsGone(cs, ws, cleanups[n], k, key);
      CleanUpAllKeepsGone(cs, CleanUp(cs, ws, cleanups[n]).0, cleanups[..n], k, key);
    }
  }

  /** Where a clean-up's key leads to, in the cluster of its client. */
  function AddressOf(cs: CaseSpec, cleanup: Cleanup): Result<Key, Error>
    requires cleanup.DeleteObject?
  {
    Address(cs.fleet.envs(cs.fleet.clusterOf(cleanup.client)).disc, cleanup.key)
  }

  /** Nobody else creates the object of a clean-up. */
  ghost predicate OwnObject(cs: CaseSpec, cleanup: Cleanup)
    requires cleanup.DeleteObject?
  {
    var at := AddressOf(cs, cleanup);
    at.Ok? ==> NeverCreated(cs.fleet.envs(cs.fleet.clusterOf(cleanup.client)), at.value)
  }

  ghost predicate ObjectGone(cs: CaseSpec, ws: Worlds, cleanup: Cleanup)
    requires cleanup.DeleteObject?
  {
    var at := AddressOf(cs, cleanup);
    at.Ok? && GoneOrEnding(ws(cs.fleet.clusterOf(cleanup.client)), at.value)
  }

  lemma CleanUpRemoves(cs: CaseSpec, ws: Worlds, cleanup: Cleanup)
    requires cleanup.DeleteObject? && !CleanUp(cs, ws, cleanup).1
    ensures ObjectGone(cs, CleanUp(cs, ws, cleanup).0, cleanup)
  {
  }

  /** When all clean-ups succeed, the object of each of them is gone or about to be, whatever ran after it. */
  lemma {:induction false} CleanUpAllRemoves(cs: CaseSpec, ws: Worlds, cleanups: seq<Cleanup>, cleanup: Cleanup)
    requires cleanup in cleanups && cleanup.DeleteObject? && OwnObject(cs, cleanup) && !CleanUpAll(cs, ws, cleanups).1
    ensures ObjectGone(cs, CleanUpAll(cs, ws, cleanups).0, cleanup)
    decreases |cleanups|
  {
    var n := |cleanups| - 1;
    var front, last, next := cleanups[..n], cleanups[n], CleanUp(cs, ws, cleanups[n]).0;
    if cleanup in front {
      CleanUpAllRemoves(cs, next, front, cleanup);
    } else {
      CleanUpRemoves(cs, ws, last);
      CleanUpAllKeepsGone(cs, next, front, cs.fleet.clusterOf(last.client), AddressOf(cs, last).value);
    }
  }

  // ----- created objects -----

  /** The step got as far as applying objects. */
  predicate ReachesApply(s: Script, w: World)
  {
    s.access.clientErr.None? && s.access.discoveryErr.None? && Deleted(s, w).1.None?
  }

  /** What a call created, while its context was alive, is cleaned up. */
  lemma CreatedHasCleanup(s: Script, w: World, schedules: seq<Schedule>, j: nat)
    requires AppliesBy(s, w, schedules) && ReachesApply(s, w) && !s.skipDelete
    requires CreatedAt(s.access, s.apply, s.namespace, Runs(schedules), j)
    requires var run := schedules[j].run; run[|run| - 1].ctx.None?
    ensures CleanupFor(s.access, s.apply, s.namespace, j) in Played(s, w).1
  {
    var before := Deleted(s, w).0;
    ScheduledRan(s.access, before, s.apply, s.namespace, s.applier, schedules);
    CreatedMeansCleanup(s.access, before, s.apply, s.namespace, s.applier, true, Runs(schedules), j);
  }

  lemma GoOnKeepsCleanups(cs: CaseSpec, q: Progress, i: nat)
    ensures q.cleanups <= GoOn(cs, q, i).cleanups
  {
  }

  lemma {:induction false} CleanupsStay(cs: CaseSpec, p: Progress, i: nat, n: nat)
    requires i <= n
    ensures RunUpTo(cs, p, i).cleanups <= RunUpTo(cs, p, n).cleanups
  {
    if i == n {
    } else {
      CleanupsStay(cs, p, i, n - 1);
      GoOnKeepsCleanups(cs, RunUpTo(cs, p, n - 1), n - 1);
    }
  }

  /** The run gets to the i-th step, and its lazy start succeeds. */
  predicate StepMet(cs: CaseSpec, p: Progress, i: nat)
    requires i < |cs.steps|
  {
    var q := RunUpTo(cs, p, i);
    !q.stopped && LazyStart(cs, q.worlds, cs.steps[i]).err.None?
  }

  function FoundBy(cs: CaseSpec, p: Progress, i: nat): Worlds
    requires i < |cs.steps|
  {
    LazyStart(cs, RunUpTo(cs, p, i).worlds, cs.steps[i]).worlds
  }

  function OutcomeOfStep(cs: CaseSpec, p: Progress, i: nat): StepOutcome
    requires i < |cs.steps|
  {
    cs.steps[i].run(FoundBy(cs, p, i))
  }

  lemma StepCleanupsRegistered(cs: CaseSpec, ws: Worlds, order: seq<string>, i: nat, cleanup: Cleanup)
    requires Orders(cs, order) && i < |cs.steps| && StepMet(cs, AfterSetup(cs, ws, order), i)
    requires cleanup in OutcomeOfStep(cs, AfterSetup(cs, ws, order), i).cleanups
    ensures cleanup in Ran(cs, ws, order).cleanups
  {
    var p := AfterSetup(cs, ws, order);
    var q := RunUpTo(cs, p, i);
    var next := RunUpTo(cs, p, i + 1);
    assert next == StepNext(cs, q, cs.steps[i], i + 1);
    assert cleanup in next.cleanups by {
      var start, o := LazyStart(cs, q.worlds, cs.steps[i]), OutcomeOfStep(cs, p, i);
      assert next.cleanups == q.cleanups + (start.cleanups + o.cleanups);
    }
    CleanupsStay(cs, p, i + 1, |cs.steps|);
    var j :| 0 <= j < |next.cleanups| && next.cleanups[j] == cleanup;
    assert Ran(cs, ws, order).cleanups[j] == cleanup;
  }

  /** An object that some call of some step created, while its context was alive, is gone or about to be when all clean-
      ups of the case have succeeded. */
  lemma CreatedObjectGone(cs: CaseSpec, ws: Worlds, order: seq<string>, i: nat, s: Script,
                          schedules: seq<Schedule>, j: nat)
    requires Orders(cs, order) && i < |cs.steps| && StepMet(cs, AfterSetup(cs, ws, order), i) && !cs.skipDelete
    requires var p := AfterSetup(cs, ws, order);
      ScheduledBy(cs, FoundBy(cs, p, i), OutcomeOfStep(cs, p, i), s, schedules)
    requires ReachesApply(s, FoundBy(cs, AfterSetup(cs, ws, order), i)(cs.fleet.clusterOf(s.access.client)))
    requires CreatedAt(s.access, s.apply, s.namespace, Runs(schedules), j)
    requires var run := schedules[j].run; run[|run| - 1].ctx.None?
    requires OwnObject(cs, CleanupFor(s.access, s.apply, s.namespace, j))
    requires var p := Ran(cs, ws, order); !CleanUpAll(cs, p.worlds, p.cleanups).1
    ensures var p := Ran(cs, ws, order);
      ObjectGone(cs, CleanUpAll(cs, p.worlds, p.cleanups).0, CleanupFor(s.access, s.apply, s.namespace, j))
  {
    var start, p := AfterSetup(cs, ws, order), Ran(cs, ws, order);
    var cleanup := CleanupFor(s.access, s.apply, s.namespace, j);
    CreatedHasCleanup(s, FoundBy(cs, start, i)(cs.fleet.clusterOf(s.access.client)), schedules, j);
    StepCleanupsRegistered(cs, ws, order, i, cleanup);
    CleanUpAllRemoves(cs, p.worlds, p.cleanups, cleanup);
  }
}
