/** Steps that neither delete nor apply the test's namespace leave it alone, and so do cases made of such steps. */
module StepInCase {
  import opened Objects
  import opened Cluster
  import opened Checks
  import opened Creation
  import opened StepFrame
  import opened StepRuns
  import opened ApplyFrame
  import opened CaseRun
  import opened CaseSafety
  import opened CaseLog
  import opened Testing
  import Deletion
  import Json

  // ----- one step -----

  /** What a step's references resolve to, in the world it finds. */
  function Targets(s: Script, w: World): seq<Key>
  {
    if s.step.None? then []
    else
      var resolved := Deletion.ResolveAll(s.access.env, w, s.step.value.delete, s.namespace).1;
      if resolved.Ok? then resolved.value else []
  }

  /** The step deletes no target and applies no object that is the test's namespace. */
  ghost predicate LeavesNamespace(cs: CaseSpec, s: Script, w: World)
  {
    && (forall t :: t in Targets(s, w) ==> !Touches(cs, t))
    && (forall i: nat :: i < |s.apply| && Submitted(s.access, s.apply, s.namespace, i).Some? ==>
          !Touches(cs, KeyOf(Submitted(s.access, s.apply, s.namespace, i).value)))
  }

  /** The step's objects are applied by schedules of CreateOrUpdate. */
  ghost predicate AppliesBy(s: Script, w: World, schedules: seq<Schedule>)
  {
    Scheduled(s.access, Deleted(s, w).0, s.apply, s.namespace, s.applier, schedules)
  }

  /** In those schedules other writers leave the namespace alone. */
  ghost predicate QuietSchedules(cs: CaseSpec, s: Script, w: World, schedules: seq<Schedule>)
  {
    AllLeave(schedules, NsKey(cs), Deleted(s, w).0.terminating)
  }

  lemma UntouchedIsElsewhere(cs: CaseSpec, disc: Discovery, key: Key)
    requires !Touches(cs, key)
    ensures key != NsKey(cs) && !Addresses(disc, key, NsKey(cs))
  {
  }

  lemma NoneSubmittedIsNamespace(cs: CaseSpec, s: Script, w: World)
    requires LeavesNamespace(cs, s, w)
    ensures NoneSubmitted(s.access, s.apply, s.namespace, NsKey(cs))
  {
    forall i: nat | i < |s.apply| && Submitted(s.access, s.apply, s.namespace, i).Some?
      ensures KeyOf(Submitted(s.access, s.apply, s.namespace, i).value) != NsKey(cs)
    {
      UntouchedIsElsewhere(cs, s.access.env.disc, KeyOf(Submitted(s.access, s.apply, s.namespace, i).value));
    }
  }

  lemma DeletedKeeps(cs: CaseSpec, s: Script, w: World)
    requires QuietAt(s.access.env, NsKey(cs)) && LeavesNamespace(cs, s, w)
    ensures KeptIn(NsKey(cs), w, Deleted(s, w).0)
  {
    if s.access.clientErr.None? && s.access.discoveryErr.None? && s.step.Some? {
      var env := s.access.env;
      forall t | t in Targets(s, w)
        ensures !Addresses(env.disc, t, NsKey(cs))
      {
        UntouchedIsElsewhere(cs, env.disc, t);
      }
      DeletionKeeps(env, w, s.access.client, s.step.value.delete, s.namespace, s.polls, NsKey(cs));
    }
  }

  lemma AppliedDeletesNothing(s: Script, w: World, schedules: seq<Schedule>)
    requires AppliesBy(s, w, schedules)
    ensures DeletesOnly(Deleted(s, w).0, AfterApply(s, w).world, [])
  {
    var before := Deleted(s, w).0;
    if s.access.clientErr.None? && s.access.discoveryErr.None? {
      CreationDeletesNothing(s.access, before, s.apply, s.namespace, s.applier, schedules, |s.apply|);
      assert s.apply[..|s.apply|] == s.apply;
      SkipDeleteSameWorld(s.access, before, s.apply, s.namespace, s.applier, s.skipDelete);
    }
  }

  lemma AppliedKeeps(cs: CaseSpec, s: Script, w: World, schedules: seq<Schedule>)
    requires AppliesBy(s, w, schedules) && LeavesNamespace(cs, s, w) && QuietSchedules(cs, s, w, schedules)
    ensures KeptIn(NsKey(cs), Deleted(s, w).0, AfterApply(s, w).world)
  {
    var before := Deleted(s, w).0;
    if s.access.clientErr.None? && s.access.discoveryErr.None? {
      NoneSubmittedIsNamespace(cs, s, w);
      CreationKeeps(s.access, before, s.apply, s.namespace, s.applier, schedules, |s.apply|, NsKey(cs));
      assert s.apply[..|s.apply|] == s.apply;
      SkipDeleteSameWorld(s.access, before, s.apply, s.namespace, s.applier, s.skipDelete);
    }
  }

  /** With quiet other writers the namespace neither appears nor goes during a run of the step. */
  lemma PlayedKeeps(cs: CaseSpec, s: Script, w: World, schedules: seq<Schedule>)
    requires QuietAt(s.access.env, NsKey(cs)) && QuietSchedules(cs, s, w, schedules)
    requires LeavesNamespace(cs, s, w) && AppliesBy(s, w, schedules)
    ensures KeptIn(NsKey(cs), w, Played(s, w).0)
  {
    DeletedKeeps(cs, s, w);
    AppliedKeeps(cs, s, w, schedules);
    var start := Round(AfterApply(s, w).world, s.asserts, s.errors, true, false);
    RoundsKeep(s.access, start, s.probes, s.namespace, s.rounds, NsKey(cs));
  }

  lemma DeletedTargets(s: Script, w: World)
    ensures DeletesOnly(w, Deleted(s, w).0, Targets(s, w))
  {
    if s.access.clientErr.None? && s.access.discoveryErr.None? && s.step.Some? {
      Deletion.DeletesOnlyTargets(s.access.env, w, s.access.client, s.step.value.delete, s.namespace, s.polls);
    }
  }

  lemma DeletesOnlyMore(u: World, v: World, w: World, targets: seq<Key>)
    requires DeletesOnly(u, v, targets) && DeletesOnly(v, w, [])
    ensures DeletesOnly(u, w, targets)
  {
  }

  /** Whatever others do, a run of the step deletes its targets only. */
  lemma PlayedDeletesTargets(s: Script, w: World, schedules: seq<Schedule>)
    requires AppliesBy(s, w, schedules)
    ensures DeletesOnly(w, Played(s, w).0, Targets(s, w))
  {
    DeletedTargets(s, w);
    AppliedDeletesNothing(s, w, schedules);
    var applied := AfterApply(s, w).world;
    RoundsOnlyRead(s.access, Round(applied, s.asserts, s.errors, true, false), s.probes, s.namespace, s.rounds);
    DeletesOnlyMore(w, Deleted(s, w).0, applied, Targets(s, w));
    DeletesOnlyMore(w, applied, Checked(s, applied), Targets(s, w));
  }

  /** The clean-ups a step registers are for objects it submitted. */
  lemma PlayedCleanups(s: Script, w: World, c: Cleanup) returns (i: nat)
    requires c in Played(s, w).1
    ensures i < |s.apply| && Submitted(s.access, s.apply, s.namespace, i).Some?
    ensures c == CleanupFor(s.access, s.apply, s.namespace, i)
  {
    var before := Deleted(s, w).0;
    if s.skipDelete { NoCleanupsWhenSkipped(s.access, before, s.apply, s.namespace, s.applier); }
    var at := CleanupsAreForCreations(s.access, before, s.apply, s.namespace, s.applier);
    var j: nat :| j < |at| && CreateAll(s.access, before, s.apply, s.namespace, s.applier, false).cleanups[j] == c;
    i := at[j];
  }

  lemma PlayedCleansObjects(s: Script, w: World)
    ensures forall c :: c in Played(s, w).1 ==> c.DeleteObject?
  {
    forall c | c in Played(s, w).1 ensures c.DeleteObject? { var _ := PlayedCleanups(s, w, c); }
  }

  lemma CleanupsLeaveNamespace(cs: CaseSpec, s: Script, w: World)
    requires LeavesNamespace(cs, s, w)
    ensures forall c :: c in Played(s, w).1 ==> c.DeleteObject? && !Touches(cs, c.key)
  {
    forall c | c in Played(s, w).1 ensures c.DeleteObject? && !Touches(cs, c.key) { var _ := PlayedCleanups(s, w, c); }
  }

  // ----- its outcome, as the run of a case sees it -----

  /** The step has run with this outcome, against the cluster of its client. */
  ghost predicate PlayedBy(cs: CaseSpec, ws: Worlds, o: StepOutcome, s: Script)
  {
    var k := cs.fleet.clusterOf(s.access.client);
    && s.access.env == cs.fleet.envs(k) && s.namespace == cs.ns && s.skipDelete == cs.skipDelete
    && o.worlds == Put(ws, k, Played(s, ws(k)).0) && o.cleanups == Played(s, ws(k)).1
  }

  /** And it has left the test's namespace alone. */
  ghost predicate LeftAloneBy(cs: CaseSpec, ws: Worlds, o: StepOutcome, s: Script, schedules: seq<Schedule>)
  {
    var w := ws(cs.fleet.clusterOf(s.access.client));
    PlayedBy(cs, ws, o, s) && LeavesNamespace(cs, s, w) && AppliesBy(s, w, schedules)
  }

  ghost predicate LeftAlone(cs: CaseSpec, ws: Worlds, o: StepOutcome)
  {
    exists s: Script, schedules :: LeftAloneBy(cs, ws, o, s, schedules)
  }

  /** And meanwhile other writers have left the namespace alone, too. */
  ghost predicate QuietlyLeftAlone(cs: CaseSpec, ws: Worlds, o: StepOutcome)
  {
    exists s: Script, schedules :: LeftAloneBy(cs, ws, o, s, schedules)
      && QuietSchedules(cs, s, ws(cs.fleet.clusterOf(s.access.client)), schedules)
  }

  /** Such a step deletes the namespace neither in its run nor in its clean-ups. */
  lemma LeftAloneIsHarmless(cs: CaseSpec, ws: Worlds, o: StepOutcome)
    requires LeftAlone(cs, ws, o)
    ensures OutcomeHarmless(cs, ws, o)
  {
    var s: Script, schedules :| LeftAloneBy(cs, ws, o, s, schedules);
    var at := cs.fleet.clusterOf(s.access.client);
    PlayedDeletesTargets(s, ws(at), schedules);
    CleanupsLeaveNamespace(cs, s, ws(at));
    forall k: nat ensures Harmless(cs, ws(k).log, o.worlds(k).log) {
    }
  }

  lemma QuietCluster(cs: CaseSpec, k: nat)
    requires Quiet(cs)
    ensures QuietAt(cs.fleet.envs(k), NsKey(cs))
  {
  }

  /** With quiet other writers it also keeps the namespace as it is. */
  lemma QuietlyLeftAloneMinds(cs: CaseSpec, ws: Worlds, o: StepOutcome)
    requires Quiet(cs) && QuietlyLeftAlone(cs, ws, o)
    ensures OutcomeMinds(cs, ws, o)
  {
    var s: Script, schedules :| LeftAloneBy(cs, ws, o, s, schedules)
      && QuietSchedules(cs, s, ws(cs.fleet.clusterOf(s.access.client)), schedules);
    var at := cs.fleet.clusterOf(s.access.client);
    QuietCluster(cs, at);
    PlayedKeeps(cs, s, ws(at), schedules);
    CleanupsLeaveNamespace(cs, s, ws(at));
    forall k: nat ensures Kept(cs, ws, o.worlds, k) {
    }
  }

  // ----- cases made of such steps -----

  /** Every step that a run gets to leaves the test's namespace alone. */
  ghost predicate StepsLeaveAlone(cs: CaseSpec, p: Progress)
  {
    forall i: nat :: i < |cs.steps| ==> StepLeavesAlone(cs, RunUpTo(cs, p, i), i)
  }

  ghost predicate StepLeavesAlone(cs: CaseSpec, q: Progress, i: nat)
    requires i < |cs.steps|
  {
    var start := LazyStart(cs, q.worlds, cs.steps[i]);
    !q.stopped && start.err.None? ==> LeftAlone(cs, start.worlds, cs.steps[i].run(start.worlds))
  }

  /** And so do other writers meanwhile. */
  ghost predicate StepsQuietlyLeaveAlone(cs: CaseSpec, p: Progress)
  {
    forall i: nat :: i < |cs.steps| ==> StepQuietlyLeavesAlone(cs, RunUpTo(cs, p, i), i)
  }

  ghost predicate StepQuietlyLeavesAlone(cs: CaseSpec, q: Progress, i: nat)
    requires i < |cs.steps|
  {
    var start := LazyStart(cs, q.worlds, cs.steps[i]);
    !q.stopped && start.err.None? ==> QuietlyLeftAlone(cs, start.worlds, cs.steps[i].run(start.worlds))
  }

  lemma AllMind(cs: CaseSpec, p: Progress)
    requires Quiet(cs) && StepsQuietlyLeaveAlone(cs, p)
    ensures StepsMind(cs, p)
  {
    forall i: nat | i < |cs.steps| ensures StepMinds(cs, RunUpTo(cs, p, i), i) {
      var q := RunUpTo(cs, p, i);
      var start := LazyStart(cs, q.worlds, cs.steps[i]);
      assert StepQuietlyLeavesAlone(cs, q, i);
      if !q.stopped && start.err.None? { QuietlyLeftAloneMinds(cs, start.worlds, cs.steps[i].run(start.worlds)); }
    }
  }

  lemma AllHarmless(cs: CaseSpec, p: Progress)
    requires StepsLeaveAlone(cs, p)
    ensures StepsHarmless(cs, p)
  {
    forall i: nat | i < |cs.steps| ensures StepHarmless(cs, RunUpTo(cs, p, i), i) {
      var q := RunUpTo(cs, p, i);
      var start := LazyStart(cs, q.worlds, cs.steps[i]);
      assert StepLeavesAlone(cs, q, i);
      if !q.stopped && start.err.None? { LeftAloneIsHarmless(cs, start.worlds, cs.steps[i].run(start.worlds)); }
    }
  }

  /** A case whose steps neither delete nor apply a user-supplied namespace: when all clean-ups succeed, exactly the
      clusters that had the namespace before have it after. */
  lemma CaseRestoresNamespace(cs: CaseSpec, ws: Worlds, order: seq<string>, k: nat)
    requires Quiet(cs) && Orders(cs, order) && StepsQuietlyLeaveAlone(cs, AfterSetup(cs, ws, order))
    requires !Ending(cs, ws, k)
    requires cs.userSupplied && !cs.skipDelete
    requires var p := Ran(cs, ws, order); !CleanUpAll(cs, p.worlds, p.cleanups).1
    ensures var p := Ran(cs, ws, order); Held(cs, CleanUpAll(cs, p.worlds, p.cleanups).0, k) <==> Held(cs, ws, k)
  {
    AllMind(cs, AfterSetup(cs, ws, order));
    UserNamespaceRestored(cs, ws, order, k);
  }

  /** Whatever other writers do, such a case deletes a user-supplied namespace only through a client that created it. */
  lemma CaseDeletesOnlyItsOwn(cs: CaseSpec, ws: Worlds, order: seq<string>, k: nat)
    requires Orders(cs, order) && StepsLeaveAlone(cs, AfterSetup(cs, ws, order)) && cs.userSupplied
    ensures var p := Ran(cs, ws, order); var end := CleanUpAll(cs, p.worlds, p.cleanups).0;
      ws(k).log <= end(k).log && Justified(cs, end(k).log, |ws(k).log|)
  {
    AllHarmless(cs, AfterSetup(cs, ws, order));
    DeletedOnlyByCreator(cs, ws, order, k);
  }

  // ----- cases made of any runs of steps -----

  /** Every step that a run gets to ends as some run of Step.Run does. */
  ghost predicate StepsPlayed(cs: CaseSpec, p: Progress)
  {
    forall i: nat :: i < |cs.steps| ==> StepPlayed(cs, RunUpTo(cs, p, i), i)
  }

  ghost predicate StepPlayed(cs: CaseSpec, q: Progress, i: nat)
    requires i < |cs.steps|
  {
    var start := LazyStart(cs, q.worlds, cs.steps[i]);
    !q.stopped && start.err.None? ==> exists s: Script :: PlayedBy(cs, start.worlds, cs.steps[i].run(start.worlds), s)
  }

  /** And its objects are applied by schedules of CreateOrUpdate. */
  ghost predicate StepsScheduled(cs: CaseSpec, p: Progress)
  {
    forall i: nat :: i < |cs.steps| ==> StepScheduled(cs, RunUpTo(cs, p, i), i)
  }

  ghost predicate ScheduledBy(cs: CaseSpec, ws: Worlds, o: StepOutcome, s: Script, schedules: seq<Schedule>)
  {
    PlayedBy(cs, ws, o, s) && AppliesBy(s, ws(cs.fleet.clusterOf(s.access.client)), schedules)
  }

  ghost predicate StepScheduled(cs: CaseSpec, q: Progress, i: nat)
    requires i < |cs.steps|
  {
    var start := LazyStart(cs, q.worlds, cs.steps[i]);
    !q.stopped && start.err.None? ==> exists s: Script, schedules: seq<Schedule> ::
      ScheduledBy(cs, start.worlds, cs.steps[i].run(start.worlds), s, schedules)
  }

  lemma AllCleanObjects(cs: CaseSpec, p: Progress)
    requires StepsPlayed(cs, p)
    ensures StepsCleanObjects(cs, p)
  {
    forall i: nat | i < |cs.steps| ensures StepCleansObjects(cs, RunUpTo(cs, p, i), i) {
      var q := RunUpTo(cs, p, i);
      assert StepPlayed(cs, q, i);
      var start := LazyStart(cs, q.worlds, cs.steps[i]);
      if !q.stopped && start.err.None? {
        var s: Script :| PlayedBy(cs, start.worlds, cs.steps[i].run(start.worlds), s);
        PlayedCleansObjects(s, start.worlds(cs.fleet.clusterOf(s.access.client)));
      }
    }
  }

  lemma AllAddOn(cs: CaseSpec, p: Progress)
    requires StepsScheduled(cs, p)
    ensures StepsAddOn(cs, p)
  {
    forall i: nat | i < |cs.steps| ensures StepAddsOn(cs, RunUpTo(cs, p, i), i) {
      var q := RunUpTo(cs, p, i);
      assert StepScheduled(cs, q, i);
      var start := LazyStart(cs, q.worlds, cs.steps[i]);
      if !q.stopped && start.err.None? {
        var s: Script, schedules: seq<Schedule> :|
          ScheduledBy(cs, start.worlds, cs.steps[i].run(start.worlds), s, schedules);
        ScheduledAddsOn(cs, start.worlds, cs.steps[i].run(start.worlds), s, schedules);
      }
    }
  }

  lemma ScheduledAddsOn(cs: CaseSpec, ws: Worlds, o: StepOutcome, s: Script, schedules: seq<Schedule>)
    requires ScheduledBy(cs, ws, o, s, schedules)
    ensures forall k: nat :: ws(k).log <= o.worlds(k).log
    ensures forall c :: c in o.cleanups ==> c.DeleteObject?
  {
    var w := ws(cs.fleet.clusterOf(s.access.client));
    PlayedDeletesTargets(s, w, schedules);
    PlayedCleansObjects(s, w);
  }

  /** In every case made of runs of Step.Run, whatever they do to the namespace, an object's clean-up runs before the
      deletion of the namespace registered at the same or an earlier stage. */
  lemma CaseObjectsBeforeNamespace(cs: CaseSpec, ws: Worlds, order: seq<string>, ofObject: nat, ofNamespace: nat)
    requires Orders(cs, order) && StepsPlayed(cs, AfterSetup(cs, ws, order))
    requires var p := Ran(cs, ws, order);
      ofObject < |p.cleanups| && ofNamespace < |p.cleanups| && |p.stages| == |p.cleanups|
    requires var run := Json.Reversed(Ran(cs, ws, order).cleanups);
      run[ofObject].DeleteObject? && run[ofNamespace].DeleteNamespace?
    requires var p := Ran(cs, ws, order);
      p.stages[|p.cleanups| - 1 - ofNamespace] <= p.stages[|p.cleanups| - 1 - ofObject]
    ensures ofObject < ofNamespace
  {
    AllCleanObjects(cs, AfterSetup(cs, ws, order));
    ObjectsBeforeNamespace(cs, ws, order, ofObject, ofNamespace);
  }

  /** And a clean-up that deletes a user-supplied namespace is registered only for a client that created it. */
  lemma CaseRegisteredOnlyByCreator(cs: CaseSpec, ws: Worlds, order: seq<string>, cleanup: Cleanup)
    requires Orders(cs, order) && StepsScheduled(cs, AfterSetup(cs, ws, order)) && cs.userSupplied
    requires cleanup in Ran(cs, ws, order).cleanups && Effective(cs, cleanup)
    ensures var k, p := cs.fleet.clusterOf(cleanup.client), Ran(cs, ws, order);
      ws(k).log <= p.worlds(k).log
      && CreatedBy(cs, p.worlds(k).log, |ws(k).log|, |p.worlds(k).log|, cleanup.client)
  {
    AllAddOn(cs, AfterSetup(cs, ws, order));
    RegisteredOnlyByCreator(cs, ws, order, cleanup);
  }
}
