/** What one call of CreateOrUpdate does to the rest of its cluster, and to the history of calls. */
module ApplyFrame {
  import opened Json
  import opened Outcomes
  import opened Errors
  import opened Objects
  import opened Cluster
  import opened Apply
  import opened Creation

  /** A schedule of a call: its states, and the steps between them. */
  datatype Schedule = Schedule(run: seq<State>, steps: seq<Step>)

  ghost predicate IsSchedule(args: Args, s: Schedule)
  {
    && s.run != [] && |s.run| == |s.steps| + 1 && Init(args, s.run[0])
    && forall j: nat :: j < |s.steps| ==>
      Enabled(args, s.run[j], s.steps[j]) && s.run[j + 1] == After(args, s.run[j], s.steps[j])
  }

  /** A schedule is a run, so what is proved of runs holds of it. */
  lemma ScheduleIsRun(args: Args, s: Schedule)
    requires IsSchedule(args, s)
    ensures IsRun(args, s.run)
  {
    forall i | 0 <= i < |s.run| - 1 ensures Next(args, s.run[i], s.run[i + 1]) {
      assert Enabled(args, s.run[i], s.steps[i]);
    }
  }

  // ----- the store -----

  /** Other writers neither create the object at `key` nor remove it, unless its deletion was accepted. */
  ghost predicate OthersLeave(s: Schedule, key: Key, terminating: set<Key>)
  {
    forall j: nat :: j < |s.steps| && j < |s.run| && s.steps[j].OtherWriters? ==>
      StoreKeeps(key, terminating, s.run[j].store, s.steps[j].store)
  }

  predicate StoreKeeps(key: Key, terminating: set<Key>, store: Store, after: Store)
  {
    (key in after ==> key in store) && (key in store && key !in terminating ==> key in after)
  }

  lemma StepLeaves(args: Args, s: State, step: Step, key: Key, terminating: set<Key>)
    requires Enabled(args, s, step) && key != KeyOf(args.orig)
    requires step.OtherWriters? ==> StoreKeeps(key, terminating, s.store, step.store)
    ensures StoreKeeps(key, terminating, s.store, After(args, s, step).store)
  {
  }

  /** Whatever its schedule, a call leaves every object but its own where it is. */
  lemma {:induction false} CallLeaves(args: Args, s: Schedule, key: Key, terminating: set<Key>, n: nat)
    requires IsSchedule(args, s) && n < |s.run| && key != KeyOf(args.orig) && OthersLeave(s, key, terminating)
    ensures StoreKeeps(key, terminating, s.run[0].store, s.run[n].store)
  {
    if n == 0 {
    } else {
      CallLeaves(args, s, key, terminating, n - 1);
      assert Enabled(args, s.run[n - 1], s.steps[n - 1])
        && s.run[n - 1 + 1] == After(args, s.run[n - 1], s.steps[n - 1]);
      StepLeaves(args, s.run[n - 1], s.steps[n - 1], key, terminating);
    }
  }

  // ----- the history -----

  /** The call of ours that a step answers; patches are not part of the history. */
  function EventsOf(client: nat, key: Key, step: Step): seq<Event>
  {
    match step
    case GetOk(_) => [Event(client, Get, key, None)]
    case GetNotFound(_) => [Event(client, Get, key, Some(Api(NotFound)))]
    case GetErr(_, e) => [Event(client, Get, key, Some(e))]
    case CreateOk(_, _) => [Event(client, Create, key, None)]
    case CreateErr(_, e) => [Event(client, Create, key, Some(e))]
    case _ => []
  }

  function History(client: nat, key: Key, steps: seq<Step>): seq<Event>
  {
    if steps == [] then [] else History(client, key, steps[..|steps| - 1]) + EventsOf(client, key, steps[|steps| - 1])
  }

  lemma {:induction false} HistoryDeletesNothing(client: nat, key: Key, steps: seq<Step>)
    ensures forall e :: e in History(client, key, steps) ==> !e.verb.Delete? && e.key == key && e.client == client
  {
    if steps == [] {
    } else {
      HistoryDeletesNothing(client, key, steps[..|steps| - 1]);
    }
  }

  // ----- outcomes of Step.Create's calls -----

  /** The outcome of applying `o` in world `w` is that of a finished schedule that starts in the store of `w`. */
  ghost predicate OutcomeOf(client: nat, w: World, o: Fields, outcome: Applied, s: Schedule)
  {
    && IsSchedule(Args(o, true), s) && s.run[0].store == w.store
    && var end := s.run[|s.run| - 1];
      && end.result == Some((outcome.updated, outcome.err)) && outcome.world.store == end.store
      && outcome.world.terminating == w.terminating
      && outcome.world.log == w.log + History(client, KeyOf(o), s.steps)
  }
}
