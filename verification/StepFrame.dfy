/** What running a step leaves alone: every object that it neither deletes nor applies. */
module StepFrame {
  import Json
  import opened Outcomes
  import opened Errors
  import opened Objects
  import opened Cluster
  import opened Loading
  import opened ApplyFrame
  import opened Checks
  import opened Creation
  import Apply
  import Deletion

  predicate Addresses(disc: Discovery, target: Key, key: Key) { Address(disc, target) == Ok(key) }

  ghost predicate NoneAddresses(disc: Discovery, targets: seq<Key>, key: Key)
  {
    forall t :: t in targets ==> !Addresses(disc, t, key)
  }

  lemma CallsKeep(env: Env, w: World, client: nat, target: Key, key: Key)
    requires QuietAt(env, key)
    ensures KeptIn(key, w, DoGet(env, w, client, target).0)
    ensures !Addresses(env.disc, target, key) ==> KeptIn(key, w, DoDelete(env, w, client, target).0)
  {
  }

  lemma ListKeeps(env: Env, w: World, gvk: Gvk, namespace: string, labels: map<string, string>, key: Key)
    requires QuietAt(env, key)
    ensures KeptIn(key, w, DoList(env, w, gvk, namespace, labels).0)
  {
  }

  lemma {:induction false} ResolveKeeps(env: Env, w: World, refs: seq<Deletion.Ref>, namespace: string, key: Key)
    requires QuietAt(env, key)
    ensures KeptIn(key, w, Deletion.ResolveAll(env, w, refs, namespace).0)
  {
    if refs == [] {
    } else {
      ResolveKeeps(env, w, refs[..|refs| - 1], namespace, key);
      ResolveRefKeeps(env, Deletion.ResolveAll(env, w, refs[..|refs| - 1], namespace).0, refs[|refs| - 1], namespace,
        key);
    }
  }

  lemma ResolveRefKeeps(env: Env, w: World, ref: Deletion.Ref, namespace: string, key: Key)
    requires QuietAt(env, key)
    ensures KeptIn(key, w, Deletion.ResolveRef(env, w, ref, namespace).0)
  {
  }

  lemma {:induction false} DeleteAllKeeps(env: Env, w: World, client: nat, targets: seq<Key>, key: Key)
    requires QuietAt(env, key) && NoneAddresses(env.disc, targets, key)
    ensures KeptIn(key, w, Deletion.DeleteAll(env, w, client, targets).0)
  {
    if targets == [] {
    } else {
      var n := |targets| - 1;
      DeleteAllKeeps(env, w, client, targets[..n], key);
      assert targets[n] in targets;
      CallsKeep(env, Deletion.DeleteAll(env, w, client, targets[..n]).0, client, targets[n], key);
    }
  }

  lemma {:induction false} PassKeeps(env: Env, w: World, client: nat, targets: seq<Key>, key: Key)
    requires QuietAt(env, key)
    ensures KeptIn(key, w, Deletion.Pass(env, w, client, targets).0)
  {
    if targets == [] {
    } else {
      var n := |targets| - 1;
      PassKeeps(env, w, client, targets[..n], key);
      CallsKeep(env, Deletion.Pass(env, w, client, targets[..n]).0, client, targets[n], key);
    }
  }

  lemma {:induction false} PollKeeps(env: Env, w: World, client: nat, targets: seq<Key>, polls: nat, key: Key)
    requires QuietAt(env, key)
    ensures KeptIn(key, w, Deletion.Poll(env, w, client, targets, polls).0)
    decreases polls
  {
    PassKeeps(env, w, client, targets, key);
    if polls == 0 {
    } else {
      PollKeeps(env, Deletion.Pass(env, w, client, targets).0, client, targets, polls - 1, key);
    }
  }

  /** Deleting what a TestStep lists leaves every other object alone. */
  lemma DeletionKeeps(env: Env, w: World, client: nat, refs: seq<Deletion.Ref>, namespace: string, polls: nat, key: Key)
    requires QuietAt(env, key)
    requires var targets := Deletion.ResolveAll(env, w, refs, namespace).1;
      targets.Ok? ==> NoneAddresses(env.disc, targets.value, key)
    ensures KeptIn(key, w, Deletion.DeleteRefs(env, w, client, refs, namespace, polls).0)
  {
    ResolveKeeps(env, w, refs, namespace, key);
    var resolved := Deletion.ResolveAll(env, w, refs, namespace);
    if resolved.1.Ok? {
      DeleteAllKeeps(env, resolved.0, client, resolved.1.value, key);
      PollKeeps(env, Deletion.DeleteAll(env, resolved.0, client, resolved.1.value).0, client, resolved.1.value, polls,
        key);
    }
  }

  /** Each submitted object went through a schedule of CreateOrUpdate. */
  ghost predicate Scheduled(a: Access, w: World, os: seq<Object>, namespace: string, apply: Applier,
                            schedules: seq<Schedule>)
  {
    |schedules| == |os| && forall i: nat :: i < |os| && Submitted(a, os, namespace, i).Some? ==>
      ScheduledAt(a, w, os, namespace, apply, schedules, i)
  }

  ghost predicate ScheduledAt(a: Access, w: World, os: seq<Object>, namespace: string, apply: Applier,
                              schedules: seq<Schedule>, i: nat)
    requires i < |os| && i < |schedules| && Submitted(a, os, namespace, i).Some?
  {
    OutcomeOf(a.client, CreateAll(a, w, os[..i], namespace, apply, false).world, Submitted(a, os, namespace, i).value,
              OutcomeAt(a, w, os, namespace, apply, i).value, schedules[i])
  }

  /** No object that is submitted has the key. */
  ghost predicate NoneSubmitted(a: Access, os: seq<Object>, namespace: string, key: Key)
  {
    forall i: nat :: i < |os| && Submitted(a, os, namespace, i).Some? ==>
      KeyOf(Submitted(a, os, namespace, i).value) != key
  }

  /** While the objects are applied, other writers leave the one at `key` alone. */
  ghost predicate AllLeave(schedules: seq<Schedule>, key: Key, terminating: set<Key>)
  {
    forall i: nat :: i < |schedules| ==> OthersLeave(schedules[i], key, terminating)
  }

  /** The i-th call deletes nothing. */
  lemma OneAppliedDeletesNothing(a: Access, w: World, os: seq<Object>, namespace: string, apply: Applier,
                                 schedules: seq<Schedule>, i: nat)
    requires Scheduled(a, w, os, namespace, apply, schedules) && i < |os|
    ensures DeletesOnly(CreateAll(a, w, os[..i], namespace, apply, false).world,
                        CreateAll(a, w, os[..i + 1], namespace, apply, false).world, [])
  {
    CreateAllNext(a, w, os, i, namespace, apply, false);
    var o := Submitted(a, os, namespace, i);
    if o.Some? {
      assert ScheduledAt(a, w, os, namespace, apply, schedules, i);
      HistoryDeletesNothing(a.client, KeyOf(o.value), schedules[i].steps);
    }
  }

  /** The i-th call leaves the object alone. */
  lemma OneAppliedKeeps(a: Access, w: World, os: seq<Object>, namespace: string, apply: Applier,
                        schedules: seq<Schedule>, i: nat, key: Key)
    requires Scheduled(a, w, os, namespace, apply, schedules) && i < |os|
    requires NoneSubmitted(a, os, namespace, key)
    requires AllLeave(schedules, key, CreateAll(a, w, os[..i], namespace, apply, false).world.terminating)
    ensures var before := CreateAll(a, w, os[..i], namespace, apply, false).world;
      var after := CreateAll(a, w, os[..i + 1], namespace, apply, false).world;
      after.terminating == before.terminating && KeptIn(key, before, after)
  {
    CreateAllNext(a, w, os, i, namespace, apply, false);
    var before := CreateAll(a, w, os[..i], namespace, apply, false).world;
    var o := Submitted(a, os, namespace, i);
    if o.Some? {
      assert ScheduledAt(a, w, os, namespace, apply, schedules, i);
      CallLeaves(Apply.Args(o.value, true), schedules[i], key, before.terminating, |schedules[i].run| - 1);
    }
  }

  /** Applying a list of objects deletes nothing, whatever the schedules. */
  lemma {:induction false} CreationDeletesNothing(a: Access, w: World, os: seq<Object>, namespace: string,
                                                  apply: Applier, schedules: seq<Schedule>, n: nat)
    requires Scheduled(a, w, os, namespace, apply, schedules) && n <= |os|
    ensures DeletesOnly(w, CreateAll(a, w, os[..n], namespace, apply, false).world, [])
  {
    if n == 0 {
      assert os[..0] == [];
    } else {
      CreationDeletesNothing(a, w, os, namespace, apply, schedules, n - 1);
      OneAppliedDeletesNothing(a, w, os, namespace, apply, schedules, n - 1);
    }
  }

  /** And it leaves every object under another key alone, as far as other writers do. */
  lemma {:induction false} CreationKeeps(a: Access, w: World, os: seq<Object>, namespace: string, apply: Applier,
                                         schedules: seq<Schedule>, n: nat, key: Key)
    requires Scheduled(a, w, os, namespace, apply, schedules) && n <= |os|
    requires NoneSubmitted(a, os, namespace, key) && AllLeave(schedules, key, w.terminating)
    ensures var after := CreateAll(a, w, os[..n], namespace, apply, false).world;
      after.terminating == w.terminating && KeptIn(key, w, after)
  {
    if n == 0 {
      assert os[..0] == [];
    } else {
      CreationKeeps(a, w, os, namespace, apply, schedules, n - 1, key);
      OneAppliedKeeps(a, w, os, namespace, apply, schedules, n - 1, key);
    }
  }

  // ----- schedules are runs -----

  /** The runs of the schedules. */
  function Runs(schedules: seq<Schedule>): (r: seq<seq<Apply.State>>)
    ensures |r| == |schedules|
  {
    seq(|schedules|, i requires 0 <= i < |schedules| => schedules[i].run)
  }

  /** Objects applied by schedules went through runs, so what is proved of clean-ups and runs holds of them. */
  lemma ScheduledRan(a: Access, w: World, os: seq<Object>, namespace: string, apply: Applier, schedules: seq<Schedule>)
    requires Scheduled(a, w, os, namespace, apply, schedules)
    ensures AllRan(a, w, os, namespace, apply, true, Runs(schedules))
  {
    forall i: nat | i < |os| && Submitted(a, os, namespace, i).Some?
      ensures RanAs(a, w, os, namespace, apply, true, i, Runs(schedules)[i])
    {
      assert ScheduledAt(a, w, os, namespace, apply, schedules, i);
      ScheduleIsRun(Apply.Args(Submitted(a, os, namespace, i).value, true), schedules[i]);
    }
  }

  lemma SeekKeeps(a: Access, w: World, o: Json.Fields, namespace: string, key: Key)
    requires QuietAt(a.env, key)
    ensures KeptIn(key, w, Seek(a, w, o, namespace).world)
  {
    var r := Namespaced(a.env.disc, o, namespace);
    if r.Ok? {
      CallsKeep(a.env, w, a.client, Objects.Key(GvkOf(r.value.content), r.value.namespace, r.value.name), key);
      ListKeeps(a.env, w, GvkOf(r.value.content), r.value.namespace, LabelsOf(r.value.content), key);
    }
  }

  lemma {:induction false} CheckListKeeps(a: Access, w: World, sense: Sense, os: seq<Object>, namespace: string,
                                          key: Key)
    requires QuietAt(a.env, key)
    ensures KeptIn(key, w, CheckList(a, w, sense, os, namespace).world)
  {
    if os == [] {
    } else {
      var n := |os| - 1;
      CheckListKeeps(a, w, sense, os[..n], namespace, key);
      SeekKeeps(a, CheckList(a, w, sense, os[..n], namespace).world, os[n].content, namespace, key);
    }
  }

  lemma CheckAllKeeps(a: Access, r: Round, probes: seq<Error>, namespace: string, key: Key)
    requires QuietAt(a.env, key)
    ensures KeptIn(key, r.world, CheckAll(a, r, probes, namespace).world)
  {
    CheckListKeeps(a, r.world, Present, r.asserts, namespace, key);
    CheckListKeeps(a, CheckList(a, r.world, Present, r.asserts, namespace).world, Absent, r.errors, namespace, key);
  }

  /** Checking changes nothing, however many rounds are made. */
  lemma {:induction false} RoundsKeep(a: Access, r: Round, probes: nat -> seq<Error>, namespace: string, rounds: nat,
                                      key: Key)
    requires QuietAt(a.env, key)
    ensures KeptIn(key, r.world, RoundAfter(a, r, probes, namespace, rounds).world)
  {
    if rounds == 0 {
    } else {
      RoundsKeep(a, r, probes, namespace, rounds - 1, key);
      CheckAllKeeps(a, RoundAfter(a, r, probes, namespace, rounds - 1), probes(rounds - 1), namespace, key);
    }
  }

  // ----- what a step's checks log -----

  lemma SeekOnlyReads(a: Access, w: World, o: Json.Fields, namespace: string)
    ensures DeletesOnly(w, Seek(a, w, o, namespace).world, [])
  {
  }

  lemma {:induction false} CheckListOnlyReads(a: Access, w: World, sense: Sense, os: seq<Object>, namespace: string)
    ensures DeletesOnly(w, CheckList(a, w, sense, os, namespace).world, [])
  {
    if os == [] {
    } else {
      var n := |os| - 1;
      CheckListOnlyReads(a, w, sense, os[..n], namespace);
      SeekOnlyReads(a, CheckList(a, w, sense, os[..n], namespace).world, os[n].content, namespace);
    }
  }

  /** Checking deletes nothing. */
  lemma {:induction false} RoundsOnlyRead(a: Access, r: Round, probes: nat -> seq<Error>, namespace: string,
                                          rounds: nat)
    ensures DeletesOnly(r.world, RoundAfter(a, r, probes, namespace, rounds).world, [])
  {
    if rounds == 0 {
    } else {
      RoundsOnlyRead(a, r, probes, namespace, rounds - 1);
      var before := RoundAfter(a, r, probes, namespace, rounds - 1);
      CheckListOnlyReads(a, before.world, Present, before.asserts, namespace);
      CheckListOnlyReads(a, CheckList(a, before.world, Present, before.asserts, namespace).world, Absent, before.errors,
        namespace);
    }
  }
}
