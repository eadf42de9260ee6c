/** Through which clients a run deletes a user-supplied namespace, whatever others do and whichever calls fail. */
module CaseLog {
  import opened Outcomes
  import opened Cluster
  import opened Testing
  import opened CaseRun

  /** The call that deletes the test's namespace. */
  predicate IsDeletion(cs: CaseSpec, e: Event) { e.verb == Delete && Touches(cs, e.key) }

  /** The client created the namespace itself, with success, within this part of the history. */
  ghost predicate CreatedBy(cs: CaseSpec, log: seq<Event>, from: nat, to: nat, c: nat)
  {
    exists j :: from <= j < to && j < |log| && log[j] == Event(c, Create, NsKey(cs), None)
  }

  /** Every deletion of the namespace from `from` on was made by a client that had created it. */
  ghost predicate Justified(cs: CaseSpec, log: seq<Event>, from: nat)
  {
    forall i :: from <= i < |log| && IsDeletion(cs, log[i]) ==> CreatedBy(cs, log, from, i, log[i].client)
  }

  /** The history grew, but not by deletions of the namespace. */
  ghost predicate Harmless(cs: CaseSpec, log: seq<Event>, after: seq<Event>)
  {
    log <= after && forall i :: |log| <= i < |after| ==> !IsDeletion(cs, after[i])
  }

  /** Running the steps that a run gets to does not delete the namespace; nor will their clean-ups. */
  ghost predicate StepsHarmless(cs: CaseSpec, p: Progress)
  {
    forall i: nat :: i < |cs.steps| ==> StepHarmless(cs, RunUpTo(cs, p, i), i)
  }

  ghost predicate StepHarmless(cs: CaseSpec, q: Progress, i: nat)
    requires i < |cs.steps|
  {
    var s := LazyStart(cs, q.worlds, cs.steps[i]);
    !q.stopped && s.err.None? ==> OutcomeHarmless(cs, s.worlds, cs.steps[i].run(s.worlds))
  }

  ghost predicate OutcomeHarmless(cs: CaseSpec, ws: Worlds, o: StepOutcome)
  {
    && (forall k: nat :: Harmless(cs, ws(k).log, o.worlds(k).log))
    && forall cleanup :: cleanup in o.cleanups ==> cleanup.DeleteObject? && !Touches(cs, cleanup.key)
  }

  /** In cluster `k`: every registered deletion of a namespace that was not there is backed by a successful Create. */
  ghost predicate Backed(cs: CaseSpec, before: Worlds, ws: Worlds, cleanups: seq<Cleanup>, k: nat)
  {
    && before(k).log <= ws(k).log
    && forall c :: DeleteNamespace(c, false) in cleanups && cs.fleet.clusterOf(c) == k ==>
      CreatedBy(cs, ws(k).log, |before(k).log|, |ws(k).log|, c)
  }

  /** And deletions so far are justified, while other clean-ups leave the namespace alone. */
  ghost predicate Booked(cs: CaseSpec, before: Worlds, ws: Worlds, cleanups: seq<Cleanup>, k: nat)
  {
    && Backed(cs, before, ws, cleanups, k) && Justified(cs, ws(k).log, |before(k).log|)
    && forall cleanup :: cleanup in cleanups && cleanup.DeleteObject? ==> !Touches(cs, cleanup.key)
  }

  // ----- histories -----

  lemma CreatedByGrows(cs: CaseSpec, log: seq<Event>, after: seq<Event>, from: nat, to: nat, later: nat, c: nat)
    requires log <= after && to <= later && CreatedBy(cs, log, from, to, c)
    ensures CreatedBy(cs, after, from, later, c)
  {
  }

  lemma GrownBacked(cs: CaseSpec, before: Worlds, ws: Worlds, cleanups: seq<Cleanup>, after: Worlds, k: nat)
    requires Backed(cs, before, ws, cleanups, k) && ws(k).log <= after(k).log
    ensures Backed(cs, before, after, cleanups, k)
  {
    forall c | DeleteNamespace(c, false) in cleanups && cs.fleet.clusterOf(c) == k
      ensures CreatedBy(cs, after(k).log, |before(k).log|, |after(k).log|, c)
    {
      CreatedByGrows(cs, ws(k).log, after(k).log, |before(k).log|, |ws(k).log|, |after(k).log|, c);
    }
  }

  lemma HarmlessBooked(cs: CaseSpec, before: Worlds, ws: Worlds, cleanups: seq<Cleanup>, after: Worlds, k: nat)
    requires Booked(cs, before, ws, cleanups, k) && Harmless(cs, ws(k).log, after(k).log)
    ensures Booked(cs, before, after, cleanups, k)
  {
    GrownBacked(cs, before, ws, cleanups, after, k);
  }

  // ----- creating the namespace -----

  lemma CreateNsHarmless(cs: CaseSpec, ws: Worlds, c: nat, k: nat)
    ensures Harmless(cs, ws(k).log, CreateNs(cs, ws, c).worlds(k).log)
    ensures DeleteNamespace(c, false) in CreateNs(cs, ws, c).cleanups && k == cs.fleet.clusterOf(c) ==>
      CreatedBy(cs, CreateNs(cs, ws, c).worlds(k).log, |ws(k).log|, |CreateNs(cs, ws, c).worlds(k).log|, c)
  {
    var created := CallCreate(cs.fleet, ws, c, NsKey(cs), NsObject(cs));
    var at := cs.fleet.clusterOf(c);
    assert created.0(at).log == ws(at).log + [Event(c, Create, NsKey(cs), created.1)];
    var n := CreateNs(cs, ws, c);
    if DeleteNamespace(c, false) in n.cleanups && k == at {
      assert n.worlds(k).log[|ws(k).log|] == Event(c, Create, NsKey(cs), None);
    }
  }

  lemma CreateNsBacked(cs: CaseSpec, before: Worlds, ws: Worlds, cleanups: seq<Cleanup>, c: nat, k: nat)
    requires Backed(cs, before, ws, cleanups, k)
    ensures Backed(cs, before, CreateNs(cs, ws, c).worlds, cleanups + CreateNs(cs, ws, c).cleanups, k)
  {
    var n := CreateNs(cs, ws, c);
    CreateNsHarmless(cs, ws, c, k);
    GrownBacked(cs, before, ws, cleanups, n.worlds, k);
    if DeleteNamespace(c, false) in n.cleanups && k == cs.fleet.clusterOf(c) {
      var log := n.worlds(k).log;
      var j :| |ws(k).log| <= j < |log| && log[j] == Event(c, Create, NsKey(cs), None);
      assert CreatedBy(cs, log, |before(k).log|, |log|, c);
    }
  }

  lemma CreateNsBooked(cs: CaseSpec, before: Worlds, ws: Worlds, cleanups: seq<Cleanup>, c: nat, k: nat)
    requires Booked(cs, before, ws, cleanups, k)
    ensures Booked(cs, before, CreateNs(cs, ws, c).worlds, cleanups + CreateNs(cs, ws, c).cleanups, k)
  {
    CreateNsHarmless(cs, ws, c, k);
    HarmlessBooked(cs, before, ws, cleanups, CreateNs(cs, ws, c).worlds, k);
    CreateNsBacked(cs, before, ws, cleanups, c, k);
  }

  lemma {:induction false} SetupBooked(cs: CaseSpec, ws: Worlds, clients: seq<nat>, k: nat)
    ensures var s := SetupAll(cs, ws, clients); Booked(cs, ws, s.worlds, s.cleanups, k)
  {
    if clients == [] {
    } else {
      var n := |clients| - 1;
      SetupBooked(cs, ws, clients[..n], k);
      var s := SetupAll(cs, ws, clients[..n]);
      if s.err.None? { CreateNsBooked(cs, ws, s.worlds, s.cleanups, clients[n], k); }
    }
  }

  lemma StepBooked(cs: CaseSpec, before: Worlds, p: Progress, i: nat, k: nat)
    requires i < |cs.steps| && !p.stopped && StepHarmless(cs, p, i) && Booked(cs, before, p.worlds, p.cleanups, k)
    ensures var q := StepNext(cs, p, cs.steps[i], i + 1); Booked(cs, before, q.worlds, q.cleanups, k)
  {
    var step := cs.steps[i];
    var s := LazyStart(cs, p.worlds, step);
    assert p.cleanups + [] == p.cleanups;
    if step.lazy && step.client.Ok? { CreateNsBooked(cs, before, p.worlds, p.cleanups, step.client.value, k); }
    if s.err.None? {
      var o := step.run(s.worlds);
      assert OutcomeHarmless(cs, s.worlds, o);
      HarmlessBooked(cs, before, s.worlds, p.cleanups + s.cleanups, o.worlds, k);
      assert p.cleanups + (s.cleanups + o.cleanups) == p.cleanups + s.cleanups + o.cleanups;
    } else {
      assert p.cleanups + (s.cleanups + []) == p.cleanups + s.cleanups;
    }
  }

  lemma RunBooked(cs: CaseSpec, before: Worlds, p: Progress, k: nat)
    requires StepsHarmless(cs, p) && Booked(cs, before, p.worlds, p.cleanups, k)
    ensures var q := RunUpTo(cs, p, |cs.steps|); Booked(cs, before, q.worlds, q.cleanups, k)
  {
    var inv := (q: Progress, i: nat) => Booked(cs, before, q.worlds, q.cleanups, k);
    forall i: nat | i < |cs.steps| && inv(RunUpTo(cs, p, i), i) ensures inv(GoOn(cs, RunUpTo(cs, p, i), i), i + 1) {
      var q := RunUpTo(cs, p, i);
      if !q.stopped { StepBooked(cs, before, q, i, k); }
    }
    RunKeeps(cs, p, inv, |cs.steps|);
  }

  // ----- what backs a registered deletion, whatever the steps do -----

  /** The steps that a run gets to add to the history, and register clean-ups of objects only. */
  ghost predicate StepsAddOn(cs: CaseSpec, p: Progress)
  {
    forall i: nat :: i < |cs.steps| ==> StepAddsOn(cs, RunUpTo(cs, p, i), i)
  }

  ghost predicate StepAddsOn(cs: CaseSpec, q: Progress, i: nat)
    requires i < |cs.steps|
  {
    var s := LazyStart(cs, q.worlds, cs.steps[i]);
    var o := cs.steps[i].run(s.worlds);
    !q.stopped && s.err.None? ==>
      && (forall k: nat :: s.worlds(k).log <= o.worlds(k).log)
      && (forall cleanup :: cleanup in o.cleanups ==> cleanup.DeleteObject?)
  }

  lemma {:induction false} SetupBacked(cs: CaseSpec, ws: Worlds, clients: seq<nat>, k: nat)
    ensures var s := SetupAll(cs, ws, clients); Backed(cs, ws, s.worlds, s.cleanups, k)
  {
    if clients == [] {
    } else {
      var n := |clients| - 1;
      SetupBacked(cs, ws, clients[..n], k);
      var s := SetupAll(cs, ws, clients[..n]);
      if s.err.None? { CreateNsBacked(cs, ws, s.worlds, s.cleanups, clients[n], k); }
    }
  }

  lemma StepBacked(cs: CaseSpec, before: Worlds, p: Progress, i: nat, k: nat)
    requires i < |cs.steps| && !p.stopped && StepAddsOn(cs, p, i) && Backed(cs, before, p.worlds, p.cleanups, k)
    ensures var q := StepNext(cs, p, cs.steps[i], i + 1); Backed(cs, before, q.worlds, q.cleanups, k)
  {
    var step := cs.steps[i];
    var s := LazyStart(cs, p.worlds, step);
    assert p.cleanups + [] == p.cleanups;
    if step.lazy && step.client.Ok? { CreateNsBacked(cs, before, p.worlds, p.cleanups, step.client.value, k); }
    if s.err.None? {
      var o := step.run(s.worlds);
      GrownBacked(cs, before, s.worlds, p.cleanups + s.cleanups, o.worlds, k);
      assert p.cleanups + (s.cleanups + o.cleanups) == p.cleanups + s.cleanups + o.cleanups;
    } else {
      assert p.cleanups + (s.cleanups + []) == p.cleanups + s.cleanups;
    }
  }

  lemma RunBacked(cs: CaseSpec, before: Worlds, p: Progress, k: nat)
    requires StepsAddOn(cs, p) && Backed(cs, before, p.worlds, p.cleanups, k)
    ensures var q := RunUpTo(cs, p, |cs.steps|); Backed(cs, before, q.worlds, q.cleanups, k)
  {
    var inv := (q: Progress, i: nat) => Backed(cs, before, q.worlds, q.cleanups, k);
    forall i: nat | i < |cs.steps| && inv(RunUpTo(cs, p, i), i) ensures inv(GoOn(cs, RunUpTo(cs, p, i), i), i + 1) {
      var q := RunUpTo(cs, p, i);
      if !q.stopped { StepBacked(cs, before, q, i, k); }
    }
    RunKeeps(cs, p, inv, |cs.steps|);
  }

  /** Whatever the steps do to the namespace, a clean-up that deletes a user-supplied one is registered only for a
      client whose own Create succeeded in this run. */
  lemma RegisteredOnlyByCreator(cs: CaseSpec, ws: Worlds, order: seq<string>, cleanup: Cleanup)
    requires Orders(cs, order) && StepsAddOn(cs, AfterSetup(cs, ws, order)) && cs.userSupplied
    requires cleanup in Ran(cs, ws, order).cleanups && Effective(cs, cleanup)
    ensures var k, p := cs.fleet.clusterOf(cleanup.client), Ran(cs, ws, order);
      ws(k).log <= p.worlds(k).log
      && CreatedBy(cs, p.worlds(k).log, |ws(k).log|, |p.worlds(k).log|, cleanup.client)
  {
    var k := cs.fleet.clusterOf(cleanup.client);
    if EagerClients(cs).Ok? { SetupBacked(cs, ws, InOrder(EagerClients(cs).value, order), k); }
    RunBacked(cs, ws, AfterSetup(cs, ws, order), k);
    assert cleanup == DeleteNamespace(cleanup.client, false);
  }

  // ----- clean-ups -----

  lemma {:induction false} PollHarmless(cs: CaseSpec, ws: Worlds, c: nat, polls: nat, k: nat)
    ensures Harmless(cs, ws(k).log, PollGone(cs, ws, c, polls).0(k).log)
  {
    if polls == 0 {
    } else {
      PollHarmless(cs, CallGet(cs.fleet, ws, c, NsKey(cs)).0, c, polls - 1, k);
    }
  }

  lemma DeleteNsBooked(cs: CaseSpec, before: Worlds, ws: Worlds, cleanups: seq<Cleanup>, c: nat, k: nat)
    requires Booked(cs, before, ws, cleanups, k) && DeleteNamespace(c, false) in cleanups
    ensures Booked(cs, before, DeleteNs(cs, ws, c).0, cleanups, k)
  {
    var deleted := CallDelete(cs.fleet, ws, c, NsKey(cs));
    var log, after, from := ws(k).log, deleted.0(k).log, |before(k).log|;
    forall i | from <= i < |after| && IsDeletion(cs, after[i]) ensures CreatedBy(cs, after, from, i, after[i].client) {
      if i < |log| { assert after[i] == log[i]; }
      CreatedByGrows(cs, log, after, from, i, i, after[i].client);
    }
    forall d | DeleteNamespace(d, false) in cleanups && cs.fleet.clusterOf(d) == k
      ensures CreatedBy(cs, after, from, |after|, d)
    {
      CreatedByGrows(cs, log, after, from, |log|, |after|, d);
    }
    assert Booked(cs, before, deleted.0, cleanups, k);
    PollHarmless(cs, deleted.0, c, cs.polls, k);
    HarmlessBooked(cs, before, deleted.0, cleanups, DeleteNs(cs, ws, c).0, k);
  }

  lemma CleanUpBooked(cs: CaseSpec, before: Worlds, ws: Worlds, cleanups: seq<Cleanup>, cleanup: Cleanup, k: nat)
    requires cs.userSupplied && Booked(cs, before, ws, cleanups, k) && cleanup in cleanups
    ensures Booked(cs, before, CleanUp(cs, ws, cleanup).0, cleanups, k)
  {
    match cleanup
    case DeleteObject(c, key) => HarmlessBooked(cs, before, ws, cleanups, CleanUp(cs, ws, cleanup).0, k);
    case DeleteNamespace(c, existed) => if !existed { DeleteNsBooked(cs, before, ws, cleanups, c, k); }
  }

  lemma {:induction false} CleanUpAllBooked(cs: CaseSpec, before: Worlds, ws: Worlds, all: seq<Cleanup>,
                                            cleanups: seq<Cleanup>, k: nat)
    requires cs.userSupplied && Booked(cs, before, ws, all, k)
    requires forall cleanup :: cleanup in cleanups ==> cleanup in all
    ensures Booked(cs, before, CleanUpAll(cs, ws, cleanups).0, all, k)
    decreases |cleanups|
  {
    if cleanups == [] {
    } else {
      var n := |cleanups| - 1;
      CleanUpBooked(cs, before, ws, all, cleanups[n], k);
      CleanUpAllBooked(cs, before, CleanUp(cs, ws, cleanups[n]).0, all, cleanups[..n], k);
    }
  }

  /** A user-supplied namespace is deleted through a client only if that client's own Create succeeded, in this run and
      before: whatever the order of setup, aliasing of clients to clusters, other writers and failing calls. */
  lemma DeletedOnlyByCreator(cs: CaseSpec, ws: Worlds, order: seq<string>, k: nat)
    requires Orders(cs, order) && StepsHarmless(cs, AfterSetup(cs, ws, order)) && cs.userSupplied
    ensures var p := Ran(cs, ws, order); var end := CleanUpAll(cs, p.worlds, p.cleanups).0;
      ws(k).log <= end(k).log && Justified(cs, end(k).log, |ws(k).log|)
  {
    if EagerClients(cs).Ok? { SetupBooked(cs, ws, InOrder(EagerClients(cs).value, order), k); }
    var p := Ran(cs, ws, order);
    RunBooked(cs, ws, AfterSetup(cs, ws, order), k);
    CleanUpAllBooked(cs, ws, p.worlds, p.cleanups, p.cleanups, k);
  }
}
