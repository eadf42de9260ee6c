/** When the namespace is available to a client, when deleting it succeeds, and what a lazy step starts with. */
module NamespaceOutcomes {
  import opened Outcomes
  import opened Errors
  import opened Objects
  import opened Cluster
  import opened Testing
  import opened CaseRun
  import opened CaseSafety

  function EnvOf(cs: CaseSpec, c: nat): Env { cs.fleet.envs(cs.fleet.clusterOf(c)) }

  /** The world that the client's next call finds. */
  function Finds(cs: CaseSpec, ws: Worlds, c: nat): World { Moved(EnvOf(cs, c), ws(cs.fleet.clusterOf(c))) }

  /** Whether the n-th call from now on through the client fails, and how. */
  function FaultOf(cs: CaseSpec, ws: Worlds, c: nat, n: nat): Option<Fault>
  {
    EnvOf(cs, c).fault(ws(cs.fleet.clusterOf(c)).calls + n)
  }

  /** The server knows namespaces, as objects of the cluster. */
  predicate KnowsNamespaces(cs: CaseSpec, c: nat)
  {
    var r := Served(EnvOf(cs, c).disc, NAMESPACE_GVK);
    r.Some? && !r.value.namespaced
  }

  // ----- creating it -----

  /** Other clusters are left alone, and either nothing is registered and an error returned, or the client is reached
      and knows whether the namespace existed. */
  ghost predicate Outcome(cs: CaseSpec, ws: Worlds, c: nat, n: NsCreated, existed: bool)
  {
    && (forall j: nat :: j != cs.fleet.clusterOf(c) ==> n.worlds(j) == ws(j))
    && (n.err.Some? ==> n.cleanups == [] && n.reached == [])
    && (n.err.None? ==> n.reached == [c] && n.cleanups == if cs.skipDelete then [] else [DeleteNamespace(c, existed)])
  }

  /** Where the call is answered, the namespace is available: as it is, if it was there, and otherwise created. */
  lemma NamespaceAvailable(cs: CaseSpec, ws: Worlds, c: nat)
    requires KnowsNamespaces(cs, c) && FaultOf(cs, ws, c, 0).None?
    ensures var n, before := CreateNs(cs, ws, c), Finds(cs, ws, c);
      var after := n.worlds(cs.fleet.clusterOf(c)).store;
      && n.err.None? && Outcome(cs, ws, c, n, NsKey(cs) in before.store) && KeyOf(NsObject(cs)) == NsKey(cs)
      && (NsKey(cs) in before.store ==> after == before.store)
      && (NsKey(cs) !in before.store ==>
           after == before.store[NsKey(cs) := EnvOf(cs, c).admit(before.calls, NsObject(cs))])
  {
  }

  /** Where creating it is forbidden, it is taken to exist, unless a Get then answers that it does not. */
  lemma ForbiddenIsSettledByGet(cs: CaseSpec, ws: Worlds, c: nat)
    requires KnowsNamespaces(cs, c) && FaultOf(cs, ws, c, 0).Some? && Has(FaultOf(cs, ws, c, 0).value, Forbidden)
    ensures var n, before := CreateNs(cs, ws, c), Finds(cs, ws, c);
      var later := EnvOf(cs, c).others(before.calls + 1, before.store, before.terminating);
      && Outcome(cs, ws, c, n, true) && n.worlds(cs.fleet.clusterOf(c)).store == later
      && (n.err.Some? <==> FaultOf(cs, ws, c, 1).None? && NsKey(cs) !in later)
  {
  }

  /** Any other failure is returned. */
  lemma OtherFailureIsReturned(cs: CaseSpec, ws: Worlds, c: nat)
    requires FaultOf(cs, ws, c, 0).Some? && !Has(FaultOf(cs, ws, c, 0).value, Forbidden)
    ensures var n := CreateNs(cs, ws, c);
      && Outcome(cs, ws, c, n, false) && n.err == Some(Wrapped(FaultOf(cs, ws, c, 0).value))
      && n.worlds(cs.fleet.clusterOf(c)).store == Finds(cs, ws, c).store
  {
  }

  /** Setup succeeds where calls are answered, and reaches every client. */
  lemma {:induction false} SetupSucceeds(cs: CaseSpec, ws: Worlds, clients: seq<nat>)
    requires forall c :: c in clients ==> KnowsNamespaces(cs, c) && Faultless(EnvOf(cs, c))
    ensures SetupAll(cs, ws, clients).err.None? && SetupAll(cs, ws, clients).reached == clients
  {
    if clients == [] {
    } else {
      var n := |clients| - 1;
      SetupSucceeds(cs, ws, clients[..n]);
      var before := SetupAll(cs, ws, clients[..n]).worlds;
      var next := before(cs.fleet.clusterOf(clients[n])).calls;
      assert EnvOf(cs, clients[n]).fault(next).None?;
      NamespaceAvailable(cs, before, clients[n]);
    }
  }

  // ----- the start of a step -----

  /** A step that is not lazy starts with what setup has left. */
  lemma EagerStart(cs: CaseSpec, ws: Worlds, step: StepSpec)
    requires !step.lazy
    ensures LazyStart(cs, ws, step) == NsCreated(ws, [], [], None)
  {
  }

  /** A lazy step that has no client does not run; and neither does one that cannot have the namespace. */
  lemma FailedStart(cs: CaseSpec, p: Progress, step: StepSpec, stage: nat)
    requires step.lazy && (step.client.Err? || CreateNs(cs, p.worlds, step.client.value).err.Some?)
    ensures var q := StepNext(cs, p, step, stage);
      && q.stopped && q.reached == p.reached && q.cleanups == p.cleanups
      && q.worlds == if step.client.Err? then p.worlds else CreateNs(cs, p.worlds, step.client.value).worlds
  {
  }

  /** Any other lazy step makes the namespace available through its own client first, and runs in what that leaves. */
  lemma LazyStepReaches(cs: CaseSpec, p: Progress, step: StepSpec, stage: nat)
    requires step.lazy && step.client.Ok?
    requires KnowsNamespaces(cs, step.client.value) && FaultOf(cs, p.worlds, step.client.value, 0).None?
    ensures var c, q := step.client.value, StepNext(cs, p, step, stage);
      var start := CreateNs(cs, p.worlds, c);
      && Held(cs, start.worlds, cs.fleet.clusterOf(c)) && q.reached == p.reached + [c]
      && q.worlds == step.run(start.worlds).worlds && (q.stopped <==> step.run(start.worlds).errs != [])
      && q.cleanups == p.cleanups + start.cleanups + step.run(start.worlds).cleanups
  {
    NamespaceAvailable(cs, p.worlds, step.client.value);
  }

  // ----- cleaning up -----

  /** The clean-up of an object fails only if its call does; that the object is gone already is fine. */
  lemma ObjectCleanup(cs: CaseSpec, ws: Worlds, c: nat, key: Key)
    ensures var after := CleanUp(cs, ws, DeleteObject(c, key));
      after.1 <==> FaultOf(cs, ws, c, 0).Some? || Served(EnvOf(cs, c).disc, key.gvk).None?
  {
  }

  /** A namespace that the user supplied and that was there is left alone. */
  lemma SuppliedIsKept(cs: CaseSpec, ws: Worlds, c: nat)
    requires cs.userSupplied
    ensures CleanUp(cs, ws, DeleteNamespace(c, true)) == (ws, false)
  {
  }

  /** The worlds after `i` looks at the namespace. */
  function AfterLooks(cs: CaseSpec, ws: Worlds, c: nat, i: nat): Worlds
  {
    if i == 0 then ws else CallGet(cs.fleet, AfterLooks(cs, ws, c, i - 1), c, NsKey(cs)).0
  }

  /** The i-th look is answered NotFound. */
  ghost predicate SeenGone(cs: CaseSpec, ws: Worlds, c: nat, i: nat)
  {
    var got := CallGet(cs.fleet, AfterLooks(cs, ws, c, i), c, NsKey(cs)).1;
    got.Err? && Has(got.error, NotFound)
  }

  lemma {:induction false} LooksShift(cs: CaseSpec, ws: Worlds, c: nat, i: nat)
    ensures AfterLooks(cs, CallGet(cs.fleet, ws, c, NsKey(cs)).0, c, i) == AfterLooks(cs, ws, c, i + 1)
  {
    if i == 0 {
    } else {
      LooksShift(cs, ws, c, i - 1);
    }
  }

  lemma SeenShift(cs: CaseSpec, ws: Worlds, c: nat, i: nat)
    ensures SeenGone(cs, CallGet(cs.fleet, ws, c, NsKey(cs)).0, c, i) <==> SeenGone(cs, ws, c, i + 1)
  {
    LooksShift(cs, ws, c, i);
  }

  lemma {:induction false} GoneIsNoticed(cs: CaseSpec, ws: Worlds, c: nat, polls: nat, i: nat)
    requires i <= polls && SeenGone(cs, ws, c, i)
    ensures PollGone(cs, ws, c, polls).1.None?
    decreases polls
  {
    assert AfterLooks(cs, ws, c, 0) == ws;
    if !SeenGone(cs, ws, c, 0) {
      SeenShift(cs, ws, c, i - 1);
      GoneIsNoticed(cs, CallGet(cs.fleet, ws, c, NsKey(cs)).0, c, polls - 1, i - 1);
    }
  }

  lemma {:induction false} NoticedIsGone(cs: CaseSpec, ws: Worlds, c: nat, polls: nat) returns (i: nat)
    requires PollGone(cs, ws, c, polls).1.None?
    ensures i <= polls && SeenGone(cs, ws, c, i)
    decreases polls
  {
    i := 0;
    assert AfterLooks(cs, ws, c, 0) == ws;
    if !SeenGone(cs, ws, c, 0) {
      i := NoticedIsGone(cs, CallGet(cs.fleet, ws, c, NsKey(cs)).0, c, polls - 1);
      SeenShift(cs, ws, c, i);
      i := i + 1;
    }
  }

  /** The wait ends well exactly when one of the looks that there is time for does not find the namespace. */
  lemma PollGoneExactly(cs: CaseSpec, ws: Worlds, c: nat, polls: nat)
    ensures PollGone(cs, ws, c, polls).1.None? <==> exists i: nat :: i <= polls && SeenGone(cs, ws, c, i)
  {
    if PollGone(cs, ws, c, polls).1.None? { var i := NoticedIsGone(cs, ws, c, polls); }
    if i: nat :| i <= polls && SeenGone(cs, ws, c, i) { GoneIsNoticed(cs, ws, c, polls, i); }
  }

  /** The namespace is deleted exactly when the call is accepted or answered NotFound, and then some look in time does
      not find it. */
  lemma DeleteNsExactly(cs: CaseSpec, ws: Worlds, c: nat)
    ensures var deleted := CallDelete(cs.fleet, ws, c, NsKey(cs));
      DeleteNs(cs, ws, c).1.None? <==>
        (deleted.1.None? || Has(deleted.1.value, NotFound)) &&
        exists i: nat :: i <= cs.polls && SeenGone(cs, deleted.0, c, i)
  {
    PollGoneExactly(cs, CallDelete(cs.fleet, ws, c, NsKey(cs)).0, c, cs.polls);
  }

  /** Where calls are answered, deletions take effect at once and nobody else creates the namespace, deleting it
      succeeds, even where there is none. */
  lemma DeleteNsSucceeds(cs: CaseSpec, ws: Worlds, c: nat)
    requires KnowsNamespaces(cs, c) && Faultless(EnvOf(cs, c)) && NeverAppears(cs)
    requires forall n :: !EnvOf(cs, c).lingers(n)
    ensures DeleteNs(cs, ws, c).1.None? && !Held(cs, DeleteNs(cs, ws, c).0, cs.fleet.clusterOf(c))
  {
    var deleted := CallDelete(cs.fleet, ws, c, NsKey(cs));
    var n := ws(cs.fleet.clusterOf(c)).calls;
    assert EnvOf(cs, c).fault(n).None? && EnvOf(cs, c).fault(n + 1).None? && !EnvOf(cs, c).lingers(n);
    assert NeverCreated(EnvOf(cs, c), NsKey(cs));
    assert !Held(cs, deleted.0, cs.fleet.clusterOf(c));
    assert AfterLooks(cs, deleted.0, c, 0) == deleted.0;
    assert SeenGone(cs, deleted.0, c, 0);
  }
}
