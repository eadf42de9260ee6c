/** What a run of a test case does to namespaces, whatever its clients, its errors and the order of setup. */
module CaseSafety {
  import opened Json
  import opened Errors
  import opened Objects
  import opened Cluster
  import opened Testing
  import opened ReportTotals
  import opened CaseRun

  // ----- the namespace in each cluster -----

  predicate Held(cs: CaseSpec, ws: Worlds, k: nat) { NsKey(cs) in ws(k).store }

  predicate Ending(cs: CaseSpec, ws: Worlds, k: nat) { NsKey(cs) in ws(k).terminating }

  /** Other writers never create the namespace. */
  ghost predicate NeverAppears(cs: CaseSpec)
  {
    forall k: nat :: NeverCreated(cs.fleet.envs(k), NsKey(cs))
  }

  /** Other writers neither create the namespace nor remove it, unless its deletion was accepted. */
  ghost predicate Quiet(cs: CaseSpec)
  {
    forall k: nat :: QuietAt(cs.fleet.envs(k), NsKey(cs))
  }

  /** Nothing but waiting for others happened to the namespace: it did not appear, and stays unless it is ending. */
  ghost predicate Kept(cs: CaseSpec, ws: Worlds, after: Worlds, k: nat) { KeptIn(NsKey(cs), ws(k), after(k)) }

  /** The steps that a run gets to leave the namespace alone; their clean-ups are for other objects. */
  ghost predicate StepsMind(cs: CaseSpec, p: Progress)
  {
    forall i: nat :: i < |cs.steps| ==> StepMinds(cs, RunUpTo(cs, p, i), i)
  }

  ghost predicate StepMinds(cs: CaseSpec, q: Progress, i: nat)
    requires i < |cs.steps|
  {
    var s := LazyStart(cs, q.worlds, cs.steps[i]);
    !q.stopped && s.err.None? ==> OutcomeMinds(cs, s.worlds, cs.steps[i].run(s.worlds))
  }

  ghost predicate OutcomeMinds(cs: CaseSpec, ws: Worlds, o: StepOutcome)
  {
    && (forall k: nat :: Kept(cs, ws, o.worlds, k))
    && (forall cleanup :: cleanup in o.cleanups ==> cleanup.DeleteObject? && !Touches(cs, cleanup.key))
  }

  // ----- single calls -----

  lemma GetKeeps(cs: CaseSpec, ws: Worlds, c: nat, k: nat)
    requires Quiet(cs)
    ensures var got := CallGet(cs.fleet, ws, c, NsKey(cs));
      && Kept(cs, ws, got.0, k)
      && (got.1.Err? && Has(got.1.error, NotFound) ==> !Held(cs, got.0, cs.fleet.clusterOf(c)))
  {
    assert QuietAt(cs.fleet.envs(cs.fleet.clusterOf(c)), NsKey(cs));
  }

  lemma CreateKeeps(cs: CaseSpec, ws: Worlds, c: nat, k: nat)
    requires Quiet(cs)
    ensures var created := CallCreate(cs.fleet, ws, c, NsKey(cs), NsObject(cs));
      var at := cs.fleet.clusterOf(c);
      && (created.1.Some? || k != at ==> Kept(cs, ws, created.0, k))
      && (created.1.None? ==>
        (Ending(cs, created.0, at) ==> Ending(cs, ws, at)) && !(Held(cs, ws, at) && !Ending(cs, ws, at)))
  {
    assert QuietAt(cs.fleet.envs(cs.fleet.clusterOf(c)), NsKey(cs));
  }

  lemma DeleteObjectKeeps(cs: CaseSpec, ws: Worlds, c: nat, key: Key, k: nat)
    requires Quiet(cs) && !Touches(cs, key)
    ensures Kept(cs, ws, CallDelete(cs.fleet, ws, c, key).0, k)
  {
    assert QuietAt(cs.fleet.envs(cs.fleet.clusterOf(c)), NsKey(cs));
  }

  // ----- creating the namespace -----

  /** A registered deletion says whether the namespace was there: not if this very client just created it. */
  lemma CreateNsKeeps(cs: CaseSpec, ws: Worlds, c: nat, k: nat)
    requires Quiet(cs)
    ensures var n := CreateNs(cs, ws, c);
      var at := cs.fleet.clusterOf(c);
      var created := CallCreate(cs.fleet, ws, c, NsKey(cs), NsObject(cs)).1.None?;
      && (Ending(cs, n.worlds, k) ==> Ending(cs, ws, k))
      && (k != at || !created ==> Kept(cs, ws, n.worlds, k))
      && (created ==> n.err.None? && !(Held(cs, ws, at) && !Ending(cs, ws, at)))
      && n.cleanups == (if cs.skipDelete || n.err.Some? then [] else [DeleteNamespace(c, !created)])
  {
    CreateKeeps(cs, ws, c, k);
    var created := CallCreate(cs.fleet, ws, c, NsKey(cs), NsObject(cs));
    GetKeeps(cs, created.0, c, k);
  }

  // ----- accounting for the namespace during the run -----

  /** In cluster `k`: a namespace that was there stays, unmarked; one that appeared was created through a client whose
      clean-up will delete it. */
  ghost predicate Accounted(cs: CaseSpec, before: Worlds, ws: Worlds, cleanups: seq<Cleanup>, k: nat)
  {
    && !Ending(cs, ws, k)
    && (Held(cs, before, k) ==> Held(cs, ws, k) && !CreatedHere(cs, cleanups, k))
    && (Held(cs, ws, k) && !Held(cs, before, k) && !cs.skipDelete ==> CreatedHere(cs, cleanups, k))
  }

  ghost predicate CreatedHere(cs: CaseSpec, cleanups: seq<Cleanup>, k: nat)
  {
    exists c :: DeleteNamespace(c, false) in cleanups && cs.fleet.clusterOf(c) == k
  }

  lemma KeptAccounts(cs: CaseSpec, before: Worlds, ws: Worlds, cleanups: seq<Cleanup>, after: Worlds,
                     more: seq<Cleanup>, k: nat)
    requires Accounted(cs, before, ws, cleanups, k) && Kept(cs, ws, after, k)
    requires forall c :: DeleteNamespace(c, false) in more ==> cs.fleet.clusterOf(c) != k
    ensures Accounted(cs, before, after, cleanups + more, k)
  {
  }

  lemma CreateNsAccounts(cs: CaseSpec, before: Worlds, ws: Worlds, cleanups: seq<Cleanup>, c: nat, k: nat)
    requires Quiet(cs) && Accounted(cs, before, ws, cleanups, k)
    ensures Accounted(cs, before, CreateNs(cs, ws, c).worlds, cleanups + CreateNs(cs, ws, c).cleanups, k)
  {
    CreateNsKeeps(cs, ws, c, k);
    var n := CreateNs(cs, ws, c);
    var created := CallCreate(cs.fleet, ws, c, NsKey(cs), NsObject(cs)).1.None?;
    if k == cs.fleet.clusterOf(c) && created {
      if !cs.skipDelete { assert DeleteNamespace(c, false) in cleanups + n.cleanups; }
    } else {
      KeptAccounts(cs, before, ws, cleanups, n.worlds, n.cleanups, k);
    }
  }

  lemma {:induction false} SetupAccounts(cs: CaseSpec, ws: Worlds, clients: seq<nat>, k: nat)
    requires Quiet(cs) && !Ending(cs, ws, k)
    ensures var s := SetupAll(cs, ws, clients); Accounted(cs, ws, s.worlds, s.cleanups, k)
  {
    if clients == [] {
    } else {
      var n := |clients| - 1;
      SetupAccounts(cs, ws, clients[..n], k);
      var s := SetupAll(cs, ws, clients[..n]);
      if s.err.None? { CreateNsAccounts(cs, ws, s.worlds, s.cleanups, clients[n], k); }
    }
  }

  lemma LazyStartAccounts(cs: CaseSpec, before: Worlds, ws: Worlds, cleanups: seq<Cleanup>, step: StepSpec, k: nat)
    requires Quiet(cs) && Accounted(cs, before, ws, cleanups, k)
    ensures var s := LazyStart(cs, ws, step); Accounted(cs, before, s.worlds, cleanups + s.cleanups, k)
  {
    assert cleanups + [] == cleanups;
    if step.lazy && step.client.Ok? { CreateNsAccounts(cs, before, ws, cleanups, step.client.value, k); }
  }

  lemma RunAccounts(cs: CaseSpec, before: Worlds, p: Progress, k: nat)
    requires Quiet(cs) && StepsMind(cs, p) && Accounted(cs, before, p.worlds, p.cleanups, k)
    ensures var q := RunUpTo(cs, p, |cs.steps|); Accounted(cs, before, q.worlds, q.cleanups, k)
  {
    var inv := (q: Progress, i: nat) => Accounted(cs, before, q.worlds, q.cleanups, k);
    forall i: nat | i < |cs.steps| && inv(RunUpTo(cs, p, i), i) ensures inv(GoOn(cs, RunUpTo(cs, p, i), i), i + 1) {
      var q := RunUpTo(cs, p, i);
      if !q.stopped { StepAccounts(cs, before, q, i, k); }
    }
    RunKeeps(cs, p, inv, |cs.steps|);
  }

  lemma StepAccounts(cs: CaseSpec, before: Worlds, q: Progress, i: nat, k: nat)
    requires i < |cs.steps| && !q.stopped && StepMinds(cs, q, i)
    requires Quiet(cs) && Accounted(cs, before, q.worlds, q.cleanups, k)
    ensures var r := StepNext(cs, q, cs.steps[i], i + 1); Accounted(cs, before, r.worlds, r.cleanups, k)
  {
    var step := cs.steps[i];
    LazyStartAccounts(cs, before, q.worlds, q.cleanups, step, k);
    var s := LazyStart(cs, q.worlds, step);
    assert q.cleanups + (s.cleanups + []) == q.cleanups + s.cleanups;
    if s.err.None? {
      var o := step.run(s.worlds);
      assert OutcomeMinds(cs, s.worlds, o);
      KeptAccounts(cs, before, s.worlds, q.cleanups + s.cleanups, o.worlds, o.cleanups, k);
      assert q.cleanups + (s.cleanups + o.cleanups) == q.cleanups + s.cleanups + o.cleanups;
    }
  }

  lemma RanAccounts(cs: CaseSpec, ws: Worlds, order: seq<string>, k: nat)
    requires Quiet(cs) && Orders(cs, order) && StepsMind(cs, AfterSetup(cs, ws, order)) && !Ending(cs, ws, k)
    ensures var p := Ran(cs, ws, order); Accounted(cs, ws, p.worlds, p.cleanups, k)
  {
    if EagerClients(cs).Ok? {
      SetupAccounts(cs, ws, InOrder(EagerClients(cs).value, order), k);
    }
    RunAccounts(cs, ws, AfterSetup(cs, ws, order), k);
  }

  // ----- clean-ups -----

  /** A run registers namespace deletions, and deletions of other objects. */
  ghost predicate OthersOnly(cs: CaseSpec, cleanups: seq<Cleanup>)
  {
    forall cleanup :: cleanup in cleanups && cleanup.DeleteObject? ==> !Touches(cs, cleanup.key)
  }

  lemma {:induction false} PollEnds(cs: CaseSpec, ws: Worlds, c: nat, polls: nat, k: nat)
    requires NeverAppears(cs)
    ensures var r, at := PollGone(cs, ws, c, polls), cs.fleet.clusterOf(c);
      && (k != at ==> r.0(k) == ws(k)) && (Held(cs, r.0, k) ==> Held(cs, ws, k))
      && (r.1.None? ==> !Held(cs, r.0, at))
  {
    assert NeverCreated(cs.fleet.envs(cs.fleet.clusterOf(c)), NsKey(cs));
    if polls == 0 {
    } else {
      PollEnds(cs, CallGet(cs.fleet, ws, c, NsKey(cs)).0, c, polls - 1, k);
    }
  }

  /** A successful deletion leaves the namespace absent from the client's cluster; whatever its outcome, the namespace
      appears nowhere and other clusters are left alone. */
  lemma DeleteNsEnds(cs: CaseSpec, ws: Worlds, c: nat, k: nat)
    requires NeverAppears(cs)
    ensures var r, at := DeleteNs(cs, ws, c), cs.fleet.clusterOf(c);
      && (k != at ==> r.0(k) == ws(k)) && (Held(cs, r.0, k) ==> Held(cs, ws, k))
      && (r.1.None? ==> !Held(cs, r.0, at))
  {
    DeleteAddsNothing(cs, ws, c, NsKey(cs), k);
    PollEnds(cs, CallDelete(cs.fleet, ws, c, NsKey(cs)).0, c, cs.polls, k);
  }

  lemma DeleteAddsNothing(cs: CaseSpec, ws: Worlds, c: nat, key: Key, k: nat)
    requires NeverAppears(cs)
    ensures Held(cs, CallDelete(cs.fleet, ws, c, key).0, k) ==> Held(cs, ws, k)
  {
    assert NeverCreated(cs.fleet.envs(cs.fleet.clusterOf(c)), NsKey(cs));
  }

  ghost predicate DeletedHere(cs: CaseSpec, cleanups: seq<Cleanup>, k: nat)
  {
    exists cleanup :: cleanup in cleanups && Effective(cs, cleanup) && cs.fleet.clusterOf(cleanup.client) == k
  }

  /** No clean-up makes the namespace appear, and an effective one that succeeds removes it. */
  lemma CleanUpEnds(cs: CaseSpec, ws: Worlds, cleanup: Cleanup, k: nat)
    requires NeverAppears(cs)
    ensures Held(cs, CleanUp(cs, ws, cleanup).0, k) ==> Held(cs, ws, k)
    ensures DeletedHere(cs, [cleanup], k) && !CleanUp(cs, ws, cleanup).1 ==> !Held(cs, CleanUp(cs, ws, cleanup).0, k)
  {
    match cleanup
    case DeleteObject(c, key) => DeleteAddsNothing(cs, ws, c, key, k);
    case DeleteNamespace(c, _) => if Effective(cs, cleanup) { DeleteNsEnds(cs, ws, c, k); }
  }

  /** After clean-ups that all succeed the namespace is absent where one of them deletes it, and new nowhere. */
  lemma {:induction false} CleanUpAllEnds(cs: CaseSpec, ws: Worlds, cleanups: seq<Cleanup>, k: nat)
    requires NeverAppears(cs) && !CleanUpAll(cs, ws, cleanups).1
    ensures var r := CleanUpAll(cs, ws, cleanups).0;
      (Held(cs, r, k) ==> Held(cs, ws, k)) && (DeletedHere(cs, cleanups, k) ==> !Held(cs, r, k))
  {
    if cleanups == [] {
    } else {
      var n := |cleanups| - 1;
      CleanUpEnds(cs, ws, cleanups[n], k);
      CleanUpAllEnds(cs, CleanUp(cs, ws, cleanups[n]).0, cleanups[..n], k);
      DeletedHereSplit(cs, cleanups, k);
    }
  }

  lemma CleanUpKeeps(cs: CaseSpec, ws: Worlds, cleanup: Cleanup, k: nat)
    requires Quiet(cs) && OthersOnly(cs, [cleanup]) && !DeletedHere(cs, [cleanup], k)
    ensures Kept(cs, ws, CleanUp(cs, ws, cleanup).0, k)
  {
    assert cleanup in [cleanup];
    QuietNeverAppears(cs);
    match cleanup
    case DeleteObject(c, key) => DeleteObjectKeeps(cs, ws, c, key, k);
    case DeleteNamespace(c, _) => if Effective(cs, cleanup) { DeleteNsEnds(cs, ws, c, k); }
  }

  /** Where no clean-up deletes the namespace, and quiet other writers leave it alone, it is kept. */
  lemma {:induction false} CleanUpAllKeeps(cs: CaseSpec, ws: Worlds, cleanups: seq<Cleanup>, k: nat)
    requires Quiet(cs) && OthersOnly(cs, cleanups) && !DeletedHere(cs, cleanups, k)
    ensures Kept(cs, ws, CleanUpAll(cs, ws, cleanups).0, k)
  {
    if cleanups == [] {
    } else {
      var n := |cleanups| - 1;
      var front, last := cleanups[..n], cleanups[n];
      assert last in cleanups;
      DeletedHereSplit(cs, cleanups, k);
      CleanUpKeeps(cs, ws, last, k);
      CleanUpAllKeeps(cs, CleanUp(cs, ws, last).0, front, k);
    }
  }

  lemma QuietNeverAppears(cs: CaseSpec)
    requires Quiet(cs)
    ensures NeverAppears(cs)
  {
    forall k: nat ensures NeverCreated(cs.fleet.envs(k), NsKey(cs)) { assert QuietAt(cs.fleet.envs(k), NsKey(cs)); }
  }

  lemma DeletedHereSplit(cs: CaseSpec, cleanups: seq<Cleanup>, k: nat)
    requires cleanups != []
    ensures var n := |cleanups| - 1;
      DeletedHere(cs, cleanups, k) <==> DeletedHere(cs, cleanups[..n], k) || DeletedHere(cs, [cleanups[n]], k)
  {
  }

  lemma StepRegistersOthers(cs: CaseSpec, p: Progress, i: nat)
    requires i < |cs.steps| && !p.stopped && StepMinds(cs, p, i) && OthersOnly(cs, p.cleanups)
    ensures OthersOnly(cs, StepNext(cs, p, cs.steps[i], i + 1).cleanups)
  {
  }

  lemma RunRegistersOthers(cs: CaseSpec, p: Progress)
    requires StepsMind(cs, p) && OthersOnly(cs, p.cleanups)
    ensures OthersOnly(cs, RunUpTo(cs, p, |cs.steps|).cleanups)
  {
    var inv := (q: Progress, i: nat) => OthersOnly(cs, q.cleanups);
    forall i: nat | i < |cs.steps| && inv(RunUpTo(cs, p, i), i) ensures inv(GoOn(cs, RunUpTo(cs, p, i), i), i + 1) {
      var q := RunUpTo(cs, p, i);
      if !q.stopped { StepRegistersOthers(cs, q, i); }
    }
    RunKeeps(cs, p, inv, |cs.steps|);
  }

  lemma {:induction false} SetupRegistersNamespaces(cs: CaseSpec, ws: Worlds, clients: seq<nat>)
    ensures forall cleanup :: cleanup in SetupAll(cs, ws, clients).cleanups ==> cleanup.DeleteNamespace?
  {
    if clients == [] {
    } else {
      SetupRegistersNamespaces(cs, ws, clients[..|clients| - 1]);
    }
  }

  lemma RanRegistersOthers(cs: CaseSpec, ws: Worlds, order: seq<string>)
    requires Orders(cs, order) && StepsMind(cs, AfterSetup(cs, ws, order))
    ensures OthersOnly(cs, Ran(cs, ws, order).cleanups)
  {
    if EagerClients(cs).Ok? { SetupRegistersNamespaces(cs, ws, InOrder(EagerClients(cs).value, order)); }
    RunRegistersOthers(cs, AfterSetup(cs, ws, order));
  }

  // ----- main results -----

  /** A user-supplied namespace: when all clean-ups succeed, exactly the clusters that had it before have it after. */
  lemma UserNamespaceRestored(cs: CaseSpec, ws: Worlds, order: seq<string>, k: nat)
    requires Quiet(cs) && Orders(cs, order) && StepsMind(cs, AfterSetup(cs, ws, order)) && !Ending(cs, ws, k)
    requires cs.userSupplied && !cs.skipDelete
    requires var p := Ran(cs, ws, order); !CleanUpAll(cs, p.worlds, p.cleanups).1
    ensures var p := Ran(cs, ws, order); Held(cs, CleanUpAll(cs, p.worlds, p.cleanups).0, k) <==> Held(cs, ws, k)
  {
    var p := Ran(cs, ws, order);
    RanAccounts(cs, ws, order, k);
    RanRegistersOthers(cs, ws, order);
    QuietNeverAppears(cs);
    CleanUpAllEnds(cs, p.worlds, p.cleanups, k);
    if !DeletedHere(cs, p.cleanups, k) { CleanUpAllKeeps(cs, p.worlds, p.cleanups, k); }
    if CreatedHere(cs, p.cleanups, k) {
      var c :| DeleteNamespace(c, false) in p.cleanups && cs.fleet.clusterOf(c) == k;
      assert Effective(cs, DeleteNamespace(c, false));
    }
    if DeletedHere(cs, p.cleanups, k) {
      var cleanup :| cleanup in p.cleanups && Effective(cs, cleanup) && cs.fleet.clusterOf(cleanup.client) == k;
      assert cleanup == DeleteNamespace(cleanup.client, false);
    }
  }

  /** Where a client made the namespace available, the run registered a deletion, unless it skips deletions. */
  lemma RunRegistered(cs: CaseSpec, p: Progress, c: nat)
    requires !cs.skipDelete && Registered(p, c)
    ensures Registered(RunUpTo(cs, p, |cs.steps|), c)
  {
    var inv := (q: Progress, i: nat) => Registered(q, c);
    forall i: nat | i < |cs.steps| && inv(RunUpTo(cs, p, i), i) ensures inv(GoOn(cs, RunUpTo(cs, p, i), i), i + 1) {
      var q := RunUpTo(cs, p, i);
      if !q.stopped { StepRegistered(cs, q, cs.steps[i], i + 1, c); }
    }
    RunKeeps(cs, p, inv, |cs.steps|);
  }

  ghost predicate Registered(p: Progress, c: nat)
  {
    c in p.reached ==> exists e :: DeleteNamespace(c, e) in p.cleanups
  }

  lemma StepRegistered(cs: CaseSpec, p: Progress, step: StepSpec, stage: nat, c: nat)
    requires !cs.skipDelete && Registered(p, c)
    ensures Registered(StepNext(cs, p, step, stage), c)
  {
  }

  lemma {:induction false} SetupRegistered(cs: CaseSpec, ws: Worlds, clients: seq<nat>, c: nat)
    requires !cs.skipDelete && c in SetupAll(cs, ws, clients).reached
    ensures exists e :: DeleteNamespace(c, e) in SetupAll(cs, ws, clients).cleanups
  {
    var n := |clients| - 1;
    var before, now := SetupAll(cs, ws, clients[..n]), SetupAll(cs, ws, clients);
    if c in before.reached {
      SetupRegistered(cs, ws, clients[..n], c);
      var e :| DeleteNamespace(c, e) in before.cleanups;
      assert DeleteNamespace(c, e) in now.cleanups;
    } else {
      assert now.cleanups[|now.cleanups| - 1] in now.cleanups;
    }
  }

  /** An ephemeral namespace, when all clean-ups succeed, is absent from every cluster in which a client made it
      available: whatever the steps do to it and register, and whatever other writers do but create it. */
  lemma EphemeralNamespaceGone(cs: CaseSpec, ws: Worlds, order: seq<string>, c: nat)
    requires NeverAppears(cs) && Orders(cs, order) && !cs.userSupplied && !cs.skipDelete
    requires var p := Ran(cs, ws, order); c in p.reached && !CleanUpAll(cs, p.worlds, p.cleanups).1
    ensures var p := Ran(cs, ws, order); !Held(cs, CleanUpAll(cs, p.worlds, p.cleanups).0, cs.fleet.clusterOf(c))
  {
    var start, p := AfterSetup(cs, ws, order), Ran(cs, ws, order);
    if c in start.reached { SetupRegistered(cs, ws, InOrder(EagerClients(cs).value, order), c); }
    RunRegistered(cs, start, c);
    var existed :| DeleteNamespace(c, existed) in p.cleanups;
    CleanUpAllEnds(cs, p.worlds, p.cleanups, cs.fleet.clusterOf(c));
    assert Effective(cs, DeleteNamespace(c, existed));
  }

  // ----- what is reported, and in which order clean-ups run -----

  /** Setup and then the first steps in order are reported, up to the first failure; a run has stopped just when that
      came. */
  ghost predicate ReportsPrefix(cs: CaseSpec, p: Progress, i: nat)
  {
    && OnlyLastFails(p.records) && 0 < |p.records| <= i + 1 <= |cs.steps| + 1
    && p.records[0].name == "setup" && p.records[0].assertions == 0
    && (forall j :: 1 <= j < |p.records| ==> p.records[j].name == cs.steps[j - 1].name)
    && (forall j :: 1 <= j < |p.records| ==>
      p.records[j].assertions == cs.steps[j - 1].asserts + cs.steps[j - 1].errors)
    && (p.stopped <==> p.records[|p.records| - 1].failed) && (!p.stopped ==> |p.records| == i + 1)
  }

  lemma StepReportsPrefix(cs: CaseSpec, p: Progress, i: nat)
    requires i < |cs.steps| && ReportsPrefix(cs, p, i) && !p.stopped
    ensures ReportsPrefix(cs, StepNext(cs, p, cs.steps[i], i + 1), i + 1)
  {
    var q := StepNext(cs, p, cs.steps[i], i + 1);
    assert q.records[..i + 1] == p.records;
    assert forall j :: 0 <= j <= i ==> q.records[j] == p.records[j];
  }

  lemma ReportsUpToFailure(cs: CaseSpec, ws: Worlds, order: seq<string>)
    requires Orders(cs, order)
    ensures ReportsPrefix(cs, Ran(cs, ws, order), |cs.steps|)
  {
    var inv := (q: Progress, i: nat) => ReportsPrefix(cs, q, i);
    forall i: nat | i < |cs.steps| && inv(RunUpTo(cs, AfterSetup(cs, ws, order), i), i)
      ensures inv(GoOn(cs, RunUpTo(cs, AfterSetup(cs, ws, order), i), i), i + 1)
    {
      var q := RunUpTo(cs, AfterSetup(cs, ws, order), i);
      if !q.stopped { StepReportsPrefix(cs, q, i); }
    }
    RunKeeps(cs, AfterSetup(cs, ws, order), inv, |cs.steps|);
  }

  /** Registered clean-ups by stage: those of setup, then for each step the namespace of its lazy start and then the
      objects it created. */
  ghost predicate Staged(cleanups: seq<Cleanup>, stages: seq<nat>, last: nat)
  {
    && |stages| == |cleanups| && (forall i :: 0 <= i < |stages| ==> stages[i] <= last)
    && (forall i, j :: 0 <= i < j < |stages| ==> stages[i] <= stages[j])
    && (forall i, j :: 0 <= i < j < |stages| && stages[i] == stages[j] && cleanups[j].DeleteNamespace? ==>
      cleanups[i].DeleteNamespace?)
  }

  lemma AppendStage(cleanups: seq<Cleanup>, stages: seq<nat>, last: nat, namespaces: seq<Cleanup>,
                    objects: seq<Cleanup>)
    requires Staged(cleanups, stages, last)
    requires (forall c :: c in namespaces ==> c.DeleteNamespace?) && (forall c :: c in objects ==> c.DeleteObject?)
    ensures Staged(cleanups + (namespaces + objects), stages + Repeat(|namespaces + objects|, last + 1), last + 1)
  {
    var n, all := |cleanups|, cleanups + (namespaces + objects);
    forall j | n + |namespaces| <= j < |all| ensures all[j].DeleteObject? {
      assert all[j] == objects[j - n - |namespaces|] && all[j] in objects;
    }
    forall i | n <= i < n + |namespaces| ensures all[i].DeleteNamespace? {
      assert all[i] == namespaces[i - n] && all[i] in namespaces;
    }
  }

  /** The steps that a run gets to register clean-ups of objects only. */
  ghost predicate StepsCleanObjects(cs: CaseSpec, p: Progress)
  {
    forall i: nat :: i < |cs.steps| ==> StepCleansObjects(cs, RunUpTo(cs, p, i), i)
  }

  ghost predicate StepCleansObjects(cs: CaseSpec, q: Progress, i: nat)
    requires i < |cs.steps|
  {
    var s := LazyStart(cs, q.worlds, cs.steps[i]);
    !q.stopped && s.err.None? ==>
      forall cleanup :: cleanup in cs.steps[i].run(s.worlds).cleanups ==> cleanup.DeleteObject?
  }

  lemma StepIsStaged(cs: CaseSpec, p: Progress, i: nat)
    requires i < |cs.steps| && !p.stopped && StepCleansObjects(cs, p, i) && Staged(p.cleanups, p.stages, i)
    ensures var q := StepNext(cs, p, cs.steps[i], i + 1); Staged(q.cleanups, q.stages, i + 1)
  {
    var step := cs.steps[i];
    var s := LazyStart(cs, p.worlds, step);
    if s.err.None? {
      AppendStage(p.cleanups, p.stages, i, s.cleanups, step.run(s.worlds).cleanups);
    } else {
      AppendStage(p.cleanups, p.stages, i, s.cleanups, []);
    }
  }

  lemma RunIsStaged(cs: CaseSpec, p: Progress)
    requires StepsCleanObjects(cs, p) && Staged(p.cleanups, p.stages, 0)
    ensures var q := RunUpTo(cs, p, |cs.steps|); Staged(q.cleanups, q.stages, |cs.steps|)
  {
    var inv := (q: Progress, i: nat) => Staged(q.cleanups, q.stages, i);
    forall i: nat | i < |cs.steps| && inv(RunUpTo(cs, p, i), i) ensures inv(GoOn(cs, RunUpTo(cs, p, i), i), i + 1) {
      var q := RunUpTo(cs, p, i);
      if !q.stopped { StepIsStaged(cs, q, i); }
    }
    RunKeeps(cs, p, inv, |cs.steps|);
  }

  lemma RanIsStaged(cs: CaseSpec, ws: Worlds, order: seq<string>)
    requires Orders(cs, order) && StepsCleanObjects(cs, AfterSetup(cs, ws, order))
    ensures var p := Ran(cs, ws, order); Staged(p.cleanups, p.stages, |cs.steps|)
  {
    if EagerClients(cs).Ok? { SetupRegistersNamespaces(cs, ws, InOrder(EagerClients(cs).value, order)); }
    RunIsStaged(cs, AfterSetup(cs, ws, order));
  }

  function Execute(cs: CaseSpec, ws: Worlds, cleanups: seq<Cleanup>): Worlds
  {
    if cleanups == [] then ws else Execute(cs, CleanUp(cs, ws, cleanups[0]).0, cleanups[1..])
  }

  /** Clean-ups run last in, first out. */
  lemma {:induction false} CleanUpsRunBackwards(cs: CaseSpec, ws: Worlds, cleanups: seq<Cleanup>)
    ensures CleanUpAll(cs, ws, cleanups).0 == Execute(cs, ws, Reversed(cleanups))
  {
    if cleanups == [] {
    } else {
      var front, last := cleanups[..|cleanups| - 1], cleanups[|cleanups| - 1];
      assert front + [last] == cleanups;
      ReversedAppend(front, last);
      CleanUpsRunBackwards(cs, CleanUp(cs, ws, last).0, front);
      ExecuteFirst(cs, ws, last, Reversed(front));
    }
  }

  lemma ExecuteFirst(cs: CaseSpec, ws: Worlds, first: Cleanup, rest: seq<Cleanup>)
    ensures Execute(cs, ws, [first] + rest) == Execute(cs, CleanUp(cs, ws, first).0, rest)
  {
    assert ([first] + rest)[1..] == rest;
  }

  /** Objects a step created are deleted before the namespace made available at setup or at that step's lazy start: of
      two executed clean-ups, the first for an object and the second for a namespace of the same or an earlier stage. */
  lemma ObjectsBeforeNamespace(cs: CaseSpec, ws: Worlds, order: seq<string>, ofObject: nat, ofNamespace: nat)
    requires Orders(cs, order) && StepsCleanObjects(cs, AfterSetup(cs, ws, order))
    requires var p := Ran(cs, ws, order);
      ofObject < |p.cleanups| && ofNamespace < |p.cleanups| && |p.stages| == |p.cleanups|
    requires var p := Ran(cs, ws, order);
      Reversed(p.cleanups)[ofObject].DeleteObject? && Reversed(p.cleanups)[ofNamespace].DeleteNamespace?
    requires var p := Ran(cs, ws, order);
      p.stages[|p.cleanups| - 1 - ofNamespace] <= p.stages[|p.cleanups| - 1 - ofObject]
    ensures ofObject < ofNamespace
  {
    RanIsStaged(cs, ws, order);
    var p := Ran(cs, ws, order);
    StagedBackwards(p.cleanups, p.stages, |cs.steps|, ofObject, ofNamespace);
  }

  lemma StagedBackwards(cleanups: seq<Cleanup>, stages: seq<nat>, last: nat, ofObject: nat, ofNamespace: nat)
    requires Staged(cleanups, stages, last) && ofObject < |cleanups| && ofNamespace < |cleanups|
    requires Reversed(cleanups)[ofObject].DeleteObject? && Reversed(cleanups)[ofNamespace].DeleteNamespace?
    requires stages[|cleanups| - 1 - ofNamespace] <= stages[|cleanups| - 1 - ofObject]
    ensures ofObject < ofNamespace
  {
    ReversedAt(cleanups, ofObject);
    ReversedAt(cleanups, ofNamespace);
  }
}
