/** Which clients setup has for the steps that are not lazy, and through which it makes the namespace available. */
module EagerSetup {
  import opened Outcomes
  import opened Errors
  import opened CaseRun

  /** There is a client for the empty path and for each kubeconfig of a step that is not lazy. */
  lemma {:induction false} EagerPaths(cs: CaseSpec, i: nat, path: string)
    requires i <= |cs.steps| && EagerUpTo(cs, i).Ok?
    ensures var clients := EagerUpTo(cs, i).value;
      && "" in clients && Ok(clients[""]) == cs.defaultClient
      && (path in clients <==>
            path == "" || exists j :: 0 <= j < i && !cs.steps[j].lazy && cs.steps[j].kubeconfig == path)
  {
    if i == 0 {
    } else {
      EagerPaths(cs, i - 1, path);
    }
  }

  /** It is the client of the first such step: later steps share it even if they ask for another context. */
  lemma {:induction false} EagerIsFirst(cs: CaseSpec, i: nat, j: nat)
    requires j < i <= |cs.steps| && EagerUpTo(cs, i).Ok?
    requires !cs.steps[j].lazy && cs.steps[j].kubeconfig != ""
    requires forall k :: 0 <= k < j && !cs.steps[k].lazy ==> cs.steps[k].kubeconfig != cs.steps[j].kubeconfig
    ensures var path := cs.steps[j].kubeconfig;
      path in EagerUpTo(cs, i).value && cs.newClient(path, cs.steps[j].context) == Ok(EagerUpTo(cs, i).value[path])
  {
    if j < i - 1 {
      EagerIsFirst(cs, i - 1, j);
    } else {
      EagerPaths(cs, j, cs.steps[j].kubeconfig);
    }
  }

  /** The step is the first eager one with its kubeconfig, and this is not the default. */
  ghost predicate OpensPath(cs: CaseSpec, j: nat)
  {
    && j < |cs.steps| && !cs.steps[j].lazy && cs.steps[j].kubeconfig != ""
    && forall k :: 0 <= k < j && !cs.steps[k].lazy ==> cs.steps[k].kubeconfig != cs.steps[j].kubeconfig
  }

  ghost predicate Opens(cs: CaseSpec, j: nat)
    requires j < |cs.steps|
  {
    cs.newClient(cs.steps[j].kubeconfig, cs.steps[j].context).Ok?
  }

  /** The clients can be had exactly when the default client can, and the one of the first eager step with each path. */
  lemma {:induction false} EagerExactly(cs: CaseSpec, i: nat)
    requires i <= |cs.steps|
    ensures EagerUpTo(cs, i).Ok? <==>
      cs.defaultClient.Ok? && forall j: nat :: j < i && OpensPath(cs, j) ==> Opens(cs, j)
  {
    if i == 0 {
    } else {
      var m := i - 1;
      EagerExactly(cs, m);
      if EagerUpTo(cs, m).Ok? {
        EagerPaths(cs, m, cs.steps[m].kubeconfig);
        assert OpensPath(cs, m) <==> !(cs.steps[m].kubeconfig in EagerUpTo(cs, m).value || cs.steps[m].lazy);
      }
    }
  }

  // ----- exactly when every eager step gets its own client -----

  predicate Eager(cs: CaseSpec, j: nat) { j < |cs.steps| && !cs.steps[j].lazy }

  /** The client a step itself runs with. */
  function OwnClient(cs: CaseSpec, j: nat): Result<nat, Error>
    requires j < |cs.steps|
  {
    var step := cs.steps[j];
    if step.kubeconfig == "" then cs.defaultClient else cs.newClient(step.kubeconfig, step.context)
  }

  /** Setup has for every eager step the client that the step runs with. */
  ghost predicate AllServed(cs: CaseSpec)
    requires EagerClients(cs).Ok?
  {
    forall j: nat :: Eager(cs, j) ==> ServedTo(cs, j)
  }

  ghost predicate ServedTo(cs: CaseSpec, j: nat)
    requires EagerClients(cs).Ok? && j < |cs.steps|
  {
    var clients, path := EagerClients(cs).value, cs.steps[j].kubeconfig;
    path in clients && OwnClient(cs, j) == Ok(clients[path])
  }

  predicate SamePath(cs: CaseSpec, i: nat, j: nat)
  {
    Eager(cs, i) && Eager(cs, j) && cs.steps[i].kubeconfig == cs.steps[j].kubeconfig
  }

  /** All eager steps with one kubeconfig path want the same client. */
  ghost predicate OneClientPerPath(cs: CaseSpec)
  {
    forall i: nat, j: nat :: SamePath(cs, i, j) ==> OwnClient(cs, i) == OwnClient(cs, j)
  }

  /** They do when they name the same context. */
  ghost predicate OneContextPerPath(cs: CaseSpec)
  {
    forall i: nat, j: nat :: SamePath(cs, i, j) ==> cs.steps[i].context == cs.steps[j].context
  }

  lemma {:induction false} FirstWithPath(cs: CaseSpec, j: nat) returns (first: nat)
    requires Eager(cs, j)
    ensures first <= j && SamePath(cs, first, j)
    ensures forall k: nat :: k < first ==> !SamePath(cs, k, j)
  {
    if k: nat :| k < j && SamePath(cs, k, j) {
      first := FirstWithPath(cs, k);
      forall i: nat | i < first ensures !SamePath(cs, i, j) { assert !SamePath(cs, i, k); }
    } else {
      first := j;
    }
  }

  lemma FirstServes(cs: CaseSpec, j: nat)
    requires EagerClients(cs).Ok? && Eager(cs, j) && OneClientPerPath(cs)
    ensures ServedTo(cs, j)
  {
    EagerPaths(cs, |cs.steps|, cs.steps[j].kubeconfig);
    if cs.steps[j].kubeconfig != "" {
      var first := FirstWithPath(cs, j);
      assert SamePath(cs, first, j);
      forall k | 0 <= k < first && !cs.steps[k].lazy ensures cs.steps[k].kubeconfig != cs.steps[first].kubeconfig {
        assert !SamePath(cs, k, j);
      }
      EagerIsFirst(cs, |cs.steps|, first);
    }
  }

  /** Every eager step is served its own client if and only if all eager steps with one path want the same client, as
      they do when they name the same context. */
  lemma AllServedExactly(cs: CaseSpec)
    requires EagerClients(cs).Ok?
    ensures AllServed(cs) <==> OneClientPerPath(cs)
    ensures OneContextPerPath(cs) ==> AllServed(cs)
  {
    if OneClientPerPath(cs) || OneContextPerPath(cs) {
      forall j: nat | Eager(cs, j) ensures ServedTo(cs, j) { FirstServes(cs, j); }
    }
    if AllServed(cs) {
      forall i: nat, j: nat | SamePath(cs, i, j) ensures OwnClient(cs, i) == OwnClient(cs, j) {
        assert ServedTo(cs, i) && ServedTo(cs, j);
      }
    }
  }

  // ----- what setup reaches -----

  lemma {:induction false} SetupReachesAll(cs: CaseSpec, ws: Worlds, clients: seq<nat>)
    requires SetupAll(cs, ws, clients).err.None?
    ensures SetupAll(cs, ws, clients).reached == clients
  {
    if clients == [] {
    } else {
      SetupReachesAll(cs, ws, clients[..|clients| - 1]);
      assert clients == clients[..|clients| - 1] + [clients[|clients| - 1]];
    }
  }

  /** A setup that did not stop has made the namespace available through exactly the eager clients; so through the own
      client of every eager step, provided that those with one path want the same. */
  lemma SetupReaches(cs: CaseSpec, ws: Worlds, order: seq<string>)
    requires Orders(cs, order) && !AfterSetup(cs, ws, order).stopped
    ensures EagerClients(cs).Ok?
    ensures forall c :: c in AfterSetup(cs, ws, order).reached <==> c in EagerClients(cs).value.Values
    ensures OneClientPerPath(cs) ==> forall j: nat :: Eager(cs, j) ==>
      OwnClient(cs, j).Ok? && OwnClient(cs, j).value in AfterSetup(cs, ws, order).reached
  {
    var clients := EagerClients(cs).value;
    var listed := InOrder(clients, order);
    SetupReachesAll(cs, ws, listed);
    forall c ensures c in listed <==> c in clients.Values {
      if c in clients.Values {
        var path :| path in clients && clients[path] == c;
        var i :| 0 <= i < |order| && order[i] == path;
        assert listed[i] == c;
      }
    }
    AllServedExactly(cs);
    if OneClientPerPath(cs) {
      forall j: nat | Eager(cs, j) ensures OwnClient(cs, j).Ok? && OwnClient(cs, j).value in listed {
        assert ServedTo(cs, j);
      }
    }
  }

  // ----- a case whose second step is not served -----

  function StepAt(context: string, run: Worlds -> StepOutcome): StepSpec
  {
    StepSpec("", "kubeconfig", context, false, Ok(0), 0, 0, run)
  }

  /** Two steps share a path and name different contexts: setup has a client for the first one only, and in whatever
      world it runs, the namespace is not made available through the client of the second. */
  lemma LaterContextIsLost(fleet: Fleet, ns: string, run: Worlds -> StepOutcome) returns (cs: CaseSpec)
    ensures cs.fleet == fleet && cs.ns == ns && |cs.steps| == 2 && SamePath(cs, 0, 1)
    ensures EagerClients(cs).Ok? && OwnClient(cs, 0) == Ok(1) && OwnClient(cs, 1) == Ok(2)
    ensures !AllServed(cs)
    ensures forall ws, order :: Orders(cs, order) ==> 2 !in AfterSetup(cs, ws, order).reached
  {
    var newClient := (path: string, context: string) => Ok(if context == "first" then 1 else 2);
    cs := CaseSpec(ns, true, false, 0, fleet, Ok(0), newClient, [StepAt("first", run), StepAt("second", run)]);
    assert EagerUpTo(cs, 0) == Ok(map["" := 0]);
    assert EagerUpTo(cs, 1) == Ok(map["" := 0, "kubeconfig" := 1]);
    assert EagerUpTo(cs, 2) == Ok(map["" := 0, "kubeconfig" := 1]);
    assert Eager(cs, 1) && !ServedTo(cs, 1);
    forall ws, order | Orders(cs, order) ensures 2 !in AfterSetup(cs, ws, order).reached {
      SetupReachesSome(cs, ws, InOrder(EagerClients(cs).value, order));
    }
  }

  lemma {:induction false} SetupReachesSome(cs: CaseSpec, ws: Worlds, clients: seq<nat>)
    ensures forall c :: c in SetupAll(cs, ws, clients).reached ==> c in clients
  {
    if clients == [] {
    } else {
      SetupReachesSome(cs, ws, clients[..|clients| - 1]);
    }
  }
}
