/** The test case: namespaces, setup, the run and its clean-ups, proved against the functions of CaseRun. */
module Cases {
  import opened Outcomes
  import opened Errors
  import opened Cluster
  import opened Testing
  import opened CaseRun
  import opened ReportTree
  import opened ReportTotals
  import opened Report
  import CaseSafety

  class Case {
    const cs: CaseSpec
    var worlds: Worlds

    constructor (cs: CaseSpec, worlds: Worlds)
      ensures this.cs == cs && this.worlds == worlds
    {
      this.cs, this.worlds := cs, worlds;
    }

    method Get(c: nat) returns (err: Option<Error>)
      modifies this
      ensures var got := CallGet(cs.fleet, old(worlds), c, NsKey(cs)); worlds == got.0 && err == AsOption(got.1)
    {
      var got := CallGet(cs.fleet, worlds, c, NsKey(cs));
      worlds := got.0;
      return AsOption(got.1);
    }

    method DidNsExist(err: Option<Error>, c: nat) returns (existed: bool, e: Option<Error>)
      modifies this
      ensures Existed(worlds, existed, e) == DidExist(cs, old(worlds), err, c)
    {
      if err.Some? && Has(err.value, AlreadyExists) {
        return true, None;
      }
      if err.Some? && Has(err.value, Forbidden) {
        // Without permission to create it, the namespace may still exist; if that cannot be told, it is trusted to.
        var getErr := Get(c);
        if getErr.None? {
          return true, None;
        }
        if Has(getErr.value, NotFound) {
          return false, Some(Wrapped(err.value));
        }
        return true, None;
      }
      return false, err;
    }

    method CreateNamespace(test: T, c: nat) returns (err: Option<Error>)
      modifies this, test
      ensures var n := CreateNs(cs, old(worlds), c);
        worlds == n.worlds && err == n.err && test.cleanups == old(test.cleanups) + n.cleanups
          && test.failed == old(test.failed)
    {
      var created := CallCreate(cs.fleet, worlds, c, NsKey(cs), NsObject(cs));
      worlds := created.0;
      var nsExisted, e := DidNsExist(created.1, c);
      if e.Some? {
        return Some(Wrapped(e.value));
      }
      if !cs.skipDelete {
        test.Cleanup(Cleanup.DeleteNamespace(c, nsExisted));
      }
      return None;
    }

    method DeleteNamespace(c: nat) returns (err: Option<Error>)
      modifies this
      ensures (worlds, err) == DeleteNs(cs, old(worlds), c)
    {
      var deleted := CallDelete(cs.fleet, worlds, c, NsKey(cs));
      worlds := deleted.0;
      if deleted.1.Some? && !Has(deleted.1.value, NotFound) {
        return Some(Wrapped(deleted.1.value));
      }
      ghost var start := worlds;
      var polls := cs.polls;
      while true
        invariant PollGone(cs, worlds, c, polls) == PollGone(cs, start, c, cs.polls)
        decreases polls
      {
        var getErr := Get(c);
        if getErr.Some? && Has(getErr.value, NotFound) {
          return None;
        }
        if polls == 0 {
          return Some(Wrapped(ContextDone(true)));
        }
        polls := polls - 1;
      }
    }

    /** The clients of steps that are not lazy, by kubeconfig path; the default client has the empty path. */
    method ClientsByPath() returns (r: Result<map<string, nat>, Error>)
      ensures r == EagerClients(cs)
    {
      if cs.defaultClient.Err? {
        r := Err(cs.defaultClient.error);
        EagerStopped(cs, 0, |cs.steps|);
        return;
      }
      var clients := map["" := cs.defaultClient.value];
      for i := 0 to |cs.steps|
        invariant EagerUpTo(cs, i) == Ok(clients)
      {
        var step := cs.steps[i];
        if step.kubeconfig in clients || step.lazy {
          continue;
        }
        var cl := cs.newClient(step.kubeconfig, step.context);
        if cl.Err? {
          EagerStopped(cs, i + 1, |cs.steps|);
          return Err(cl.error);
        }
        clients := clients[step.kubeconfig := cl.value];
      }
      return Ok(clients);
    }

    /** The eager clients in an arbitrary order. */
    method GetEagerClients() returns (r: Result<seq<nat>, Error>, ghost order: seq<string>)
      ensures Orders(cs, order)
      ensures r == if EagerClients(cs).Err? then Err(EagerClients(cs).error)
        else Ok(InOrder(EagerClients(cs).value, order))
      ensures r.Ok? <==> EagerClients(cs).Ok?
      ensures r.Ok? ==> forall c :: c in r.value <==> c in EagerClients(cs).value.Values
    {
      order := [];
      var byPath := ClientsByPath();
      if byPath.Err? {
        return Err(byPath.error), [];
      }
      var clients: seq<nat> := [];
      var left := byPath.value.Keys;
      while left != {}
        invariant left <= byPath.value.Keys && forall path :: path in order <==> path in byPath.value && path !in left
        invariant forall i, j :: 0 <= i < j < |order| ==> order[i] != order[j]
        invariant clients == InOrder(byPath.value, order)
        decreases |left|
      {
        var path :| path in left;
        left, order, clients := left - {path}, order + [path], clients + [byPath.value[path]];
      }
      InOrderIsAll(byPath.value, order);
      r := Ok(clients);
    }

    /** Creates the namespace through every eager client up to the first error. */
    method Setup(test: T) returns (err: Option<Error>, ghost order: seq<string>)
      modifies this, test
      ensures Orders(cs, order)
      ensures var start := AfterSetup(cs, old(worlds), order);
        worlds == start.worlds && err.Some? == start.stopped && test.cleanups == old(test.cleanups) + start.cleanups
      ensures test.failed == old(test.failed)
    {
      var eager;
      eager, order := GetEagerClients();
      if eager.Err? {
        return Some(eager.error), order;
      }
      err := CreateNamespaces(test, eager.value);
    }

    method CreateNamespaces(test: T, clients: seq<nat>) returns (err: Option<Error>)
      modifies this, test
      ensures Made(test, old(worlds), clients, old(test.cleanups), err) && test.failed == old(test.failed)
    {
      for i := 0 to |clients|
        invariant Made(test, old(worlds), clients[..i], old(test.cleanups), None) && test.failed == old(test.failed)
      {
        assert clients[..i + 1] == clients[..i] + [clients[i]];
        err := CreateOne(test, clients[i], old(worlds), clients[..i], old(test.cleanups));
        if err.Some? {
          SetupStopped(cs, old(worlds), clients[..i + 1], clients[i + 1..]);
          assert clients == clients[..i + 1] + clients[i + 1..];
          return;
        }
      }
      assert clients[..|clients|] == clients;
      err := None;
    }

    /** The namespace was created through `clients`, with this outcome. */
    ghost predicate Made(test: T, before: Worlds, clients: seq<nat>, cleanups: seq<Cleanup>, err: Option<Error>)
      reads this, test
    {
      var s := SetupAll(cs, before, clients);
      worlds == s.worlds && test.cleanups == cleanups + s.cleanups && err == s.err
    }

    method CreateOne(test: T, c: nat, ghost before: Worlds, ghost clients: seq<nat>, ghost cleanups: seq<Cleanup>)
      returns (err: Option<Error>)
      requires Made(test, before, clients, cleanups, None)
      modifies this, test
      ensures Made(test, before, clients + [c], cleanups, err) && test.failed == old(test.failed)
    {
      assert (clients + [c])[..|clients|] == clients;
      err := CreateNamespace(test, c);
    }

    method OpenReport(rep: TestReporter, step: StepSpec) returns (report: StepReport)
      modifies rep`stepReports
      ensures fresh(report) && rep.stepReports == old(rep.stepReports) + [report]
      ensures rep.Records() == old(rep.Records()) + [Entry(step.name, false, step.asserts + step.errors)]
    {
      ghost var before := rep.stepReports;
      report := rep.Step(step.name);
      report.AddAssertions(step.asserts);
      report.AddAssertions(step.errors);
      assert rep.Records() == RecordsOf(before) + [report.Record()];
    }

    method FailReport(rep: TestReporter, report: StepReport, message: Message, errs: seq<Error>,
                      ghost front: seq<Entry>, ghost entry: Entry)
      requires rep.stepReports != [] && report == rep.stepReports[|rep.stepReports| - 1]
      requires report !in rep.stepReports[..|rep.stepReports| - 1]
      requires rep.Records() == front + [entry]
      modifies report
      ensures rep.Records() == front + [entry.(failed := true)]
    {
      ghost var n := |rep.stepReports| - 1;
      assert rep.Records()[..n] == front && rep.Records()[n] == entry;
      report.Failure(message, errs);
      assert forall i :: 0 <= i < n ==> rep.stepReports[i] in rep.stepReports[..n];
    }

    method FailStep(test: T, rep: TestReporter, report: StepReport, message: Message, errs: seq<Error>,
                    ghost front: seq<Entry>, ghost entry: Entry)
      requires rep.stepReports != [] && report == rep.stepReports[|rep.stepReports| - 1]
      requires report !in rep.stepReports[..|rep.stepReports| - 1]
      requires rep.Records() == front + [entry]
      modifies report, test
      ensures rep.Records() == front + [entry.(failed := true)]
      ensures test.failed && test.cleanups == old(test.cleanups)
    {
      FailReport(rep, report, message, errs, front, entry);
      ghost var closed := rep.Records();
      test.Error();
      assert rep.Records() == closed;
    }

    /** The run has come as far as `p`; the test had some clean-ups before. */
    ghost predicate At(test: T, rep: TestReporter, p: Progress, before: seq<Cleanup>)
      reads this, test, rep, rep.stepReports
    {
      worlds == p.worlds && rep.Records() == p.records && test.cleanups == before + p.cleanups
    }

    /** One step: its lazy start, its run unless that failed, and its report. */
    method RunStep(test: T, rep: TestReporter, i: nat, ghost p: Progress, ghost before: seq<Cleanup>)
      returns (failed: bool, ghost q: Progress)
      requires i < |cs.steps| && At(test, rep, p, before)
      modifies this, test, rep`stepReports
      ensures q == StepNext(cs, p, cs.steps[i], i + 1)
      ensures At(test, rep, q, before) && failed == q.stopped && test.failed == (old(test.failed) || failed)
    {
      var report := OpenReport(rep, cs.steps[i]);
      ghost var opening := Entry(cs.steps[i].name, false, cs.steps[i].asserts + cs.steps[i].errors);
      var errs;
      errs, q := Perform(test, i, p, before);
      assert rep.Records() == p.records + [opening];
      failed := errs != [];
      ghost var entry := opening.(failed := failed);
      assert q.records == p.records + [entry];
      if failed {
        FailStep(test, rep, report, FailedInStep(cs.steps[i].name), errs, p.records, opening);
      }
    }

    /** What a step does besides reporting. */
    method Perform(test: T, i: nat, ghost p: Progress, ghost before: seq<Cleanup>)
      returns (errs: seq<Error>, ghost q: Progress)
      requires i < |cs.steps| && worlds == p.worlds && test.cleanups == before + p.cleanups
      modifies this, test
      ensures q == StepNext(cs, p, cs.steps[i], i + 1)
      ensures worlds == q.worlds && test.cleanups == before + q.cleanups && (errs != []) == q.stopped
      ensures q.records == p.records + [Entry(cs.steps[i].name, errs != [], cs.steps[i].asserts + cs.steps[i].errors)]
      ensures test.failed == old(test.failed)
    {
      var step := cs.steps[i];
      errs := [];
      if step.lazy {
        if step.client.Err? {
          errs := [Wrapped(step.client.error)];
        } else {
          var err := CreateNamespace(test, step.client.value);
          if err.Some? {
            errs := [err.value];
          }
        }
      }
      if |errs| == 0 {
        var o := step.run(worlds);
        worlds := o.worlds;
        test.cleanups := test.cleanups + o.cleanups;
        errs := errs + o.errs;
      }
      q := StepNext(cs, p, step, i + 1);
    }

    /** The run up to its end or first failure, reported when done. */
    method Run(test: T, rep: TestReporter, clock: nat -> int)
      returns (ghost order: seq<string>, ghost added: seq<Testcase>, ghost states: seq<Contents>)
      requires rep.Valid() && rep.stepReports == []
      modifies this, test, rep`stepReports, rep.suite`testcases, rep.suite`tests, rep.suite`failures, rep.testCase
      ensures Orders(cs, order) && At(test, rep, Ran(cs, old(worlds), order), old(test.cleanups))
      ensures test.failed == (old(test.failed) || Ran(cs, old(worlds), order).stopped)
      ensures OnlyLastFails(rep.Records()) && rep.suite.Reported() == old(rep.suite.Reported()) + multiset(rep.Handed())
      ensures Adds(old(rep.suite.Content()), states, added, rep.Handed()) && rep.suite.Content() == states[|added|]
    {
      ghost var leaves := LeavesAt(rep.suite.testcases);
      order := RunSteps(test, rep);
      Held(rep.suite.testcases, leaves);
      CaseSafety.ReportsUpToFailure(cs, old(worlds), order);
      added, states := Finish(test, rep, clock, Ran(cs, old(worlds), order), old(test.cleanups));
    }

    method Finish(test: T, rep: TestReporter, clock: nat -> int, ghost p: Progress, ghost before: seq<Cleanup>)
      returns (ghost added: seq<Testcase>, ghost states: seq<Contents>)
      requires rep.Valid() && At(test, rep, p, before)
      modifies rep.suite`testcases, rep.suite`tests, rep.suite`failures, rep.testCase
      ensures At(test, rep, p, before) && rep.suite.Reported() == old(rep.suite.Reported()) + multiset(rep.Handed())
      ensures Adds(old(rep.suite.Content()), states, added, rep.Handed()) && rep.suite.Content() == states[|added|]
    {
      ghost var records := rep.Records();
      added, states := rep.Done(clock);
      assert rep.Records() == records;
    }

    method RunSteps(test: T, rep: TestReporter) returns (ghost order: seq<string>)
      requires rep.stepReports == []
      modifies this, test, rep`stepReports
      ensures Orders(cs, order) && At(test, rep, Ran(cs, old(worlds), order), old(test.cleanups))
      ensures test.failed == (old(test.failed) || Ran(cs, old(worlds), order).stopped)
    {
      var setupReport := rep.Step("setup");
      var err;
      ghost var records := rep.Records();
      err, order := Setup(test);
      assert rep.Records() == records;
      ghost var start := AfterSetup(cs, old(worlds), order);
      if err.Some? {
        FailStep(test, rep, setupReport, OfError(err.value), [], [], Entry("setup", false, 0));
        RunStopped(cs, start, 0, |cs.steps|);
        return;
      }
      ghost var _ := RunLoop(test, rep, start, old(test.cleanups));
    }

    method RunLoop(test: T, rep: TestReporter, ghost start: Progress, ghost before: seq<Cleanup>)
      returns (ghost p: Progress)
      requires At(test, rep, start, before) && !start.stopped
      modifies this, test, rep`stepReports
      ensures p == RunUpTo(cs, start, |cs.steps|) && At(test, rep, p, before)
      ensures test.failed == (old(test.failed) || p.stopped)
    {
      p := start;
      for i := 0 to |cs.steps|
        invariant p == RunUpTo(cs, start, i) && !p.stopped
        invariant At(test, rep, p, before) && test.failed == old(test.failed)
      {
        var failed;
        failed, p := Advance(test, rep, i, start, p, before);
        if failed {
          RunStopped(cs, start, i + 1, |cs.steps|);
          return;
        }
      }
    }

    method Advance(test: T, rep: TestReporter, i: nat, ghost start: Progress, ghost p: Progress,
                   ghost before: seq<Cleanup>)
      returns (failed: bool, ghost q: Progress)
      requires i < |cs.steps| && p == RunUpTo(cs, start, i) && !p.stopped && At(test, rep, p, before)
      modifies this, test, rep`stepReports
      ensures q == RunUpTo(cs, start, i + 1)
      ensures At(test, rep, q, before) && failed == q.stopped && test.failed == (old(test.failed) || failed)
    {
      RunNext(cs, start, i);
      failed, q := RunStep(test, rep, i, p, before);
    }

    /** The clean-ups of the test, the last registered first. */
    method RunCleanups(test: T)
      modifies this, test
      ensures var end := CleanUpAll(cs, old(worlds), old(test.cleanups));
        worlds == end.0 && test.failed == (old(test.failed) || end.1) && test.cleanups == []
    {
      while test.cleanups != []
        invariant var end, now := CleanUpAll(cs, old(worlds), old(test.cleanups)),
          CleanUpAll(cs, worlds, test.cleanups);
          end.0 == now.0 && (old(test.failed) || end.1) == (test.failed || now.1)
        decreases |test.cleanups|
      {
        var n := |test.cleanups| - 1;
        var cleanup := test.cleanups[n];
        test.cleanups := test.cleanups[..n];
        var ok := RunCleanup(cleanup);
        if !ok {
          test.Error();
        }
      }
    }

    method RunCleanup(cleanup: Cleanup) returns (ok: bool)
      modifies this
      ensures (worlds, !ok) == CleanUp(cs, old(worlds), cleanup)
    {
      match cleanup {
        case DeleteObject(c, key) =>
          var deleted := CallDelete(cs.fleet, worlds, c, key);
          worlds := deleted.0;
          return deleted.1.None? || Has(deleted.1.value, NotFound);
        case DeleteNamespace(c, existed) =>
          if cs.userSupplied && existed {
            return true;
          }
          var err := DeleteNamespace(c);
          return err.None?;
      }
    }
  }

  // ----- early exits -----

  lemma {:induction false} EagerStopped(cs: CaseSpec, i: nat, j: nat)
    requires i <= j <= |cs.steps| && EagerUpTo(cs, i).Err?
    ensures EagerUpTo(cs, j) == EagerUpTo(cs, i)
  {
    if i == j {
    } else {
      EagerStopped(cs, i, j - 1);
    }
  }

  /** Whatever the order, all clients are there. */
  lemma InOrderIsAll(clients: map<string, nat>, order: seq<string>)
    requires forall path :: path in order <==> path in clients
    ensures forall c :: c in InOrder(clients, order) <==> c in clients.Values
  {
    forall c | c in clients.Values ensures c in InOrder(clients, order) {
      var path :| path in clients && clients[path] == c;
      var i :| 0 <= i < |order| && order[i] == path;
      assert InOrder(clients, order)[i] == c;
    }
  }

  lemma {:induction false} SetupStopped(cs: CaseSpec, ws: Worlds, clients: seq<nat>, rest: seq<nat>)
    requires SetupAll(cs, ws, clients).err.Some?
    ensures SetupAll(cs, ws, clients + rest) == SetupAll(cs, ws, clients)
  {
    if rest == [] {
      assert clients + rest == clients;
    } else {
      SetupStopped(cs, ws, clients, rest[..|rest| - 1]);
      assert (clients + rest)[..|clients + rest| - 1] == clients + rest[..|rest| - 1];
    }
  }

  lemma RunNext(cs: CaseSpec, p: Progress, i: nat)
    requires i < |cs.steps| && !RunUpTo(cs, p, i).stopped
    ensures RunUpTo(cs, p, i + 1) == StepNext(cs, RunUpTo(cs, p, i), cs.steps[i], i + 1)
  {
  }

  lemma {:induction false} RunStopped(cs: CaseSpec, p: Progress, i: nat, j: nat)
    requires i <= j && RunUpTo(cs, p, i).stopped
    ensures RunUpTo(cs, p, j) == RunUpTo(cs, p, i)
  {
    if i == j {
    } else {
      RunStopped(cs, p, i, j - 1);
    }
  }
}
