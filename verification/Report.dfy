/** The report: suites of test cases filled by parallel tests, and rolled up at the end. */
module Report {
  import opened Outcomes
  import opened Errors
  import opened Order
  import opened ReportTree
  import opened ReportTotals
  import FileName

  /** Failure messages; their wording is abstract. */
  datatype Message = Empty | OfError(error: Error) | FailedInStep(step: string)

  /** A failure keeps the last of its errors as text. */
  datatype Failure = Failure(message: Message, text: Option<Error>)

  function NewFailure(message: Message, errors: seq<Error>): Failure
  {
    Failure(message, if errors == [] then None else Some(errors[|errors| - 1]))
  }

  class Testcase {
    const name: string
    const timestamp: int
    var classname: string
    var elapsed: int
    var assertions: int
    var failure: Option<Failure>
    var end: int

    constructor (name: string, now: int)
      ensures this.name == name && timestamp == now && assertions == 0 && failure.None?
    {
      this.name, timestamp, classname, elapsed, assertions, failure, end := name, now, "", 0, 0, None, 0;
    }

    method Finish(suite: string, now: int, later: int)
      modifies `end, `elapsed, `classname
      ensures end == now && elapsed == later - timestamp && classname == FileName.Base(suite)
    {
      end := now;
      elapsed := later - timestamp;
      classname := FileName.Base(suite);
    }

    function Leaf(): Leaf
      reads `assertions, `failure, `end
    {
      ReportTree.Leaf(name, failure.Some?, assertions, end)
    }
  }

  function CaseName(t: Testcase): string { t.name }

  ghost predicate Hold(cases: seq<Testcase>, leaves: seq<Leaf>)
    reads cases`assertions, cases`failure, cases`end
  {
    |cases| == |leaves| && forall i :: 0 <= i < |cases| ==> cases[i].Leaf() == leaves[i]
  }

  ghost function LeavesAt(cases: seq<Testcase>): (r: seq<Leaf>)
    reads cases
    ensures Hold(cases, r)
  {
    seq(|cases|, i requires 0 <= i < |cases| reads cases => cases[i].Leaf())
  }

  lemma Held(cases: seq<Testcase>, leaves: seq<Leaf>)
    requires Hold(cases, leaves)
    ensures LeavesAt(cases) == leaves
  {
  }

  lemma LeavesPermuted(xs: seq<Testcase>, ys: seq<Testcase>)
    requires multiset(xs) == multiset(ys)
    ensures Failing(LeavesAt(xs)) == Failing(LeavesAt(ys)) && Entries(LeavesAt(xs)) == Entries(LeavesAt(ys))
  {
    forall y | y in ys ensures y in xs { assert y in multiset(xs); }
    var leaf := map t | t in xs :: t.Leaf();
    ImagePermuted(leaf, xs, ys);
    assert LeavesAt(xs) == Image(leaf, xs) && LeavesAt(ys) == Image(leaf, ys);
    CountsPermuted(LeavesAt(xs), LeavesAt(ys));
  }

  // ----- suites -----

  class Testsuite {
    const name: string
    const timestamp: int
    const reportGranularity: string
    var tests: int
    var failures: int
    var testcases: seq<Testcase>
    var subSuites: seq<Testsuite>

    constructor (name: string, reportGranularity: string, now: int)
      ensures this.name == name && this.reportGranularity == reportGranularity && timestamp == now
      ensures Content() == EMPTY
    {
      this.name, this.reportGranularity, timestamp := name, reportGranularity, now;
      tests, failures, testcases, subSuites := 0, 0, [], [];
    }

    ghost function Content(): Contents
      reads this
    {
      Contents(testcases, subSuites, tests, failures)
    }

    /** What the suite's own test cases report. */
    ghost function Reported(): multiset<Entry>
      reads this, testcases
    {
      Entries(LeavesAt(testcases))
    }

    /** The counters count the suite's own test cases. */
    ghost predicate Counts()
      reads this, testcases
    {
      tests == |testcases| && failures == Failing(LeavesAt(testcases))
    }

    method AddTestcase(testcase: Testcase, now: int, later: int)
      modifies this`testcases, this`tests, this`failures, testcase`end, testcase`elapsed, testcase`classname
      ensures Performs(old(Content()), AddCase(testcase, testcase.failure.Some?), Content())
      ensures testcase.end == now && testcase.elapsed == later - testcase.timestamp
      ensures testcase.classname == FileName.Base(name)
      ensures testcase !in old(testcases) ==> (old(Counts()) ==> Counts())
      ensures testcase !in old(testcases) ==> Reported() == old(Reported()) + multiset{EntryOf(testcase.Leaf())}
    {
      ghost var before, leaves := testcases, LeavesAt(testcases);
      testcase.Finish(name, now, later);
      Count(testcase);
      if testcase !in before {
        assert Hold(before, leaves);
        OneMore(before, leaves, testcase, testcases);
      }
    }

    /** The test case is appended, the list sorted, and the counters raised. */
    method Count(testcase: Testcase)
      modifies `testcases, `tests, `failures
      ensures Performs(old(Content()), AddCase(testcase, testcase.failure.Some?), Content())
    {
      AppendSorted(testcase);
      tests := tests + 1;
      if testcase.failure.Some? {
        failures := failures + 1;
      }
    }

    method AppendSorted(testcase: Testcase)
      modifies `testcases
      ensures multiset(testcases) == multiset(old(testcases)) + multiset{testcase}
      ensures SortedBy(CaseName, Less, testcases)
    {
      testcases := testcases + [testcase];
      LessIsTotalOrder();
      testcases := Sort(CaseName, Less, testcases);
    }

    method NewSubSuite(name: string, now: int) returns (s: Testsuite)
      modifies this`subSuites
      ensures fresh(s) && s.name == name && s.timestamp == now && s.reportGranularity == "" && s.Content() == EMPTY
      ensures Performs(old(Content()), AddSuite(s), Content())
    {
      s := new Testsuite(name, "", now);
      subSuites := subSuites + [s];
      LessIsTotalOrder();
      subSuites := Sort(SuiteName, Less, subSuites);
    }

    /** Test granularity: one test case for the whole test. Otherwise: a sub-suite with a test case for each step. */
    method NewTestReporter(name: string, now: int) returns (r: TestReporter)
      modifies `subSuites
      ensures fresh(r) && r.Valid() && r.stepReports == []
      ensures reportGranularity == "test" ==>
        Content() == old(Content()) && r.suite == this && r.testCase != null && fresh(r.testCase)
          && r.testCase.name == name
      ensures reportGranularity != "test" ==> r.testCase == null && fresh(r.suite) && r.suite.name == name
      ensures reportGranularity != "test" ==>
        r.suite.Content() == EMPTY && Performs(old(Content()), AddSuite(r.suite), Content())
    {
      if reportGranularity == "test" {
        var tc := new Testcase(name, now);
        r := new TestReporter(this, tc);
      } else {
        var subSuite := NewSubSuite(name, now);
        r := new TestReporter(subSuite, null);
      }
    }

    /** Adds the counters of all suites below to this one's. Before the call the suite and those below it, listed in
        `shape`, are built like the tree `t` and have the counters `c`. */
    method Summarize(ghost shape: Shape, ghost t: Tree, ghost c: Counters) returns (end: int)
      requires shape.suite == this && IsTree(shape, t) && Built(shape, t) && HaveCounters(shape.suites, c)
      modifies shape.suites`tests, shape.suites`failures
      ensures HaveCounters(shape.suites, Rolled(shape, c)) && end == LatestEnd(t)
      decreases shape, 1
    {
      end := timestamp;
      OwnPart(shape, t);
      for i := 0 to |subSuites|
        invariant Built(shape, t) && HaveCounters(shape.suites, RolledUpTo(shape, c, i))
        invariant end == LatestSub(timestamp, t.subs[..i])
      {
        assert t.subs[..i + 1][..i] == t.subs[..i];
        var subSuiteEnd := RollUpChild(shape, t, RolledUpTo(shape, c, i), i);
        if subSuiteEnd > end {
          end := subSuiteEnd;
        }
        AddCounters(shape, t, Rolled(shape.kids[i], RolledUpTo(shape, c, i)), i);
      }
      assert t.subs[..|t.subs|] == t.subs;
      end := EndOfCases(end, t.leaves);
    }

    method AddCounters(ghost shape: Shape, ghost t: Tree, ghost c: Counters, i: nat)
      requires shape.suite == this && IsTree(shape, t) && Built(shape, t) && HaveCounters(shape.suites, c)
      requires i < |shape.kids|
      modifies `tests, `failures
      ensures HaveCounters(shape.suites, AddedTo(c, this, shape.kids[i].suite)) && Built(shape, t)
    {
      OwnPart(shape, t);
      assert shape.kids[i].suite in shape.suites;
      tests := tests + subSuites[i].tests;
      failures := failures + subSuites[i].failures;
    }

    method RollUpChild(ghost shape: Shape, ghost t: Tree, ghost c: Counters, i: nat) returns (end: int)
      requires shape.suite == this && IsTree(shape, t) && Built(shape, t) && HaveCounters(shape.suites, c)
      requires i < |shape.kids|
      modifies shape.kids[i].suites`tests, shape.kids[i].suites`failures
      ensures HaveCounters(shape.suites, Rolled(shape.kids[i], c)) && end == LatestEnd(t.subs[i]) && Built(shape, t)
      decreases shape, 0
    {
      KidBuilt(shape, t, i);
      forall s | s in shape.suites && s !in shape.kids[i].suites
        ensures s in Rolled(shape.kids[i], c) && Rolled(shape.kids[i], c)[s] == c[s]
      {
        RolledFrame(shape.kids[i], t.subs[i], c, s, |shape.kids[i].kids|);
      }
      end := subSuites[i].Summarize(shape.kids[i], t.subs[i], c);
    }

    method EndOfCases(start: int, ghost leaves: seq<Leaf>) returns (end: int)
      requires Hold(testcases, leaves)
      ensures end == LatestLeaf(start, leaves)
    {
      end := start;
      for i := 0 to |testcases|
        invariant end == LatestLeaf(start, leaves[..i])
      {
        assert leaves[..i + 1][..i] == leaves[..i] && testcases[i].Leaf() == leaves[i];
        if testcases[i].end > end {
          end := testcases[i].end;
        }
      }
      assert leaves[..|testcases|] == leaves;
    }
  }

  function SuiteName(s: Testsuite): string { s.name }

  // ----- reporters -----

  /** What one step reports. */
  class StepReport {
    const name: string
    var failed: bool
    var message: Message
    var errors: seq<Error>
    var assertions: int

    constructor (name: string)
      ensures this.name == name && Record() == Entry(name, false, 0) && message == Empty && errors == []
    {
      this.name, failed, message, errors, assertions := name, false, Empty, [], 0;
    }

    function Record(): Entry
      reads this
    {
      Entry(name, failed, assertions)
    }

    method Failure(message: Message, errors: seq<Error>)
      modifies this
      ensures Record() == old(Record()).(failed := true) && this.message == message
      ensures this.errors == old(this.errors) + errors
    {
      failed, this.message, this.errors := true, message, this.errors + errors;
    }

    method AddAssertions(i: int)
      modifies `assertions
      ensures Record() == old(Record()).(assertions := old(assertions) + i)
    {
      assertions := assertions + i;
    }

    method Populate(testCase: Testcase)
      modifies testCase`failure, testCase`assertions
      ensures testCase.assertions == old(testCase.assertions) + assertions
      ensures testCase.failure == if failed then Some(NewFailure(message, errors)) else old(testCase.failure)
      ensures failed && errors != [] ==> testCase.failure.value.text == Some(errors[|errors| - 1])
    {
      if failed {
        testCase.failure := Some(NewFailure(message, errors));
      }
      testCase.assertions := testCase.assertions + assertions;
    }
  }

  class TestReporter {
    const suite: Testsuite
    const testCase: Testcase?
    var stepReports: seq<StepReport>

    constructor (suite: Testsuite, testCase: Testcase?)
      ensures this.suite == suite && this.testCase == testCase && stepReports == []
    {
      this.suite, this.testCase, stepReports := suite, testCase, [];
    }

    /** Nothing has been handed to the suite yet. */
    ghost predicate Valid()
      reads suite, testCase
    {
      testCase != null ==> testCase.failure.None? && testCase.assertions == 0 && testCase !in suite.testcases
    }

    ghost function Records(): seq<Entry>
      reads this, stepReports
    {
      RecordsOf(stepReports)
    }

    method Step(stepName: string) returns (step: StepReport)
      modifies `stepReports
      ensures fresh(step) && step.Record() == Entry(stepName, false, 0) && step.message == Empty && step.errors == []
      ensures stepReports == old(stepReports) + [step]
    {
      step := new StepReport(stepName);
      stepReports := stepReports + [step];
    }

    /** What is handed to the suite: one entry for the whole test, or one for each report. */
    ghost function Handed(): seq<Entry>
      reads this, stepReports
    {
      if testCase != null then [RunEntry(Run(testCase.name, Records()))] else Records()
    }

    /** Hands everything to the suite, `added` test case by test case; `clock` gives the readings of the clock. */
    method Done(clock: nat -> int) returns (ghost added: seq<Testcase>, ghost states: seq<Contents>)
      requires Valid()
      modifies suite`testcases, suite`tests, suite`failures, testCase
      ensures Adds(old(suite.Content()), states, added, Handed()) && suite.Content() == states[|added|]
      ensures if testCase != null then added == [testCase] else fresh(added)
      ensures suite.Reported() == old(suite.Reported()) + multiset(Handed())
      ensures old(suite.Counts()) ==> suite.Counts()
    {
      if testCase != null {
        ghost var leaves, before := LeavesAt(suite.testcases), suite.Content();
        PopulateAll();
        Held(suite.testcases, leaves);
        suite.AddTestcase(testCase, clock(0), clock(1));
        added, states := [testCase], [before, suite.Content()];
        return;
      }
      added, states := AddAll(clock);
    }

    /** Test granularity: all reports go into one test case. */
    method PopulateAll()
      requires testCase != null && Valid()
      modifies testCase`failure, testCase`assertions
      ensures EntryOf(testCase.Leaf()) == RunEntry(Run(testCase.name, Records())) && testCase.end == old(testCase.end)
    {
      for i := 0 to |stepReports|
        invariant testCase.failure.Some? == AnyFailed(Records()[..i])
        invariant testCase.assertions == SumAssertions(Records()[..i])
      {
        assert Records()[..i + 1][..i] == Records()[..i];
        stepReports[i].Populate(testCase);
      }
      assert Records()[..|stepReports|] == Records();
    }

    /** Step granularity: a test case for each report. */
    method AddAll(clock: nat -> int) returns (ghost added: seq<Testcase>, ghost states: seq<Contents>)
      modifies suite`testcases, suite`tests, suite`failures
      ensures Adds(old(suite.Content()), states, added, Records()) && suite.Content() == states[|added|] && fresh(added)
      ensures suite.Reported() == old(suite.Reported()) + multiset(Records())
      ensures old(suite.Counts()) ==> suite.Counts()
    {
      ghost var before, leaves, records := suite.Content(), LeavesAt(suite.testcases), Records();
      added, states := [], [before];
      for i := 0 to |stepReports|
        invariant Records() == records && Hold(before.testcases, leaves) && fresh(added)
        invariant Adds(before, states, added, records[..i]) && suite.Content() == states[i]
      {
        assert records[..i + 1] == records[..i] + [records[i]];
        ghost var testcase := AddOne(stepReports[i], clock(3 * i), clock(3 * i + 1), clock(3 * i + 2));
        AddsNext(before, states, added, records[..i], testcase, records[i], suite.Content());
        added, states := added + [testcase], states + [suite.Content()];
      }
      assert records[..|stepReports|] == records;
      AddsCount(before, leaves, states, added, records);
    }

    method AddOne(report: StepReport, start: int, now: int, later: int) returns (ghost added: Testcase)
      modifies suite`testcases, suite`tests, suite`failures
      ensures fresh(added) && EntryOf(added.Leaf()) == report.Record()
      ensures Performs(old(suite.Content()), AddCase(added, report.failed), suite.Content())
    {
      var step := NewCase(report, start);
      added := step;
      suite.AddTestcase(step, now, later);
    }

    /** The test case of one report. */
    method NewCase(report: StepReport, start: int) returns (step: Testcase)
      ensures fresh(step) && EntryOf(step.Leaf()) == report.Record()
    {
      step := new Testcase(report.name, start);
      report.Populate(step);
    }
  }

  /** Test cases are added one by one, each reporting what its entry says. */
  ghost predicate Adds(before: Contents, states: seq<Contents>, added: seq<Testcase>, entries: seq<Entry>)
    reads added
  {
    && Chain(states, added, entries) && states[0] == before
    && forall j :: 0 <= j < |added| ==> EntryOf(added[j].Leaf()) == entries[j]
  }

  ghost predicate Chain(states: seq<Contents>, added: seq<Testcase>, entries: seq<Entry>)
  {
    && |states| == |added| + 1 == |entries| + 1
    && forall j :: 0 <= j < |added| ==> Performs(states[j], AddCase(added[j], entries[j].failed), states[j + 1])
  }

  lemma AddsNext(before: Contents, states: seq<Contents>, added: seq<Testcase>, entries: seq<Entry>,
                 testcase: Testcase, entry: Entry, after: Contents)
    requires Adds(before, states, added, entries)
    requires EntryOf(testcase.Leaf()) == entry && Performs(states[|added|], AddCase(testcase, entry.failed), after)
    ensures Adds(before, states + [after], added + [testcase], entries + [entry])
  {
  }

  lemma {:induction false} CasesAfter(states: seq<Contents>, added: seq<Testcase>, entries: seq<Entry>, n: nat)
    requires Chain(states, added, entries) && n <= |added|
    ensures multiset(states[n].testcases) == multiset(states[0].testcases) + multiset(added[..n])
  {
    if n == 0 {
    } else {
      CasesAfter(states, added, entries, n - 1);
      assert Performs(states[n - 1], AddCase(added[n - 1], entries[n - 1].failed), states[n - 1 + 1]);
      assert added[..n] == added[..n - 1] + [added[n - 1]];
    }
  }

  lemma {:induction false} CountersAfter(states: seq<Contents>, added: seq<Testcase>, entries: seq<Entry>, n: nat)
    requires Chain(states, added, entries) && n <= |added|
    ensures states[n].tests == states[0].tests + n
    ensures states[n].failures == states[0].failures + SumFailures(entries[..n])
  {
    if n == 0 {
    } else {
      CountersAfter(states, added, entries, n - 1);
      assert Performs(states[n - 1], AddCase(added[n - 1], entries[n - 1].failed), states[n - 1 + 1]);
      SumsStep(entries, n);
    }
  }

  lemma LeavesOfBoth(xs: seq<Testcase>, leaves: seq<Leaf>, ys: seq<Testcase>, entries: seq<Entry>)
    requires Hold(xs, leaves) && |ys| == |entries| && forall j :: 0 <= j < |ys| ==> EntryOf(ys[j].Leaf()) == entries[j]
    ensures Entries(LeavesAt(xs + ys)) == Entries(leaves) + multiset(entries)
    ensures Failing(LeavesAt(xs + ys)) == Failing(leaves) + SumFailures(entries)
  {
    assert LeavesAt(xs + ys) == leaves + LeavesAt(ys);
    CountsAppend(leaves, LeavesAt(ys));
    EntriesSum(LeavesAt(ys));
    assert EntriesIn(LeavesAt(ys)) == entries;
  }

  /** A suite reports what it did before, and the entries added; counters that counted go on counting. */
  lemma AddsCount(before: Contents, leaves: seq<Leaf>, states: seq<Contents>, added: seq<Testcase>, entries: seq<Entry>)
    requires Adds(before, states, added, entries) && Hold(before.testcases, leaves)
    ensures var after := states[|added|];
      && Entries(LeavesAt(after.testcases)) == Entries(leaves) + multiset(entries)
      && (before.tests == |before.testcases| && before.failures == Failing(leaves) ==>
            after.tests == |after.testcases| && after.failures == Failing(LeavesAt(after.testcases)))
  {
    var n, after, more := |added|, states[|added|], before.testcases + added;
    CasesAfter(states, added, entries, n);
    CountersAfter(states, added, entries, n);
    assert added[..n] == added && entries[..n] == entries;
    LeavesPermuted(after.testcases, more);
    LeavesOfBoth(before.testcases, leaves, added, entries);
    SameSize(after.testcases, more);
  }

  lemma SameSize<T>(xs: seq<T>, ys: seq<T>)
    requires multiset(xs) == multiset(ys)
    ensures |xs| == |ys|
  {
    assert |multiset(xs)| == |multiset(ys)|;
  }

  ghost function RecordsOf(reports: seq<StepReport>): (r: seq<Entry>)
    reads reports
    ensures |r| == |reports| && forall i :: 0 <= i < |reports| ==> r[i] == reports[i].Record()
  {
    seq(|reports|, i requires 0 <= i < |reports| reads reports => reports[i].Record())
  }

  // ----- calls on one suite, in any order -----

  datatype Contents = Contents(testcases: seq<Testcase>, subSuites: seq<Testsuite>, tests: int, failures: int)

  const EMPTY := Contents([], [], 0, 0)

  datatype Call = AddCase(testcase: Testcase, failed: bool) | AddSuite(suite: Testsuite)

  /** One call, whatever the sort does with equal names. */
  ghost predicate Performs(c: Contents, call: Call, d: Contents)
  {
    match call
    case AddCase(t, failed) =>
      && multiset(d.testcases) == multiset(c.testcases) + multiset{t} && SortedBy(CaseName, Less, d.testcases)
      && d.subSuites == c.subSuites && d.tests == c.tests + 1 && d.failures == c.failures + if failed then 1 else 0
    case AddSuite(s) =>
      && multiset(d.subSuites) == multiset(c.subSuites) + multiset{s} && SortedBy(SuiteName, Less, d.subSuites)
      && d.testcases == c.testcases && d.tests == c.tests && d.failures == c.failures
  }

  lemma OneMore(before: seq<Testcase>, leaves: seq<Leaf>, testcase: Testcase, after: seq<Testcase>)
    requires multiset(after) == multiset(before) + multiset{testcase} && Hold(before, leaves)
    ensures |after| == |before| + 1
    ensures Failing(LeavesAt(after)) == Failing(leaves) + if testcase.failure.Some? then 1 else 0
    ensures Entries(LeavesAt(after)) == Entries(leaves) + multiset{EntryOf(testcase.Leaf())}
  {
    var more := before + [testcase];
    assert |multiset(after)| == |multiset(more)|;
    LeavesPermuted(after, more);
    assert LeavesAt(more) == leaves + [testcase.Leaf()];
    CountsAppend(leaves, [testcase.Leaf()]);
    CountsOne(testcase.Leaf());
  }

  /** Calls one after the other, each by whichever test gets the suite's lock next. */
  ghost predicate Performed(states: seq<Contents>, calls: seq<Call>)
  {
    |states| == |calls| + 1 && states[0] == EMPTY && forall i :: 0 <= i < |calls| ==>
      Performs(states[i], calls[i], states[i + 1])
  }

  function CasesOf(calls: seq<Call>): seq<Testcase>
  {
    if calls == [] then []
    else CasesOf(calls[..|calls| - 1]) + if calls[|calls| - 1].AddCase? then [calls[|calls| - 1].testcase] else []
  }

  function SuitesOf(calls: seq<Call>): seq<Testsuite>
  {
    if calls == [] then []
    else SuitesOf(calls[..|calls| - 1]) + if calls[|calls| - 1].AddSuite? then [calls[|calls| - 1].suite] else []
  }

  function FailedOf(calls: seq<Call>): nat
  {
    if calls == [] then 0
    else FailedOf(calls[..|calls| - 1]) + if calls[|calls| - 1].AddCase? && calls[|calls| - 1].failed then 1 else 0
  }

  lemma {:induction false} AfterCalls(states: seq<Contents>, calls: seq<Call>)
    requires Performed(states, calls)
    ensures var d := states[|calls|];
      && multiset(d.testcases) == multiset(CasesOf(calls)) && SortedBy(CaseName, Less, d.testcases)
      && multiset(d.subSuites) == multiset(SuitesOf(calls)) && SortedBy(SuiteName, Less, d.subSuites)
      && d.tests == |CasesOf(calls)| && d.failures == FailedOf(calls)
  {
    if calls == [] {
    } else {
      var n := |calls| - 1;
      AfterCalls(states[..n + 1], calls[..n]);
      assert Performs(states[n], calls[n], states[n + 1]);
    }
  }

  lemma {:induction false} CallsAppend(xs: seq<Call>, ys: seq<Call>)
    ensures CasesOf(xs + ys) == CasesOf(xs) + CasesOf(ys) && SuitesOf(xs + ys) == SuitesOf(xs) + SuitesOf(ys)
    ensures FailedOf(xs + ys) == FailedOf(xs) + FailedOf(ys)
  {
    if ys == [] {
      assert xs + ys == xs;
    } else {
      assert (xs + ys)[..|xs + ys| - 1] == xs + ys[..|ys| - 1];
      CallsAppend(xs, ys[..|ys| - 1]);
    }
  }

  lemma CallsWithout(xs: seq<Call>, j: nat)
    requires j < |xs|
    ensures CasesOf(xs) == CasesOf(xs[..j]) + CasesOf([xs[j]]) + CasesOf(xs[j + 1..])
    ensures SuitesOf(xs) == SuitesOf(xs[..j]) + SuitesOf([xs[j]]) + SuitesOf(xs[j + 1..])
    ensures FailedOf(xs) == FailedOf(xs[..j]) + FailedOf([xs[j]]) + FailedOf(xs[j + 1..])
  {
    TakeOut(xs, j);
    CallsAppend(xs[..j] + [xs[j]], xs[j + 1..]);
    CallsAppend(xs[..j], [xs[j]]);
  }

  lemma CountsWithoutCall(xs: seq<Call>, j: nat)
    requires j < |xs|
    ensures multiset(CasesOf(xs)) == multiset(CasesOf(Without(xs, j))) + multiset(CasesOf([xs[j]]))
    ensures multiset(SuitesOf(xs)) == multiset(SuitesOf(Without(xs, j))) + multiset(SuitesOf([xs[j]]))
    ensures FailedOf(xs) == FailedOf(Without(xs, j)) + FailedOf([xs[j]])
  {
    CallsWithout(xs, j);
    CallsAppend(xs[..j], xs[j + 1..]);
  }

  lemma {:induction false} CallsPermuted(xs: seq<Call>, ys: seq<Call>)
    requires multiset(xs) == multiset(ys)
    ensures multiset(CasesOf(xs)) == multiset(CasesOf(ys)) && multiset(SuitesOf(xs)) == multiset(SuitesOf(ys))
    ensures FailedOf(xs) == FailedOf(ys)
    decreases |xs|
  {
    if xs == [] {
      assert |multiset(ys)| == 0;
    } else {
      var n := |xs| - 1;
      var j := SomewhereIn(xs, ys);
      CallsPermuted(xs[..n], Without(ys, j));
      CountsWithoutCall(ys, j);
      CountsWithoutCall(xs, n);
      assert Without(xs, n) == xs[..n];
    }
  }

  /** In every interleaving of the calls that parallel tests make on a new suite, with distinct names, it ends up the
      same: test cases and sub-suites strictly sorted by name, and counters that count them. */
  lemma AnyInterleaving(states: seq<Contents>, calls: seq<Call>, otherStates: seq<Contents>, otherCalls: seq<Call>)
    requires Performed(states, calls) && Performed(otherStates, otherCalls) && multiset(calls) == multiset(otherCalls)
    requires DistinctKeys(CaseName, CasesOf(calls)) && DistinctKeys(SuiteName, SuitesOf(calls))
    ensures var d := states[|calls|];
      && d == otherStates[|otherCalls|]
      && StrictlySorted(Less, Keys(CaseName, d.testcases)) && StrictlySorted(Less, Keys(SuiteName, d.subSuites))
      && multiset(d.testcases) == multiset(CasesOf(calls)) && multiset(d.subSuites) == multiset(SuitesOf(calls))
      && d.tests == |d.testcases| && d.failures == FailedOf(calls)
  {
    var d, e := states[|calls|], otherStates[|otherCalls|];
    AfterCalls(states, calls);
    AfterCalls(otherStates, otherCalls);
    CallsPermuted(calls, otherCalls);
    LessIsTotalOrder();
    DistinctPermuted(CaseName, CasesOf(calls), d.testcases);
    DistinctPermuted(SuiteName, SuitesOf(calls), d.subSuites);
    SortedByUnique(CaseName, Less, d.testcases, e.testcases);
    SortedByUnique(SuiteName, Less, d.subSuites, e.subSuites);
    SortedKeysStrict(CaseName, Less, d.testcases);
    SortedKeysStrict(SuiteName, Less, d.subSuites);
    assert |multiset(d.testcases)| == |multiset(CasesOf(calls))|;
    assert |multiset(CasesOf(otherCalls))| == |multiset(CasesOf(calls))|;
  }

  // ----- the objects a suite consists of -----

  /** A suite, its test cases and the suites below; `suites` and `all` are all suites and test cases of the subtree. */
  datatype Shape = Shape(suite: Testsuite, cases: seq<Testcase>, kids: seq<Shape>, suites: set<Testsuite>,
    all: set<Testcase>)

  /** No suite occurs twice, and names and starts are those of the tree `t`. */
  ghost predicate IsTree(sh: Shape, t: Tree)
  {
    && sh.suite in sh.suites && (forall c :: c in sh.cases ==> c in sh.all) && |sh.kids| == |t.subs|
    && sh.suite.name == t.name && sh.suite.timestamp == t.start
    && (forall i :: 0 <= i < |sh.kids| ==>
      IsTree(sh.kids[i], t.subs[i]) && sh.kids[i].suites <= sh.suites && sh.kids[i].all <= sh.all
        && sh.suite !in sh.kids[i].suites)
    && forall i, j :: 0 <= i < |sh.kids| && 0 <= j < |sh.kids| && i != j ==> sh.kids[i].suites !! sh.kids[j].suites
  }

  /** A suite of the tree, its test cases and what they report, and the suites right below. */
  datatype Part = Part(suite: Testsuite, cases: seq<Testcase>, leaves: seq<Leaf>, below: seq<Testsuite>)

  ghost function OwnPartOf(sh: Shape, t: Tree): Part
  {
    Part(sh.suite, sh.cases, t.leaves, seq(|sh.kids|, i requires 0 <= i < |sh.kids| => sh.kids[i].suite))
  }

  ghost function Parts(sh: Shape, t: Tree): set<Part>
    requires IsTree(sh, t)
  {
    {OwnPartOf(sh, t)} + set i, p | 0 <= i < |sh.kids| && p in Parts(sh.kids[i], t.subs[i]) :: p
  }

  /** Every suite of `sh` has the test cases and sub-suites of the tree `t`. */
  ghost predicate Built(sh: Shape, t: Tree)
    requires IsTree(sh, t)
    reads sh.suites`testcases, sh.suites`subSuites, sh.all`assertions, sh.all`failure, sh.all`end
  {
    forall p :: p in Parts(sh, t) ==>
      && p.suite in sh.suites && (forall c :: c in p.cases ==> c in sh.all)
      && p.suite.testcases == p.cases && p.suite.subSuites == p.below && Hold(p.cases, p.leaves)
  }

  lemma {:induction false} PartInside(sh: Shape, t: Tree, p: Part)
    requires IsTree(sh, t) && p in Parts(sh, t)
    ensures p.suite in sh.suites && forall c :: c in p.cases ==> c in sh.all
  {
    if p != OwnPartOf(sh, t) {
      var i :| 0 <= i < |sh.kids| && p in Parts(sh.kids[i], t.subs[i]);
      PartInside(sh.kids[i], t.subs[i], p);
    }
  }

  lemma KidBuilt(sh: Shape, t: Tree, i: nat)
    requires IsTree(sh, t) && Built(sh, t) && i < |sh.kids|
    ensures Built(sh.kids[i], t.subs[i]) && |sh.suite.subSuites| == |sh.kids|
    ensures sh.suite.subSuites[i] == sh.kids[i].suite
  {
    forall p | p in Parts(sh.kids[i], t.subs[i])
      ensures p in Parts(sh, t) && p.suite in sh.kids[i].suites && forall c :: c in p.cases ==> c in sh.kids[i].all
    {
      PartInside(sh.kids[i], t.subs[i], p);
    }
    OwnPart(sh, t);
  }

  lemma OwnPart(sh: Shape, t: Tree)
    requires IsTree(sh, t) && Built(sh, t)
    ensures sh.suite.testcases == sh.cases && Hold(sh.cases, t.leaves) && |sh.suite.subSuites| == |sh.kids|
    ensures forall i :: 0 <= i < |sh.kids| ==> sh.suite.subSuites[i] == sh.kids[i].suite
  {
    assert OwnPartOf(sh, t) in Parts(sh, t);
  }

  /** The counters of suites: tests and failures. */
  type Counters = map<Testsuite, Count>

  ghost predicate HaveCounters(suites: set<Testsuite>, c: Counters)
    reads suites`tests, suites`failures
  {
    forall s :: s in suites ==> s in c && c[s] == Count(s.tests, s.failures)
  }

  /** What the loop of summarize does to the counters in its first `i` rounds. */
  ghost function RolledUpTo(sh: Shape, c: Counters, i: nat): Counters
    requires i <= |sh.kids|
    decreases sh, i
  {
    if i == 0 then c
    else
      var kid := sh.kids[i - 1];
      AddedTo(RolledUpTo(kid, RolledUpTo(sh, c, i - 1), |kid.kids|), sh.suite, kid.suite)
  }

  ghost function AddedTo(c: Counters, s: Testsuite, sub: Testsuite): Counters
  {
    if s in c && sub in c then c[s := Plus(c[s], c[sub])] else c
  }

  ghost function Rolled(sh: Shape, c: Counters): Counters { RolledUpTo(sh, c, |sh.kids|) }

  /** Only the suites of the subtree get new counters. */
  lemma {:induction false} RolledFrame(sh: Shape, t: Tree, c: Counters, s: Testsuite, i: nat)
    requires IsTree(sh, t) && s in c && s !in sh.suites && i <= |sh.kids|
    ensures s in RolledUpTo(sh, c, i) && RolledUpTo(sh, c, i)[s] == c[s]
    decreases sh, i
  {
    if i == 0 {
    } else {
      RolledFrame(sh, t, c, s, i - 1);
      RolledFrame(sh.kids[i - 1], t.subs[i - 1], RolledUpTo(sh, c, i - 1), s, |sh.kids[i - 1].kids|);
    }
  }

  /** The counters `c` are those of the tree `t`. */
  ghost predicate Matches(sh: Shape, t: Tree, c: Counters)
  {
    && sh.suite in c && c[sh.suite] == CountersOf(t) && |sh.kids| == |t.subs|
    && forall i :: 0 <= i < |sh.kids| ==> Matches(sh.kids[i], t.subs[i], c)
  }

  lemma {:induction false} MatchesFrame(sh: Shape, t: Tree, u: Tree, c: Counters, d: Counters)
    requires IsTree(sh, t) && Matches(sh, u, c)
    requires forall s :: s in sh.suites && s in c ==> s in d && d[s] == c[s]
    ensures Matches(sh, u, d)
  {
    forall i | 0 <= i < |sh.kids| ensures Matches(sh.kids[i], u.subs[i], d) {
      MatchesFrame(sh.kids[i], t.subs[i], u.subs[i], c, d);
    }
  }

  /** One sub-suite more changes no other sub-suite's counters. */
  lemma RolledFrameKid(sh: Shape, t: Tree, c: Counters, i: nat, j: nat, s: Testsuite)
    requires IsTree(sh, t) && 0 < i <= |sh.kids| && j < |sh.kids| && s in sh.kids[j].suites
    requires var before := RolledUpTo(sh, c, i - 1); s in if j == i - 1 then Rolled(sh.kids[i - 1], before) else before
    ensures var before, after := RolledUpTo(sh, c, i - 1), RolledUpTo(sh, c, i);
      s in after && after[s] == (if j == i - 1 then Rolled(sh.kids[i - 1], before) else before)[s]
  {
    var kid, before := sh.kids[i - 1], RolledUpTo(sh, c, i - 1);
    if j != i - 1 {
      RolledFrame(kid, t.subs[i - 1], before, s, |kid.kids|);
    }
  }

  /** In terms of trees, the counters are rolled up as they should be. */
  lemma {:induction false} RolledMatches(sh: Shape, t: Tree, c: Counters)
    requires IsTree(sh, t) && Matches(sh, t, c)
    ensures Matches(sh, Summarized(t), Rolled(sh, c))
    decreases sh, |sh.kids| + 1
  {
    RolledSums(sh, t, c, |sh.kids|);
    forall j | 0 <= j < |sh.kids| ensures Matches(sh.kids[j], Summarized(t).subs[j], Rolled(sh, c)) {
      RolledKid(sh, t, c, |sh.kids|, j);
      SummarizedAt(t.subs, j);
    }
  }

  /** After `i` sub-suites the first `i` are rolled up and the others are as before. */
  lemma {:induction false} RolledKid(sh: Shape, t: Tree, c: Counters, i: nat, j: nat)
    requires IsTree(sh, t) && Matches(sh, t, c) && i <= |sh.kids| && j < |sh.kids|
    ensures Matches(sh.kids[j], if j < i then Summarized(t.subs[j]) else t.subs[j], RolledUpTo(sh, c, i))
    decreases sh, i, 0
  {
    if i == 0 {
    } else {
      var before, after := RolledUpTo(sh, c, i - 1), RolledUpTo(sh, c, i);
      RolledKid(sh, t, c, i - 1, j);
      var d := if j == i - 1 then Rolled(sh.kids[j], before) else before;
      if j == i - 1 { RolledMatches(sh.kids[j], t.subs[j], before); }
      forall s | s in sh.kids[j].suites && s in d
        ensures s in after && after[s] == d[s]
      {
        RolledFrameKid(sh, t, c, i, j, s);
      }
      MatchesFrame(sh.kids[j], t.subs[j], if j < i then Summarized(t.subs[j]) else t.subs[j], d, after);
    }
  }

  lemma {:induction false} RolledSums(sh: Shape, t: Tree, c: Counters, i: nat)
    requires IsTree(sh, t) && Matches(sh, t, c) && i <= |sh.kids|
    ensures sh.suite in RolledUpTo(sh, c, i)
    ensures RolledUpTo(sh, c, i)[sh.suite] == Added(CountersOf(t), t.subs, i)
    decreases sh, i, 1
  {
    if i == 0 {
    } else {
      var kid, before := sh.kids[i - 1], RolledUpTo(sh, c, i - 1);
      RolledSums(sh, t, c, i - 1);
      RolledKid(sh, t, c, i - 1, i - 1);
      RolledMatches(kid, t.subs[i - 1], before);
      RolledFrame(kid, t.subs[i - 1], before, sh.suite, |kid.kids|);
      AddedStep(CountersOf(t), t.subs, i);
    }
  }

  /** Suites whose counters count their own test cases, as AddTestcase keeps them, hold an open tree. */
  lemma {:induction false} FilledIsOpen(sh: Shape, t: Tree, c: Counters)
    requires IsTree(sh, t) && Built(sh, t) && HaveCounters(sh.suites, c) && Matches(sh, t, c)
    requires forall s :: s in sh.suites ==> s.Counts()
    ensures Open(t)
  {
    OwnPart(sh, t);
    Held(sh.suite.testcases, t.leaves);
    assert sh.suite.Counts();
    forall i | 0 <= i < |sh.kids| ensures Open(t.subs[i]) {
      KidBuilt(sh, t, i);
      FilledIsOpen(sh.kids[i], t.subs[i], c);
    }
  }

  // ----- the whole report -----

  /** The suites of a report, with all suites and all test cases in it. */
  datatype Whole = Whole(shapes: seq<Shape>, suites: set<Testsuite>, cases: set<Testcase>)

  ghost predicate AreTrees(w: Whole, ts: seq<Tree>)
  {
    && |w.shapes| == |ts|
    && (forall i :: 0 <= i < |ts| ==>
      IsTree(w.shapes[i], ts[i]) && w.shapes[i].suites <= w.suites && w.shapes[i].all <= w.cases)
    && forall i, j :: 0 <= i < |ts| && 0 <= j < |ts| && i != j ==> w.shapes[i].suites !! w.shapes[j].suites
  }

  ghost predicate AllBuilt(w: Whole, ts: seq<Tree>)
    requires AreTrees(w, ts)
    reads w.suites`testcases, w.suites`subSuites, w.cases`assertions, w.cases`failure, w.cases`end
  {
    forall i :: 0 <= i < |ts| ==> Built(w.shapes[i], ts[i])
  }

  ghost predicate AllMatch(w: Whole, ts: seq<Tree>, c: Counters)
    requires |w.shapes| == |ts|
  {
    forall i :: 0 <= i < |ts| ==> Matches(w.shapes[i], ts[i], c)
  }

  /** What the loop of Close does to the counters of suites in its first `i` rounds. */
  ghost function RolledEach(shapes: seq<Shape>, c: Counters, i: nat): Counters
    requires i <= |shapes|
  {
    if i == 0 then c else Rolled(shapes[i - 1], RolledEach(shapes, c, i - 1))
  }

  lemma {:induction false} EachMatches(w: Whole, ts: seq<Tree>, c: Counters, i: nat, j: nat)
    requires AreTrees(w, ts) && AllMatch(w, ts, c) && i <= |ts| && j < |ts|
    ensures Matches(w.shapes[j], if j < i then Summarized(ts[j]) else ts[j], RolledEach(w.shapes, c, i))
  {
    if i == 0 {
    } else {
      var before, sh := RolledEach(w.shapes, c, i - 1), w.shapes[i - 1];
      EachMatches(w, ts, c, i - 1, j);
      if j == i - 1 {
        RolledMatches(sh, ts[j], before);
      } else {
        forall s | s in w.shapes[j].suites && s in before
          ensures s in Rolled(sh, before) && Rolled(sh, before)[s] == before[s]
        {
          RolledFrame(sh, ts[i - 1], before, s, |sh.kids|);
        }
        MatchesFrame(w.shapes[j], ts[j], if j < i then Summarized(ts[j]) else ts[j], before, Rolled(sh, before));
      }
    }
  }

  lemma AllSummarized(w: Whole, ts: seq<Tree>, c: Counters)
    requires AreTrees(w, ts) && AllMatch(w, ts, c)
    ensures AllMatch(w, SummarizedAll(ts), RolledEach(w.shapes, c, |ts|))
  {
    forall i | 0 <= i < |ts| ensures Matches(w.shapes[i], SummarizedAll(ts)[i], RolledEach(w.shapes, c, |ts|)) {
      SummarizedAt(ts, i);
      EachMatches(w, ts, c, |ts|, i);
    }
  }

  lemma OthersUnrolled(w: Whole, ts: seq<Tree>, c: Counters, i: nat)
    requires AreTrees(w, ts) && i < |ts| && forall s :: s in w.suites ==> s in c
    ensures var rolled := Rolled(w.shapes[i], c);
      forall s :: s in w.suites && s !in w.shapes[i].suites ==> s in rolled && rolled[s] == c[s]
  {
    var sh := w.shapes[i];
    forall s | s in w.suites && s !in sh.suites ensures s in Rolled(sh, c) && Rolled(sh, c)[s] == c[s] {
      RolledFrame(sh, ts[i], c, s, |sh.kids|);
    }
  }

  class Testsuites {
    const name: string
    var tests: int
    var failures: int
    var testsuite: seq<Testsuite>

    constructor (name: string)
      ensures this.name == name && tests == failures == 0 && testsuite == []
    {
      this.name, tests, failures, testsuite := name, 0, 0, [];
    }

    method AddTestSuite(suite: Testsuite)
      modifies `testsuite
      ensures multiset(testsuite) == multiset(old(testsuite)) + multiset{suite} && SortedBy(SuiteName, Less, testsuite)
    {
      testsuite := testsuite + [suite];
      LessIsTotalOrder();
      testsuite := Sort(SuiteName, Less, testsuite);
    }

    /** Rolls up every suite and adds its counters to the totals. Before the call the suites in `w` are built like the
        trees `ts`, whose counters `c` they have. */
    method Close(ghost w: Whole, ghost ts: seq<Tree>, ghost c: Counters)
      requires AreTrees(w, ts) && AllBuilt(w, ts) && HaveCounters(w.suites, c) && AllMatch(w, ts, c)
      requires |testsuite| == |ts| && forall i :: 0 <= i < |ts| ==> testsuite[i] == w.shapes[i].suite
      modifies `tests, `failures, w.suites`tests, w.suites`failures
      ensures Count(tests, failures) == Added(old(Count(tests, failures)), ts, |ts|)
      ensures HaveCounters(w.suites, RolledEach(w.shapes, c, |ts|))
      ensures AllMatch(w, SummarizedAll(ts), RolledEach(w.shapes, c, |ts|))
    {
      ghost var base := Count(tests, failures);
      for i := 0 to |testsuite|
        invariant AllBuilt(w, ts) && HaveCounters(w.suites, RolledEach(w.shapes, c, i))
        invariant Count(tests, failures) == Added(base, ts, i)
      {
        CloseSuite(w, ts, c, i);
        AddTotals(w, ts, RolledEach(w.shapes, c, i + 1), testsuite[i]);
        AddedStep(base, ts, i + 1);
      }
      AllSummarized(w, ts, c);
    }

    method AddTotals(ghost w: Whole, ghost ts: seq<Tree>, ghost c: Counters, suite: Testsuite)
      requires AreTrees(w, ts) && AllBuilt(w, ts) && HaveCounters(w.suites, c)
      modifies `tests, `failures
      ensures Count(tests, failures) == Plus(old(Count(tests, failures)), Count(suite.tests, suite.failures))
      ensures AllBuilt(w, ts) && HaveCounters(w.suites, c)
    {
      tests := tests + suite.tests;
      failures := failures + suite.failures;
    }

    method CloseSuite(ghost w: Whole, ghost ts: seq<Tree>, ghost c: Counters, i: nat)
      requires AreTrees(w, ts) && AllBuilt(w, ts) && AllMatch(w, ts, c)
      requires |testsuite| == |ts| && i < |ts| && testsuite[i] == w.shapes[i].suite
      requires HaveCounters(w.suites, RolledEach(w.shapes, c, i))
      modifies w.suites`tests, w.suites`failures
      ensures AllBuilt(w, ts) && HaveCounters(w.suites, RolledEach(w.shapes, c, i + 1))
      ensures Count(testsuite[i].tests, testsuite[i].failures) == CountersOf(Summarized(ts[i]))
    {
      ghost var sh, before := w.shapes[i], RolledEach(w.shapes, c, i);
      OthersUnrolled(w, ts, before, i);
      assert RolledEach(w.shapes, c, i + 1) == Rolled(sh, before);
      var _ := testsuite[i].Summarize(sh, ts[i], before);
      EachMatches(w, ts, c, i + 1, i);
    }
  }
}
