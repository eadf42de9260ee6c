/** From the calls of parallel tests on a suite to the tree it holds, reported by test or by step. */
module ReportCalls {
  import opened Order
  import opened ReportTree
  import opened ReportTotals
  import opened Report

  // ----- a suite filled with test cases -----

  /** The calls that filled a suite: its test cases, and the contents of the suite before and after each call. */
  datatype Filling = Filling(cases: seq<Testcase>, states: seq<Contents>, calls: seq<Call>)

  function CallsFor(cases: seq<Testcase>, entries: seq<Entry>): (r: seq<Call>)
    requires |cases| == |entries|
    ensures |r| == |cases|
  {
    seq(|cases|, i requires 0 <= i < |cases| => AddCase(cases[i], entries[i].failed))
  }

  /** A new suite was filled with a test case for each entry, in whatever order the calls got its lock. */
  ghost predicate Filled(suite: Testsuite, entries: seq<Entry>, f: Filling)
    reads suite, f.cases
  {
    && |f.cases| == |entries| && Performed(f.states, f.calls) && suite.Content() == f.states[|f.calls|]
    && multiset(f.calls) == multiset(CallsFor(f.cases, entries))
    && forall i :: 0 <= i < |entries| ==> EntryOf(f.cases[i].Leaf()) == entries[i]
  }

  /** What a reporter's Done leaves in a suite that was new. */
  lemma DoneFills(suite: Testsuite, entries: seq<Entry>, states: seq<Contents>, added: seq<Testcase>)
    requires Adds(EMPTY, states, added, entries) && suite.Content() == states[|added|]
    ensures Filled(suite, entries, Filling(added, states, CallsFor(added, entries)))
  {
  }

  lemma {:induction false} CallsForCount(cases: seq<Testcase>, entries: seq<Entry>)
    requires |cases| == |entries|
    ensures CasesOf(CallsFor(cases, entries)) == cases && SuitesOf(CallsFor(cases, entries)) == []
    ensures FailedOf(CallsFor(cases, entries)) == SumFailures(entries)
  {
    if cases == [] {
    } else {
      var n := |cases| - 1;
      CallsForCount(cases[..n], entries[..n]);
      assert CallsFor(cases, entries)[..n] == CallsFor(cases[..n], entries[..n]);
      assert cases == cases[..n] + [cases[n]];
    }
  }

  lemma FilledSuite(suite: Testsuite, entries: seq<Entry>, f: Filling)
    requires Filled(suite, entries, f)
    ensures suite.subSuites == [] && suite.tests == |entries| && suite.failures == SumFailures(entries)
    ensures multiset(suite.testcases) == multiset(f.cases)
  {
    AfterCalls(f.states, f.calls);
    CallsPermuted(f.calls, CallsFor(f.cases, entries));
    CallsForCount(f.cases, entries);
    assert |multiset(CasesOf(f.calls))| == |multiset(f.cases)|;
    assert |multiset(suite.subSuites)| == 0;
  }

  lemma FilledLeaves(suite: Testsuite, entries: seq<Entry>, f: Filling, leaves: seq<Leaf>)
    requires Filled(suite, entries, f) && Hold(suite.testcases, leaves)
    ensures |leaves| == |entries| && Entries(leaves) == multiset(entries) && Failing(leaves) == SumFailures(entries)
  {
    FilledSuite(suite, entries, f);
    Held(suite.testcases, leaves);
    LeavesPermuted(suite.testcases, f.cases);
    EntriesSum(LeavesAt(f.cases));
    assert EntriesIn(LeavesAt(f.cases)) == entries;
    assert |multiset(suite.testcases)| == |multiset(f.cases)|;
  }

  // ----- reported by test -----

  /** The suite is built like the tree `t`, its counters and those below included. */
  ghost predicate Holds(sh: Shape, t: Tree, c: Counters)
    reads sh.suites, sh.all
  {
    IsTree(sh, t) && Built(sh, t) && HaveCounters(sh.suites, c) && Matches(sh, t, c)
  }

  /** A filled suite holds an open tree of just these entries. */
  lemma FilledTree(sh: Shape, t: Tree, c: Counters, entries: seq<Entry>, f: Filling)
    requires Holds(sh, t, c) && Filled(sh.suite, entries, f)
    ensures Open(t) && t.subs == [] && Entries(t.leaves) == multiset(entries)
  {
    OwnPart(sh, t);
    FilledSuite(sh.suite, entries, f);
    FilledLeaves(sh.suite, entries, f, t.leaves);
  }

  /** When every run has handed its one test case to a new suite, in any order, the suite is one reported by test. */
  lemma CallsByTest(sh: Shape, t: Tree, c: Counters, runs: seq<Run>, f: Filling)
    requires Holds(sh, t, c) && Filled(sh.suite, RunEntries(runs), f)
    ensures ByTest(t, runs)
  {
    FilledTree(sh, t, c, RunEntries(runs), f);
  }

  // ----- reported by step -----

  /** The calls on a suite reported by step: a sub-suite for each run, filled by that run alone. */
  datatype Reporting = Reporting(subs: seq<Testsuite>, fillings: seq<Filling>, states: seq<Contents>, calls: seq<Call>)

  function CallsForSuites(subs: seq<Testsuite>): (r: seq<Call>)
    ensures |r| == |subs|
  {
    seq(|subs|, i requires 0 <= i < |subs| => AddSuite(subs[i]))
  }

  function AllCases(fillings: seq<Filling>): (all: set<Testcase>)
    ensures forall i, testcase :: 0 <= i < |fillings| && testcase in fillings[i].cases ==> testcase in all
  {
    set i, testcase | 0 <= i < |fillings| && testcase in fillings[i].cases :: testcase
  }

  /** Every run has got a sub-suite of its own, in any order, and has handed it a test case for each of its records. */
  ghost predicate Reports(suite: Testsuite, runs: seq<Run>, r: Reporting)
    reads suite, r.subs, AllCases(r.fillings)
  {
    && |r.subs| == |r.fillings| == |runs| && Performed(r.states, r.calls) && suite.Content() == r.states[|r.calls|]
    && multiset(r.calls) == multiset(CallsForSuites(r.subs))
    && forall i :: 0 <= i < |runs| ==>
      r.subs[i].name == runs[i].name && Filled(r.subs[i], runs[i].records, r.fillings[i])
  }

  lemma {:induction false} CallsForSuitesCount(subs: seq<Testsuite>)
    ensures CasesOf(CallsForSuites(subs)) == [] && SuitesOf(CallsForSuites(subs)) == subs
    ensures FailedOf(CallsForSuites(subs)) == 0
  {
    if subs == [] {
    } else {
      var n := |subs| - 1;
      CallsForSuitesCount(subs[..n]);
      assert CallsForSuites(subs)[..n] == CallsForSuites(subs[..n]);
      assert subs == subs[..n] + [subs[n]];
    }
  }

  lemma ReportingSuite(suite: Testsuite, runs: seq<Run>, r: Reporting)
    requires Reports(suite, runs, r)
    ensures suite.testcases == [] && suite.tests == 0 && suite.failures == 0
    ensures multiset(suite.subSuites) == multiset(r.subs) && |suite.subSuites| == |runs|
  {
    AfterCalls(r.states, r.calls);
    CallsPermuted(r.calls, CallsForSuites(r.subs));
    CallsForSuitesCount(r.subs);
    assert |multiset(suite.subSuites)| == |multiset(r.subs)|;
    assert |multiset(suite.testcases)| == 0;
  }

  /** Two lists of the same things differ by an order. */
  lemma {:induction false} FindOrder<T>(xs: seq<T>, ys: seq<T>) returns (order: seq<nat>)
    requires multiset(xs) == multiset(ys)
    ensures |xs| == |ys| && Arranges(order, |ys|) && forall i :: 0 <= i < |xs| ==> xs[i] == ys[order[i]]
    decreases |xs|
  {
    assert |multiset(xs)| == |multiset(ys)|;
    if xs == [] {
      order := [];
    } else {
      var n := |xs| - 1;
      var j := SomewhereIn(xs, ys);
      var front := FindOrder(xs[..n], Without(ys, j));
      order := seq(n, i requires 0 <= i < n => Skipping(j, front[i])) + [j];
      SkippingArranges(front, n, j);
      forall i | 0 <= i < n ensures xs[i] == ys[order[i]] { SkippingIndexes(ys, j, front[i]); }
    }
  }

  lemma SkippingIndexes<T>(ys: seq<T>, j: nat, i: nat)
    requires j < |ys| && i < |ys| - 1
    ensures Without(ys, j)[i] == ys[Skipping(j, i)]
  {
  }

  function Skipping(j: nat, i: nat): nat { if i < j then i else i + 1 }

  lemma SkippingArranges(front: seq<nat>, n: nat, j: nat)
    requires Arranges(front, n) && j <= n
    ensures Arranges(seq(n, i requires 0 <= i < n => Skipping(j, front[i])) + [j], n + 1)
  {
    var range: seq<nat> := seq(n, i => i);
    var all: seq<nat> := seq(n + 1, i => i);
    var f := map i: nat | 0 <= i < n :: Skipping(j, i);
    ImagePermuted(f, front, range);
    assert Image(f, front) == seq(n, i requires 0 <= i < n => Skipping(j, front[i]));
    assert Image(f, range) == Without(all, j);
    TakeOut(all, j);
  }

  /** When every run has handed a test case for each step to its own sub-suite, in any order, the suite is one reported
      by step. */
  lemma CallsBySteps(sh: Shape, t: Tree, c: Counters, runs: seq<Run>, r: Reporting) returns (order: seq<nat>)
    requires Holds(sh, t, c) && Reports(sh.suite, runs, r)
    ensures BySteps(t, runs, order)
  {
    OwnPart(sh, t);
    ReportingSuite(sh.suite, runs, r);
    order := FindOrder(sh.suite.subSuites, r.subs);
    forall i | 0 <= i < |runs|
      ensures Open(t.subs[i]) && t.subs[i].subs == [] && t.subs[i].name == runs[order[i]].name
      ensures Entries(t.subs[i].leaves) == multiset(runs[order[i]].records)
    {
      KidBuilt(sh, t, i);
      FilledTree(sh.kids[i], t.subs[i], c, runs[order[i]].records, r.fillings[order[i]]);
    }
  }

  // ----- the totals -----

  /** Whatever the order in which the calls of the runs get the locks: a suite filled by test and one filled by step
      give the same totals of failures and of assertions once they are rolled up. */
  lemma CallsAgree(sh: Shape, t: Tree, c: Counters, f: Filling,
                   other: Shape, s: Tree, d: Counters, r: Reporting, runs: seq<Run>)
    requires Holds(sh, t, c) && Filled(sh.suite, RunEntries(runs), f)
    requires Holds(other, s, d) && Reports(other.suite, runs, r)
    requires forall k :: 0 <= k < |runs| ==> OnlyLastFails(runs[k].records)
    ensures Summarized(t).failures == Summarized(s).failures && Summarized(t).tests == |runs|
    ensures Assertions(AllLeaves(t)) == Assertions(AllLeaves(s))
  {
    CallsByTest(sh, t, c, runs, f);
    var order := CallsBySteps(other, s, d, runs, r);
    GranularitiesAgree(t, s, runs, order);
  }

  lemma {:induction false} AllBySteps(shapes: seq<Shape>, ts: seq<Tree>, c: Counters, rs: seq<Reporting>,
                                      runs: seq<seq<Run>>)
      returns (orders: seq<seq<nat>>)
    requires |shapes| == |ts| == |rs| == |runs|
    requires forall i :: 0 <= i < |ts| ==> Holds(shapes[i], ts[i], c) && Reports(shapes[i].suite, runs[i], rs[i])
    ensures |orders| == |ts| && forall i :: 0 <= i < |ts| ==> BySteps(ts[i], runs[i], orders[i])
  {
    if ts == [] {
      orders := [];
    } else {
      var n := |ts| - 1;
      orders := AllBySteps(shapes[..n], ts[..n], c, rs[..n], runs[..n]);
      var order := CallsBySteps(shapes[n], ts[n], c, runs[n], rs[n]);
      orders := orders + [order];
    }
  }

  /** The same for the suites of two whole reports: the totals that one Close of each computes agree. */
  lemma WholeReportsAgree(base: Count, byTest: seq<Shape>, ts: seq<Tree>, c: Counters, fs: seq<Filling>,
                          bySteps: seq<Shape>, ss: seq<Tree>, d: Counters, rs: seq<Reporting>, runs: seq<seq<Run>>)
    requires |byTest| == |ts| == |fs| == |runs| && |bySteps| == |ss| == |rs| == |runs|
    requires forall i :: 0 <= i < |ts| ==>
      Holds(byTest[i], ts[i], c) && Filled(byTest[i].suite, RunEntries(runs[i]), fs[i])
    requires forall i :: 0 <= i < |ss| ==> Holds(bySteps[i], ss[i], d) && Reports(bySteps[i].suite, runs[i], rs[i])
    requires forall i, k :: 0 <= i < |runs| && 0 <= k < |runs[i]| ==> OnlyLastFails(runs[i][k].records)
    ensures Added(base, ts, |ts|).failures == Added(base, ss, |ss|).failures
    ensures Assertions(LeavesOf(ts, |ts|)) == Assertions(LeavesOf(ss, |ss|))
  {
    var orders := AllBySteps(bySteps, ss, d, rs, runs);
    forall i | 0 <= i < |ts| ensures ByTest(ts[i], runs[i]) { CallsByTest(byTest[i], ts[i], c, runs[i], fs[i]); }
    SuitesAgree(base, ts, ss, runs, orders, |ts|);
  }
}
