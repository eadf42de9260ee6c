/** Reporting by test and reporting by step give the same totals. */
module ReportTotals {
  import opened Order
  import opened ReportTree

  /** One run of a test case: what its steps reported, setup first. */
  datatype Run = Run(name: string, records: seq<Entry>)

  /** A run stops at the first failure. */
  ghost predicate OnlyLastFails(records: seq<Entry>)
  {
    forall i :: 0 <= i < |records| - 1 ==> !records[i].failed
  }

  function AnyFailed(records: seq<Entry>): bool
  {
    records != [] && (AnyFailed(records[..|records| - 1]) || records[|records| - 1].failed)
  }

  function SumAssertions(records: seq<Entry>): int
  {
    if records == [] then 0 else SumAssertions(records[..|records| - 1]) + records[|records| - 1].assertions
  }

  /** Wherever in the run the failure was. */
  lemma {:induction false} AnyFailedExactly(records: seq<Entry>)
    ensures AnyFailed(records) <==> exists i :: 0 <= i < |records| && records[i].failed
  {
    if records == [] {
    } else {
      var n := |records| - 1;
      AnyFailedExactly(records[..n]);
      if i :| 0 <= i < |records| && records[i].failed {
        if i < n { assert records[..n][i].failed; }
      }
    }
  }

  /** The one test case that stands for a whole run. */
  function RunEntry(run: Run): Entry
  {
    Entry(run.name, AnyFailed(run.records), SumAssertions(run.records))
  }

  function RunEntries(runs: seq<Run>): (r: seq<Entry>)
    ensures |r| == |runs|
  {
    seq(|runs|, i requires 0 <= i < |runs| => RunEntry(runs[i]))
  }

  /** A suite reported by test: a test case for each run, in whatever order. */
  ghost predicate ByTest(t: Tree, runs: seq<Run>)
  {
    Open(t) && t.subs == [] && Entries(t.leaves) == multiset(RunEntries(runs))
  }

  /** A suite reported by step: a sub-suite for each run, the i-th one for run `order[i]`, with a test case for each
      step. */
  ghost predicate BySteps(s: Tree, runs: seq<Run>, order: seq<nat>)
  {
    && Open(s) && s.leaves == [] && |s.subs| == |runs| && Arranges(order, |runs|)
    && forall i :: 0 <= i < |runs| ==>
      s.subs[i].name == runs[order[i]].name && s.subs[i].subs == []
        && Entries(s.subs[i].leaves) == multiset(runs[order[i]].records)
  }

  ghost predicate Arranges(order: seq<nat>, n: nat)
  {
    |order| == n && (forall i :: 0 <= i < n ==> order[i] < n) && multiset(order) == multiset(seq(n, i => i))
  }

  // ----- sums over entries -----

  function SumFailures(es: seq<Entry>): nat
  {
    if es == [] then 0 else SumFailures(es[..|es| - 1]) + if es[|es| - 1].failed then 1 else 0
  }

  lemma {:induction false} SumsAppend(xs: seq<Entry>, ys: seq<Entry>)
    ensures SumFailures(xs + ys) == SumFailures(xs) + SumFailures(ys)
    ensures SumAssertions(xs + ys) == SumAssertions(xs) + SumAssertions(ys)
  {
    if ys == [] {
      assert xs + ys == xs;
    } else {
      assert (xs + ys)[..|xs + ys| - 1] == xs + ys[..|ys| - 1];
      SumsAppend(xs, ys[..|ys| - 1]);
    }
  }

  lemma SumsStep(es: seq<Entry>, i: nat)
    requires 0 < i <= |es|
    ensures SumFailures(es[..i]) == SumFailures(es[..i - 1]) + if es[i - 1].failed then 1 else 0
    ensures SumAssertions(es[..i]) == SumAssertions(es[..i - 1]) + es[i - 1].assertions
  {
    assert es[..i][..i - 1] == es[..i - 1];
  }

  lemma SumsWithout(xs: seq<Entry>, j: nat)
    requires j < |xs|
    ensures SumFailures(xs) == SumFailures(Without(xs, j)) + if xs[j].failed then 1 else 0
    ensures SumAssertions(xs) == SumAssertions(Without(xs, j)) + xs[j].assertions
  {
    var before, after := xs[..j + 1], xs[j + 1..];
    assert xs == before + after;
    SumsAppend(before, after);
    SumsStep(xs, j + 1);
    SumsAppend(xs[..j], after);
  }

  lemma {:induction false} SumsPermuted(xs: seq<Entry>, ys: seq<Entry>)
    requires multiset(xs) == multiset(ys)
    ensures SumFailures(xs) == SumFailures(ys) && SumAssertions(xs) == SumAssertions(ys) && |xs| == |ys|
    decreases |xs|
  {
    assert |multiset(xs)| == |xs| && |multiset(ys)| == |ys|;
    if xs != [] {
      var j := SomewhereIn(xs, ys);
      SumsPermuted(xs[..|xs| - 1], Without(ys, j));
      SumsWithout(ys, j);
    }
  }

  function EntriesIn(leaves: seq<Leaf>): (r: seq<Entry>)
    ensures |r| == |leaves|
  {
    seq(|leaves|, i requires 0 <= i < |leaves| => EntryOf(leaves[i]))
  }

  lemma {:induction false} EntriesSum(leaves: seq<Leaf>)
    ensures Failing(leaves) == SumFailures(EntriesIn(leaves)) && Assertions(leaves) == SumAssertions(EntriesIn(leaves))
    ensures Entries(leaves) == multiset(EntriesIn(leaves))
  {
    if leaves == [] {
    } else {
      var n := |leaves| - 1;
      EntriesSum(leaves[..n]);
      assert EntriesIn(leaves) == EntriesIn(leaves[..n]) + [EntryOf(leaves[n])];
      assert EntriesIn(leaves)[..n] == EntriesIn(leaves[..n]);
    }
  }

  /** Failures, assertions and the number of test cases are determined by what is reported. */
  lemma SumsOfLeaves(leaves: seq<Leaf>, es: seq<Entry>)
    requires Entries(leaves) == multiset(es)
    ensures Failing(leaves) == SumFailures(es) && Assertions(leaves) == SumAssertions(es) && |leaves| == |es|
  {
    EntriesSum(leaves);
    SumsPermuted(EntriesIn(leaves), es);
  }

  // ----- the totals -----

  /** A run that stops at its first failure counts the same reported as a whole or step by step. */
  lemma {:induction false} RunSums(records: seq<Entry>)
    requires OnlyLastFails(records)
    ensures SumFailures(records) == if AnyFailed(records) then 1 else 0
  {
    if records == [] {
    } else {
      RunSums(records[..|records| - 1]);
      NoneFailed(records[..|records| - 1]);
    }
  }

  lemma {:induction false} NoneFailed(records: seq<Entry>)
    requires forall i :: 0 <= i < |records| ==> !records[i].failed
    ensures !AnyFailed(records)
  {
    if records == [] {
    } else {
      NoneFailed(records[..|records| - 1]);
    }
  }

  function Arranged(runs: seq<Run>, order: seq<nat>): (r: seq<Entry>)
    requires forall i :: 0 <= i < |order| ==> order[i] < |runs|
    ensures |r| == |order|
  {
    seq(|order|, i requires 0 <= i < |order| => RunEntry(runs[order[i]]))
  }

  lemma ArrangedPermutes(runs: seq<Run>, order: seq<nat>)
    requires Arranges(order, |runs|)
    ensures multiset(Arranged(runs, order)) == multiset(RunEntries(runs))
  {
    var range: seq<nat> := seq(|runs|, i => i);
    var f := map i: nat | 0 <= i < |runs| :: RunEntry(runs[i]);
    ImagePermuted(f, order, range);
    assert Image(f, order) == Arranged(runs, order) && Image(f, range) == RunEntries(runs);
  }

  lemma SubSums(s: Tree, runs: seq<Run>, order: seq<nat>, k: nat)
    requires BySteps(s, runs, order) && k < |runs| && OnlyLastFails(runs[order[k]].records)
    ensures Failing(AllLeaves(s.subs[k])) == if Arranged(runs, order)[k].failed then 1 else 0
    ensures Assertions(AllLeaves(s.subs[k])) == Arranged(runs, order)[k].assertions
  {
    var sub, run := s.subs[k], runs[order[k]];
    assert AllLeaves(sub) == sub.leaves;
    SumsOfLeaves(sub.leaves, run.records);
    RunSums(run.records);
  }

  lemma {:induction false} StepsSum(s: Tree, runs: seq<Run>, order: seq<nat>, i: nat)
    requires BySteps(s, runs, order) && i <= |runs|
    requires forall k :: 0 <= k < |runs| ==> OnlyLastFails(runs[k].records)
    ensures Failing(LeavesOf(s.subs, i)) == SumFailures(Arranged(runs, order)[..i])
    ensures Assertions(LeavesOf(s.subs, i)) == SumAssertions(Arranged(runs, order)[..i])
  {
    if i == 0 {
      assert Arranged(runs, order)[..0] == [];
    } else {
      StepsSum(s, runs, order, i - 1);
      SubSums(s, runs, order, i - 1);
      NextSums(s.subs, Arranged(runs, order), i);
    }
  }

  lemma NextSums(ts: seq<Tree>, es: seq<Entry>, i: nat)
    requires 0 < i <= |ts| && i <= |es|
    requires Failing(LeavesOf(ts, i - 1)) == SumFailures(es[..i - 1])
    requires Assertions(LeavesOf(ts, i - 1)) == SumAssertions(es[..i - 1])
    requires Failing(AllLeaves(ts[i - 1])) == (if es[i - 1].failed then 1 else 0)
    requires Assertions(AllLeaves(ts[i - 1])) == es[i - 1].assertions
    ensures Failing(LeavesOf(ts, i)) == SumFailures(es[..i]) && Assertions(LeavesOf(ts, i)) == SumAssertions(es[..i])
  {
    LeavesStep(ts, i);
    SumsStep(es, i);
  }

  /** For any runs that stop at their first failure, reporting by test and by step give the same totals of failures and
      of assertions once the report is closed. */
  lemma GranularitiesAgree(t: Tree, s: Tree, runs: seq<Run>, order: seq<nat>)
    requires ByTest(t, runs) && BySteps(s, runs, order)
    requires forall k :: 0 <= k < |runs| ==> OnlyLastFails(runs[k].records)
    ensures Summarized(t).failures == Summarized(s).failures
    ensures Assertions(AllLeaves(t)) == Assertions(AllLeaves(s))
    ensures Summarized(t).tests == |runs|
  {
    var es := Arranged(runs, order);
    SummarizedCounts(t);
    SummarizedCounts(s);
    assert AllLeaves(t) == t.leaves && AllLeaves(s) == LeavesOf(s.subs, |s.subs|);
    SumsOfLeaves(t.leaves, RunEntries(runs));
    StepsSum(s, runs, order, |runs|);
    assert es[..|runs|] == es;
    ArrangedPermutes(runs, order);
    SumsPermuted(es, RunEntries(runs));
  }

  /** Two ways of reporting the same runs of several suites. */
  ghost predicate SameRuns(ts: seq<Tree>, ss: seq<Tree>, runs: seq<seq<Run>>, orders: seq<seq<nat>>)
  {
    && |ts| == |ss| == |runs| == |orders|
    && (forall i :: 0 <= i < |ts| ==> ByTest(ts[i], runs[i]) && BySteps(ss[i], runs[i], orders[i]))
    && forall i, k :: 0 <= i < |ts| && 0 <= k < |runs[i]| ==> OnlyLastFails(runs[i][k].records)
  }

  /** The totals of the first `i` suites agree. */
  predicate Agree(base: Count, ts: seq<Tree>, ss: seq<Tree>, i: nat)
    requires i <= |ts| && i <= |ss|
  {
    Added(base, ts, i).failures == Added(base, ss, i).failures
      && Assertions(LeavesOf(ts, i)) == Assertions(LeavesOf(ss, i))
  }

  /** Two suites count the same once they are rolled up. */
  predicate PairAgrees(t: Tree, s: Tree)
  {
    Summarized(t).failures == Summarized(s).failures && Assertions(AllLeaves(t)) == Assertions(AllLeaves(s))
  }

  lemma {:induction false} PairsAgree(base: Count, ts: seq<Tree>, ss: seq<Tree>, i: nat)
    requires |ts| == |ss| && i <= |ts| && forall j :: 0 <= j < |ts| ==> PairAgrees(ts[j], ss[j])
    ensures Agree(base, ts, ss, i)
  {
    if i == 0 {
      NoneAgree(base, ts, ss);
    } else {
      PairsAgree(base, ts, ss, i - 1);
      assert PairAgrees(ts[i - 1], ss[i - 1]);
      NextAgrees(base, ts, ss, i);
    }
  }

  lemma SuitesAgree(base: Count, ts: seq<Tree>, ss: seq<Tree>, runs: seq<seq<Run>>, orders: seq<seq<nat>>, i: nat)
    requires SameRuns(ts, ss, runs, orders) && i <= |ts|
    ensures Agree(base, ts, ss, i)
  {
    forall j: nat | j < |ts| ensures PairAgrees(ts[j], ss[j]) { SuiteAgrees(ts, ss, runs, orders, j); }
    PairsAgree(base, ts, ss, i);
  }

  lemma NoneAgree(base: Count, ts: seq<Tree>, ss: seq<Tree>)
    ensures Agree(base, ts, ss, 0)
  {
  }

  lemma SuiteAgrees(ts: seq<Tree>, ss: seq<Tree>, runs: seq<seq<Run>>, orders: seq<seq<nat>>, i: nat)
    requires SameRuns(ts, ss, runs, orders) && i < |ts|
    ensures PairAgrees(ts[i], ss[i])
  {
    GranularitiesAgree(ts[i], ss[i], runs[i], orders[i]);
  }

  lemma NextAgrees(base: Count, ts: seq<Tree>, ss: seq<Tree>, i: nat)
    requires 0 < i <= |ts| && i <= |ss|
    requires Agree(base, ts, ss, i - 1)
    requires PairAgrees(ts[i - 1], ss[i - 1])
    ensures Agree(base, ts, ss, i)
  {
    AddedStep(base, ts, i);
    AddedStep(base, ss, i);
    LeavesStep(ts, i);
    LeavesStep(ss, i);
  }
}
