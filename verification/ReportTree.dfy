/** The report as a tree of values: what rolling it up means, and what its totals count. */
module ReportTree {
  import opened Order

  /** A test case in a report. */
  datatype Leaf = Leaf(name: string, failed: bool, assertions: int, end: int)

  /** What a test case reports. */
  datatype Entry = Entry(name: string, failed: bool, assertions: int)

  function EntryOf(leaf: Leaf): Entry { Entry(leaf.name, leaf.failed, leaf.assertions) }

  /** A suite with its own counters. */
  datatype Tree = Tree(name: string, start: int, tests: int, failures: int, leaves: seq<Leaf>, subs: seq<Tree>)

  // ----- rolling up; the loops of the code go from the front, so functions recurse on the last element -----

  function Max(a: int, b: int): int { if b > a then b else a }

  /** A suite's two counters. */
  datatype Count = Count(tests: int, failures: int)

  function Plus(a: Count, b: Count): Count { Count(a.tests + b.tests, a.failures + b.failures) }

  function CountersOf(t: Tree): Count { Count(t.tests, t.failures) }

  /** The counters `base` with those of the first `i` suites added, each with its own sub-suites added first. */
  function Added(base: Count, ts: seq<Tree>, i: nat): Count
    requires i <= |ts|
    decreases ts, i
  {
    if i == 0 then base
    else Plus(Added(base, ts, i - 1), Added(CountersOf(ts[i - 1]), ts[i - 1].subs, |ts[i - 1].subs|))
  }

  function WithSubs(t: Tree, subs: seq<Tree>): Tree
  {
    var total := Added(CountersOf(t), t.subs, |t.subs|);
    t.(subs := subs, tests := total.tests, failures := total.failures)
  }

  function SummarizedAll(ts: seq<Tree>): (r: seq<Tree>)
    ensures |r| == |ts|
    decreases ts
  {
    if ts == [] then []
    else
      var t := ts[|ts| - 1];
      SummarizedAll(ts[..|ts| - 1]) + [WithSubs(t, SummarizedAll(t.subs))]
  }

  /** The result of summarize on a suite. */
  function Summarized(t: Tree): Tree
  {
    WithSubs(t, SummarizedAll(t.subs))
  }

  lemma {:induction false} SummarizedAt(ts: seq<Tree>, i: nat)
    requires i < |ts|
    ensures SummarizedAll(ts)[i] == Summarized(ts[i])
  {
    if i == |ts| - 1 {
    } else {
      SummarizedAt(ts[..|ts| - 1], i);
    }
  }

  function LatestSub(start: int, ts: seq<Tree>): int
    decreases ts
  {
    if ts == [] then start
    else
      var t := ts[|ts| - 1];
      Max(LatestSub(start, ts[..|ts| - 1]), LatestLeaf(LatestSub(t.start, t.subs), t.leaves))
  }

  function LatestEnd(t: Tree): int
  {
    LatestLeaf(LatestSub(t.start, t.subs), t.leaves)
  }

  function LatestLeaf(start: int, leaves: seq<Leaf>): int
  {
    if leaves == [] then start else Max(LatestLeaf(start, leaves[..|leaves| - 1]), leaves[|leaves| - 1].end)
  }

  // ----- what the tree holds -----

  predicate InTree(leaf: Leaf, t: Tree)
  {
    leaf in t.leaves || exists i :: 0 <= i < |t.subs| && InTree(leaf, t.subs[i])
  }

  predicate Within(s: Tree, t: Tree)
  {
    s == t || exists i :: 0 <= i < |t.subs| && Within(s, t.subs[i])
  }

  function Failing(leaves: seq<Leaf>): (n: nat)
    ensures n <= |leaves|
  {
    if leaves == [] then 0 else Failing(leaves[..|leaves| - 1]) + if leaves[|leaves| - 1].failed then 1 else 0
  }

  function Assertions(leaves: seq<Leaf>): int
  {
    if leaves == [] then 0 else Assertions(leaves[..|leaves| - 1]) + leaves[|leaves| - 1].assertions
  }

  /** All test cases of the first `i` trees. */
  function LeavesOf(ts: seq<Tree>, i: nat): seq<Leaf>
    requires i <= |ts|
    decreases ts, i
  {
    if i == 0 then []
    else
      var t := ts[i - 1];
      LeavesOf(ts, i - 1) + (t.leaves + LeavesOf(t.subs, |t.subs|))
  }

  /** All test cases of the subtree. */
  function AllLeaves(t: Tree): seq<Leaf>
  {
    t.leaves + LeavesOf(t.subs, |t.subs|)
  }

  /** What a list of test cases reports, in whatever order. */
  ghost function Entries(leaves: seq<Leaf>): multiset<Entry>
  {
    if leaves == [] then multiset{} else Entries(leaves[..|leaves| - 1]) + multiset{EntryOf(leaves[|leaves| - 1])}
  }

  /** Every suite's counters count its own test cases, as they do until the report is closed. */
  predicate Open(t: Tree)
  {
    t.tests == |t.leaves| && t.failures == Failing(t.leaves) && forall i :: 0 <= i < |t.subs| ==> Open(t.subs[i])
  }

  // ----- rolling up counts every test case of the subtree -----

  lemma {:induction false} CountsAppend(xs: seq<Leaf>, ys: seq<Leaf>)
    ensures Failing(xs + ys) == Failing(xs) + Failing(ys)
    ensures Assertions(xs + ys) == Assertions(xs) + Assertions(ys)
    ensures Entries(xs + ys) == Entries(xs) + Entries(ys)
  {
    if ys == [] {
      assert xs + ys == xs;
    } else {
      assert (xs + ys)[..|xs + ys| - 1] == xs + ys[..|ys| - 1];
      CountsAppend(xs, ys[..|ys| - 1]);
    }
  }

  lemma CountsWithout(xs: seq<Leaf>, j: nat)
    requires j < |xs|
    ensures Failing(xs) == Failing(Without(xs, j)) + (if xs[j].failed then 1 else 0)
    ensures Assertions(xs) == Assertions(Without(xs, j)) + xs[j].assertions
    ensures Entries(xs) == Entries(Without(xs, j)) + multiset{EntryOf(xs[j])}
  {
    var before, here, after := xs[..j], [xs[j]], xs[j + 1..];
    TakeOut(xs, j);
    CountsAppend(before + here, after);
    CountsAppend(before, here);
    CountsAppend(before, after);
    CountsOne(xs[j]);
  }

  lemma CountsOne(leaf: Leaf)
    ensures Failing([leaf]) == (if leaf.failed then 1 else 0) && Assertions([leaf]) == leaf.assertions
    ensures Entries([leaf]) == multiset{EntryOf(leaf)}
  {
  }

  lemma {:induction false} CountsPermuted(xs: seq<Leaf>, ys: seq<Leaf>)
    requires multiset(xs) == multiset(ys)
    ensures Failing(xs) == Failing(ys) && Assertions(xs) == Assertions(ys) && Entries(xs) == Entries(ys)
    decreases |xs|
  {
    if xs == [] {
      assert |multiset(ys)| == 0;
    } else {
      var j := SomewhereIn(xs, ys);
      CountsPermuted(xs[..|xs| - 1], Without(ys, j));
      CountsWithout(ys, j);
    }
  }

  /** After one roll-up every suite's counters are the numbers of test cases and failing test cases below it. */
  lemma {:induction false} SummarizedCounts(t: Tree)
    requires Open(t)
    ensures CountersOf(Summarized(t)) == Count(|AllLeaves(t)|, Failing(AllLeaves(t)))
    decreases t
  {
    AddedCounts(CountersOf(t), t.subs, |t.subs|);
    CountsAppend(t.leaves, LeavesOf(t.subs, |t.subs|));
  }

  lemma {:induction false} AddedCounts(base: Count, ts: seq<Tree>, i: nat)
    requires i <= |ts| && forall k :: 0 <= k < |ts| ==> Open(ts[k])
    ensures Added(base, ts, i) == Count(base.tests + |LeavesOf(ts, i)|, base.failures + Failing(LeavesOf(ts, i)))
    decreases ts, i
  {
    if i == 0 {
    } else {
      AddedCounts(base, ts, i - 1);
      SummarizedCounts(ts[i - 1]);
      AddedStep(base, ts, i);
      LeavesStep(ts, i);
    }
  }

  /** The same holds in every suite of the tree, whose test cases the roll-up leaves alone. */
  lemma {:induction false} SummarizedEverywhere(t: Tree, s: Tree)
    requires Open(t) && Within(s, Summarized(t))
    ensures s.tests == |AllLeaves(s)| && s.failures == Failing(AllLeaves(s))
    decreases t
  {
    if s == Summarized(t) {
      SummarizedCounts(t);
      SummarizedKeepsLeaves(t);
    } else {
      var i :| 0 <= i < |t.subs| && Within(s, Summarized(t).subs[i]);
      SummarizedAt(t.subs, i);
      SummarizedEverywhere(t.subs[i], s);
    }
  }

  lemma {:induction false} SummarizedKeepsLeaves(t: Tree)
    ensures AllLeaves(Summarized(t)) == AllLeaves(t)
    decreases t
  {
    SummarizedAllKeepsLeaves(t.subs, |t.subs|);
  }

  lemma {:induction false} SummarizedAllKeepsLeaves(ts: seq<Tree>, i: nat)
    requires i <= |ts|
    ensures LeavesOf(SummarizedAll(ts), i) == LeavesOf(ts, i)
    decreases ts, i
  {
    if i == 0 {
    } else {
      SummarizedAllKeepsLeaves(ts, i - 1);
      SummarizedKeepsLeaves(ts[i - 1]);
      SummarizedAt(ts, i - 1);
      SameLeaves(SummarizedAll(ts), ts, i);
    }
  }

  lemma SameLeaves(us: seq<Tree>, ts: seq<Tree>, i: nat)
    requires 0 < i <= |us| && i <= |ts| && LeavesOf(us, i - 1) == LeavesOf(ts, i - 1)
    requires AllLeaves(us[i - 1]) == AllLeaves(ts[i - 1])
    ensures LeavesOf(us, i) == LeavesOf(ts, i)
  {
  }

  // ----- the end of a suite -----

  /** The starts of suites and ends of test cases in a subtree. */
  ghost predicate Instant(x: int, t: Tree)
  {
    || (exists s :: Within(s, t) && s.start == x)
    || (exists leaf :: InTree(leaf, t) && leaf.end == x)
  }

  lemma {:induction false} LatestLeafBounds(start: int, leaves: seq<Leaf>)
    ensures LatestLeaf(start, leaves) >= start
    ensures forall leaf :: leaf in leaves ==> leaf.end <= LatestLeaf(start, leaves)
    ensures LatestLeaf(start, leaves) == start || exists leaf :: leaf in leaves && leaf.end == LatestLeaf(start, leaves)
  {
    if leaves == [] {
    } else {
      var n := |leaves| - 1;
      LatestLeafBounds(start, leaves[..n]);
      assert leaves[n] in leaves;
      assert forall leaf :: leaf in leaves ==> leaf in leaves[..n] || leaf == leaves[n];
    }
  }

  lemma {:induction false} LatestSubBounds(start: int, ts: seq<Tree>)
    ensures LatestSub(start, ts) >= start && forall i :: 0 <= i < |ts| ==> LatestEnd(ts[i]) <= LatestSub(start, ts)
    ensures LatestSub(start, ts) == start || exists i :: 0 <= i < |ts| && LatestSub(start, ts) == LatestEnd(ts[i])
  {
    if ts == [] {
    } else {
      var n := |ts| - 1;
      LatestSubBounds(start, ts[..n]);
    }
  }

  /** summarize returns the latest of all suite starts and test case ends in the subtree. */
  lemma {:induction false} LatestEndIsMaximum(t: Tree)
    ensures Instant(LatestEnd(t), t)
    ensures forall x :: Instant(x, t) ==> x <= LatestEnd(t)
  {
    var sub := LatestSub(t.start, t.subs);
    LatestLeafBounds(sub, t.leaves);
    LatestSubBounds(t.start, t.subs);
    LatestEndIsInstant(t);
    forall s | Within(s, t) ensures s.start <= LatestEnd(t) { LatestBoundsSuite(t, s); }
    forall leaf | InTree(leaf, t) ensures leaf.end <= LatestEnd(t) { LatestBoundsLeaf(t, leaf); }
  }

  lemma {:induction false} LatestEndIsInstant(t: Tree)
    ensures Instant(LatestEnd(t), t)
  {
    var sub := LatestSub(t.start, t.subs);
    LatestLeafBounds(sub, t.leaves);
    LatestSubBounds(t.start, t.subs);
    if LatestEnd(t) == sub {
      if sub == t.start {
        assert Within(t, t);
      } else {
        var i :| 0 <= i < |t.subs| && sub == LatestEnd(t.subs[i]);
        LatestEndIsInstant(t.subs[i]);
        InstantBelow(sub, t, i);
      }
    } else {
      var leaf :| leaf in t.leaves && leaf.end == LatestEnd(t);
      assert InTree(leaf, t);
    }
  }

  lemma InstantBelow(x: int, t: Tree, i: nat)
    requires i < |t.subs| && Instant(x, t.subs[i])
    ensures Instant(x, t)
  {
  }

  lemma {:induction false} LatestBoundsSuite(t: Tree, s: Tree)
    requires Within(s, t)
    ensures s.start <= LatestEnd(t)
  {
    LatestLeafBounds(LatestSub(t.start, t.subs), t.leaves);
    LatestSubBounds(t.start, t.subs);
    if s != t {
      var i :| 0 <= i < |t.subs| && Within(s, t.subs[i]);
      LatestBoundsSuite(t.subs[i], s);
    }
  }

  lemma {:induction false} LatestBoundsLeaf(t: Tree, leaf: Leaf)
    requires InTree(leaf, t)
    ensures leaf.end <= LatestEnd(t)
  {
    LatestLeafBounds(LatestSub(t.start, t.subs), t.leaves);
    LatestSubBounds(t.start, t.subs);
    if leaf !in t.leaves {
      var i :| 0 <= i < |t.subs| && InTree(leaf, t.subs[i]);
      LatestBoundsLeaf(t.subs[i], leaf);
    }
  }

  // ----- closing the collection -----

  datatype Collection = Collection(tests: int, failures: int, suites: seq<Tree>)

  function Closed(c: Collection): Collection
  {
    var total := Added(Count(c.tests, c.failures), c.suites, |c.suites|);
    Collection(total.tests, total.failures, SummarizedAll(c.suites))
  }

  predicate Unclosed(c: Collection)
  {
    c.tests == 0 && c.failures == 0 && forall i :: 0 <= i < |c.suites| ==> Open(c.suites[i])
  }

  /** Totals are right after one Close, and stay right after another exactly when they are zero. */
  lemma CloseOnce(c: Collection)
    requires Unclosed(c)
    ensures var once, leaves := Closed(c), LeavesOf(c.suites, |c.suites|);
      && once.tests == |leaves| && once.failures == Failing(leaves)
      && (Closed(once).tests == |leaves| <==> |leaves| == 0)
      && (Closed(once).failures == Failing(leaves) <==> Failing(leaves) == 0)
  {
    AddedCounts(Count(c.tests, c.failures), c.suites, |c.suites|);
    AddedAgain(Count(Closed(c).tests, Closed(c).failures), c.suites, |c.suites|);
  }

  /** Rolling up again adds to what is there already. */
  ghost predicate AtLeast(counter: int, n: nat) { counter >= n && (n == 0 ==> counter == 0) }

  lemma {:induction false} Again(t: Tree)
    requires Open(t)
    ensures AtLeast(Summarized(Summarized(t)).tests, |AllLeaves(t)|)
    ensures AtLeast(Summarized(Summarized(t)).failures, Failing(AllLeaves(t)))
    decreases t
  {
    SummarizedCounts(t);
    AddedAgain(CountersOf(Summarized(t)), t.subs, |t.subs|);
    CountsAppend(t.leaves, LeavesOf(t.subs, |t.subs|));
  }

  lemma {:induction false} AddedAgain(base: Count, ts: seq<Tree>, i: nat)
    requires i <= |ts| && forall k :: 0 <= k < |ts| ==> Open(ts[k])
    ensures AtLeast(Added(base, SummarizedAll(ts), i).tests - base.tests, |LeavesOf(ts, i)|)
    ensures AtLeast(Added(base, SummarizedAll(ts), i).failures - base.failures, Failing(LeavesOf(ts, i)))
    decreases ts, i
  {
    if i == 0 {
    } else {
      AddedAgain(base, ts, i - 1);
      Again(ts[i - 1]);
      SummarizedAt(ts, i - 1);
      AddedStep(base, SummarizedAll(ts), i);
      LeavesStep(ts, i);
    }
  }

  lemma AddedStep(base: Count, ts: seq<Tree>, i: nat)
    requires 0 < i <= |ts|
    ensures Added(base, ts, i) == Plus(Added(base, ts, i - 1), CountersOf(Summarized(ts[i - 1])))
  {
  }

  lemma LeavesStep(ts: seq<Tree>, i: nat)
    requires 0 < i <= |ts|
    ensures |LeavesOf(ts, i)| == |LeavesOf(ts, i - 1)| + |AllLeaves(ts[i - 1])|
    ensures Failing(LeavesOf(ts, i)) == Failing(LeavesOf(ts, i - 1)) + Failing(AllLeaves(ts[i - 1]))
    ensures Assertions(LeavesOf(ts, i)) == Assertions(LeavesOf(ts, i - 1)) + Assertions(AllLeaves(ts[i - 1]))
  {
    CountsAppend(LeavesOf(ts, i - 1), AllLeaves(ts[i - 1]));
  }
}
