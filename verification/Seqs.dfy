/** Sequences of parts, and selections that keep the order. */
module Seqs {
  function Flat<T>(parts: seq<seq<T>>): seq<T>
  {
    if parts == [] then [] else Flat(parts[..|parts| - 1]) + parts[|parts| - 1]
  }

  lemma FlatNext<T>(parts: seq<seq<T>>, part: seq<T>)
    ensures Flat(parts + [part]) == Flat(parts) + part
  {
    assert (parts + [part])[..|parts|] == parts;
  }

  /** Each part follows the ones before it. */
  lemma {:induction false} FlatAt<T>(parts: seq<seq<T>>, i: nat, j: nat)
    requires i < |parts| && j < |parts[i]|
    ensures |Flat(parts[..i])| + j < |Flat(parts)| && Flat(parts)[|Flat(parts[..i])| + j] == parts[i][j]
  {
    var front := parts[..|parts| - 1];
    if i < |front| {
      assert front[..i] == parts[..i];
      FlatAt(front, i, j);
    }
  }

  lemma {:induction false} FlatMembers<T>(parts: seq<seq<T>>, x: T)
    ensures x in Flat(parts) <==> exists i :: 0 <= i < |parts| && x in parts[i]
  {
    if parts == [] {
    } else {
      var front := parts[..|parts| - 1];
      FlatMembers(front, x);
      if i :| 0 <= i < |parts| && x in parts[i] {
        if i < |front| { assert x in front[i]; }
      }
      if x in Flat(front) {
        var i :| 0 <= i < |front| && x in front[i];
        assert x in parts[i];
      }
    }
  }

  ghost predicate Increasing(at: seq<nat>)
  {
    forall i, j :: 0 <= i < j < |at| ==> at[i] < at[j]
  }

  /** `ys` are exactly the elements of `xs` to keep, in order; `at` are their places. */
  ghost predicate Picks<T(!new)>(xs: seq<T>, keep: T -> bool, ys: seq<T>, at: seq<nat>)
  {
    && |at| == |ys| && Increasing(at)
    && (forall j :: 0 <= j < |at| ==> at[j] < |xs| && keep(xs[at[j]]) && ys[j] == xs[at[j]])
    && (forall i: nat :: i < |xs| && keep(xs[i]) ==> i in at)
  }

  lemma PicksOneMore<T(!new)>(xs: seq<T>, keep: T -> bool, ys: seq<T>, at: seq<nat>)
    requires xs != [] && keep(xs[|xs| - 1]) && Picks(xs[..|xs| - 1], keep, ys, at)
    ensures Picks(xs, keep, ys + [xs[|xs| - 1]], at + [|xs| - 1])
  {
    var more, n := at + [|xs| - 1], |xs| - 1;
    forall i: nat | i < |xs| && keep(xs[i]) ensures i in more {
      if i < n { assert xs[..n][i] == xs[i] && i in at; }
    }
  }

  lemma PicksNoMore<T(!new)>(xs: seq<T>, keep: T -> bool, ys: seq<T>, at: seq<nat>)
    requires xs != [] && !keep(xs[|xs| - 1]) && Picks(xs[..|xs| - 1], keep, ys, at)
    ensures Picks(xs, keep, ys, at)
  {
    var n := |xs| - 1;
    forall i: nat | i < |xs| && keep(xs[i]) ensures i in at { assert xs[..n][i] == xs[i]; }
  }
}
