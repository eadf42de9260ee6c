/** Which errors Step.Create reports, and what it means that it reports none. */
module CreationErrors {
  import opened Outcomes
  import opened Errors
  import opened Objects
  import opened Cluster
  import opened Loading
  import opened Checks
  import opened Creation
  import opened Seqs

  /** Why the i-th object was not applied, if it was not: its place cannot be told, or its call returned an error. */
  function FailureAt(a: Access, w: World, os: seq<Object>, namespace: string, apply: Applier, i: nat): Option<Error>
    requires i < |os|
  {
    var outcome := OutcomeAt(a, w, os, namespace, apply, i);
    if outcome.None? then Some(Namespaced(a.env.disc, os[i].content, namespace).error)
    else if outcome.value.err.Some? then Some(Wrapped(outcome.value.err.value))
    else None
  }

  /** `errs` are the failures among the first `n` objects, in the order of the list; `at` are their places. */
  ghost predicate Reports(a: Access, w: World, os: seq<Object>, namespace: string, apply: Applier, n: nat,
                          errs: seq<Error>, at: seq<nat>)
    requires n <= |os|
  {
    && |at| == |errs| && Increasing(at)
    && (forall j :: 0 <= j < |at| ==>
         at[j] < n && FailureAt(a, w, os, namespace, apply, at[j]) == Some(errs[j]))
    && (forall i: nat :: i < n && FailureAt(a, w, os, namespace, apply, i).Some? ==> i in at)
  }

  /** One more object: its failure is reported, its outcome is where the next one starts. */
  lemma CreatedNext(a: Access, w: World, os: seq<Object>, namespace: string, apply: Applier, skipDelete: bool, n: nat)
    requires n < |os|
    ensures var before, after := CreateAll(a, w, os[..n], namespace, apply, skipDelete),
                                 CreateAll(a, w, os[..n + 1], namespace, apply, skipDelete);
      var failure, outcome := FailureAt(a, w, os, namespace, apply, n), OutcomeAt(a, w, os, namespace, apply, n);
      && after.errs == before.errs + (if failure.Some? then [failure.value] else [])
      && after.world == (if outcome.Some? then outcome.value.world else before.world)
      && after.objects == before.objects +
           [if outcome.Some? then os[n].(content := Submitted(a, os, namespace, n).value) else os[n]]
  {
    CreateAllNext(a, w, os, n, namespace, apply, skipDelete);
    SkipDeleteSameWorld(a, w, os[..n], namespace, apply, skipDelete);
  }

  lemma ReportsOneMore(a: Access, w: World, os: seq<Object>, namespace: string, apply: Applier, n: nat,
                       errs: seq<Error>, at: seq<nat>)
    requires n < |os| && Reports(a, w, os, namespace, apply, n, errs, at)
    requires FailureAt(a, w, os, namespace, apply, n).Some?
    ensures Reports(a, w, os, namespace, apply, n + 1, errs + [FailureAt(a, w, os, namespace, apply, n).value],
                    at + [n])
  {
    var more, all := at + [n], errs + [FailureAt(a, w, os, namespace, apply, n).value];
    forall j | 0 <= j < |more|
      ensures more[j] < n + 1 && FailureAt(a, w, os, namespace, apply, more[j]) == Some(all[j])
    {
      if j < |at| { assert more[j] == at[j] && all[j] == errs[j]; }
    }
    forall i: nat | i < n + 1 && FailureAt(a, w, os, namespace, apply, i).Some? ensures i in more {
      if i < n { assert i in at; }
    }
  }

  lemma {:induction false} ErrorsUpTo(a: Access, w: World, os: seq<Object>, namespace: string, apply: Applier,
                                      skipDelete: bool, n: nat) returns (at: seq<nat>)
    requires n <= |os|
    ensures Reports(a, w, os, namespace, apply, n, CreateAll(a, w, os[..n], namespace, apply, skipDelete).errs, at)
  {
    at := [];
    if n == 0 {
    } else {
      var m := n - 1;
      at := ErrorsUpTo(a, w, os, namespace, apply, skipDelete, m);
      CreatedNext(a, w, os, namespace, apply, skipDelete, m);
      var errs := CreateAll(a, w, os[..m], namespace, apply, skipDelete).errs;
      if FailureAt(a, w, os, namespace, apply, m).Some? {
        ReportsOneMore(a, w, os, namespace, apply, m, errs, at);
        at := at + [m];
      }
    }
  }

  /** One error is reported for each object that was not applied, in the order of the list, and for no other. */
  lemma ErrorsAreForFailures(a: Access, w: World, os: seq<Object>, namespace: string, apply: Applier, skipDelete: bool)
    returns (at: seq<nat>)
    ensures Reports(a, w, os, namespace, apply, |os|, CreateAll(a, w, os, namespace, apply, skipDelete).errs, at)
  {
    at := ErrorsUpTo(a, w, os, namespace, apply, skipDelete, |os|);
    assert os[..|os|] == os;
  }

  /** The i-th object was submitted, and its call returned nil. */
  predicate AppliedAt(a: Access, w: World, os: seq<Object>, namespace: string, apply: Applier, i: nat)
    requires i < |os|
  {
    var outcome := OutcomeAt(a, w, os, namespace, apply, i);
    outcome.Some? && outcome.value.err.None?
  }

  /** No errors are reported if and only if the clients could be had and every object was applied. */
  lemma NoErrorsExactly(a: Access, w: World, os: seq<Object>, namespace: string, apply: Applier, skipDelete: bool)
    ensures CreatePhase(a, w, os, namespace, apply, skipDelete).errs == [] <==>
      && a.clientErr.None? && a.discoveryErr.None?
      && forall i: nat :: i < |os| ==> AppliedAt(a, w, os, namespace, apply, i)
  {
    if a.clientErr.None? && a.discoveryErr.None? {
      var at := ErrorsAreForFailures(a, w, os, namespace, apply, skipDelete);
      var errs := CreateAll(a, w, os, namespace, apply, skipDelete).errs;
      forall i: nat | i < |os|
        ensures AppliedAt(a, w, os, namespace, apply, i) <==> FailureAt(a, w, os, namespace, apply, i).None?
      {
      }
      if errs != [] { assert FailureAt(a, w, os, namespace, apply, at[0]).Some?; }
    }
  }
}
