/** What a step that passes has seen: its assertions hold of the whole store. */
module Passing {
  import opened Json
  import opened Outcomes
  import opened Errors
  import opened Objects
  import opened Cluster
  import opened Lookup
  import opened Loading
  import opened Checks

  /** The world in which the j-th assertion of a list is looked up. */
  ghost function WorldAt(a: Access, w: World, sense: Sense, os: seq<Object>, namespace: string, j: nat): World
    requires j < |os|
  {
    CheckList(a, w, sense, os[..j], namespace).world
  }

  /** What the lookup for the j-th assertion found. */
  ghost function LookedAt(a: Access, w: World, sense: Sense, os: seq<Object>, namespace: string, j: nat): Looked
    requires j < |os|
  {
    Seek(a, WorldAt(a, w, sense, os, namespace, j), os[j].content, namespace)
  }

  lemma {:induction false} EachHolds(a: Access, w: World, sense: Sense, os: seq<Object>, namespace: string,
                                     n: nat, j: nat)
    requires j < n <= |os| && CheckList(a, w, sense, os[..n], namespace).ok
    ensures Holds(sense, LookedAt(a, w, sense, os, namespace, j))
    decreases n
  {
    var m := n - 1;
    CheckListNext(a, w, sense, os, m, namespace);
    if j == m {
    } else {
      EachHolds(a, w, sense, os, namespace, m, j);
    }
  }

  lemma {:induction false} NoneTimesOut(a: Access, w: World, sense: Sense, os: seq<Object>, namespace: string,
                                        n: nat, j: nat)
    requires j < n <= |os| && !CheckList(a, w, sense, os[..n], namespace).deadline
    ensures !TimedOut(LookedAt(a, w, sense, os, namespace, j))
    decreases n
  {
    var m := n - 1;
    CheckListNext(a, w, sense, os, m, namespace);
    if j == m {
    } else {
      NoneTimesOut(a, w, sense, os, namespace, m, j);
    }
  }

  lemma {:induction false} FailsAt(a: Access, w: World, sense: Sense, os: seq<Object>, namespace: string, n: nat)
    returns (j: nat)
    requires n <= |os| && !CheckList(a, w, sense, os[..n], namespace).ok
    ensures j < |os| && !Holds(sense, LookedAt(a, w, sense, os, namespace, j))
  {
    assert n > 0;
    j := n - 1;
    CheckListNext(a, w, sense, os, j, namespace);
    if !CheckList(a, w, sense, os[..j], namespace).ok { j := FailsAt(a, w, sense, os, namespace, j); }
  }

  lemma {:induction false} TimesOutAt(a: Access, w: World, sense: Sense, os: seq<Object>, namespace: string, n: nat)
    returns (j: nat)
    requires n <= |os| && CheckList(a, w, sense, os[..n], namespace).deadline
    ensures j < |os| && TimedOut(LookedAt(a, w, sense, os, namespace, j))
  {
    assert n > 0;
    j := n - 1;
    CheckListNext(a, w, sense, os, j, namespace);
    if CheckList(a, w, sense, os[..j], namespace).deadline { j := TimesOutAt(a, w, sense, os, namespace, j); }
  }

  /** All is well with a list exactly when each of its assertions holds; and it times out exactly when one does. */
  lemma ListExactly(a: Access, w: World, sense: Sense, os: seq<Object>, namespace: string)
    ensures CheckList(a, w, sense, os, namespace).ok <==>
      forall j: nat :: j < |os| ==> Holds(sense, LookedAt(a, w, sense, os, namespace, j))
    ensures CheckList(a, w, sense, os, namespace).deadline <==>
      exists j: nat :: j < |os| && TimedOut(LookedAt(a, w, sense, os, namespace, j))
  {
    assert os[..|os|] == os;
    forall j: nat | j < |os|
      ensures CheckList(a, w, sense, os, namespace).ok ==> Holds(sense, LookedAt(a, w, sense, os, namespace, j))
      ensures TimedOut(LookedAt(a, w, sense, os, namespace, j)) ==> CheckList(a, w, sense, os, namespace).deadline
    {
      if CheckList(a, w, sense, os, namespace).ok { EachHolds(a, w, sense, os, namespace, |os|, j); }
      if !CheckList(a, w, sense, os, namespace).deadline { NoneTimesOut(a, w, sense, os, namespace, |os|, j); }
    }
    if !CheckList(a, w, sense, os, namespace).ok { var j := FailsAt(a, w, sense, os, namespace, |os|); }
    if CheckList(a, w, sense, os, namespace).deadline { var j := TimesOutAt(a, w, sense, os, namespace, |os|); }
  }

  /** The object says what it is, and the server holds its objects as it should when it is looked up. */
  ghost predicate Legible(a: Access, w: World, o: Fields)
  {
    && "kind" in o && o["kind"].Str? && "apiVersion" in o && o["apiVersion"].Str?
    && WellFormed(a.env.disc, Moved(a.env, w).store)
  }

  /** Some object of the whole store fits the assertion. */
  ghost predicate TrueOf(a: Access, w: World, o: Fields, namespace: string)
  {
    ScanFinds(a.env.disc, Moved(a.env, w).store, o, namespace)
  }

  lemma PresentIsTrue(a: Access, w: World, o: Fields, namespace: string)
    requires Coherent(a.env.disc) && ListsAll(a.env) && Legible(a, w, o)
    requires Holds(Present, Seek(a, w, o, namespace))
    ensures TrueOf(a, w, o, namespace)
  {
    LookupAgreesWithScan(a.env, w, a.client, o, namespace);
  }

  lemma AbsentIsFalse(a: Access, w: World, o: Fields, namespace: string)
    requires Coherent(a.env.disc) && ListsAll(a.env) && Legible(a, w, o)
    requires Holds(Absent, Seek(a, w, o, namespace)) && Addressable(a.env.disc, o, namespace)
    ensures !TrueOf(a, w, o, namespace)
  {
    AbsenceAgreesWithScan(a.env, w, a.client, o, namespace);
  }

  /** The j-th assertion is true of the whole store, or for a negative one false, unless it cannot be looked up. */
  ghost predicate TrueAt(a: Access, w: World, sense: Sense, os: seq<Object>, namespace: string, j: nat)
    requires j < |os|
  {
    var v, o := WorldAt(a, w, sense, os, namespace, j), os[j].content;
    Legible(a, v, o) && (sense.Absent? ==> Addressable(a.env.disc, o, namespace)) ==>
      (sense.Present? <==> TrueOf(a, v, o, namespace))
  }

  lemma HoldingIsTrue(a: Access, w: World, sense: Sense, os: seq<Object>, namespace: string, j: nat)
    requires Coherent(a.env.disc) && ListsAll(a.env)
    requires j < |os| && Holds(sense, LookedAt(a, w, sense, os, namespace, j))
    ensures TrueAt(a, w, sense, os, namespace, j)
  {
    var v, o := WorldAt(a, w, sense, os, namespace, j), os[j].content;
    if Legible(a, v, o) {
      match sense
      case Present => PresentIsTrue(a, v, o, namespace);
      case Absent => if Addressable(a.env.disc, o, namespace) { AbsentIsFalse(a, v, o, namespace); }
    }
  }

  ghost predicate ListTrue(a: Access, w: World, sense: Sense, os: seq<Object>, namespace: string)
  {
    forall j: nat :: j < |os| ==> TrueAt(a, w, sense, os, namespace, j)
  }

  /** Every positive assertion of the round is true, and every negative one that can be looked up is false. */
  ghost predicate AllTrue(a: Access, r: Round, namespace: string)
  {
    var between := CheckList(a, r.world, Present, r.asserts, namespace).world;
    ListTrue(a, r.world, Present, r.asserts, namespace) && ListTrue(a, between, Absent, r.errors, namespace)
  }

  lemma PassedListIsTrue(a: Access, w: World, sense: Sense, os: seq<Object>, namespace: string)
    requires Coherent(a.env.disc) && ListsAll(a.env) && CheckList(a, w, sense, os, namespace).ok
    ensures ListTrue(a, w, sense, os, namespace)
  {
    ListExactly(a, w, sense, os, namespace);
    forall j: nat | j < |os| ensures TrueAt(a, w, sense, os, namespace, j) {
      HoldingIsTrue(a, w, sense, os, namespace, j);
    }
  }

  lemma PassedRoundIsTrue(a: Access, r: Round, probes: seq<Error>, namespace: string)
    requires Coherent(a.env.disc) && ListsAll(a.env) && CheckAll(a, r, probes, namespace).ok
    ensures AllTrue(a, r, namespace)
  {
    PassedListIsTrue(a, r.world, Present, r.asserts, namespace);
    PassedListIsTrue(a, CheckList(a, r.world, Present, r.asserts, namespace).world, Absent, r.errors, namespace);
  }

  /** A step that passes, with time for a round, has made a last round in which every positive assertion was true of the
      whole store and every negative one false. */
  lemma PassingIsTrue(a: Access, start: Round, probes: nat -> seq<Error>, namespace: string, timeout: int,
                      elapsed: nat -> real, rounds: nat)
    requires Coherent(a.env.disc) && ListsAll(a.env) && timeout >= 1 && Clock(elapsed)
    requires Makes(a, start, probes, namespace, timeout, elapsed, rounds)
    requires RoundAfter(a, start, probes, namespace, rounds).ok
    ensures rounds >= 1 && AllTrue(a, RoundAfter(a, start, probes, namespace, rounds - 1), namespace)
  {
    RoundsMade(a, start, probes, namespace, timeout, elapsed, rounds);
    PassedRoundIsTrue(a, RoundAfter(a, start, probes, namespace, rounds - 1), probes(rounds - 1), namespace);
  }

  // ----- exactly when a round passes -----

  /** The j-th assertion says what it is, its kind is served, and it has a namespace to be looked up in, if it needs
      one; and the server holds its objects as it should. */
  ghost predicate Findable(a: Access, w: World, sense: Sense, os: seq<Object>, namespace: string, j: nat)
    requires j < |os|
  {
    var o := os[j].content;
    && Legible(a, WorldAt(a, w, sense, os, namespace, j), o) && Addressable(a.env.disc, o, namespace)
    && Namespaced(a.env.disc, o, namespace).Ok? && Served(a.env.disc, GvkOf(o)).Some?
  }

  ghost predicate AllFindable(a: Access, w: World, sense: Sense, os: seq<Object>, namespace: string)
  {
    forall j: nat :: j < |os| ==> Findable(a, w, sense, os, namespace, j)
  }

  /** The clients can be had, and no call fails. */
  ghost predicate Reachable(a: Access) { a.clientErr.None? && a.discoveryErr.None? && Faultless(a.env) }

  lemma HoldsExactly(a: Access, w: World, sense: Sense, os: seq<Object>, namespace: string, j: nat)
    requires Coherent(a.env.disc) && ListsAll(a.env) && Reachable(a)
    requires j < |os| && Findable(a, w, sense, os, namespace, j)
    ensures Holds(sense, LookedAt(a, w, sense, os, namespace, j)) <==> TrueAt(a, w, sense, os, namespace, j)
  {
    var v := WorldAt(a, w, sense, os, namespace, j);
    assert a.env.fault(v.calls).None?;
    match sense
    case Present => LookupAgreesWithScan(a.env, v, a.client, os[j].content, namespace);
    case Absent => AbsenceAgreesWithScan(a.env, v, a.client, os[j].content, namespace);
  }

  lemma ListPassesExactly(a: Access, w: World, sense: Sense, os: seq<Object>, namespace: string)
    requires Coherent(a.env.disc) && ListsAll(a.env) && Reachable(a) && AllFindable(a, w, sense, os, namespace)
    ensures CheckList(a, w, sense, os, namespace).ok <==> ListTrue(a, w, sense, os, namespace)
  {
    ListExactly(a, w, sense, os, namespace);
    forall j: nat | j < |os|
      ensures Holds(sense, LookedAt(a, w, sense, os, namespace, j)) <==> TrueAt(a, w, sense, os, namespace, j)
    {
      HoldsExactly(a, w, sense, os, namespace, j);
    }
  }

  /** Where that can be told, a round passes exactly when commands and expressions succeed, every positive assertion is
      true of the whole store and every negative one false. */
  lemma RoundPassesExactly(a: Access, r: Round, probes: seq<Error>, namespace: string)
    requires Coherent(a.env.disc) && ListsAll(a.env) && Reachable(a)
    requires AllFindable(a, r.world, Present, r.asserts, namespace)
    requires AllFindable(a, CheckList(a, r.world, Present, r.asserts, namespace).world, Absent, r.errors, namespace)
    ensures CheckAll(a, r, probes, namespace).ok <==> probes == [] && AllTrue(a, r, namespace)
  {
    ListPassesExactly(a, r.world, Present, r.asserts, namespace);
    ListPassesExactly(a, CheckList(a, r.world, Present, r.asserts, namespace).world, Absent, r.errors, namespace);
  }

  /** And a round is ended by a deadline exactly when a lookup, a command or an expression ran into one. */
  lemma DeadlineExactly(a: Access, r: Round, probes: seq<Error>, namespace: string)
    ensures var between := CheckList(a, r.world, Present, r.asserts, namespace).world;
      CheckAll(a, r, probes, namespace).deadline <==>
        || (exists j: nat :: j < |r.asserts| && TimedOut(LookedAt(a, r.world, Present, r.asserts, namespace, j)))
        || (exists j: nat :: j < |r.errors| && TimedOut(LookedAt(a, between, Absent, r.errors, namespace, j)))
        || AnyDeadline(probes)
  {
    ListExactly(a, r.world, Present, r.asserts, namespace);
    ListExactly(a, CheckList(a, r.world, Present, r.asserts, namespace).world, Absent, r.errors, namespace);
  }
}
