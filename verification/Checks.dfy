/** Specification of a step's checks: one round over all assertions, and rounds repeated until one passes. */
module Checks {
  import opened Json
  import opened Outcomes
  import opened Errors
  import opened Objects
  import opened Cluster
  import opened Lookup
  import opened Loading
  import Deletion

  /** What a step reaches its cluster through; obtaining the client or the discovery client may fail. */
  datatype Access = Access(env: Env, client: nat, clientErr: Option<Fault>, discoveryErr: Option<Fault>)

  /** A positive assertion wants a match, a negative one wants none. */
  datatype Sense = Present | Absent

  function Seek(a: Access, w: World, o: Fields, namespace: string): Looked
  {
    if a.clientErr.Some? then Looked(w, o, Err(a.clientErr.value))
    else if a.discoveryErr.Some? then Looked(w, o, Err(a.discoveryErr.value))
    else Look(a.env, w, a.client, o, namespace)
  }

  ghost predicate Holds(sense: Sense, l: Looked)
  {
    match sense
    case Present => Matches(l)
    case Absent => AcceptsAbsence(l)
  }

  predicate TimedOut(l: Looked)
  {
    l.found.Err? && IsDeadline(l.found.error)
  }

  /** Outcome of checking a list: the objects with their namespaces filled in, whether all hold, whether any timed
      out. */
  datatype Verdict = Verdict(world: World, objects: seq<Object>, ok: bool, deadline: bool)

  /** Checking one more object. */
  ghost function CheckNext(a: Access, v: Verdict, sense: Sense, o: Object, namespace: string): Verdict
  {
    var l := Seek(a, v.world, o.content, namespace);
    Verdict(l.world, v.objects + [o.(content := l.content)], v.ok && Holds(sense, l), v.deadline || TimedOut(l))
  }

  ghost function CheckList(a: Access, w: World, sense: Sense, os: seq<Object>, namespace: string): (v: Verdict)
    ensures |v.objects| == |os|
  {
    if os == [] then Verdict(w, [], true, false)
    else CheckNext(a, CheckList(a, w, sense, os[..|os| - 1], namespace), sense, os[|os| - 1], namespace)
  }

  lemma CheckListNext(a: Access, w: World, sense: Sense, os: seq<Object>, i: nat, namespace: string)
    requires i < |os|
    ensures CheckList(a, w, sense, os[..i + 1], namespace) ==
      CheckNext(a, CheckList(a, w, sense, os[..i], namespace), sense, os[i], namespace)
  {
    assert os[..i + 1][..i] == os[..i];
  }

  /** One round: positive assertions, then commands and expressions, then negative assertions. */
  datatype Round = Round(world: World, asserts: seq<Object>, errors: seq<Object>, ok: bool, deadline: bool)

  ghost predicate AnyDeadline(probes: seq<Error>)
  {
    exists e :: e in probes && IsDeadline(e)
  }

  ghost function CheckAll(a: Access, r: Round, probes: seq<Error>, namespace: string): Round
  {
    var present := CheckList(a, r.world, Present, r.asserts, namespace);
    var absent := CheckList(a, present.world, Absent, r.errors, namespace);
    Round(absent.world, present.objects, absent.objects,
          present.ok && probes == [] && absent.ok,
          present.deadline || AnyDeadline(probes) || absent.deadline)
  }

  lemma CheckAllFrom(a: Access, r: Round, s: Round, probes: seq<Error>, namespace: string)
    requires r.world == s.world && r.asserts == s.asserts && r.errors == s.errors
    ensures CheckAll(a, r, probes, namespace) == CheckAll(a, s, probes, namespace)
  {
  }

  /** Step.DeleteExisting: nothing to do without a TestStep. */
  function DeletePhase(a: Access, w: World, step: Option<TestStep>, namespace: string, polls: nat): (World,
                       Option<Error>)
  {
    if a.clientErr.Some? then (w, Some(a.clientErr.value))
    else if a.discoveryErr.Some? then (w, Some(a.discoveryErr.value))
    else if step.None? then (w, None)
    else Deletion.DeleteRefs(a.env, w, a.client, step.value.delete, namespace, polls)
  }

  // ----- rounds until one passes -----

  /** Seconds since the start, as read before each round; every round is followed by a sleep of at least a second. */
  ghost predicate Clock(elapsed: nat -> real)
  {
    elapsed(0) == 0.0 && forall k: nat :: elapsed(k + 1) >= elapsed(k) + 1.0
  }

  lemma {:induction false} ClockAdvances(elapsed: nat -> real, k: nat)
    requires Clock(elapsed)
    ensures elapsed(k) >= k as real
  {
    if k == 0 {
    } else {
      ClockAdvances(elapsed, k - 1); assert elapsed(k - 1 + 1) >= elapsed(k - 1) + 1.0;
    }
  }

  /** The state after a number of rounds, none of which ended the loop. */
  ghost function RoundAfter(a: Access, r: Round, probes: nat -> seq<Error>, namespace: string, rounds: nat): Round
  {
    if rounds == 0 then r
    else CheckAll(a, RoundAfter(a, r, probes, namespace, rounds - 1), probes(rounds - 1), namespace)
  }

  ghost predicate Ends(r: Round) { r.ok || r.deadline }

  /** `n` rounds are made, or at least are begun: each starts in time, and none before the last ends the loop. */
  ghost predicate Reaches(a: Access, r: Round, probes: nat -> seq<Error>, namespace: string, timeout: int,
                          elapsed: nat -> real, n: nat)
  {
    && (forall k: nat :: k < n ==> elapsed(k) < timeout as real)
    && (forall k: nat :: 0 < k < n ==> !Ends(RoundAfter(a, r, probes, namespace, k)))
  }

  /** The loop makes exactly `n` rounds. */
  ghost predicate Makes(a: Access, r: Round, probes: nat -> seq<Error>, namespace: string, timeout: int,
                        elapsed: nat -> real, n: nat)
  {
    && Reaches(a, r, probes, namespace, timeout, elapsed, n)
    && (elapsed(n) >= timeout as real || (n > 0 && Ends(RoundAfter(a, r, probes, namespace, n))))
  }

  lemma ReachesNext(a: Access, r: Round, probes: nat -> seq<Error>, namespace: string, timeout: int,
                    elapsed: nat -> real, n: nat, now: Round)
    requires Reaches(a, r, probes, namespace, timeout, elapsed, n) && elapsed(n) < timeout as real
    requires now == RoundAfter(a, r, probes, namespace, n) && (n > 0 ==> !Ends(now))
    ensures Reaches(a, r, probes, namespace, timeout, elapsed, n + 1)
    ensures RoundAfter(a, r, probes, namespace, n + 1) == CheckAll(a, now, probes(n), namespace)
  {
  }

  /** A command that ran into the deadline ends the rounds, however its error is wrapped. */
  lemma LateCommandEndsRounds(a: Access, r: Round, probes: seq<Error>, namespace: string, e: Error)
    requires Innermost(e) == ContextDone(true) && (e in probes || Wrapped(e) in probes)
    ensures Ends(CheckAll(a, r, probes, namespace)) && !CheckAll(a, r, probes, namespace).ok
  {
    assert IsDeadline(e) && IsDeadline(Wrapped(e));
  }

  /** Only a round that found no errors, or one that wraps a deadline, and the time-out end the rounds. */
  lemma RoundsEnd(a: Access, r: Round, probes: nat -> seq<Error>, namespace: string, timeout: int,
                  elapsed: nat -> real, n: nat)
    requires Makes(a, r, probes, namespace, timeout, elapsed, n)
    ensures forall k: nat :: 0 < k < n ==>
      var now := RoundAfter(a, r, probes, namespace, k);
      !now.ok && !now.deadline && elapsed(k) < timeout as real
    ensures var last := RoundAfter(a, r, probes, namespace, n);
      elapsed(n) >= timeout as real || (n > 0 && (last.ok || last.deadline))
  {
  }

  /** For a time-out of at least a second: between one round and `timeout` rounds are made, the outcome is that of the
      last one, and it is a success exactly when some round found no errors. */
  lemma RoundsMade(a: Access, r: Round, probes: nat -> seq<Error>, namespace: string, timeout: int,
                   elapsed: nat -> real, n: nat)
    requires timeout >= 1 && Clock(elapsed) && Makes(a, r, probes, namespace, timeout, elapsed, n)
    ensures 1 <= n <= timeout
    ensures RoundAfter(a, r, probes, namespace, n).ok <==>
      exists k :: 1 <= k <= n && RoundAfter(a, r, probes, namespace, k).ok
  {
    if n > 0 {
      ClockAdvances(elapsed, n - 1);
      assert elapsed(n - 1) < timeout as real;
    }
    if RoundAfter(a, r, probes, namespace, n).ok { assert 1 <= n <= n; }
  }

  /** The number of rounds is determined, so the step's outcome is. */
  lemma RoundsUnique(a: Access, r: Round, probes: nat -> seq<Error>, namespace: string, timeout: int,
                     elapsed: nat -> real, m: nat, n: nat)
    requires Clock(elapsed)
    requires Makes(a, r, probes, namespace, timeout, elapsed, m) && Makes(a, r, probes, namespace, timeout, elapsed, n)
    ensures m == n
  {
  }

  /** With no time at all nothing is checked. */
  lemma NoTimeNoChecks(a: Access, r: Round, probes: nat -> seq<Error>, namespace: string, timeout: int,
                       elapsed: nat -> real, n: nat)
    requires timeout <= 0 && Clock(elapsed) && Makes(a, r, probes, namespace, timeout, elapsed, n)
    ensures n == 0
  {
  }

  // ----- repeated rounds look at the same places -----

  lemma SeekAgain(a: Access, w: World, v: World, o: Fields, namespace: string)
    ensures Seek(a, v, Seek(a, w, o, namespace).content, namespace).content == Seek(a, w, o, namespace).content
  {
    if Namespaced(a.env.disc, o, namespace).Ok? { NamespacedIdempotent(a.env.disc, o, namespace); }
  }

  /** Filling in namespaces is done after the first round: later rounds leave the objects alone. */
  lemma {:induction false} SecondRoundKeepsObjects(a: Access, w: World, v: World, sense: Sense, os: seq<Object>,
                                                   namespace: string)
    ensures CheckList(a, v, sense, CheckList(a, w, sense, os, namespace).objects, namespace).objects ==
      CheckList(a, w, sense, os, namespace).objects
  {
    if os == [] {
    } else {
      var front, last := os[..|os| - 1], os[|os| - 1];
      var once := CheckList(a, w, sense, os, namespace).objects;
      var before := CheckList(a, w, sense, front, namespace);
      assert once[..|once| - 1] == before.objects;
      SecondRoundKeepsObjects(a, w, v, sense, front, namespace);
      SeekAgain(a, before.world, CheckList(a, v, sense, before.objects, namespace).world, last.content, namespace);
      assert once[|once| - 1] == last.(content := Seek(a, before.world, last.content, namespace).content);
    }
  }
}
