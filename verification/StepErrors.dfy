/** The errors of a step: what each part of a run reports, and how a run ends. */
module StepErrors {
  import opened Json
  import opened Outcomes
  import opened Errors
  import opened Objects
  import opened Cluster
  import opened Lookup
  import opened Loading
  import opened Checks
  import opened StepRuns
  import opened Testing
  import opened Seqs
  import Creation
  import Subset

  /** An error of a step. The wording of diffs is not modelled. */
  datatype StepError =
    | Failed(e: Error)
    | NoneMatched
    | Difference
    | NotSubset(path: seq<string>, reason: Subset.Reason)

  predicate IsTimeout(e: StepError)
  {
    e.Failed? && IsDeadline(e.e)
  }

  /** What a run leaves: the world, the step's lists with namespaces filled in, and the errors it returns. */
  datatype Ending = Ending(world: World, apply: seq<Object>, asserts: seq<Object>, errors: seq<Object>,
                           errs: seq<StepError>)

  /** The run ends with its deletion, if that fails; else with applying, unless all was applied; else with the last
      round of checks. */
  ghost predicate EndsAs(s: Script, w: World, timeout: int, elapsed: nat -> real, e: Ending)
  {
    var start := Round(AfterApply(s, w).world, s.asserts, s.errors, true, false);
    && e.world == Played(s, w).0 && e.apply == (if Deleted(s, w).1.Some? then s.apply else AfterApply(s, w).objects)
    && if Deleted(s, w).1.Some? then
         e.errs == [Failed(Deleted(s, w).1.value)] && e.asserts == s.asserts && e.errors == s.errors
       else if !AllApplied(s, w) then
         e.errs == ApplyErrors(s, w) != [] && e.asserts == s.asserts && e.errors == s.errors
       else
         var end := RoundAfter(s.access, start, s.probes, s.namespace, s.rounds);
         && Makes(s.access, start, s.probes, s.namespace, timeout, elapsed, s.rounds)
         && LastReported(s.access, start, s.probes, s.namespace, s.rounds, e.errs)
         && e.asserts == end.asserts && e.errors == end.errors
  }

  /** Deletion, commands and applying end like this, registering these clean-ups. */
  ghost predicate Prepared(a: Access, step: Option<TestStep>, os: seq<Object>, namespace: string, skipDelete: bool,
                           polls: nat, commandsErr: Option<Error>, applier: Creation.Applier, w: World, e: Ending,
                           cleanups: seq<Cleanup>)
  {
    var deleted := DeletePhase(a, w, step, namespace, polls);
    if deleted.1.Some? then
      e.errs == [Failed(deleted.1.value)] && e.apply == os && e.world == deleted.0 && cleanups == []
    else
      var c := Creation.CreatePhase(a, deleted.0, os, namespace, applier, skipDelete);
      && e.errs == (if step.Some? && commandsErr.Some? then [Failed(commandsErr.value)] else []) + AllFailed(c.errs)
      && e.apply == c.objects && e.world == c.world && cleanups == c.cleanups
  }

  ghost predicate PreparedBy(s: Script, w: World, e: Ending, cleanups: seq<Cleanup>)
  {
    Prepared(s.access, s.step, s.apply, s.namespace, s.skipDelete, s.polls, s.commandsErr, s.applier, w, e, cleanups)
  }

  lemma EndsEarly(s: Script, w: World, timeout: int, elapsed: nat -> real, e: Ending, cleanups: seq<Cleanup>)
    requires PreparedBy(s, w, e, cleanups) && e.errs != [] && e.asserts == s.asserts && e.errors == s.errors
    ensures EndsAs(s, w, timeout, elapsed, e) && Played(s, w).1 == cleanups
    ensures AllApplied(s, w) ==> Deleted(s, w).1.Some?
  {
    ChecksReached(s, w);
  }

  lemma EndsChecked(s: Script, w: World, timeout: int, elapsed: nat -> real, applied: Ending, e: Ending,
                    cleanups: seq<Cleanup>)
    requires PreparedBy(s, w, applied, cleanups) && applied.errs == [] && e.apply == applied.apply
    requires
      var start := Round(applied.world, s.asserts, s.errors, true, false);
      var end := RoundAfter(s.access, start, s.probes, s.namespace, s.rounds);
      && Makes(s.access, start, s.probes, s.namespace, timeout, elapsed, s.rounds)
      && LastReported(s.access, start, s.probes, s.namespace, s.rounds, e.errs)
      && e.world == end.world && e.asserts == end.asserts && e.errors == end.errors
    ensures EndsAs(s, w, timeout, elapsed, e) && Played(s, w).1 == cleanups
    ensures s.rounds > 0 && s.probes(s.rounds - 1) != [] ==> e.errs != []
  {
    ChecksReached(s, w);
  }

  /** What commands and applying report: the commands first. */
  function ApplyErrors(s: Script, w: World): seq<StepError>
  {
    (if s.step.Some? && s.commandsErr.Some? then [Failed(s.commandsErr.value)] else [])
      + AllFailed(AfterApply(s, w).errs)
  }

  /** The error of the commands comes first, then one for each error of applying, in order. */
  lemma ErrorsBeforeChecks(s: Script, w: World)
    ensures var errs, failed := ApplyErrors(s, w), s.step.Some? && s.commandsErr.Some?;
      var first := if failed then 1 else 0;
      && |errs| == first + |AfterApply(s, w).errs| && (failed ==> errs[0] == Failed(s.commandsErr.value))
      && forall j :: 0 <= j < |AfterApply(s, w).errs| ==> errs[first + j] == Failed(AfterApply(s, w).errs[j])
  {
  }

  function ProbesWhen(present: bool, probes: nat -> seq<Error>): nat -> seq<Error>
  {
    (k: nat) => if present then probes(k) else []
  }

  /** The errors of one assertion, given what its lookup found. */
  ghost predicate Tells(sense: Sense, l: Looked, errs: seq<StepError>)
  {
    match sense
    case Present =>
      && (errs == [] <==> Matches(l))
      && (l.found.Err? ==> errs == [Failed(l.found.error)])
      && (l.found == Ok([]) ==> errs == [NoneMatched])
      && (l.found.Ok? && l.found.value != [] && errs != [] ==> Explains(errs, l.content, l.found.value))
    case Absent =>
      errs == if AcceptsAbsence(l) then [] else [Failed(if l.found.Err? then l.found.error else Invalid)]
  }

  /** The errors of the first `n` assertions of a list, one part for each, in the worlds their lookups found. */
  ghost predicate Reported(a: Access, w: World, sense: Sense, os: seq<Object>, namespace: string, n: nat,
                           parts: seq<seq<StepError>>)
  {
    n <= |os| && |parts| == n && forall j: nat :: j < n ==> PartReported(a, w, sense, os, namespace, j, parts[j])
  }

  ghost predicate PartReported(a: Access, w: World, sense: Sense, os: seq<Object>, namespace: string, j: nat,
                               part: seq<StepError>)
    requires j < |os|
  {
    Tells(sense, Seek(a, CheckList(a, w, sense, os[..j], namespace).world, os[j].content, namespace), part)
  }

  /** The errors are those of all the assertions of a list, in order. */
  ghost predicate ListReported(a: Access, w: World, sense: Sense, os: seq<Object>, namespace: string,
                               errs: seq<StepError>)
  {
    exists parts :: Reported(a, w, sense, os, namespace, |os|, parts) && errs == Flat(parts)
  }

  lemma ReportedNext(a: Access, w: World, sense: Sense, os: seq<Object>, namespace: string, n: nat,
                     parts: seq<seq<StepError>>, part: seq<StepError>)
    requires n < |os| && Reported(a, w, sense, os, namespace, n, parts)
    requires PartReported(a, w, sense, os, namespace, n, part)
    ensures Reported(a, w, sense, os, namespace, n + 1, parts + [part]) && Flat(parts + [part]) == Flat(parts) + part
  {
    FlatNext(parts, part);
    var more := parts + [part];
    forall j: nat | j < n + 1 ensures PartReported(a, w, sense, os, namespace, j, more[j]) {
      if j < n { assert more[j] == parts[j]; }
    }
  }

  /** The errors are those of one round: of its positive assertions, its commands and expressions, its negative ones. */
  ghost predicate RoundReported(a: Access, r: Round, probes: seq<Error>, namespace: string, errs: seq<StepError>)
  {
    exists present, absent :: errs == present + AllFailed(probes) + absent
      && ListReported(a, r.world, Present, r.asserts, namespace, present)
      && ListReported(a, CheckList(a, r.world, Present, r.asserts, namespace).world, Absent, r.errors, namespace,
        absent)
  }

  /** The errors after some rounds are those of the last one. */
  ghost predicate LastReported(a: Access, r: Round, probes: nat -> seq<Error>, namespace: string, rounds: nat,
                               errs: seq<StepError>)
  {
    var now := RoundAfter(a, r, probes, namespace, rounds);
    && (errs == [] <==> now.ok) && (AnyTimeout(errs) <==> now.deadline)
    && (rounds > 0 ==>
      RoundReported(a, RoundAfter(a, r, probes, namespace, rounds - 1), probes(rounds - 1), namespace, errs))
  }

  /** After `k` rounds, with these errors from the last one. */
  ghost predicate Rounded(a: Access, start: Round, probes: nat -> seq<Error>, namespace: string, timeout: int,
                          elapsed: nat -> real, k: nat, r: Round, errs: seq<StepError>)
  {
    && Reaches(a, start, probes, namespace, timeout, elapsed, k) && r == RoundAfter(a, start, probes, namespace, k)
    && LastReported(a, start, probes, namespace, k, errs)
  }

  lemma RoundedFirst(a: Access, start: Round, probes: nat -> seq<Error>, namespace: string, timeout: int,
                     elapsed: nat -> real)
    requires start.ok && !start.deadline
    ensures Rounded(a, start, probes, namespace, timeout, elapsed, 0, start, [])
  {
  }

  lemma RoundedNext(a: Access, start: Round, probes: nat -> seq<Error>, namespace: string, timeout: int,
                    elapsed: nat -> real, k: nat, last: Round, before: seq<StepError>, errs: seq<StepError>)
    requires Rounded(a, start, probes, namespace, timeout, elapsed, k, last, before)
    requires elapsed(k) < timeout as real && (k > 0 ==> !Ends(last))
    requires RoundReported(a, last, probes(k), namespace, errs)
    requires var now := CheckAll(a, last, probes(k), namespace);
      (errs == [] <==> now.ok) && (AnyTimeout(errs) <==> now.deadline)
    ensures Rounded(a, start, probes, namespace, timeout, elapsed, k + 1, CheckAll(a, last, probes(k), namespace), errs)
  {
    ReachesNext(a, start, probes, namespace, timeout, elapsed, k, last);
  }

  /** An error list carries a verdict: it is empty when all is well, and shows whether anything timed out. */
  ghost predicate Agrees(errs: seq<StepError>, v: Verdict)
  {
    (errs == [] <==> v.ok) && (AnyTimeout(errs) <==> v.deadline)
  }

  ghost predicate AnyTimeout(errs: seq<StepError>)
  {
    exists e :: e in errs && IsTimeout(e)
  }

  lemma AnyTimeoutAppend(errs: seq<StepError>, more: seq<StepError>)
    ensures AnyTimeout(errs + more) <==> AnyTimeout(errs) || AnyTimeout(more)
  {
  }

  lemma AnyTimeoutFailed(probes: seq<Error>)
    ensures AnyTimeout(AllFailed(probes)) <==> AnyDeadline(probes)
  {
    if AnyDeadline(probes) {
      var i :| 0 <= i < |probes| && IsDeadline(probes[i]);
      assert AllFailed(probes)[i] in AllFailed(probes);
    }
  }

  ghost predicate AnySuperset(content: Fields, actuals: seq<Fields>)
  {
    exists a :: a in actuals && Subset.IsSubsetOf(Obj(content), Obj(a))
  }

  /** Two errors for each candidate: a diff, and where it fails to be a superset. */
  ghost predicate Explains(errs: seq<StepError>, content: Fields, actuals: seq<Fields>)
  {
    |errs| == 2 * |actuals| &&
    forall i :: 0 <= i < |actuals| ==>
      && errs[2 * i].Difference? && errs[2 * i + 1].NotSubset?
      && Subset.CanReport(errs[2 * i + 1].path, errs[2 * i + 1].reason, Obj(content), Obj(actuals[i]))
  }

  lemma ExplainsNext(errs: seq<StepError>, content: Fields, actuals: seq<Fields>, i: nat, path: seq<string>,
                     reason: Subset.Reason)
    requires i < |actuals| && Explains(errs, content, actuals[..i]) && !AnyTimeout(errs)
    requires Subset.CanReport(path, reason, Obj(content), Obj(actuals[i]))
    ensures var more := errs + [Difference, NotSubset(path, reason)];
      Explains(more, content, actuals[..i + 1]) && !AnyTimeout(more)
  {
  }

  function AllFailed(errs: seq<Error>): (r: seq<StepError>)
    ensures |r| == |errs|
  {
    seq(|errs|, i requires 0 <= i < |errs| => Failed(errs[i]))
  }

  lemma AllFailedAppend(errs: seq<Error>, e: Error)
    ensures AllFailed(errs + [e]) == AllFailed(errs) + [Failed(e)]
  {
  }
}
