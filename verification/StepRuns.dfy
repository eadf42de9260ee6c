/** A whole run of a step as a function of the world it starts in and of what the outside world answers. */
module StepRuns {
  import opened Outcomes
  import opened Errors
  import opened Cluster
  import opened Testing
  import opened Loading
  import opened Checks
  import opened Creation
  import opened CreationErrors

  /** A loaded step, and the answers it gets; `rounds` is the number of rounds of checks that are made. */
  datatype Script = Script(access: Access, step: Option<TestStep>, apply: seq<Object>, asserts: seq<Object>,
                           errors: seq<Object>, namespace: string, skipDelete: bool, polls: nat,
                           commandsErr: Option<Error>, applier: Applier, probes: nat -> seq<Error>, rounds: nat)

  function Deleted(s: Script, w: World): (World, Option<Error>)
  {
    DeletePhase(s.access, w, s.step, s.namespace, s.polls)
  }

  function AfterApply(s: Script, w: World): Created
  {
    CreatePhase(s.access, Deleted(s, w).0, s.apply, s.namespace, s.applier, s.skipDelete)
  }

  ghost function Checked(s: Script, w: World): World
  {
    RoundAfter(s.access, Round(w, s.asserts, s.errors, true, false), s.probes, s.namespace, s.rounds).world
  }

  /** The world after the run, and the clean-ups it registered. */
  ghost function Played(s: Script, w: World): (World, seq<Cleanup>)
  {
    if Deleted(s, w).1.Some? then (Deleted(s, w).0, [])
    else if AfterApply(s, w).errs != [] || (s.step.Some? && s.commandsErr.Some?)
    then (AfterApply(s, w).world, AfterApply(s, w).cleanups)
    else (Checked(s, AfterApply(s, w).world), AfterApply(s, w).cleanups)
  }

  /** The clients could be had, the TestStep's commands succeeded, and every object was applied with a nil error. */
  ghost predicate AllApplied(s: Script, w: World)
  {
    && s.access.clientErr.None? && s.access.discoveryErr.None? && (s.step.Some? ==> s.commandsErr.None?)
    && forall i: nat :: i < |s.apply| ==> AppliedAt(s.access, Deleted(s, w).0, s.apply, s.namespace, s.applier, i)
  }

  /** A run gets to its checks exactly when nothing went wrong before. */
  lemma ChecksReached(s: Script, w: World)
    ensures AfterApply(s, w).errs == [] && !(s.step.Some? && s.commandsErr.Some?) <==> AllApplied(s, w)
  {
    NoErrorsExactly(s.access, Deleted(s, w).0, s.apply, s.namespace, s.applier, s.skipDelete);
  }
}
