/** After which errors CreateOrUpdate tries again, and which it returns. */
module ApplyRetries {
  import opened Outcomes
  import opened Errors
  import opened Apply
  import Retry

  /** The object appeared meanwhile; or it was changed, and the caller wants conflicts to be tried again. */
  predicate WorthAnother(args: Args, e: Error)
  {
    Has(e, AlreadyExists) || (args.retryOnError && Has(e, Conflict))
  }

  /** What comes after the k-th event: another attempt after an error that is worth one, and only then. */
  ghost predicate FollowedUp(args: Args, s: State, k: nat)
    requires k < |s.history|
  {
    var next := if k + 1 < |s.history| then Some(s.history[k + 1]) else None;
    match s.history[k]
    case Started(_) => if next.None? then s.loop.Waiting? else !next.value.Started?
    case GaveUp => next.None? && s.loop.Returned?
    case Received(_, None) => next.None? && s.loop == Retry.Returned(None)
    case Received(_, Some(e)) =>
      if !WorthAnother(args, e) then next.None? && s.loop == Retry.Returned(Some(e))
      else if next.None? then s.loop.Starting?
      else next.value.Started?
  }

  ghost predicate AllFollowedUp(args: Args, s: State)
  {
    && (s.history == [] ==> s.loop.Starting?)
    && forall k: nat :: k < |s.history| ==> FollowedUp(args, s, k)
  }

  /** A deadline that has passed turns every outcome into an error; any other outcome is what the loop returned. */
  predicate ReportedAsReturned(s: State)
  {
    s.result.Some? ==>
      && s.loop.Returned?
      && var err := s.result.value.1;
        err == s.loop.result || (s.ctx == Some(ContextDone(true)) &&
          err == Some(if s.loop.result.Some? then Wrapped(s.loop.result.value) else LateSuccess))
  }

  lemma ToleratedIsWorthAnother(args: Args, e: Error)
    ensures Retry.Tolerates(Validators(args), e) <==> WorthAnother(args, e)
  {
    var validators := Validators(args);
    assert validators[0](e) <==> Has(e, AlreadyExists);
    if args.retryOnError { assert validators[1](e) <==> Has(e, Conflict); }
  }

  /** The loop moves only with an event that fits where it was. */
  ghost predicate MovesOn(args: Args, s: State, t: State)
  {
    (t.history == s.history && t.loop == s.loop) ||
    (|t.history| == |s.history| + 1 && s.history < t.history &&
     match t.history[|s.history|]
     case Started(_) => s.loop.Starting? && t.loop.Waiting?
     case GaveUp => s.loop.Waiting? && t.loop.Returned?
     case Received(_, None) => s.loop.Waiting? && t.loop == Retry.Returned(None)
     case Received(_, Some(e)) =>
       s.loop.Waiting? && t.loop == if WorthAnother(args, e) then Retry.Starting else Retry.Returned(Some(e)))
  }

  lemma StepMovesOn(args: Args, s: State, step: Step)
    requires Enabled(args, s, step)
    ensures MovesOn(args, s, After(args, s, step))
  {
    if step.ReceiveErr? { ToleratedIsWorthAnother(args, s.threads[step.i].e); }
  }

  lemma FollowsUp(args: Args, s: State, t: State)
    requires AllFollowedUp(args, s) && MovesOn(args, s, t)
    ensures AllFollowedUp(args, t)
  {
    forall k: nat | k < |t.history| ensures FollowedUp(args, t, k) {
      if k < |s.history| { assert FollowedUp(args, s, k) && t.history[k] == s.history[k]; }
    }
  }

  lemma StepReportsAsReturned(args: Args, s: State, step: Step)
    requires ReportedAsReturned(s) && Enabled(args, s, step)
    ensures ReportedAsReturned(After(args, s, step))
  {
  }

  /** In every state of every schedule: an error received is followed by another attempt if it says that the object
      exists or, where the caller wants that, that it was changed; and any other error has been returned as it is. */
  lemma {:induction false} RetriesExactly(args: Args, run: seq<State>, n: nat)
    requires IsRun(args, run) && n < |run|
    ensures AllFollowedUp(args, run[n]) && ReportedAsReturned(run[n])
  {
    if n == 0 {
      assert Init(args, run[0]);
    } else {
      RetriesExactly(args, run, n - 1);
      assert Next(args, run[n - 1], run[n - 1 + 1]);
      var step :| Enabled(args, run[n - 1], step) && run[n] == After(args, run[n - 1], step);
      StepMovesOn(args, run[n - 1], step);
      FollowsUp(args, run[n - 1], run[n]);
      StepReportsAsReturned(args, run[n - 1], step);
    }
  }

  /** A panic of an attempt reaches the waiting caller as an error, and is not tried again. */
  lemma PanicIsReturned(args: Args, s: State, i: nat)
    requires Enabled(args, s, Panic(i)) && s.loop.Waiting?
    ensures var panicked := After(args, s, Panic(i));
      && Enabled(args, panicked, ReceiveErr(i))
      && var t := After(args, panicked, ReceiveErr(i)); t.loop.Returned? && t.loop.result.Some?
  {
    ToleratedIsWorthAnother(args, Panicked);
  }

  /** A server's refusal that ends an attempt. */
  predicate Refusal(step: Step) { step.GetErr? || step.PatchErr? || step.CreateErr? }

  /** A refusal reaches the waiting caller, who tries again just after AlreadyExists and, if wanted, Conflict. */
  lemma RefusalIsAnswered(args: Args, s: State, step: Step)
    requires Enabled(args, s, step) && Refusal(step) && s.loop.Waiting?
    ensures var refused := After(args, s, step);
      && Enabled(args, refused, ReceiveErr(step.i))
      && var t := After(args, refused, ReceiveErr(step.i));
        && (step.e == Api(AlreadyExists) ==> t.loop.Starting?)
        && (step.e == Api(Conflict) ==> (t.loop.Starting? <==> args.retryOnError))
        && (!WorthAnother(args, step.e) ==> t.loop == Retry.Returned(Some(Wrapped(step.e))))
  {
    ToleratedIsWorthAnother(args, Wrapped(step.e));
  }
}
