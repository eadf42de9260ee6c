/** The retry loop as a protocol: the caller, one goroutine per attempt, two channels and a context. */
module Retry {
  import opened Outcomes
  import opened Errors

  // ----- which errors are tolerated -----

  predicate Tolerates(validators: seq<Error -> bool>, e: Error)
  {
    exists i :: 0 <= i < |validators| && validators[i](e)
  }

  /** Drops an error that some validator accepts. */
  method ValidateErrors(err: Error, validators: seq<Error -> bool>) returns (e: Option<Error>)
    ensures e == if Tolerates(validators, err) then None else Some(err)
  {
    for i := 0 to |validators|
      invariant forall j :: 0 <= j < i ==> !validators[j](err)
    {
      if validators[i](err) {
        return None;
      }
    }
    return Some(err);
  }

  // ----- the protocol -----

  /** An attempt's goroutine: running the function, blocked on sending its outcome, or over. */
  datatype Attempt = Running | SendingErr(e: Error) | SendingDone | Ended

  /** The caller: about to start an attempt, in `select`, or returned. */
  datatype Loop = Starting | Waiting | Returned(result: Option<Error>)

  datatype Event =
    | Started(n: nat)
    | Received(n: nat, err: Option<Error>)
    | GaveUp

  datatype State = State(attempts: seq<Attempt>, loop: Loop, lastErr: Option<Error>, ctx: Option<Error>,
    history: seq<Event>)

  datatype Step =
    | Launch
    | Finish(i: nat, err: Option<Error>)   // the function returned, or panicked and was recovered
    | Expire(cause: Error)
    | ReceiveDone(i: nat)
    | ReceiveErr(i: nat)
    | SelectCtx

  ghost predicate Init(s: State, fnIsNil: bool)
  {
    && s.attempts == [] && s.history == [] && s.lastErr.None?
    && s.loop == if fnIsNil then Returned(None) else Starting
  }

  ghost predicate Enabled(s: State, step: Step)
  {
    match step
    case Launch => s.loop.Starting?
    case Finish(i, _) => i < |s.attempts| && s.attempts[i].Running?
    case Expire(cause) => s.ctx.None? && cause.ContextDone?
    case ReceiveDone(i) => s.loop.Waiting? && i < |s.attempts| && s.attempts[i].SendingDone?
    case ReceiveErr(i) => s.loop.Waiting? && i < |s.attempts| && s.attempts[i].SendingErr?
    case SelectCtx => s.loop.Waiting? && s.ctx.Some?
  }

  ghost function After(validators: seq<Error -> bool>, s: State, step: Step): State
    requires Enabled(s, step)
  {
    match step
    case Launch =>
      s.(attempts := s.attempts + [Running], loop := Waiting, history := s.history + [Started(|s.attempts|)])
    case Finish(i, err) =>
      s.(attempts := s.attempts[i := if err.Some? then SendingErr(err.value) else SendingDone])
    case Expire(cause) =>
      s.(ctx := Some(cause))
    case ReceiveDone(i) =>
      s.(attempts := s.attempts[i := Ended], lastErr := None, loop := Returned(None),
         history := s.history + [Received(i, None)])
    case ReceiveErr(i) =>
      var e := s.attempts[i].e;
      var received := s.(attempts := s.attempts[i := Ended], history := s.history + [Received(i, Some(e))]);
      if Tolerates(validators, e) then received.(lastErr := Some(e), loop := Starting)
        else received.(loop := Returned(Some(e)))
    case SelectCtx =>
      s.(loop := Returned(if s.lastErr.Some? then s.lastErr else s.ctx), history := s.history + [GaveUp])
  }

  ghost predicate Next(validators: seq<Error -> bool>, s: State, t: State)
  {
    exists step :: Enabled(s, step) && t == After(validators, s, step)
  }

  /** A schedule of any length; steps that change nothing here are allowed. */
  ghost predicate IsRun(validators: seq<Error -> bool>, fnIsNil: bool, run: seq<State>)
  {
    run != [] && Init(run[0], fnIsNil) &&
    forall i :: 0 <= i < |run| - 1 ==> run[i + 1] == run[i] || Next(validators, run[i], run[i + 1])
  }

  // ----- what holds in every reachable state -----

  /** No two attempts are ever outstanding, and none is while the next one is about to start. */
  ghost predicate OneOutstanding(s: State)
  {
    && (forall i :: 0 <= i < |s.attempts| - 1 ==> s.attempts[i].Ended?)
    && (s.loop.Starting? && s.attempts != [] ==> s.attempts[|s.attempts| - 1].Ended?)
  }

  /** The number of attempts started in a history. */
  ghost function Starts(h: seq<Event>): nat
  {
    if h == [] then 0 else Starts(h[..|h| - 1]) + if h[|h| - 1].Started? then 1 else 0
  }

  /** The history ends with the tolerated error of attempt `n`. */
  ghost predicate EndsTolerated(validators: seq<Error -> bool>, h: seq<Event>, n: int)
    requires h != []
  {
    var last := h[|h| - 1];
    last.Received? && last.n == n && last.err.Some? && Tolerates(validators, last.err.value)
  }

  /** Attempts are numbered in order, and each but the first directly follows the tolerated error of the one before. */
  ghost predicate Orderly(validators: seq<Error -> bool>, h: seq<Event>)
  {
    forall k :: 0 <= k < |h| && h[k].Started? ==>
      && h[k].n == Starts(h[..k])
      && (k > 0 ==> EndsTolerated(validators, h[..k], h[k].n - 1))
  }

  /** The last error received, if any: on a run still going it was tolerated. */
  ghost function LastError(h: seq<Event>): Option<Error>
  {
    if h == [] then None
    else if h[|h| - 1].Received? then h[|h| - 1].err
    else LastError(h[..|h| - 1])
  }

  /** Why a result was returned. */
  ghost predicate Justified(validators: seq<Error -> bool>, fnIsNil: bool, s: State)
  {
    s.loop.Returned? ==>
      var h := s.history;
      match s.loop.result
      case None => (fnIsNil && h == []) || (h != [] && exists n :: h[|h| - 1] == Received(n, None))
      case Some(e) =>
        h != [] &&
        if h[|h| - 1].GaveUp? then
          s.ctx.Some? && e == if LastError(h).Some? then LastError(h).value else s.ctx.value
        else h[|h| - 1].Received? && h[|h| - 1].err == Some(e) && !Tolerates(validators, e)
  }

  /** What the rest of the invariant says, without the order of events. */
  ghost predicate Bookkeeping(validators: seq<Error -> bool>, fnIsNil: bool, s: State)
  {
    && OneOutstanding(s) && Justified(validators, fnIsNil, s)
    && Starts(s.history) == |s.attempts|
    && (!s.loop.Returned? ==> s.lastErr == LastError(s.history))
    && (s.loop.Starting? && s.history != [] ==> EndsTolerated(validators, s.history, |s.attempts| - 1))
    && (s.loop.Waiting? ==> s.attempts != [])
  }

  ghost predicate Inv(validators: seq<Error -> bool>, fnIsNil: bool, s: State)
  {
    Orderly(validators, s.history) && Bookkeeping(validators, fnIsNil, s)
  }

  lemma StartsAppend(h: seq<Event>, e: Event)
    ensures Starts(h + [e]) == Starts(h) + if e.Started? then 1 else 0
    ensures LastError(h + [e]) == if e.Received? then e.err else LastError(h)
  {
  }

  lemma OrderlyAppend(validators: seq<Error -> bool>, h: seq<Event>, e: Event)
    requires Orderly(validators, h)
    requires e.Started? ==> e.n == Starts(h) && (h != [] ==> EndsTolerated(validators, h, e.n - 1))
    ensures Orderly(validators, h + [e])
  {
    var g := h + [e];
    forall k | 0 <= k < |g| && g[k].Started?
      ensures g[k].n == Starts(g[..k]) && (k > 0 ==> EndsTolerated(validators, g[..k], g[k].n - 1))
    {
      assert g[..k] == h[..k];
      assert h[..|h|] == h;
    }
  }

  lemma StepKeepsOrder(validators: seq<Error -> bool>, fnIsNil: bool, s: State, step: Step)
    requires Inv(validators, fnIsNil, s) && Enabled(s, step)
    ensures Orderly(validators, After(validators, s, step).history)
  {
    var t := After(validators, s, step);
    if t.history != s.history {
      OrderlyAppend(validators, s.history, t.history[|s.history|]);
    }
  }

  lemma StepKeepsBooks(validators: seq<Error -> bool>, fnIsNil: bool, s: State, step: Step)
    requires Bookkeeping(validators, fnIsNil, s) && Enabled(s, step)
    ensures Bookkeeping(validators, fnIsNil, After(validators, s, step))
  {
    if step.Launch? || step.SelectCtx? {
      CallerKeepsBooks(validators, fnIsNil, s, step);
    } else if step.ReceiveDone? || step.ReceiveErr? {
      ReceiptKeepsBooks(validators, fnIsNil, s, step);
    } else {
      QuietKeepsBooks(validators, fnIsNil, s, step);
    }
  }

  lemma CallerKeepsBooks(validators: seq<Error -> bool>, fnIsNil: bool, s: State, step: Step)
    requires Bookkeeping(validators, fnIsNil, s) && Enabled(s, step) && (step.Launch? || step.SelectCtx?)
    ensures Bookkeeping(validators, fnIsNil, After(validators, s, step))
  {
    var t := After(validators, s, step);
    StartsAppend(s.history, t.history[|s.history|]);
  }

  lemma ReceiptKeepsBooks(validators: seq<Error -> bool>, fnIsNil: bool, s: State, step: Step)
    requires Bookkeeping(validators, fnIsNil, s) && Enabled(s, step) && (step.ReceiveDone? || step.ReceiveErr?)
    ensures Bookkeeping(validators, fnIsNil, After(validators, s, step))
  {
    var t := After(validators, s, step);
    StartsAppend(s.history, t.history[|s.history|]);
  }

  lemma QuietKeepsBooks(validators: seq<Error -> bool>, fnIsNil: bool, s: State, step: Step)
    requires Bookkeeping(validators, fnIsNil, s) && Enabled(s, step) && (step.Finish? || step.Expire?)
    ensures Bookkeeping(validators, fnIsNil, After(validators, s, step))
  {
  }

  /** Safety of retry in every state of every schedule. */
  lemma {:induction false} RetryIsSafe(validators: seq<Error -> bool>, fnIsNil: bool, run: seq<State>, i: nat)
    requires IsRun(validators, fnIsNil, run) && i < |run|
    ensures Inv(validators, fnIsNil, run[i])
  {
    if i == 0 {
    } else {
      RetryIsSafe(validators, fnIsNil, run, i - 1);
      if run[i - 1 + 1] != run[i - 1] {
        var step :| Enabled(run[i - 1], step) && run[i - 1 + 1] == After(validators, run[i - 1], step);
        StepKeepsOrder(validators, fnIsNil, run[i - 1], step);
        StepKeepsBooks(validators, fnIsNil, run[i - 1], step);
      }
    }
  }

  /** After the caller returned, nothing more is started or received, whatever the last attempt still does. */
  lemma {:induction false} ReturnIsFinal(validators: seq<Error -> bool>, fnIsNil: bool, run: seq<State>, i: nat, j: nat)
    requires IsRun(validators, fnIsNil, run) && i <= j < |run| && run[i].loop.Returned?
    ensures run[j].loop == run[i].loop && run[j].history == run[i].history && |run[j].attempts| == |run[i].attempts|
  {
    if i < j {
      ReturnIsFinal(validators, fnIsNil, run, i, j - 1);
      assert run[j - 1 + 1] == run[j];
    }
  }
}
