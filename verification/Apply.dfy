/** CreateOrUpdate against a server with other writers: attempts that read, then patch or create, inside retry. */
module Apply {
  import opened Json
  import opened Outcomes
  import opened Errors
  import opened Objects
  import opened Cluster
  import opened Subset
  import MergePatch
  import Retry

  /** An attempt's goroutine, between its server calls. */
  datatype Thread =
    | Begun
    | Found(actual: Fields)      // Get answered; the patch is next
    | Missing                    // Get said NotFound; the creation is next
    | SendingErr(e: Error)
    | SendingDone
    | Ended

  /** One accepted write of ours: what its attempt had read, what the server held just before, what we sent, what is
      stored. */
  datatype Write = Write(read: Option<Fields>, before: Option<Fields>, sent: Fields, stored: Fields)

  datatype State = State(
    store: Store,
    seen: map<string, Fields>,   // every content the key ever had, by resource version
    threads: seq<Thread>,
    loop: Retry.Loop,
    lastErr: Option<Error>,
    ctx: Option<Error>,
    history: seq<Retry.Event>,
    updated: bool,               // the variable the attempts share with the caller
    result: Option<(bool, Option<Error>)>,
    writes: seq<Write>)

  /** The arguments of the call. */
  datatype Args = Args(orig: Fields, retryOnError: bool)

  function Validators(args: Args): seq<Error -> bool>
  {
    [(e: Error) => Has(e, AlreadyExists)] + if args.retryOnError then [(e: Error) => Has(e, Conflict)] else []
  }

  /** patchObject: the object to send carries the version that was read. */
  function Expected(orig: Fields, actual: Fields): Fields
  {
    WithMeta(orig, "resourceVersion", VersionOf(actual))
  }

  // ----- the server -----

  /** What may be stored for a submitted object: all of it under a new version, plus additions. */
  ghost predicate Keeps(key: Key, submitted: Fields, stored: Fields)
  {
    && VersionOf(stored) != "" && KeyOf(stored) == key
    && IsSubsetOf(Obj(WithMeta(submitted, "resourceVersion", VersionOf(stored))), Obj(stored))
  }

  /** The new version was never used for this key. */
  ghost predicate Stores(key: Key, submitted: Fields, stored: Fields, seen: map<string, Fields>)
  {
    Keeps(key, submitted, stored) && VersionOf(stored) !in seen
  }

  /** The server refuses to create an object that names a resource version. */
  predicate MayBeCreated(o: Fields) { VersionOf(o) == "" }

  function Patched(current: Fields, patch: Fields): Fields
  {
    MergePatch.Merge(Obj(current), Obj(patch)).fields
  }

  /** Optimistic concurrency: a patch that names a version applies to that version only. */
  predicate VersionMatches(current: Fields, patch: Fields)
  {
    VersionOf(Patched(current, patch)) in {"", VersionOf(current)}
  }

  /** A patch that changes nothing keeps the object and its version. */
  ghost predicate PatchStores(key: Key, current: Fields, patch: Fields, stored: Fields, seen: map<string, Fields>)
  {
    || (Patched(current, patch) == current && stored == current)
    || Stores(key, Patched(current, patch), stored, seen)
  }

  /** Another writer's step: wherever it changes our key it stores a version never used there. */
  ghost predicate OthersMay(key: Key, s: State, store: Store)
  {
    key in store ==>
      (key in s.store && store[key] == s.store[key]) ||
      (VersionOf(store[key]) != "" && VersionOf(store[key]) !in s.seen && KeyOf(store[key]) == key)
  }

  function Record(key: Key, seen: map<string, Fields>, store: Store): map<string, Fields>
  {
    if key in store then seen[VersionOf(store[key]) := store[key]] else seen
  }

  function Cell(s: State, key: Key): Option<Fields>
  {
    if key in s.store then Some(s.store[key]) else None
  }

  // ----- steps -----

  datatype Step =
    | OtherWriters(store: Store)
    | Launch
    | GetOk(i: nat)
    | GetNotFound(i: nat)
    | GetErr(i: nat, e: Error)
    | PatchOk(i: nat, stored: Fields)
    | PatchErr(i: nat, e: Error)      // a conflict, a missing object, or any other refusal: the store is unchanged
    | CreateOk(i: nat, stored: Fields)
    | CreateErr(i: nat, e: Error)
    | Panic(i: nat)
    | Expire(cause: Error)
    | ReceiveDone(i: nat)
    | ReceiveErr(i: nat)
    | SelectCtx
    | Conclude                        // retry returned; look at the context once more

  /** A stored object is under its own key and has a version. */
  predicate KeptAt(key: Key, store: Store)
  {
    key in store ==> VersionOf(store[key]) != "" && KeyOf(store[key]) == key
  }

  ghost predicate Init(args: Args, s: State)
  {
    var key := KeyOf(args.orig);
    && s.threads == [] && s.history == [] && s.writes == [] && s.lastErr.None? && s.result.None? && !s.updated
    && s.loop.Starting?
    && KeptAt(key, s.store)
    && s.seen == Record(key, map[], s.store)
  }

  ghost predicate At(s: State, i: nat, t: Thread) { i < |s.threads| && s.threads[i] == t }

  ghost predicate Enabled(args: Args, s: State, step: Step)
  {
    var key := KeyOf(args.orig);
    match step
    case OtherWriters(store) => OthersMay(key, s, store)
    case Launch => s.loop.Starting?
    case GetOk(i) => At(s, i, Begun) && key in s.store && key.name != ""
    case GetNotFound(i) => At(s, i, Begun) && key !in s.store && key.name != ""
    case GetErr(i, e) => At(s, i, Begun) && !Has(e, NotFound)
    case PatchOk(i, stored) =>
      i < |s.threads| && s.threads[i].Found? && key in s.store &&
      var patch := Expected(args.orig, s.threads[i].actual);
      VersionMatches(s.store[key], patch) && PatchStores(key, s.store[key], patch, stored, s.seen)
    case PatchErr(i, e) => i < |s.threads| && s.threads[i].Found?
    case CreateOk(i, stored) =>
      At(s, i, Missing) && key !in s.store && MayBeCreated(args.orig) && Stores(key, args.orig, stored, s.seen)
    case CreateErr(i, e) => At(s, i, Missing)
    case Panic(i) => i < |s.threads| && (s.threads[i].Begun? || s.threads[i].Found? || s.threads[i].Missing?)
    case Expire(cause) => s.ctx.None? && cause.ContextDone?
    case ReceiveDone(i) => s.loop.Waiting? && At(s, i, SendingDone)
    case ReceiveErr(i) => s.loop.Waiting? && i < |s.threads| && s.threads[i].SendingErr?
    case SelectCtx => s.loop.Waiting? && s.ctx.Some?
    case Conclude => s.loop.Returned? && s.result.None?
  }

  ghost function After(args: Args, s: State, step: Step): State
    requires Enabled(args, s, step)
  {
    var key := KeyOf(args.orig);
    match step
    case OtherWriters(store) => s.(store := store, seen := Record(key, s.seen, store))
    case Launch => 
      s.(threads := s.threads + [Begun], loop := Retry.Waiting, history := s.history + [Retry.Started(|s.threads|)])
    case GetOk(i) => s.(threads := s.threads[i := Found(s.store[key])], updated := true)
    case GetNotFound(i) => s.(threads := s.threads[i := Missing], updated := false)
    case GetErr(i, e) => s.(threads := s.threads[i := SendingErr(Wrapped(e))])
    case PatchOk(i, stored) =>
      Written(key, s, i,
        Write(Some(s.threads[i].actual), Cell(s, key), Expected(args.orig, s.threads[i].actual), stored))
    case PatchErr(i, e) => s.(threads := s.threads[i := SendingErr(Wrapped(e))])
    case CreateOk(i, stored) => Written(key, s, i, Write(None, Cell(s, key), args.orig, stored))
    case CreateErr(i, e) => s.(threads := s.threads[i := SendingErr(Wrapped(e))])
    case Panic(i) => s.(threads := s.threads[i := SendingErr(Panicked)])
    case Expire(cause) => s.(ctx := Some(cause))
    case ReceiveDone(i) =>
      s.(threads := s.threads[i := Ended], lastErr := None, loop := Retry.Returned(None),
         history := s.history + [Retry.Received(i, None)])
    case ReceiveErr(i) =>
      var e := s.threads[i].e;
      var received := s.(threads := s.threads[i := Ended], history := s.history + [Retry.Received(i, Some(e))]);
      if Retry.Tolerates(Validators(args), e) then received.(lastErr := Some(e), loop := Retry.Starting)
      else received.(loop := Retry.Returned(Some(e)))
    case SelectCtx =>
      s.(loop := Retry.Returned(if s.lastErr.Some? then s.lastErr else s.ctx), history := s.history + [Retry.GaveUp])
    case Conclude =>
      var err := s.loop.result;
      s.(result := Some((s.updated,
        if s.ctx != Some(ContextDone(true)) then err
        else Some(if err.Some? then Wrapped(err.value) else LateSuccess))))
  }

  function Written(key: Key, s: State, i: nat, w: Write): State
    requires i < |s.threads|
  {
    var store := s.store[key := w.stored];
    s.(store := store, seen := Record(key, s.seen, store), threads := s.threads[i := SendingDone],
       writes := s.writes + [w])
  }

  ghost predicate Next(args: Args, s: State, t: State)
  {
    exists step :: Enabled(args, s, step) && t == After(args, s, step)
  }

  ghost predicate IsRun(args: Args, run: seq<State>)
  {
    run != [] && Init(args, run[0]) && forall i :: 0 <= i < |run| - 1 ==> Next(args, run[i], run[i + 1])
  }

  // ----- refinement: seen from the outside, this is the retry protocol -----

  function AbsThread(t: Thread): Retry.Attempt
  {
    match t
    case SendingErr(e) => Retry.SendingErr(e)
    case SendingDone => Retry.SendingDone
    case Ended => Retry.Ended
    case _ => Retry.Running
  }

  function AbsThreads(ts: seq<Thread>): (r: seq<Retry.Attempt>)
    ensures |r| == |ts| && forall i :: 0 <= i < |ts| ==> r[i] == AbsThread(ts[i])
  {
    seq(|ts|, i requires 0 <= i < |ts| => AbsThread(ts[i]))
  }

  function Abs(s: State): Retry.State
  {
    Retry.State(AbsThreads(s.threads), s.loop, s.lastErr, s.ctx, s.history)
  }

  function AbsStep(s: State, step: Step): Option<Retry.Step>
  {
    match step
    case Launch => Some(Retry.Launch)
    case GetErr(i, e) => Some(Retry.Finish(i, Some(Wrapped(e))))
    case PatchErr(i, e) => Some(Retry.Finish(i, Some(Wrapped(e))))
    case CreateErr(i, e) => Some(Retry.Finish(i, Some(Wrapped(e))))
    case Panic(i) => Some(Retry.Finish(i, Some(Panicked)))
    case PatchOk(i, _) => Some(Retry.Finish(i, None))
    case CreateOk(i, _) => Some(Retry.Finish(i, None))
    case Expire(cause) => Some(Retry.Expire(cause))
    case ReceiveDone(i) => Some(Retry.ReceiveDone(i))
    case ReceiveErr(i) => Some(Retry.ReceiveErr(i))
    case SelectCtx => Some(Retry.SelectCtx)
    case _ => None
  }

  ghost predicate Refines(args: Args, s: State, step: Step)
    requires Enabled(args, s, step)
  {
    match AbsStep(s, step)
    case None => Abs(After(args, s, step)) == Abs(s)
    case Some(a) => Retry.Enabled(Abs(s), a) && Abs(After(args, s, step)) == Retry.After(Validators(args), Abs(s), a)
  }

  lemma HiddenStepRefines(args: Args, s: State, step: Step)
    requires Enabled(args, s, step) && AbsStep(s, step).None?
    ensures Refines(args, s, step)
  {
    assert AbsThreads(After(args, s, step).threads) == AbsThreads(s.threads);
  }

  lemma AttemptStepRefines(args: Args, s: State, step: Step)
    requires Enabled(args, s, step) && AbsStep(s, step).Some? && AbsStep(s, step).value.Finish?
    ensures Refines(args, s, step)
  {
    var a := AbsStep(s, step).value;
    assert AbsThreads(After(args, s, step).threads) == Retry.After(Validators(args), Abs(s), a).attempts;
  }

  lemma LoopStepRefines(args: Args, s: State, step: Step)
    requires Enabled(args, s, step) && AbsStep(s, step).Some? && !AbsStep(s, step).value.Finish?
    ensures Refines(args, s, step)
  {
    var a := AbsStep(s, step).value;
    assert AbsThreads(After(args, s, step).threads) == Retry.After(Validators(args), Abs(s), a).attempts;
  }

  /** Every step is a step of retry, or invisible to it. */
  lemma StepRefines(args: Args, s: State, step: Step)
    requires Enabled(args, s, step)
    ensures match AbsStep(s, step)
      case None => Abs(After(args, s, step)) == Abs(s)
      case Some(a) => Retry.Enabled(Abs(s), a) && Abs(After(args, s, step)) == Retry.After(Validators(args), Abs(s), a)
  {
    var abs := AbsStep(s, step);
    if abs.None? {
      HiddenStepRefines(args, s, step);
    } else if abs.value.Finish? {
      AttemptStepRefines(args, s, step);
    } else {
      LoopStepRefines(args, s, step);
    }
  }

  /** Every schedule of CreateOrUpdate is a schedule of retry, so all that is proved of retry holds here. */
  lemma RunRefinesRetry(args: Args, run: seq<State>) returns (abs: seq<Retry.State>)
    requires IsRun(args, run)
    ensures |abs| == |run| && (forall i :: 0 <= i < |run| ==> abs[i] == Abs(run[i]))
    ensures Retry.IsRun(Validators(args), false, abs)
  {
    abs := seq(|run|, i requires 0 <= i < |run| => Abs(run[i]));
    forall i | 0 <= i < |abs| - 1
      ensures abs[i + 1] == abs[i] || Retry.Next(Validators(args), abs[i], abs[i + 1])
    {
      assert Next(args, run[i], run[i + 1]);
      var step :| Enabled(args, run[i], step) && run[i + 1] == After(args, run[i], step);
      StepRefines(args, run[i], step);
    }
  }
}
