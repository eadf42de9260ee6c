/** What CreateOrUpdate guarantees in every schedule with other writers. */
module ApplySafety {
  import opened Json
  import opened Outcomes
  import opened Errors
  import opened Objects
  import opened Cluster
  import opened Apply
  import MergePatch
  import Retry

  // ----- versions identify contents -----

  ghost predicate SeenOk(key: Key, s: State)
  {
    && (forall v :: v in s.seen ==> v != "" && VersionOf(s.seen[v]) == v)
    && (key in s.store ==> KnownVersion(s, s.store[key]) && KeyOf(s.store[key]) == key)
    && (forall i :: 0 <= i < |s.threads| && s.threads[i].Found? ==>
      KnownVersion(s, s.threads[i].actual) && key.name != "")
  }

  ghost predicate KnownVersion(s: State, o: Fields)
  {
    VersionOf(o) in s.seen && s.seen[VersionOf(o)] == o
  }

  /** How a step that stores nothing moves the threads: it starts one, or gives one a new state. */
  ghost predicate Moves(key: Key, s: State, t: State)
  {
    && t.store == s.store && t.seen == s.seen && t.writes == s.writes
    && (t.threads == s.threads || t.threads == s.threads + [Begun] ||
        exists i: nat :: i < |t.threads| && i < |s.threads| && t.threads == s.threads[i := t.threads[i]] &&
          (t.threads[i].Found? ==> key in s.store && key.name != "" && t.threads[i].actual == s.store[key]))
  }

  predicate StoresNothing(step: Step) { !step.OtherWriters? && !step.PatchOk? && !step.CreateOk? }

  lemma QuietStepMoves(args: Args, s: State, step: Step)
    requires Enabled(args, s, step) && StoresNothing(step)
    ensures Moves(KeyOf(args.orig), s, After(args, s, step))
  {
    var t := After(args, s, step);
    if t.threads != s.threads && !step.Launch? {
      var i := step.i;
      assert t.threads == s.threads[i := t.threads[i]];
    }
  }

  lemma StepKeepsSeen(args: Args, s: State, step: Step)
    requires SeenOk(KeyOf(args.orig), s) && Enabled(args, s, step)
    ensures SeenOk(KeyOf(args.orig), After(args, s, step))
  {
    var t := After(args, s, step);
    match step
    case OtherWriters(_) => SeenAfterOthers(args, s, step);
    case PatchOk(_, _) => SeenAfterPatch(args, s, step);
    case CreateOk(_, _) => SeenAfterCreate(args, s, step);
    case _ =>
      QuietStepMoves(args, s, step);
      SeenAfterMove(KeyOf(args.orig), s, t);
  }

  lemma SeenAfterOthers(args: Args, s: State, step: Step)
    requires SeenOk(KeyOf(args.orig), s) && step.OtherWriters? && Enabled(args, s, step)
    ensures SeenOk(KeyOf(args.orig), After(args, s, step))
  {
    SeenAfterStoring(KeyOf(args.orig), s, After(args, s, step));
  }

  lemma SeenAfterPatch(args: Args, s: State, step: Step)
    requires SeenOk(KeyOf(args.orig), s) && step.PatchOk? && Enabled(args, s, step)
    ensures SeenOk(KeyOf(args.orig), After(args, s, step))
  {
    SeenAfterStoring(KeyOf(args.orig), s, After(args, s, step));
  }

  lemma SeenAfterCreate(args: Args, s: State, step: Step)
    requires SeenOk(KeyOf(args.orig), s) && step.CreateOk? && Enabled(args, s, step)
    ensures SeenOk(KeyOf(args.orig), After(args, s, step))
  {
    SeenAfterStoring(KeyOf(args.orig), s, After(args, s, step));
  }

  lemma SeenAfterMove(key: Key, s: State, t: State)
    requires SeenOk(key, s) && Moves(key, s, t)
    ensures SeenOk(key, t)
  {
  }

  lemma SeenAfterStoring(key: Key, s: State, t: State)
    requires SeenOk(key, s) && t.seen == Record(key, s.seen, t.store)
    requires key in t.store ==>
      KeyOf(t.store[key]) == key
        && ((key in s.store && t.store[key] == s.store[key])
          || (VersionOf(t.store[key]) != "" && VersionOf(t.store[key]) !in s.seen))
    requires |t.threads| == |s.threads|
    requires forall i :: 0 <= i < |t.threads| && t.threads[i].Found? ==> t.threads[i] == s.threads[i]
    ensures SeenOk(key, t)
  {
    RecordKeeps(key, s, t.store);
  }

  /** Recording a store that changed the key only to a new version forgets nothing. */
  lemma RecordKeeps(key: Key, s: State, store: Store)
    requires SeenOk(key, s)
    requires key in store ==>
      KeyOf(store[key]) == key
        && ((key in s.store && store[key] == s.store[key])
          || (VersionOf(store[key]) != "" && VersionOf(store[key]) !in s.seen))
    ensures var seen := Record(key, s.seen, store);
      && (forall v :: v in seen ==> v != "" && VersionOf(seen[v]) == v)
      && (forall v :: v in s.seen ==> v in seen && seen[v] == s.seen[v])
      && (key in store ==> VersionOf(store[key]) in seen && seen[VersionOf(store[key])] == store[key])
  {
  }

  /** The sent object carries the version that was read, and so does the patched one. */
  lemma PatchNamesVersion(orig: Fields, actual: Fields, current: Fields)
    requires NameOf(orig) != "" && VersionOf(actual) != ""
    ensures VersionOf(Patched(current, Expected(orig, actual))) == VersionOf(actual)
  {
    var patch := Expected(orig, actual);
    var base := if "metadata" in current then current["metadata"] else Null;
    assert patch["metadata"] == Obj(Metadata(patch)) && Metadata(patch)["resourceVersion"] == Str(VersionOf(actual));
    assert Patched(current, patch)["metadata"] == MergePatch.Merge(base, patch["metadata"]);
    MergeSetsString(base, Metadata(patch), "resourceVersion", VersionOf(actual));
  }

  lemma MergeSetsString(target: Value, patch: Fields, k: string, v: string)
    requires k in patch && patch[k] == Str(v)
    ensures var merged := MergePatch.Merge(target, Obj(patch));
      merged.Obj? && k in merged.fields && merged.fields[k] == Str(v)
  {
  }

  // ----- at most one write, and what it was -----

  /** No lost update: a patch was applied to exactly the object its own attempt had read; a creation met an absent
      key. */
  ghost predicate WriteOk(args: Args, w: Write)
  {
    var key := KeyOf(args.orig);
    w.before == w.read &&
    match w.read
    case Some(x) => w.sent == Expected(args.orig, x)
      && (Keeps(key, Patched(x, w.sent), w.stored) || Patched(x, w.sent) == x == w.stored)
    case None => w.sent == args.orig && MayBeCreated(args.orig) && Keeps(key, args.orig, w.stored)
  }

  ghost predicate WritesOk(args: Args, s: State)
  {
    forall i :: 0 <= i < |s.writes| ==> WriteOk(args, s.writes[i])
  }

  /** A write ends the last attempt in success; whoever learns of that success learns what kind of write it was. */
  ghost predicate Tally(s: State)
  {
    && |s.writes| <= 1
    && (s.writes == [] ==>
      s.loop != Retry.Returned(None) && forall i :: 0 <= i < |s.threads| ==> !s.threads[i].SendingDone?)
    && (s.writes != [] ==>
          && s.updated == s.writes[0].read.Some?
          && !s.loop.Starting? && s.threads != []
          && var last := s.threads[|s.threads| - 1];
            last.SendingDone? || (last.Ended? && s.loop == Retry.Returned(None)))
    && (s.result.Some? ==>
          && s.loop.Returned?
          && (s.result.value.1.None? ==>
            s.loop.result.None? && s.writes != [] && s.result.value.0 == s.writes[0].read.Some?))
    && (forall i :: 0 <= i < |s.threads| ==>
          (s.threads[i].Found? ==> s.updated) && (s.threads[i].Missing? ==> !s.updated))
  }

  /** A read and a still matching version mean the very same object. */
  lemma PatchHitsWhatWasRead(args: Args, s: State, i: nat, stored: Fields)
    requires SeenOk(KeyOf(args.orig), s) && Enabled(args, s, PatchOk(i, stored))
    ensures s.store[KeyOf(args.orig)] == s.threads[i].actual
  {
    var key := KeyOf(args.orig);
    PatchNamesVersion(args.orig, s.threads[i].actual, s.store[key]);
  }

  ghost predicate AllButLastEnded(s: State)
  {
    && (forall i :: 0 <= i < |s.threads| - 1 ==> s.threads[i].Ended?)
    && (s.loop.Starting? && s.threads != [] ==> s.threads[|s.threads| - 1].Ended?)
  }

  lemma OutstandingThreads(s: State)
    requires Retry.OneOutstanding(Abs(s))
    ensures AllButLastEnded(s)
  {
  }

  lemma StepKeepsTally(args: Args, s: State, step: Step)
    requires Tally(s) && AllButLastEnded(s) && Enabled(args, s, step)
    ensures Tally(After(args, s, step))
  {
    match step
    case PatchOk(_, _) => TallyAfterWrite(args, s, step);
    case CreateOk(_, _) => TallyAfterWrite(args, s, step);
    case ReceiveDone(_) => TallyAfterReceive(args, s, step);
    case ReceiveErr(_) => TallyAfterReceive(args, s, step);
    case Launch => TallyAfterLoop(args, s, step);
    case SelectCtx => TallyAfterLoop(args, s, step);
    case Conclude => TallyAfterLoop(args, s, step);
    case OtherWriters(_) => TallyAfterLoop(args, s, step);
    case Expire(_) => TallyAfterLoop(args, s, step);
    case _ => TallyAfterAttempt(args, s, step);
  }

  lemma TallyAfterWrite(args: Args, s: State, step: Step)
    requires Tally(s) && AllButLastEnded(s) && Enabled(args, s, step)
    requires step.PatchOk? || step.CreateOk?
    ensures Tally(After(args, s, step))
  {
  }

  lemma TallyAfterReceive(args: Args, s: State, step: Step)
    requires Tally(s) && AllButLastEnded(s) && Enabled(args, s, step)
    requires step.ReceiveDone? || step.ReceiveErr?
    ensures Tally(After(args, s, step))
  {
  }

  lemma TallyAfterLoop(args: Args, s: State, step: Step)
    requires Tally(s) && AllButLastEnded(s) && Enabled(args, s, step)
    requires step.Launch? || step.SelectCtx? || step.Conclude? || step.OtherWriters? || step.Expire?
    ensures Tally(After(args, s, step))
  {
  }

  lemma TallyAfterAttempt(args: Args, s: State, step: Step)
    requires Tally(s) && AllButLastEnded(s) && Enabled(args, s, step)
    requires step.GetOk? || step.GetNotFound? || step.GetErr? || step.PatchErr? || step.CreateErr? || step.Panic?
    ensures Tally(After(args, s, step))
  {
  }

  lemma StepKeepsWritesOk(args: Args, s: State, step: Step)
    requires SeenOk(KeyOf(args.orig), s) && WritesOk(args, s) && Enabled(args, s, step)
    ensures WritesOk(args, After(args, s, step))
  {
    match step
    case PatchOk(i, stored) =>
      PatchHitsWhatWasRead(args, s, i, stored);
      var actual := s.threads[i].actual;
      assert After(args, s, step).writes ==
        s.writes + [Write(Some(actual), Cell(s, KeyOf(args.orig)), Expected(args.orig, actual), stored)];
    case CreateOk(i, stored) =>
      assert After(args, s, step).writes == s.writes + [Write(None, Cell(s, KeyOf(args.orig)), args.orig, stored)];
    case _ =>
      QuietWrites(args, s, step);
  }

  lemma QuietWrites(args: Args, s: State, step: Step)
    requires Enabled(args, s, step) && !step.PatchOk? && !step.CreateOk?
    ensures After(args, s, step).writes == s.writes
  {
  }

  lemma {:induction false} ReachableOk(args: Args, run: seq<State>, n: nat)
    requires IsRun(args, run) && n < |run|
    ensures SeenOk(KeyOf(args.orig), run[n]) && Tally(run[n]) && WritesOk(args, run[n])
  {
    if n == 0 {
    } else {
      ReachableOk(args, run, n - 1);
      assert Next(args, run[n - 1], run[n - 1 + 1]);
      var step :| Enabled(args, run[n - 1], step) && run[n] == After(args, run[n - 1], step);
      var abs := RunRefinesRetry(args, run);
      Retry.RetryIsSafe(Validators(args), false, abs, n - 1);
      StepKeepsSeen(args, run[n - 1], step);
      OutstandingThreads(run[n - 1]);
      StepKeepsTally(args, run[n - 1], step);
      StepKeepsWritesOk(args, run[n - 1], step);
    }
  }

  /** In every interleaving with other writers: the call never writes twice, and a nil error means exactly one write,
      which created an absent key (updated = false) or patched exactly the version its own attempt had read (updated =
      true). */
  lemma NilErrorMeansOneWrite(args: Args, run: seq<State>, n: nat)
    requires IsRun(args, run) && n < |run|
    ensures var s := run[n];
      && |s.writes| <= 1
      && (forall i :: 0 <= i < |s.writes| ==> WriteOk(args, s.writes[i]))
      && (forall updated :: s.result == Some((updated, None)) ==>
        |s.writes| == 1 && (updated <==> s.writes[0].read.Some?))
  {
    ReachableOk(args, run, n);
  }

  lemma Extend(args: Args, run: seq<State>, step: Step) returns (longer: seq<State>)
    requires IsRun(args, run) && Enabled(args, run[|run| - 1], step)
    ensures IsRun(args, longer) && |longer| == |run| + 1 && longer[|run|] == After(args, run[|run| - 1], step)
    ensures longer[..|run|] == run && longer[0] == run[0]
  {
    var s := run[|run| - 1];
    longer := run + [After(args, s, step)];
    assert Next(args, s, After(args, s, step));
    forall i | 0 <= i < |longer| - 1 ensures Next(args, longer[i], longer[i + 1]) {
      if i < |run| - 1 { assert Next(args, run[i], run[i + 1]); }
    }
  }

  ghost function Starting(args: Args, store: Store): State
  {
    State(store, Record(KeyOf(args.orig), map[], store), [], Retry.Starting, None, None, [], false, None, [])
  }

  /** Whatever is in the store, other writers may remove the object, so that the first attempt finds none. */
  lemma FirstAttemptFindsNothing(args: Args, store: Store) returns (run: seq<State>)
    requires NameOf(args.orig) != "" && KeptAt(KeyOf(args.orig), store)
    ensures IsRun(args, run) && run[0].store == store
    ensures run[|run| - 1] == Starting(args, store).(store := store - {KeyOf(args.orig)}, threads := [Missing],
                                                     loop := Retry.Waiting, history := [Retry.Started(0)])
  {
    run := [Starting(args, store)];
    run := Extend(args, run, OtherWriters(store - {KeyOf(args.orig)}));
    run := Extend(args, run, Launch);
    run := Extend(args, run, GetNotFound(0));
  }

  /** The first attempt creates the object. */
  lemma FirstAttemptCreates(args: Args, store: Store, stored: Fields) returns (run: seq<State>)
    requires NameOf(args.orig) != "" && MayBeCreated(args.orig) && KeptAt(KeyOf(args.orig), store)
    requires Stores(KeyOf(args.orig), args.orig, stored, Record(KeyOf(args.orig), map[], store))
    ensures IsRun(args, run) && run[0].store == store
    ensures var s := run[|run| - 1];
      s.threads == [SendingDone] && s.loop.Waiting? && s.ctx.None? && s.result.None? && !s.updated
      && s.writes == [Write(None, None, args.orig, stored)] && s.store == store[KeyOf(args.orig) := stored]
  {
    run := FirstAttemptFindsNothing(args, store);
    run := Extend(args, run, CreateOk(0, stored));
    assert (store - {KeyOf(args.orig)})[KeyOf(args.orig) := stored] == store[KeyOf(args.orig) := stored];
  }

  /** Only a nil error says what happened: a creation that is noticed only after the deadline is reported as a
      failure. */
  lemma LateSuccessIsReportedAsFailure(args: Args, store: Store, stored: Fields) returns (run: seq<State>)
    requires NameOf(args.orig) != "" && MayBeCreated(args.orig) && KeptAt(KeyOf(args.orig), store)
    requires Stores(KeyOf(args.orig), args.orig, stored, Record(KeyOf(args.orig), map[], store))
    ensures IsRun(args, run) && run[0].store == store
    ensures var s := run[|run| - 1];
      s.result == Some((false, Some(LateSuccess))) && s.writes == [Write(None, None, args.orig, stored)]
      && s.store == store[KeyOf(args.orig) := stored]
  {
    run := FirstAttemptCreates(args, store, stored);
    run := Extend(args, run, ReceiveDone(0));
    run := Extend(args, run, Expire(ContextDone(true)));
    run := Extend(args, run, Conclude);
  }
}
