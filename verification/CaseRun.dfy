/** A run of a test case over several clients, which may talk to the same cluster: specification functions. */
module CaseRun {
  import opened Json
  import opened Outcomes
  import opened Errors
  import opened Objects
  import opened Cluster
  import opened Testing
  import opened ReportTree

  /** Clusters by number, and the cluster each client talks to. */
  datatype Fleet = Fleet(envs: nat -> Env, clusterOf: nat -> nat)

  type Worlds = nat -> World

  function Put(ws: Worlds, k: nat, w: World): Worlds
  {
    (j: nat) => if j == k then w else ws(j)
  }

  /** What running a step does; see the module Steps. */
  datatype StepOutcome = StepOutcome(worlds: Worlds, errs: seq<Error>, cleanups: seq<Cleanup>)

  /** A loaded step: its client as of its lazy start, and its run in the worlds it finds. */
  datatype StepSpec = StepSpec(name: string, kubeconfig: string, context: string, lazy: bool,
                               client: Result<nat, Error>, asserts: nat, errors: nat, run: Worlds -> StepOutcome)

  /** A loaded case; `polls` is how many more times a deletion is checked before its timeout. */
  datatype CaseSpec = CaseSpec(ns: string, userSupplied: bool, skipDelete: bool, polls: nat, fleet: Fleet,
                               defaultClient: Result<nat, Error>, newClient: (string, string) -> Result<nat, Error>,
                               steps: seq<StepSpec>)

  const NAMESPACE_GVK := Gvk("v1", "Namespace")

  function NsKey(cs: CaseSpec): Key { Key(NAMESPACE_GVK, "", cs.ns) }

  /** Whether a key addresses the test's namespace; the client ignores the namespace of a cluster-scoped key. */
  predicate Touches(cs: CaseSpec, key: Key) { key.(namespace := "") == NsKey(cs) }

  function NsObject(cs: CaseSpec): Fields
  {
    map["apiVersion" := Str("v1"), "kind" := Str("Namespace"), "metadata" := Obj(map["name" := Str(cs.ns)])]
  }

  // ----- calls through a client -----

  function CallGet(f: Fleet, ws: Worlds, c: nat, key: Key): (Worlds, Result<Fields, Error>)
  {
    var k := f.clusterOf(c);
    var r := DoGet(f.envs(k), ws(k), c, key);
    (Put(ws, k, r.0), r.1)
  }

  function CallCreate(f: Fleet, ws: Worlds, c: nat, key: Key, o: Fields): (Worlds, Option<Error>)
  {
    var k := f.clusterOf(c);
    var r := DoCreate(f.envs(k), ws(k), c, key, o);
    (Put(ws, k, r.0), r.1)
  }

  function CallDelete(f: Fleet, ws: Worlds, c: nat, key: Key): (Worlds, Option<Error>)
  {
    var k := f.clusterOf(c);
    var r := DoDelete(f.envs(k), ws(k), c, key);
    (Put(ws, k, r.0), r.1)
  }

  // ----- the namespace -----

  datatype Existed = Existed(worlds: Worlds, existed: bool, err: Option<Error>)

  /** What the outcome of creating the namespace says about whether it was there before. */
  function DidExist(cs: CaseSpec, ws: Worlds, err: Option<Error>, c: nat): Existed
  {
    if err.Some? && Has(err.value, AlreadyExists) then Existed(ws, true, None)
    else if err.Some? && Has(err.value, Forbidden) then
      var got := CallGet(cs.fleet, ws, c, NsKey(cs));
      if got.1.Err? && Has(got.1.error, NotFound) then Existed(got.0, false, Some(Wrapped(err.value)))
      else Existed(got.0, true, None)
    else Existed(ws, false, err)
  }

  /** `reached` lists the clients through which the namespace was made available. */
  datatype NsCreated = NsCreated(worlds: Worlds, cleanups: seq<Cleanup>, reached: seq<nat>, err: Option<Error>)

  /** Creates the namespace through a client and registers its deletion. */
  function CreateNs(cs: CaseSpec, ws: Worlds, c: nat): NsCreated
  {
    var created := CallCreate(cs.fleet, ws, c, NsKey(cs), NsObject(cs));
    var d := DidExist(cs, created.0, created.1, c);
    if d.err.Some? then NsCreated(d.worlds, [], [], Some(Wrapped(d.err.value)))
    else NsCreated(d.worlds, if cs.skipDelete then [] else [DeleteNamespace(c, d.existed)], [c], None)
  }

  /** Polls, once at least, until the namespace is not found. */
  function PollGone(cs: CaseSpec, ws: Worlds, c: nat, polls: nat): (Worlds, Option<Error>)
  {
    var got := CallGet(cs.fleet, ws, c, NsKey(cs));
    if got.1.Err? && Has(got.1.error, NotFound) then (got.0, None)
    else if polls == 0 then (got.0, Some(Wrapped(ContextDone(true))))
    else PollGone(cs, got.0, c, polls - 1)
  }

  function DeleteNs(cs: CaseSpec, ws: Worlds, c: nat): (Worlds, Option<Error>)
  {
    var deleted := CallDelete(cs.fleet, ws, c, NsKey(cs));
    if deleted.1.Some? && !Has(deleted.1.value, NotFound) then (deleted.0, Some(Wrapped(deleted.1.value)))
    else PollGone(cs, deleted.0, c, cs.polls)
  }

  /** Whether the namespace is deleted when the clean-up runs. */
  predicate Effective(cs: CaseSpec, cleanup: Cleanup)
  {
    cleanup.DeleteNamespace? && !(cs.userSupplied && cleanup.existed)
  }

  /** One clean-up: the worlds after it and whether it fails the test. */
  function CleanUp(cs: CaseSpec, ws: Worlds, cleanup: Cleanup): (Worlds, bool)
  {
    match cleanup
    case DeleteObject(c, key) =>
      var deleted := CallDelete(cs.fleet, ws, c, key);
      (deleted.0, deleted.1.Some? && !Has(deleted.1.value, NotFound))
    case DeleteNamespace(c, _) =>
      if !Effective(cs, cleanup) then (ws, false)
      else
        var deleted := DeleteNs(cs, ws, c);
        (deleted.0, deleted.1.Some?)
  }

  /** All clean-ups, the last registered first. */
  function CleanUpAll(cs: CaseSpec, ws: Worlds, cleanups: seq<Cleanup>): (Worlds, bool)
  {
    if cleanups == [] then (ws, false)
    else
      var first := CleanUp(cs, ws, cleanups[|cleanups| - 1]);
      var rest := CleanUpAll(cs, first.0, cleanups[..|cleanups| - 1]);
      (rest.0, first.1 || rest.1)
  }

  // ----- eager clients -----

  /** One more step: a client for its kubeconfig, unless there is one already or the step is lazy. */
  function EagerNext(cs: CaseSpec, clients: map<string, nat>, step: StepSpec): Result<map<string, nat>, Error>
  {
    if step.kubeconfig in clients || step.lazy then Ok(clients)
    else match cs.newClient(step.kubeconfig, step.context)
      case Err(e) => Err(e)
      case Ok(c) => Ok(clients[step.kubeconfig := c])
  }

  function EagerUpTo(cs: CaseSpec, i: nat): Result<map<string, nat>, Error>
    requires i <= |cs.steps|
  {
    if i == 0 then
      match cs.defaultClient
      case Err(e) => Err(e)
      case Ok(c) => Ok(map["" := c])
    else match EagerUpTo(cs, i - 1)
      case Err(e) => Err(e)
      case Ok(clients) => EagerNext(cs, clients, cs.steps[i - 1])
  }

  function EagerClients(cs: CaseSpec): Result<map<string, nat>, Error> { EagerUpTo(cs, |cs.steps|) }

  // ----- the run -----

  /** A run so far; `stages` tells for each clean-up whether setup (0) or which step (from 1) registered it. */
  datatype Progress = Progress(worlds: Worlds, cleanups: seq<Cleanup>, stages: seq<nat>, reached: seq<nat>,
    records: seq<Entry>, stopped: bool)

  function Repeat(n: nat, stage: nat): (r: seq<nat>)
    ensures |r| == n
  {
    seq(n, i => stage)
  }

  /** Creating the namespace through some clients, up to the first error. */
  function SetupAll(cs: CaseSpec, ws: Worlds, clients: seq<nat>): NsCreated
  {
    if clients == [] then NsCreated(ws, [], [], None)
    else SetupNext(cs, SetupAll(cs, ws, clients[..|clients| - 1]), clients[|clients| - 1])
  }

  function SetupNext(cs: CaseSpec, before: NsCreated, c: nat): NsCreated
  {
    if before.err.Some? then before
    else
      var next := CreateNs(cs, before.worlds, c);
      NsCreated(next.worlds, before.cleanups + next.cleanups, before.reached + next.reached, next.err)
  }

  function InOrder(clients: map<string, nat>, order: seq<string>): (r: seq<nat>)
    requires forall path :: path in order ==> path in clients
    ensures |r| == |order|
  {
    seq(|order|, i requires 0 <= i < |order| => clients[order[i]])
  }

  /** The order in which setup meets the eager clients, if it can have them. */
  ghost predicate Orders(cs: CaseSpec, order: seq<string>)
  {
    EagerClients(cs).Ok? ==>
      && (forall path :: path in order <==> path in EagerClients(cs).value)
      && (forall i, j :: 0 <= i < j < |order| ==> order[i] != order[j])
  }

  function AfterSetup(cs: CaseSpec, ws: Worlds, order: seq<string>): Progress
    requires Orders(cs, order)
  {
    match EagerClients(cs)
    case Err(e) => Progress(ws, [], [], [], [Entry("setup", true, 0)], true)
    case Ok(clients) =>
      var s := SetupAll(cs, ws, InOrder(clients, order));
      Progress(s.worlds, s.cleanups, Repeat(|s.cleanups|, 0), s.reached, [Entry("setup", s.err.Some?, 0)], s.err.Some?)
  }

  /** The lazy start of a step. */
  function LazyStart(cs: CaseSpec, ws: Worlds, step: StepSpec): NsCreated
  {
    if !step.lazy then NsCreated(ws, [], [], None)
    else match step.client
      case Err(e) => NsCreated(ws, [], [], Some(Wrapped(e)))
      case Ok(c) => CreateNs(cs, ws, c)
  }

  function StepNext(cs: CaseSpec, p: Progress, step: StepSpec, stage: nat): Progress
  {
    var start := LazyStart(cs, p.worlds, step);
    var o := if start.err.None? then step.run(start.worlds) else StepOutcome(start.worlds, [start.err.value], []);
    var registered := start.cleanups + o.cleanups;
    Progress(o.worlds, p.cleanups + registered, p.stages + Repeat(|registered|, stage), p.reached + start.reached,
             p.records + [Entry(step.name, o.errs != [], step.asserts + step.errors)], o.errs != [])
  }

  /** The i-th step, unless the run has stopped. */
  function GoOn(cs: CaseSpec, p: Progress, i: nat): Progress
  {
    if p.stopped || i >= |cs.steps| then p else StepNext(cs, p, cs.steps[i], i + 1)
  }

  function RunUpTo(cs: CaseSpec, p: Progress, i: nat): Progress
  {
    if i == 0 then p else GoOn(cs, RunUpTo(cs, p, i - 1), i - 1)
  }

  /** What holds at the start, and is kept by every step that the run gets to, holds at the end. */
  lemma {:induction false} RunKeeps(cs: CaseSpec, p: Progress, inv: (Progress, nat) -> bool, n: nat)
    requires inv(p, 0)
    requires forall i: nat :: i < n && inv(RunUpTo(cs, p, i), i) ==> inv(GoOn(cs, RunUpTo(cs, p, i), i), i + 1)
    ensures inv(RunUpTo(cs, p, n), n)
  {
    if n == 0 {
    } else {
      RunKeeps(cs, p, inv, n - 1);
    }
  }

  /** The whole run, before its clean-ups. */
  function Ran(cs: CaseSpec, ws: Worlds, order: seq<string>): Progress
    requires Orders(cs, order)
  {
    RunUpTo(cs, AfterSetup(cs, ws, order), |cs.steps|)
  }
}
