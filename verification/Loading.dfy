/** What a step consists of after its files were loaded: specification of Step.LoadYAML and its consequences. */
module Loading {
  import opened Json
  import opened Outcomes
  import opened Errors
  import opened Objects
  import opened FileName
  import Deletion

  /** The TestStep fields that loading and running use. */
  datatype TestStep = TestStep(index: nat, name: string, apply: seq<string>, asserts: seq<string>, errors: seq<string>,
                               delete: seq<Deletion.Ref>, commands: nat, kubeconfig: string, context: string,
                               kubeconfigLoading: string)

  /** The TestAssert fields that loading and running use; its commands and expressions have a joint, abstract
      outcome. */
  datatype TestAssert = TestAssert(id: nat, timeout: int, collectors: nat)

  /** The typed object a document was decoded into, when it is one of kuttl's own. */
  datatype Body =
    | Untyped
    | StepBody(step: TestStep)
    | AssertBody(assertion: TestAssert)
    | FileBody(selector: nat)

  datatype Object = Object(content: Fields, body: Body)

  function ObjectKind(o: Object): string { StringAt(o.content, "kind") }

  /** Everything loading takes from outside: decoded files, objects behind a TestStep's paths, prepared expression
      programs, and whether a test run selector matches (None when it is malformed). */
  datatype Library = Library(
    load: string -> Result<seq<Object>, Error>,
    fromPath: string -> Result<seq<Object>, Error>,
    programs: TestAssert -> Result<nat, Error>,
    selects: nat -> Option<bool>,
    expandKubeconfig: string -> string)

  datatype StepState = StepState(
    index: nat, name: string,
    asserts: seq<Object>, apply: seq<Object>, errors: seq<Object>,
    step: Option<TestStep>, assertion: Option<TestAssert>, programs: Option<nat>,
    kubeconfig: string, context: string, kubeconfigLoading: string)

  function Fresh(index: nat): StepState
  {
    StepState(index, "", [], [], [], None, None, None, "", "", "")
  }

  // ----- specification functions; lists are consumed from the front, so functions recurse on the last element -----

  /** Objects of a file without its TestFile, and whether that TestFile excludes the file. */
  datatype FileObjects = FileObjects(skip: bool, objects: seq<Object>, seenTestFile: bool)

  function Sift(lib: Library, loaded: seq<Object>): Result<FileObjects, Error>
  {
    if loaded == [] then Ok(FileObjects(false, [], false))
    else match Sift(lib, loaded[..|loaded| - 1])
      case Err(e) => Err(e)
      case Ok(f) =>
        var o := loaded[|loaded| - 1];
        if !o.body.FileBody? then Ok(f.(objects := f.objects + [o]))
        else if f.seenTestFile then Err(Invalid)
        else match lib.selects(o.body.selector)
          case None => Err(Wrapped(Invalid))
          case Some(matches) => Ok(f.(seenTestFile := true, skip := f.skip || !matches))
  }

  function LoadOrSkip(lib: Library, info: Info): Result<FileObjects, Error>
  {
    match lib.load(info.fullName)
    case Err(e) => Err(Invalid)
    case Ok(loaded) => Sift(lib, loaded)
  }

  function Populate(s: StepState, info: Info, objects: seq<Object>): Result<StepState, Error>
  {
    match info.fileType
    case TypeAssert => Ok(s.(asserts := s.asserts + objects))
    case TypeError => Ok(s.(errors := s.errors + objects))
    case TypeApply => Ok(s.(apply := s.apply + objects, name := if s.name == "" then info.stepName else s.name))
    case TypeUnknown => Err(Invalid)
  }

  /** Takes the TestAsserts out of `os`; the last one stays in force, with its programs. */
  function TakeAsserts(lib: Library, s: StepState, os: seq<Object>): Result<(StepState, seq<Object>), Error>
  {
    if os == [] then Ok((s, []))
    else match TakeAsserts(lib, s, os[..|os| - 1])
      case Err(e) => Err(e)
      case Ok(t) =>
        var o := os[|os| - 1];
        if ObjectKind(o) != "TestAssert" then Ok((t.0, t.1 + [o]))
        else if !o.body.AssertBody? then Err(Invalid)
        else match lib.programs(o.body.assertion)
          case Err(e) => Err(Wrapped(e))
          case Ok(p) => Ok((t.0.(assertion := Some(o.body.assertion), programs := Some(p)), t.1))
  }

  function Adopt(lib: Library, s: StepState, step: TestStep): Result<StepState, Error>
  {
    var adopted := s.(
      step := Some(step.(index := s.index)),
      name := if step.name != "" then step.name else s.name,
      kubeconfig := if step.kubeconfig != "" then lib.expandKubeconfig(step.kubeconfig) else s.kubeconfig,
      context := step.context,
      kubeconfigLoading := step.kubeconfigLoading);
    if step.kubeconfigLoading in {"", "eager", "lazy"} then Ok(adopted) else Err(Invalid)
  }

  /** Takes the TestStep out of `os`; a second one for the same step is an error. */
  function TakeStep(lib: Library, s: StepState, os: seq<Object>): Result<(StepState, seq<Object>), Error>
  {
    if os == [] then Ok((s, []))
    else match TakeStep(lib, s, os[..|os| - 1])
      case Err(e) => Err(e)
      case Ok(t) =>
        var o := os[|os| - 1];
        if ObjectKind(o) != "TestStep" then Ok((t.0, t.1 + [o]))
        else if !o.body.StepBody? || t.0.step.Some? then Err(Invalid)
        else match Adopt(lib, t.0, o.body.step)
          case Err(e) => Err(e)
          case Ok(adopted) => Ok((adopted, t.1))
  }

  function Expand(lib: Library, paths: seq<string>): Result<seq<Object>, Error>
  {
    if paths == [] then Ok([])
    else match Expand(lib, paths[..|paths| - 1])
      case Err(e) => Err(e)
      case Ok(os) =>
        match lib.fromPath(paths[|paths| - 1])
        case Err(e) => Err(Wrapped(e))
        case Ok(more) => Ok(os + more)
  }

  /** The objects behind the TestStep's paths are added on every call, not only when the TestStep is met. */
  function AddStepPaths(lib: Library, s: StepState): Result<StepState, Error>
  {
    match s.step
    case None => Ok(s)
    case Some(step) =>
      match Expand(lib, step.apply)
      case Err(e) => Err(e)
      case Ok(apply) =>
        match Expand(lib, step.asserts)
        case Err(e) => Err(e)
        case Ok(asserts) =>
          match Expand(lib, step.errors)
          case Err(e) => Err(e)
          case Ok(errors) =>
            Ok(s.(apply := s.apply + apply, asserts := s.asserts + asserts, errors := s.errors + errors))
  }

  function Sorted(lib: Library, s: StepState): Result<StepState, Error>
  {
    match TakeAsserts(lib, s, s.asserts)
    case Err(e) => Err(e)
    case Ok(a) =>
      match TakeStep(lib, a.0, s.apply)
      case Err(e) => Err(e)
      case Ok(t) => AddStepPaths(lib, t.0.(asserts := a.1, apply := t.1))
  }

  function LoadFile(lib: Library, s: StepState, info: Info): Result<StepState, Error>
  {
    match LoadOrSkip(lib, info)
    case Err(e) => Err(e)
    case Ok(f) =>
      if f.skip then Ok(s)
      else match Populate(s, info, f.objects)
        case Err(e) => Err(Invalid)
        case Ok(p) => Sorted(lib, p)
  }

  function LoadFiles(lib: Library, s: StepState, infos: seq<Info>): Result<StepState, Error>
  {
    if infos == [] then Ok(s)
    else match LoadFiles(lib, s, infos[..|infos| - 1])
      case Err(e) => Err(e)
      case Ok(t) => LoadFile(lib, t, infos[|infos| - 1])
  }

  // ----- what a sequence of files amounts to -----

  /** The objects a file contributes: none when it is skipped. */
  function Own(lib: Library, info: Info): seq<Object>
  {
    match LoadOrSkip(lib, info)
    case Err(_) => []
    case Ok(f) => if f.skip then [] else f.objects
  }

  predicate Skipped(lib: Library, info: Info)
  {
    LoadOrSkip(lib, info).Ok? && LoadOrSkip(lib, info).value.skip
  }

  function Without(os: seq<Object>, kind: string): seq<Object>
  {
    if os == [] then []
    else Without(os[..|os| - 1], kind) + (if ObjectKind(os[|os| - 1]) != kind then [os[|os| - 1]] else [])
  }

  function LastOf(os: seq<Object>, kind: string): Option<Object>
  {
    if os == [] then None
    else if ObjectKind(os[|os| - 1]) == kind then Some(os[|os| - 1])
    else LastOf(os[..|os| - 1], kind)
  }

  function OwnOfType(lib: Library, info: Info, t: FileType): seq<Object>
  {
    if info.fileType == t then Own(lib, info) else []
  }

  /** The TestStep met so far, if any. */
  function StepMet(lib: Library, infos: seq<Info>): Option<TestStep>
  {
    if infos == [] then None
    else
      var before := StepMet(lib, infos[..|infos| - 1]);
      var here := LastOf(OwnOfType(lib, infos[|infos| - 1], TypeApply), "TestStep");
      if before.Some? then before
      else if here.Some? && here.value.body.StepBody? then Some(here.value.body.step)
      else None
  }

  /** The objects behind a list of paths, when all of them can be read. */
  function Behind(lib: Library, paths: seq<string>): seq<Object>
  {
    var os := Expand(lib, paths);
    if os.Ok? then os.value else []
  }

  datatype PathList = ApplyPaths | AssertPaths | ErrorPaths

  function PathsOf(step: TestStep, which: PathList): seq<string>
  {
    match which
    case ApplyPaths => step.apply
    case AssertPaths => step.asserts
    case ErrorPaths => step.errors
  }

  /** What the step's paths add at the last file: everything again, once the TestStep has been met. */
  function Again(lib: Library, infos: seq<Info>, which: PathList): seq<Object>
    requires infos != []
  {
    var step := StepMet(lib, infos);
    if Skipped(lib, infos[|infos| - 1]) || step.None? then [] else Behind(lib, PathsOf(step.value, which))
  }

  function ApplyOf(lib: Library, infos: seq<Info>): seq<Object>
  {
    if infos == [] then []
    else ApplyOf(lib, infos[..|infos| - 1])
         + Without(OwnOfType(lib, infos[|infos| - 1], TypeApply), "TestStep")
         + Again(lib, infos, ApplyPaths)
  }

  function AssertsOf(lib: Library, infos: seq<Info>): seq<Object>
  {
    if infos == [] then []
    else AssertsOf(lib, infos[..|infos| - 1])
         + Without(OwnOfType(lib, infos[|infos| - 1], TypeAssert), "TestAssert")
         + Again(lib, infos, AssertPaths)
  }

  function ErrorsOf(lib: Library, infos: seq<Info>): seq<Object>
  {
    if infos == [] then []
    else ErrorsOf(lib, infos[..|infos| - 1]) + OwnOfType(lib, infos[|infos| - 1], TypeError)
         + Again(lib, infos, ErrorPaths)
  }

  /** The TestAssert in force: the last one in any assert file. */
  function AssertMet(lib: Library, infos: seq<Info>): Option<TestAssert>
  {
    if infos == [] then None
    else
      var here := LastOf(OwnOfType(lib, infos[|infos| - 1], TypeAssert), "TestAssert");
      if here.Some? && here.value.body.AssertBody? then Some(here.value.body.assertion)
      else AssertMet(lib, infos[..|infos| - 1])
  }

  /** The step name in the first file name of an apply file that has one. */
  function FileStepName(lib: Library, infos: seq<Info>): string
  {
    if infos == [] then ""
    else
      var info, before := infos[|infos| - 1], FileStepName(lib, infos[..|infos| - 1]);
      if before == "" && info.fileType == TypeApply && !Skipped(lib, info) then info.stepName else before
  }

  /** The paths of a TestStep hold neither TestSteps nor TestAsserts. */
  ghost predicate PlainPaths(lib: Library, step: TestStep)
  {
    && (forall o :: o in Behind(lib, step.apply) ==> ObjectKind(o) != "TestStep")
    && (forall o :: o in Behind(lib, step.asserts) ==> ObjectKind(o) != "TestAssert")
  }

  ghost predicate Plain(lib: Library, infos: seq<Info>)
  {
    forall i, o :: 0 <= i < |infos| && o in Own(lib, infos[i]) && o.body.StepBody? ==> PlainPaths(lib, o.body.step)
  }

  // ----- the loaded step is what its files amount to -----

  lemma {:induction false} WithoutAppend(xs: seq<Object>, ys: seq<Object>, kind: string)
    ensures Without(xs + ys, kind) == Without(xs, kind) + Without(ys, kind)
    ensures LastOf(xs + ys, kind) == if LastOf(ys, kind).Some? then LastOf(ys, kind) else LastOf(xs, kind)
  {
    if ys == [] {
      assert xs + ys == xs;
    } else {
      assert (xs + ys)[..|xs + ys| - 1] == xs + ys[..|ys| - 1];
      WithoutAppend(xs, ys[..|ys| - 1], kind);
    }
  }

  lemma {:induction false} WithoutMembers(os: seq<Object>, kind: string)
    ensures forall o :: o in Without(os, kind) <==> o in os && ObjectKind(o) != kind
  {
    if os == [] {
    } else {
      WithoutMembers(os[..|os| - 1], kind);
    }
  }

  lemma {:induction false} WithoutNone(os: seq<Object>, kind: string)
    requires forall o :: o in os ==> ObjectKind(o) != kind
    ensures Without(os, kind) == os && LastOf(os, kind).None?
  {
    if os == [] {
    } else {
      WithoutNone(os[..|os| - 1], kind);
      assert os == os[..|os| - 1] + [os[|os| - 1]];
    }
  }

  lemma {:induction false} LastOfIsMember(os: seq<Object>, kind: string)
    requires LastOf(os, kind).Some?
    ensures LastOf(os, kind).value in os && ObjectKind(LastOf(os, kind).value) == kind
  {
    if ObjectKind(os[|os| - 1]) != kind { LastOfIsMember(os[..|os| - 1], kind); }
  }

  lemma {:induction false} TakeAssertsIs(lib: Library, s: StepState, os: seq<Object>)
    requires TakeAsserts(lib, s, os).Ok?
    ensures var t := TakeAsserts(lib, s, os).value;
      var last := LastOf(os, "TestAssert");
      && t.1 == Without(os, "TestAssert")
      && (last.None? ==> t.0 == s)
      && (last.Some? ==> last.value.body.AssertBody? && lib.programs(last.value.body.assertion).Ok?)
      && (last.Some? ==>
        t.0 == s.(assertion := Some(last.value.body.assertion),
          programs := Some(lib.programs(last.value.body.assertion).value)))
  {
    if os == [] {
    } else {
      TakeAssertsIs(lib, s, os[..|os| - 1]);
    }
  }

  lemma {:induction false} TakeStepIs(lib: Library, s: StepState, os: seq<Object>)
    requires TakeStep(lib, s, os).Ok?
    ensures var t := TakeStep(lib, s, os).value;
      var last := LastOf(os, "TestStep");
      && t.1 == Without(os, "TestStep")
      && (last.None? ==> t.0 == s)
      && (last.Some? ==> last.value.body.StepBody? && s.step.None? && Adopt(lib, s, last.value.body.step) == Ok(t.0))
  {
    if os == [] {
    } else {
      TakeStepIs(lib, s, os[..|os| - 1]);
    }
  }

  /** The step's state after some files, in terms of the files alone. */
  ghost predicate AmountsTo(lib: Library, index: nat, infos: seq<Info>, s: StepState)
  {
    && s.index == index
    && s.apply == ApplyOf(lib, infos) && s.asserts == AssertsOf(lib, infos) && s.errors == ErrorsOf(lib, infos)
    && s.assertion == AssertMet(lib, infos)
    && (s.assertion.Some? ==>
      lib.programs(s.assertion.value).Ok? && s.programs == Some(lib.programs(s.assertion.value).value))
    && s.step == (if StepMet(lib, infos).Some? then Some(StepMet(lib, infos).value.(index := index)) else None)
  }

  /** The step's name is that of its TestStep, or else that of its files; its client is the one its TestStep asks
      for. */
  ghost predicate IdentifiedBy(lib: Library, infos: seq<Info>, s: StepState)
  {
    var step := StepMet(lib, infos);
    && s.name == (if step.Some? && step.value.name != "" then step.value.name else FileStepName(lib, infos))
    && s.kubeconfig ==
      (if step.Some? && step.value.kubeconfig != "" then lib.expandKubeconfig(step.value.kubeconfig) else "")
    && s.context == (if step.Some? then step.value.context else "")
    && s.kubeconfigLoading == (if step.Some? then step.value.kubeconfigLoading else "")
    && s.kubeconfigLoading in {"", "eager", "lazy"}
  }

  ghost predicate NoControlObjects(s: StepState)
  {
    (forall o :: o in s.apply ==> ObjectKind(o) != "TestStep")
      && (forall o :: o in s.asserts ==> ObjectKind(o) != "TestAssert")
  }

  lemma {:induction false} StepMetIsPlain(lib: Library, infos: seq<Info>)
    requires Plain(lib, infos) && StepMet(lib, infos).Some?
    ensures PlainPaths(lib, StepMet(lib, infos).value)
  {
    var front, info := infos[..|infos| - 1], infos[|infos| - 1];
    if StepMet(lib, front).Some? {
      StepMetIsPlain(lib, front);
    } else {
      var own := OwnOfType(lib, info, TypeApply);
      LastOfIsMember(own, "TestStep");
      assert LastOf(own, "TestStep").value in Own(lib, infos[|infos| - 1]);
    }
  }

  /** Loading any sequence of files: the apply list is the plain objects in file order, with everything behind the
      TestStep's paths repeated after each file that is not skipped from the TestStep's own file on; the TestAssert in
      force is the last one, with its programs; a skipped file changes nothing. */
  lemma {:induction false} LoadedStep(lib: Library, index: nat, infos: seq<Info>)
    requires Plain(lib, infos) && LoadFiles(lib, Fresh(index), infos).Ok?
    ensures AmountsTo(lib, index, infos, LoadFiles(lib, Fresh(index), infos).value)
    ensures IdentifiedBy(lib, infos, LoadFiles(lib, Fresh(index), infos).value)
    ensures NoControlObjects(LoadFiles(lib, Fresh(index), infos).value)
  {
    if infos == [] {
      NothingLoaded(lib, index);
    } else {
      var front, info := infos[..|infos| - 1], infos[|infos| - 1];
      assert front + [info] == infos;
      LoadFilesNext(lib, Fresh(index), front, info);
      LoadedStep(lib, index, front);
      if StepMet(lib, infos).Some? { StepMetIsPlain(lib, infos); }
      LoadedNext(lib, index, front, info, LoadFiles(lib, Fresh(index), front).value);
    }
  }

  lemma NothingLoaded(lib: Library, index: nat)
    ensures LoadFiles(lib, Fresh(index), []) == Ok(Fresh(index))
    ensures AmountsTo(lib, index, [], Fresh(index)) && IdentifiedBy(lib, [], Fresh(index))
    ensures NoControlObjects(Fresh(index))
  {
  }

  lemma LoadFilesNext(lib: Library, s: StepState, front: seq<Info>, info: Info)
    ensures LoadFiles(lib, s, front + [info]).Ok? ==>
      LoadFiles(lib, s, front).Ok?
        && LoadFiles(lib, s, front + [info]) == LoadFile(lib, LoadFiles(lib, s, front).value, info)
  {
    assert (front + [info])[..|front|] == front;
  }

  /** One more file. */
  lemma LoadedNext(lib: Library, index: nat, front: seq<Info>, info: Info, s: StepState)
    requires AmountsTo(lib, index, front, s) && IdentifiedBy(lib, front, s) && NoControlObjects(s)
    requires LoadFile(lib, s, info).Ok?
    requires StepMet(lib, front + [info]).Some? ==> PlainPaths(lib, StepMet(lib, front + [info]).value)
    ensures AmountsTo(lib, index, front + [info], LoadFile(lib, s, info).value)
    ensures IdentifiedBy(lib, front + [info], LoadFile(lib, s, info).value)
    ensures NoControlObjects(LoadFile(lib, s, info).value)
  {
    if Skipped(lib, info) {
      SkippedAddsNothing(lib, index, front, info, s);
    } else {
      var p := FileSweeps(lib, s, info);
      var q := LoadFile(lib, s, info).value;
      SweptAmountsTo(lib, index, front, info, s, p, q);
      SweptIsIdentified(lib, index, front, info, s, p, q);
      SweptHasNoControl(lib, p, q);
    }
  }

  lemma SkippedAddsNothing(lib: Library, index: nat, front: seq<Info>, info: Info, s: StepState)
    requires AmountsTo(lib, index, front, s) && IdentifiedBy(lib, front, s) && Skipped(lib, info)
    ensures AmountsTo(lib, index, front + [info], s) && IdentifiedBy(lib, front + [info], s)
    ensures LoadFile(lib, s, info) == Ok(s)
  {
    assert (front + [info])[..|front|] == front;
    assert Own(lib, info) == [];
  }

  function BehindStep(lib: Library, step: Option<TestStep>, which: PathList): seq<Object>
  {
    if step.Some? then Behind(lib, PathsOf(step.value, which)) else []
  }

  /** From `p` to `q`: both lists are swept, then the objects behind the paths of the step, old or new, are added. */
  ghost predicate Swept(lib: Library, p: StepState, q: StepState)
  {
    var lastAssert, lastStep := LastOf(p.asserts, "TestAssert"), LastOf(p.apply, "TestStep");
    && q.index == p.index
    && q.asserts == Without(p.asserts, "TestAssert") + BehindStep(lib, q.step, AssertPaths)
    && q.apply == Without(p.apply, "TestStep") + BehindStep(lib, q.step, ApplyPaths)
    && q.errors == p.errors + BehindStep(lib, q.step, ErrorPaths)
    && (lastAssert.None? ==> q.assertion == p.assertion && q.programs == p.programs)
    && (lastAssert.Some? ==> lastAssert.value.body.AssertBody? && q.assertion == Some(lastAssert.value.body.assertion))
    && (lastAssert.Some? ==>
      lib.programs(q.assertion.value).Ok? && q.programs == Some(lib.programs(q.assertion.value).value))
    && (lastStep.None? ==> q.step == p.step)
    && (lastStep.Some? ==>
      lastStep.value.body.StepBody? && p.step.None? && q.step == Some(lastStep.value.body.step.(index := p.index)))
  }

  /** From `p` to `q`: a TestStep that was taken out names the step and configures its client. */
  ghost predicate Configured(lib: Library, p: StepState, q: StepState)
  {
    var last := LastOf(p.apply, "TestStep");
    if last.Some? && last.value.body.StepBody? then
      var step := last.value.body.step;
      && q.name == (if step.name != "" then step.name else p.name)
      && q.kubeconfig == (if step.kubeconfig != "" then lib.expandKubeconfig(step.kubeconfig) else p.kubeconfig)
      && q.context == step.context && q.kubeconfigLoading == step.kubeconfigLoading
      && q.kubeconfigLoading in {"", "eager", "lazy"}
    else
      q.name == p.name && q.kubeconfig == p.kubeconfig && q.context == p.context
        && q.kubeconfigLoading == p.kubeconfigLoading
  }

  lemma SortedIs(lib: Library, p: StepState)
    requires Sorted(lib, p).Ok?
    ensures Swept(lib, p, Sorted(lib, p).value) && Configured(lib, p, Sorted(lib, p).value)
  {
    TakeAssertsIs(lib, p, p.asserts);
    var a := TakeAsserts(lib, p, p.asserts).value;
    TakeStepIs(lib, a.0, a.0.apply);
  }

  /** The lists a new file's objects are appended to were swept before, so only the new objects matter. */
  lemma SweepOnlyNew(swept: seq<Object>, added: seq<Object>, kind: string)
    requires forall o :: o in swept ==> ObjectKind(o) != kind
    ensures Without(swept + added, kind) == swept + Without(added, kind)
    ensures LastOf(swept + added, kind) == LastOf(added, kind)
  {
    WithoutNone(swept, kind);
    WithoutAppend(swept, added, kind);
  }

  lemma FileSweeps(lib: Library, s: StepState, info: Info) returns (p: StepState)
    requires LoadFile(lib, s, info).Ok? && !Skipped(lib, info)
    ensures Populated(lib, info, s, p)
    ensures Swept(lib, p, LoadFile(lib, s, info).value) && Configured(lib, p, LoadFile(lib, s, info).value)
  {
    p := Populate(s, info, Own(lib, info)).value;
    SortedIs(lib, p);
  }

  /** The file's objects were appended to the list of its type. */
  ghost predicate Populated(lib: Library, info: Info, s: StepState, p: StepState)
  {
    && p.asserts == s.asserts + OwnOfType(lib, info, TypeAssert)
    && p.apply == s.apply + OwnOfType(lib, info, TypeApply)
    && p.errors == s.errors + OwnOfType(lib, info, TypeError)
    && p.index == s.index && p.step == s.step && p.assertion == s.assertion && p.programs == s.programs
    && p.name == (if info.fileType == TypeApply && s.name == "" then info.stepName else s.name)
    && p.kubeconfig == s.kubeconfig && p.context == s.context && p.kubeconfigLoading == s.kubeconfigLoading
  }

  lemma SweptAmountsTo(lib: Library, index: nat, front: seq<Info>, info: Info, s: StepState, p: StepState, q: StepState)
    requires AmountsTo(lib, index, front, s) && NoControlObjects(s) && !Skipped(lib, info)
    requires Populated(lib, info, s, p) && Swept(lib, p, q)
    ensures AmountsTo(lib, index, front + [info], q)
  {
    SweepOnlyNew(s.asserts, OwnOfType(lib, info, TypeAssert), "TestAssert");
    SweepOnlyNew(s.apply, OwnOfType(lib, info, TypeApply), "TestStep");
    LoadedStepMet(lib, index, front, info, s.step, q.step);
    ListsNext(lib, front, info, q.step);
    AssertMetNext(lib, front, info);
  }

  /** What one more file adds to each list. */
  lemma ListsNext(lib: Library, front: seq<Info>, info: Info, step: Option<TestStep>)
    requires !Skipped(lib, info)
    requires StepMet(lib, front + [info]).Some? <==> step.Some?
    requires step.Some? ==>
      step.value.(index := StepMet(lib, front + [info]).value.index) == StepMet(lib, front + [info]).value
    ensures var infos := front + [info];
      && ApplyOf(lib, infos) == ApplyOf(lib, front) + Without(OwnOfType(lib, info, TypeApply), "TestStep")
        + BehindStep(lib, step, ApplyPaths)
      && AssertsOf(lib, infos) == AssertsOf(lib, front) + Without(OwnOfType(lib, info, TypeAssert), "TestAssert")
        + BehindStep(lib, step, AssertPaths)
      && ErrorsOf(lib, infos) == ErrorsOf(lib, front) + OwnOfType(lib, info, TypeError)
        + BehindStep(lib, step, ErrorPaths)
  {
    var infos := front + [info];
    assert infos[..|infos| - 1] == front;
    forall which ensures Again(lib, infos, which) == BehindStep(lib, step, which) { }
  }

  lemma AssertMetNext(lib: Library, front: seq<Info>, info: Info)
    ensures var here := LastOf(OwnOfType(lib, info, TypeAssert), "TestAssert");
      AssertMet(lib, front + [info]) ==
        if here.Some? && here.value.body.AssertBody? then Some(here.value.body.assertion) else AssertMet(lib, front)
  {
    assert (front + [info])[..|front|] == front;
  }

  lemma SweptIsIdentified(lib: Library, index: nat, front: seq<Info>, info: Info, s: StepState, p: StepState,
                          q: StepState)
    requires AmountsTo(lib, index, front, s) && IdentifiedBy(lib, front, s) && NoControlObjects(s)
    requires !Skipped(lib, info)
    requires Populated(lib, info, s, p) && Swept(lib, p, q) && Configured(lib, p, q)
    ensures IdentifiedBy(lib, front + [info], q)
  {
    SweepOnlyNew(s.apply, OwnOfType(lib, info, TypeApply), "TestStep");
    assert (front + [info])[..|front|] == front;
  }

  lemma SweptHasNoControl(lib: Library, p: StepState, q: StepState)
    requires Swept(lib, p, q) && (q.step.Some? ==> PlainPaths(lib, q.step.value))
    ensures NoControlObjects(q)
  {
    WithoutMembers(p.apply, "TestStep");
    WithoutMembers(p.asserts, "TestAssert");
  }

  lemma LoadedStepMet(lib: Library, index: nat, front: seq<Info>, info: Info, before: Option<TestStep>,
                      after: Option<TestStep>)
    requires before == if StepMet(lib, front).Some? then Some(StepMet(lib, front).value.(index := index)) else None
    requires var here := LastOf(OwnOfType(lib, info, TypeApply), "TestStep");
      && (here.None? ==> after == before)
      && (here.Some? ==>
        here.value.body.StepBody? && before.None? && after == Some(here.value.body.step.(index := index)))
    ensures after == if StepMet(lib, front + [info]).Some?
      then Some(StepMet(lib, front + [info]).value.(index := index)) else None
  {
  }
}
