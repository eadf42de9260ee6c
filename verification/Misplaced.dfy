/** Which of kuttl's own objects are left among a step's objects after loading. */
module Misplaced {
  import opened Json
  import opened Outcomes
  import opened FileName
  import opened Loading

  // The apply list is searched for TestSteps only, and the assert list for TestAsserts only.

  function ListOf(s: StepState, which: PathList): seq<Object>
  {
    match which
    case ApplyPaths => s.apply
    case AssertPaths => s.asserts
    case ErrorPaths => s.errors
  }

  /** The files whose own objects go to a list. */
  function FilesOf(which: PathList): FileType
  {
    match which
    case ApplyPaths => TypeApply
    case AssertPaths => TypeAssert
    case ErrorPaths => TypeError
  }

  /** The kind that is taken out of a list. */
  function TakenOut(which: PathList): Option<string>
  {
    match which
    case ApplyPaths => Some("TestStep")
    case AssertPaths => Some("TestAssert")
    case ErrorPaths => None
  }

  ghost predicate Holds(os: seq<Object>, kind: string)
  {
    exists o :: o in os && ObjectKind(o) == kind
  }

  ghost predicate FromFiles(lib: Library, infos: seq<Info>, which: PathList, kind: string)
  {
    exists i :: 0 <= i < |infos| && Holds(OwnOfType(lib, infos[i], FilesOf(which)), kind)
  }

  ghost predicate FromPaths(lib: Library, infos: seq<Info>, which: PathList, kind: string)
  {
    var step := StepMet(lib, infos);
    step.Some? && Holds(Behind(lib, PathsOf(step.value, which)), kind)
  }

  /** A file of the list's type, or the paths of the TestStep met, bring an object of the kind. */
  ghost predicate Brings(lib: Library, infos: seq<Info>, which: PathList, kind: string)
  {
    FromFiles(lib, infos, which, kind) || FromPaths(lib, infos, which, kind)
  }

  function Expected(lib: Library, infos: seq<Info>, which: PathList): seq<Object>
  {
    match which
    case ApplyPaths => ApplyOf(lib, infos)
    case AssertPaths => AssertsOf(lib, infos)
    case ErrorPaths => ErrorsOf(lib, infos)
  }

  /** What the last file adds of its own to a list. */
  function Added(lib: Library, info: Info, which: PathList): seq<Object>
  {
    var own := OwnOfType(lib, info, FilesOf(which));
    if TakenOut(which).Some? then Without(own, TakenOut(which).value) else own
  }

  lemma HoldsEither(xs: seq<Object>, ys: seq<Object>, kind: string)
    ensures Holds(xs + ys, kind) <==> Holds(xs, kind) || Holds(ys, kind)
  {
    if o :| o in xs && ObjectKind(o) == kind { assert o in xs + ys; }
    if o :| o in ys && ObjectKind(o) == kind { assert o in xs + ys; }
  }

  lemma AddedHolds(lib: Library, info: Info, which: PathList, kind: string)
    requires TakenOut(which) != Some(kind)
    ensures Holds(Added(lib, info, which), kind) <==> Holds(OwnOfType(lib, info, FilesOf(which)), kind)
  {
    if TakenOut(which).Some? { WithoutMembers(OwnOfType(lib, info, FilesOf(which)), TakenOut(which).value); }
  }

  /** The first TestStep of the files stays, and the file that brings it is not skipped. */
  lemma StepMetStays(lib: Library, front: seq<Info>, info: Info)
    ensures StepMet(lib, front).Some? ==> StepMet(lib, front + [info]) == StepMet(lib, front)
    ensures StepMet(lib, front + [info]) != StepMet(lib, front) ==> !Skipped(lib, info)
  {
    assert (front + [info])[..|front|] == front;
  }

  lemma FromFilesNext(lib: Library, front: seq<Info>, info: Info, which: PathList, kind: string)
    ensures FromFiles(lib, front + [info], which, kind) <==>
            FromFiles(lib, front, which, kind) || Holds(OwnOfType(lib, info, FilesOf(which)), kind)
  {
    var infos := front + [info];
    if i :| 0 <= i < |front| && Holds(OwnOfType(lib, front[i], FilesOf(which)), kind) { assert infos[i] == front[i]; }
    if Holds(OwnOfType(lib, info, FilesOf(which)), kind) { assert infos[|front|] == info; }
  }

  /** An object of a kind that is not taken out is in a list if and only if some file of the list's type brings one, or
      one is behind the paths of the TestStep met, wherever among the files that is. */
  lemma {:induction false} ListHolds(lib: Library, infos: seq<Info>, which: PathList, kind: string)
    requires TakenOut(which) != Some(kind)
    ensures Holds(Expected(lib, infos, which), kind) <==> Brings(lib, infos, which, kind)
  {
    if infos == [] {
      assert Expected(lib, infos, which) == [];
    } else {
      var front, info := infos[..|infos| - 1], infos[|infos| - 1];
      assert front + [info] == infos;
      ListHolds(lib, front, which, kind);
      var list, own, again := Expected(lib, front, which), Added(lib, info, which), Again(lib, infos, which);
      assert Expected(lib, infos, which) == list + own + again;
      HoldsEither(list + own, again, kind);
      HoldsEither(list, own, kind);
      AddedHolds(lib, info, which, kind);
      FromFilesNext(lib, front, info, which, kind);
      StepMetStays(lib, front, info);
    }
  }

  /** After any files of a step whose paths are plain: what is taken out of a list is gone from it, and an object of any
      other kind is left exactly when a file or a path brings one. */
  lemma LeftAfterLoading(lib: Library, index: nat, infos: seq<Info>, which: PathList, kind: string)
    requires Plain(lib, infos) && LoadFiles(lib, Fresh(index), infos).Ok?
    ensures Holds(ListOf(LoadFiles(lib, Fresh(index), infos).value, which), kind) <==>
            TakenOut(which) != Some(kind) && Brings(lib, infos, which, kind)
  {
    LoadedStep(lib, index, infos);
    if TakenOut(which) != Some(kind) { ListHolds(lib, infos, which, kind); }
  }

  /** The apply and assert lists are free of kuttl's own objects if and only if no apply file and no apply path brings a
      TestAssert, and no assert file and no assert path brings a TestStep. */
  lemma ListsAreCleanExactly(lib: Library, index: nat, infos: seq<Info>)
    requires Plain(lib, infos) && LoadFiles(lib, Fresh(index), infos).Ok?
    ensures var s := LoadFiles(lib, Fresh(index), infos).value;
      && !Holds(s.apply, "TestStep") && !Holds(s.asserts, "TestAssert")
      && (Holds(s.apply, "TestAssert") <==> Brings(lib, infos, ApplyPaths, "TestAssert"))
      && (Holds(s.asserts, "TestStep") <==> Brings(lib, infos, AssertPaths, "TestStep"))
  {
    LeftAfterLoading(lib, index, infos, ApplyPaths, "TestStep");
    LeftAfterLoading(lib, index, infos, ApplyPaths, "TestAssert");
    LeftAfterLoading(lib, index, infos, AssertPaths, "TestAssert");
    LeftAfterLoading(lib, index, infos, AssertPaths, "TestStep");
  }

  // ----- two files that leave both kinds behind -----

  lemma SiftedAlone(lib: Library, o: Object)
    requires !o.body.FileBody?
    ensures Sift(lib, [o]) == Ok(FileObjects(false, [o], false))
  {
    assert [o][..0] == [] && [] + [o] == [o];
  }

  lemma AssertStays(lib: Library, s: StepState, o: Object)
    requires ObjectKind(o) != "TestStep"
    ensures TakeStep(lib, s, [o]) == Ok((s, [o]))
  {
    assert [o][..0] == [] && [] + [o] == [o];
    assert TakeStep(lib, s, []) == Ok((s, []));
  }

  lemma StepStays(lib: Library, s: StepState, o: Object)
    requires ObjectKind(o) != "TestAssert"
    ensures TakeAsserts(lib, s, [o]) == Ok((s, [o]))
  {
    assert [o][..0] == [] && [] + [o] == [o];
    assert TakeAsserts(lib, s, []) == Ok((s, []));
  }

  /** The file holds just one object, of the kind that is not taken out of the file's list. */
  ghost predicate BringsOne(lib: Library, info: Info, o: Object)
  {
    && lib.load(info.fullName) == Ok([o]) && !o.body.FileBody? && info.stepName == ""
    && ObjectKind(o) == if info.fileType == TypeApply then "TestAssert" else "TestStep"
  }

  lemma ApplyFile(lib: Library, s: StepState, info: Info, o: Object)
    requires info.fileType == TypeApply && BringsOne(lib, info, o)
    requires s.apply == [] && s.asserts == [] && s.step.None?
    ensures LoadFile(lib, s, info) == Ok(s.(apply := [o]))
  {
    assert s.apply + [o] == [o];
    SiftedAlone(lib, o);
    assert TakeAsserts(lib, s.(apply := [o]), []) == Ok((s.(apply := [o]), []));
    AssertStays(lib, s.(apply := [o]), o);
  }

  lemma AssertFile(lib: Library, s: StepState, info: Info, o: Object, applied: Object)
    requires info.fileType == TypeAssert && BringsOne(lib, info, o) && ObjectKind(applied) == "TestAssert"
    requires s.apply == [applied] && s.asserts == [] && s.step.None?
    ensures LoadFile(lib, s, info) == Ok(s.(asserts := [o]))
  {
    assert s.asserts + [o] == [o];
    SiftedAlone(lib, o);
    StepStays(lib, s.(asserts := [o]), o);
    AssertStays(lib, s.(asserts := [o]), applied);
  }

  function OfKind(kind: string, body: Body): Object
  {
    Object(map["kind" := Str(kind)], body)
  }

  function FileOf(fileType: FileType, fullName: string): Info
  {
    Info(fileType, fullName, fullName, true, 0, "", false)
  }

  /** A TestAssert in an apply file and a TestStep in an assert file outlast both files, and neither is in force. */
  lemma SomeAreLeft(index: nat, assertion: TestAssert)
    returns (lib: Library, infos: seq<Info>, misplacedAssert: Object, misplacedStep: Object)
    ensures |infos| == 2 && Plain(lib, infos) && LoadFiles(lib, Fresh(index), infos).Ok?
    ensures ObjectKind(misplacedAssert) == "TestAssert" && ObjectKind(misplacedStep) == "TestStep"
    ensures var s := LoadFiles(lib, Fresh(index), infos).value;
      s.apply == [misplacedAssert] && s.asserts == [misplacedStep] && s.assertion.None? && s.step.None?
  {
    var step := TestStep(0, "", [], [], [], [], 0, "", "", "");
    var x, y := OfKind("TestAssert", AssertBody(assertion)), OfKind("TestStep", StepBody(step));
    var load := (name: string) => Ok([if name == "apply" then x else y]);
    lib := Library(load, _ => Ok([]), _ => Ok(0), _ => None, name => name);
    infos := [FileOf(TypeApply, "apply"), FileOf(TypeAssert, "assert")];
    misplacedAssert, misplacedStep := x, y;
    ApplyFile(lib, Fresh(index), infos[0], x);
    AssertFile(lib, Fresh(index).(apply := [x]), infos[1], y, x);
    assert infos[..1][..0] == [];
    assert LoadFiles(lib, Fresh(index), infos[..1]) == Ok(Fresh(index).(apply := [x]));
    SiftedAlone(lib, x);
    SiftedAlone(lib, y);
    assert Own(lib, infos[0]) == [x] && Own(lib, infos[1]) == [y];
    assert PlainPaths(lib, step) by { assert Behind(lib, []) == []; }
  }
}
