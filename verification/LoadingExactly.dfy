/** Which files of a step are skipped, which objects are left, in which order, and when loading fails. */
module LoadingExactly {
  import opened Outcomes
  import opened Errors
  import opened FileName
  import opened Loading
  import opened Seqs

  // ----- the objects of a file -----

  predicate IsTestFile(o: Object) { o.body.FileBody? }

  predicate IsOther(o: Object) { !IsTestFile(o) }

  /** One TestFile at most, and its selector is well-formed. */
  ghost predicate Siftable(lib: Library, loaded: seq<Object>)
  {
    && (forall i, j :: 0 <= i < j < |loaded| ==> !(IsTestFile(loaded[i]) && IsTestFile(loaded[j])))
    && (forall o :: o in loaded && IsTestFile(o) ==> lib.selects(o.body.selector).Some?)
  }

  ghost predicate Deselects(lib: Library, o: Object)
  {
    IsTestFile(o) && lib.selects(o.body.selector) == Some(false)
  }

  ghost predicate Sifted(lib: Library, loaded: seq<Object>, f: FileObjects, at: seq<nat>)
  {
    && (f.skip <==> exists o :: o in loaded && Deselects(lib, o))
    && (f.seenTestFile <==> exists o :: o in loaded && IsTestFile(o))
    && Picks(loaded, IsOther, f.objects, at)
  }

  lemma {:induction false} SiftExactly(lib: Library, loaded: seq<Object>) returns (at: seq<nat>)
    ensures Sift(lib, loaded).Ok? <==> Siftable(lib, loaded)
    ensures Sift(lib, loaded).Ok? ==> Sifted(lib, loaded, Sift(lib, loaded).value, at)
  {
    at := [];
    if loaded == [] {
    } else {
      var n := |loaded| - 1;
      at := SiftExactly(lib, loaded[..n]);
      if Sift(lib, loaded[..n]).Ok? { SiftableNext(lib, loaded, Sift(lib, loaded[..n]).value, at); }
      if Sift(lib, loaded).Ok? { at := SiftedNext(lib, loaded, at); }
    }
  }

  lemma SiftableNext(lib: Library, loaded: seq<Object>, f: FileObjects, at: seq<nat>)
    requires loaded != [] && Siftable(lib, loaded[..|loaded| - 1])
    requires Sifted(lib, loaded[..|loaded| - 1], f, at)
    ensures var o := loaded[|loaded| - 1];
      Siftable(lib, loaded) <==> IsOther(o) || (!f.seenTestFile && lib.selects(o.body.selector).Some?)
  {
    var n := |loaded| - 1;
    var front := loaded[..n];
    assert forall o :: o in loaded <==> o in front || o == loaded[n];
    if f.seenTestFile && IsTestFile(loaded[n]) {
      var i :| 0 <= i < n && IsTestFile(front[i]);
      assert loaded[i] == front[i];
    }
    assert forall i :: 0 <= i < n ==> front[i] == loaded[i] && front[i] in front;
  }

  lemma SiftedNext(lib: Library, loaded: seq<Object>, before: seq<nat>) returns (at: seq<nat>)
    requires loaded != [] && Sift(lib, loaded).Ok?
    requires Sifted(lib, loaded[..|loaded| - 1], Sift(lib, loaded[..|loaded| - 1]).value, before)
    ensures Sifted(lib, loaded, Sift(lib, loaded).value, at)
  {
    var n := |loaded| - 1;
    var f := Sift(lib, loaded[..n]).value;
    assert forall o :: o in loaded <==> o in loaded[..n] || o == loaded[n];
    if IsOther(loaded[n]) {
      PicksOneMore(loaded, IsOther, f.objects, before);
      at := before + [n];
    } else {
      PicksNoMore(loaded, IsOther, f.objects, before);
      at := before;
    }
  }

  /** The file can be read, and its TestFile, if any, made out. */
  ghost predicate Readable(lib: Library, info: Info)
  {
    lib.load(info.fullName).Ok? && Siftable(lib, lib.load(info.fullName).value)
  }

  /** A file is skipped exactly when its TestFile does not select the test run; otherwise its objects are those it holds
      besides the TestFile, in order. */
  lemma FileExactly(lib: Library, info: Info) returns (at: seq<nat>)
    ensures LoadOrSkip(lib, info).Ok? <==> Readable(lib, info)
    ensures Readable(lib, info) ==>
      (Skipped(lib, info) <==> exists o :: o in lib.load(info.fullName).value && Deselects(lib, o))
    ensures Readable(lib, info) && !Skipped(lib, info) ==>
      Picks(lib.load(info.fullName).value, IsOther, Own(lib, info), at)
  {
    at := [];
    if lib.load(info.fullName).Ok? { at := SiftExactly(lib, lib.load(info.fullName).value); }
  }

  // ----- the objects behind paths -----

  /** All paths must be readable; their objects follow one another in the order of the paths. */
  lemma {:induction false} ExpandExactly(lib: Library, paths: seq<string>) returns (parts: seq<seq<Object>>)
    ensures Expand(lib, paths).Ok? <==> forall path :: path in paths ==> lib.fromPath(path).Ok?
    ensures Expand(lib, paths).Ok? ==> |parts| == |paths| && Expand(lib, paths).value == Flat(parts)
    ensures Expand(lib, paths).Ok? ==>
      forall i :: 0 <= i < |paths| ==> lib.fromPath(paths[i]) == Ok(parts[i])
  {
    parts := [];
    if paths == [] {
    } else {
      var n := |paths| - 1;
      var before := ExpandExactly(lib, paths[..n]);
      assert forall path :: path in paths <==> path in paths[..n] || path == paths[n];
      if Expand(lib, paths).Ok? {
        parts := before + [lib.fromPath(paths[n]).value];
        assert parts[..n] == before;
        assert forall i :: 0 <= i < n ==> paths[..n][i] == paths[i];
      }
    }
  }

  // ----- kuttl's own objects among others -----

  lemma {:induction false} WithoutInOrder(os: seq<Object>, kind: string) returns (at: seq<nat>)
    ensures Picks(os, (o: Object) => ObjectKind(o) != kind, Without(os, kind), at)
  {
    var keep := (o: Object) => ObjectKind(o) != kind;
    at := [];
    if os == [] {
    } else {
      var n := |os| - 1;
      at := WithoutInOrder(os[..n], kind);
      assert Picks(os[..n], keep, Without(os[..n], kind), at);
      if keep(os[n]) {
        PicksOneMore(os, keep, Without(os[..n], kind), at);
        at := at + [n];
      } else {
        PicksNoMore(os, keep, Without(os[..n], kind), at);
      }
    }
  }

  ghost predicate NoneFrom(os: seq<Object>, kind: string, from: nat)
  {
    forall j: nat :: from <= j < |os| ==> ObjectKind(os[j]) != kind
  }

  lemma {:induction false} LastOfExactly(os: seq<Object>, kind: string) returns (i: nat)
    ensures LastOf(os, kind).None? ==> NoneFrom(os, kind, 0)
    ensures LastOf(os, kind).Some? ==>
      i < |os| && os[i] == LastOf(os, kind).value && ObjectKind(os[i]) == kind && NoneFrom(os, kind, i + 1)
  {
    i := 0;
    if os == [] {
    } else {
      var n := |os| - 1;
      if ObjectKind(os[n]) == kind {
        i := n;
      } else {
        i := LastOfExactly(os[..n], kind);
        forall j: nat | (if LastOf(os[..n], kind).Some? then i + 1 else 0) <= j < n ensures ObjectKind(os[j]) != kind {
          assert os[..n][j] == os[j];
        }
      }
    }
  }

  // ----- when loading fails -----

  ghost predicate GoodAssert(lib: Library, o: Object)
  {
    o.body.AssertBody? && lib.programs(o.body.assertion).Ok?
  }

  lemma {:induction false} TakeAssertsExactly(lib: Library, s: StepState, os: seq<Object>)
    ensures TakeAsserts(lib, s, os).Ok? <==>
      forall o :: o in os && ObjectKind(o) == "TestAssert" ==> GoodAssert(lib, o)
  {
    if os == [] {
    } else {
      var n := |os| - 1;
      TakeAssertsExactly(lib, s, os[..n]);
      assert forall o :: o in os <==> o in os[..n] || o == os[n];
    }
  }

  ghost predicate GoodStep(o: Object)
  {
    o.body.StepBody? && o.body.step.kubeconfigLoading in {"", "eager", "lazy"}
  }

  /** Every TestStep among them is well-formed, and there is none when the step has one, and no second one. */
  ghost predicate OneStep(taken: bool, os: seq<Object>)
  {
    && (forall o :: o in os && ObjectKind(o) == "TestStep" ==> GoodStep(o) && !taken)
    && forall i, j :: 0 <= i < j < |os| ==> !(ObjectKind(os[i]) == "TestStep" && ObjectKind(os[j]) == "TestStep")
  }

  lemma {:induction false} TakeStepExactly(lib: Library, s: StepState, os: seq<Object>)
    ensures TakeStep(lib, s, os).Ok? <==> OneStep(s.step.Some?, os)
    ensures TakeStep(lib, s, os).Ok? ==>
      (TakeStep(lib, s, os).value.0.step.Some? <==>
        s.step.Some? || exists o :: o in os && ObjectKind(o) == "TestStep")
  {
    if os == [] {
    } else {
      var n := |os| - 1;
      TakeStepExactly(lib, s, os[..n]);
      OneStepNext(s.step.Some?, os);
      assert forall o :: o in os <==> o in os[..n] || o == os[n];
    }
  }

  lemma OneStepNext(taken: bool, os: seq<Object>)
    requires os != []
    ensures var n := |os| - 1;
      OneStep(taken, os) <==> OneStep(taken, os[..n]) && (ObjectKind(os[n]) == "TestStep" ==>
        GoodStep(os[n]) && !taken && forall o :: o in os[..n] ==> ObjectKind(o) != "TestStep")
  {
    var n := |os| - 1;
    var front := os[..n];
    assert forall o :: o in os <==> o in front || o == os[n];
    assert forall i :: 0 <= i < n ==> front[i] == os[i] && front[i] in front;
    if OneStep(taken, os) && ObjectKind(os[n]) == "TestStep" {
      forall o | o in front ensures ObjectKind(o) != "TestStep" {
        var i :| 0 <= i < n && front[i] == o;
        assert os[i] == o;
      }
    }
  }

  /** The paths of the TestStep met, if any, can be read. */
  ghost predicate PathsRead(lib: Library, step: Option<TestStep>)
  {
    step.Some? ==> forall which: PathList, path :: path in PathsOf(step.value, which) ==> lib.fromPath(path).Ok?
  }

  /** The TestStep that a step has after a file: its own, or else that of the file. */
  ghost function StepAfter(s: StepState, applies: seq<Object>): Option<TestStep>
  {
    var last := LastOf(applies, "TestStep");
    if s.step.Some? then s.step
    else if last.Some? && last.value.body.StepBody? then Some(last.value.body.step)
    else None
  }

  /** The file's objects suit the step as it is. */
  ghost predicate Suits(lib: Library, s: StepState, info: Info, own: seq<Object>)
  {
    var asserts := s.asserts + if info.fileType == TypeAssert then own else [];
    var applies := s.apply + if info.fileType == TypeApply then own else [];
    && info.fileType != TypeUnknown
    && (forall o :: o in asserts && ObjectKind(o) == "TestAssert" ==> GoodAssert(lib, o))
    && OneStep(s.step.Some?, applies)
    && PathsRead(lib, StepAfter(s, applies))
  }

  lemma AddPathsExactly(lib: Library, s: StepState)
    ensures AddStepPaths(lib, s).Ok? <==> PathsRead(lib, s.step)
  {
    if s.step.Some? {
      var step := s.step.value;
      var _ := ExpandExactly(lib, step.apply);
      var _ := ExpandExactly(lib, step.asserts);
      var _ := ExpandExactly(lib, step.errors);
      assert PathsOf(step, ApplyPaths) == step.apply && PathsOf(step, AssertPaths) == step.asserts;
      assert PathsOf(step, ErrorPaths) == step.errors;
    }
  }

  lemma SortedExactly(lib: Library, p: StepState)
    ensures Sorted(lib, p).Ok? <==>
      && (forall o :: o in p.asserts && ObjectKind(o) == "TestAssert" ==> GoodAssert(lib, o))
      && OneStep(p.step.Some?, p.apply) && PathsRead(lib, StepAfter(p, p.apply))
  {
    TakeAssertsExactly(lib, p, p.asserts);
    if TakeAsserts(lib, p, p.asserts).Ok? {
      TakeAssertsIs(lib, p, p.asserts);
      var a := TakeAsserts(lib, p, p.asserts).value;
      TakeStepExactly(lib, a.0, a.0.apply);
      if TakeStep(lib, a.0, a.0.apply).Ok? {
        TakeStepIs(lib, a.0, a.0.apply);
        var t := TakeStep(lib, a.0, a.0.apply).value;
        AddPathsExactly(lib, t.0.(asserts := a.1, apply := t.1));
        SamePaths(lib, t.0.step, StepAfter(p, p.apply));
      }
    }
  }

  lemma SamePaths(lib: Library, a: Option<TestStep>, b: Option<TestStep>)
    requires a.Some? <==> b.Some?
    requires a.Some? ==> forall which :: PathsOf(a.value, which) == PathsOf(b.value, which)
    ensures PathsRead(lib, a) <==> PathsRead(lib, b)
  {
  }

  /** Loading a file succeeds exactly when it is readable and either skipped or of a known type with objects that suit
      the step: TestAsserts well-formed, one TestStep for the step at most, and all of its paths readable. */
  lemma LoadsExactly(lib: Library, s: StepState, info: Info)
    ensures LoadFile(lib, s, info).Ok? <==>
      Readable(lib, info) && (Skipped(lib, info) || Suits(lib, s, info, Own(lib, info)))
  {
    var _ := FileExactly(lib, info);
    if Readable(lib, info) && !Skipped(lib, info) && info.fileType != TypeUnknown {
      SortedExactly(lib, Populate(s, info, Own(lib, info)).value);
      assert s.asserts + [] == s.asserts && s.apply + [] == s.apply;
    }
  }
}
