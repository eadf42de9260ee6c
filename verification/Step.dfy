/** A test step: loading its files, and running it. */
module Steps {
  import opened Json
  import opened Outcomes
  import opened Errors
  import opened Objects
  import opened Cluster
  import opened Lookup
  import opened Loading
  import opened Checks
  import opened StepRuns
  import opened StepErrors
  import opened FileName
  import opened Testing
  import opened Seqs
  import Creation
  import Deletion
  import Subset

  /** hasTimeoutErr: some error wraps context.DeadlineExceeded. */
  method HasTimeoutErr(errs: seq<StepError>) returns (found: bool)
    ensures found <==> AnyTimeout(errs)
  {
    for i := 0 to |errs|
      invariant forall j :: 0 <= j < i ==> !IsTimeout(errs[j])
    {
      if IsTimeout(errs[i]) {
        return true;
      }
    }
    return false;
  }

  class Step {
    // set by the test case
    const index: nat
    const timeout: int
    const skipDelete: bool
    const lib: Library
    const client: Client
    const clientErr: Option<Fault>
    const discoveryErr: Option<Fault>

    // filled by LoadYAML; the objects' namespaces are filled in by running
    var name: string
    var step: Option<TestStep>
    var assertion: Option<TestAssert>
    var programs: Option<nat>
    var asserts: seq<Object>
    var apply: seq<Object>
    var errors: seq<Object>
    var kubeconfig: string
    var kubeconfigLoading: string
    var context: string

    constructor (index: nat, timeout: int, skipDelete: bool, lib: Library, client: Client, clientErr: Option<Fault>,
                 discoveryErr: Option<Fault>)
      ensures State() == Fresh(index)
      ensures this.timeout == timeout && this.skipDelete == skipDelete && this.lib == lib && this.client == client
      ensures this.clientErr == clientErr && this.discoveryErr == discoveryErr
    {
      this.index, this.timeout, this.skipDelete, this.lib, this.client := index, timeout, skipDelete, lib, client;
      this.clientErr, this.discoveryErr := clientErr, discoveryErr;
      name, step, assertion, programs := "", None, None, None;
      asserts, apply, errors := [], [], [];
      kubeconfig, kubeconfigLoading, context := "", "", "";
    }

    ghost function State(): StepState
      reads this
    {
      StepState(index, name, asserts, apply, errors, step, assertion, programs, kubeconfig, context, kubeconfigLoading)
    }

    ghost function Reach(): Access
    {
      Access(client.env, client.id, clientErr, discoveryErr)
    }

    // ----- loading -----

    /** Separates a file's TestFile from its other objects and decides whether the file is skipped. */
    method LoadOrSkipFile(info: Info) returns (r: Result<FileObjects, Error>)
      ensures r == LoadOrSkip(lib, info)
    {
      var loaded := lib.load(info.fullName);
      if loaded.Err? {
        return Err(Invalid);
      }
      var os := loaded.value;
      var f := FileObjects(false, [], false);
      for i := 0 to |os|
        invariant Sift(lib, os[..i]) == Ok(f)
      {
        assert os[..i + 1][..i] == os[..i];
        if os[i].body.FileBody? {
          if f.seenTestFile {
            SiftStopped(lib, os, i + 1);
            return Err(Invalid);
          }
          var matches := lib.selects(os[i].body.selector);
          if matches.None? {
            SiftStopped(lib, os, i + 1);
            return Err(Wrapped(Invalid));
          }
          f := f.(seenTestFile := true);
          if matches.value {
            continue;
          }
          f := f.(skip := true);
        } else {
          f := f.(objects := f.objects + [os[i]]);
        }
      }
      assert os[..|os|] == os;
      return Ok(f);
    }

    /** Appends a file's objects to the list its type selects; an apply file may name the step. */
    method PopulateObjectsByType(info: Info, objects: seq<Object>) returns (err: Option<Error>)
      modifies this
      ensures match Populate(old(State()), info, objects)
        case Ok(s) => err.None? && State() == s
        case Err(e) => err == Some(e) && State() == old(State())
    {
      match info.fileType
      case TypeAssert => asserts := asserts + objects; return None;
      case TypeError => errors := errors + objects; return None;
      case TypeApply =>
        apply := apply + objects;
        if name == "" {
          name := info.stepName;
        }
        return None;
      case TypeUnknown => return Some(Invalid);
    }

    /** ObjectsFromPath for every path of a list. */
    method ObjectsFromPaths(paths: seq<string>) returns (r: Result<seq<Object>, Error>)
      ensures r == Expand(lib, paths)
    {
      var os: seq<Object> := [];
      for i := 0 to |paths|
        invariant Expand(lib, paths[..i]) == Ok(os)
      {
        assert paths[..i + 1][..i] == paths[..i];
        var more := lib.fromPath(paths[i]);
        if more.Err? {
          ExpandStopped(lib, paths, i + 1);
          return Err(Wrapped(more.error));
        }
        os := os + more.value;
      }
      assert paths[..|paths|] == paths;
      return Ok(os);
    }

    /** Loads one file into the step. After an error the step is not used any more. */
    method LoadYAML(info: Info) returns (err: Option<Error>)
      modifies this
      ensures match LoadFile(lib, old(State()), info)
        case Ok(s) => err.None? && State() == s
        case Err(e) => err == Some(e)
    {
      var file := LoadOrSkipFile(info);
      if file.Err? {
        return Some(file.error);
      }
      if file.value.skip {
        return None;
      }
      err := PopulateObjectsByType(info, file.value.objects);
      if err.Some? {
        return Some(Invalid);
      }
      var plainAsserts := SweepAsserts();
      if plainAsserts.Err? {
        return Some(plainAsserts.error);
      }
      var plainApply := SweepApply();
      if plainApply.Err? {
        return Some(plainApply.error);
      }
      err := AddPaths(plainAsserts.value, plainApply.value);
    }

    /** Takes the TestAsserts out of the asserts; the last one, with its programs, is the step's. */
    method SweepAsserts() returns (plain: Result<seq<Object>, Error>)
      modifies this
      ensures asserts == old(asserts) && apply == old(apply)
      ensures match TakeAsserts(lib, old(State()), old(asserts))
        case Ok(t) => plain == Ok(t.1) && State() == t.0
        case Err(e) => plain == Err(e)
    {
      var kept: seq<Object> := [];
      for i := 0 to |asserts|
        invariant asserts == old(asserts) && apply == old(apply)
        invariant TakeAsserts(lib, old(State()), asserts[..i]) == Ok((State(), kept))
      {
        assert asserts[..i + 1][..i] == asserts[..i];
        var obj := asserts[i];
        if ObjectKind(obj) == "TestAssert" {
          if !obj.body.AssertBody? {
            TakeAssertsStopped(lib, old(State()), asserts, i + 1);
            return Err(Invalid);
          }
          var loaded := lib.programs(obj.body.assertion);
          if loaded.Err? {
            TakeAssertsStopped(lib, old(State()), asserts, i + 1);
            return Err(Wrapped(loaded.error));
          }
          assertion, programs := Some(obj.body.assertion), Some(loaded.value);
        } else {
          kept := kept + [obj];
        }
      }
      assert asserts[..|asserts|] == asserts;
      return Ok(kept);
    }

    /** Takes the TestStep out of the apply list and lets it configure the step. */
    method SweepApply() returns (plain: Result<seq<Object>, Error>)
      modifies this
      ensures asserts == old(asserts) && apply == old(apply)
      ensures match TakeStep(lib, old(State()), old(apply))
        case Ok(t) => plain == Ok(t.1) && State() == t.0
        case Err(e) => plain == Err(e)
    {
      var kept: seq<Object> := [];
      for i := 0 to |apply|
        invariant asserts == old(asserts) && apply == old(apply)
        invariant TakeStep(lib, old(State()), apply[..i]) == Ok((State(), kept))
      {
        assert apply[..i + 1][..i] == apply[..i];
        var obj := apply[i];
        if ObjectKind(obj) == "TestStep" {
          if !obj.body.StepBody? || step.Some? {
            TakeStepStopped(lib, old(State()), apply, i + 1);
            return Err(Invalid);
          }
          var err := AdoptTestStep(obj.body.step);
          if err.Some? {
            TakeStepStopped(lib, old(State()), apply, i + 1);
            return Err(err.value);
          }
        } else {
          kept := kept + [obj];
        }
      }
      assert apply[..|apply|] == apply;
      return Ok(kept);
    }

    method AdoptTestStep(testStep: TestStep) returns (err: Option<Error>)
      modifies this
      ensures asserts == old(asserts) && apply == old(apply)
      ensures match Adopt(lib, old(State()), testStep)
        case Ok(s) => err.None? && State() == s
        case Err(e) => err == Some(e)
    {
      step := Some(testStep.(index := index));
      if testStep.name != "" {
        name := testStep.name;
      }
      if testStep.kubeconfig != "" {
        kubeconfig := lib.expandKubeconfig(testStep.kubeconfig);
      }
      context := testStep.context;
      kubeconfigLoading := testStep.kubeconfigLoading;
      return if testStep.kubeconfigLoading in {"", "eager", "lazy"} then None else Some(Invalid);
    }

    /** Stores the swept lists, with the objects behind the TestStep's paths at their ends. */
    method AddPaths(plainAsserts: seq<Object>, plainApply: seq<Object>) returns (err: Option<Error>)
      modifies this
      ensures match AddStepPaths(lib, old(State()).(asserts := plainAsserts, apply := plainApply))
        case Ok(s) => err.None? && State() == s
        case Err(e) => err == Some(e)
    {
      var applies, newAsserts := plainApply, plainAsserts;
      if step.Some? {
        var more := ObjectsFromPaths(step.value.apply);
        if more.Err? {
          return Some(more.error);
        }
        applies := applies + more.value;
        more := ObjectsFromPaths(step.value.asserts);
        if more.Err? {
          return Some(more.error);
        }
        newAsserts := newAsserts + more.value;
        more := ObjectsFromPaths(step.value.errors);
        if more.Err? {
          return Some(more.error);
        }
        errors := errors + more.value;
      }
      apply, asserts := applies, newAsserts;
      return None;
    }

    // ----- deleting and creating -----

    /** The step's time-out, unless its TestAssert sets one. */
    function GetTimeout(): (seconds: int)
      reads this
      ensures assertion.Some? && assertion.value.timeout != 0 ==> seconds == assertion.value.timeout
      ensures assertion.None? || assertion.value.timeout == 0 ==> seconds == timeout
    {
      if assertion.Some? && assertion.value.timeout != 0 then assertion.value.timeout else timeout
    }

    /** What the TestStep's references stand for: the named object, or everything listed. */
    method Resolve(refs: seq<Deletion.Ref>, namespace: string) returns (toDelete: seq<Key>, err: Option<Error>)
      modifies client
      ensures var resolved := Deletion.ResolveAll(client.env, old(client.world), refs, namespace);
        client.world == resolved.0 && resolved.1 == if err.Some? then Err(err.value) else Ok(toDelete)
    {
      toDelete, err := [], None;
      for i := 0 to |refs|
        invariant Deletion.ResolveAll(client.env, old(client.world), refs[..i], namespace) ==
          (client.world, Ok(toDelete))
      {
        assert refs[..i + 1][..i] == refs[..i];
        var ref := refs[i];
        var r := Namespaced(client.env.disc, Deletion.NewResource(ref.gvk, ref.name),
                            if ref.namespace != "" then ref.namespace else namespace);
        if r.Err? {
          Deletion.ResolveStopped(client.env, old(client.world), refs, namespace, i + 1);
          return [], Some(r.error);
        }
        if ref.name == "" {
          var listed := client.List(ref.gvk, r.value.namespace, if ref.labels.Some? then ref.labels.value else map[]);
          if listed.Err? {
            Deletion.ResolveStopped(client.env, old(client.world), refs, namespace, i + 1);
            return [], Some(Wrapped(listed.error));
          }
          toDelete := toDelete + Deletion.KeysOf(listed.value);
        } else {
          toDelete := toDelete + [KeyOf(r.value.content)];
        }
      }
      assert refs[..|refs|] == refs;
    }

    /** Deletes the targets in order, up to the first error; that one is gone already is none. */
    method DeleteEach(toDelete: seq<Key>) returns (err: Option<Error>)
      modifies client
      ensures (client.world, err) == Deletion.DeleteAll(client.env, old(client.world), client.id, toDelete)
    {
      for i := 0 to |toDelete|
        invariant Deletion.DeleteAll(client.env, old(client.world), client.id, toDelete[..i]) == (client.world, None)
      {
        Deletion.DeleteNext(client.env, old(client.world), client.id, toDelete, i);
        err := client.Delete(toDelete[i]);
        if err.Some? && !Has(err.value, NotFound) {
          Deletion.DeleteStopped(client.env, old(client.world), client.id, toDelete, i + 1);
          return Some(Wrapped(err.value));
        }
      }
      assert toDelete[..|toDelete|] == toDelete;
      err := None;
    }

    /** Deletes what the TestStep lists and waits until it is gone; `polls` is what the time-out allows. */
    method DeleteExisting(namespace: string, polls: nat) returns (err: Option<Error>)
      modifies client
      ensures (client.world, err) == DeletePhase(Reach(), old(client.world), step, namespace, polls)
    {
      if clientErr.Some? {
        return Some(clientErr.value);
      }
      if discoveryErr.Some? {
        return Some(discoveryErr.value);
      }
      if step.None? {
        return None;
      }
      var toDelete;
      toDelete, err := Resolve(step.value.delete, namespace);
      if err.Some? {
        return;
      }
      err := DeleteEach(toDelete);
      if err.Some? {
        return;
      }
      err := Deletion.WaitForDelete(client, toDelete, polls);
    }

    /** Applies the i-th object; a clean-up is registered if it was created. */
    method CreateOne(test: T, namespace: string, applier: Creation.Applier, i: nat, errs: seq<StepError>,
                     ghost base: seq<Cleanup>, ghost c: Creation.Created) returns (more: seq<StepError>)
      requires i < |apply| && test as object != this && test as object != client
      requires Reflects(test, c, errs, i, base)
      modifies this`apply, client, test
      ensures Reflects(test, Creation.CreateNext(Reach(), c, i, old(apply[i]), namespace, applier, skipDelete),
                       more, i + 1, base)
      ensures |apply| == |old(apply)| && forall j :: i < j < |apply| ==> apply[j] == old(apply[j])
      ensures test.failed == old(test.failed)
    {
      var r := Namespaced(client.env.disc, apply[i].content, namespace);
      if r.Err? {
        AllFailedAppend(c.errs, r.error);
        return errs + [Failed(r.error)];
      }
      var content := r.value.content;
      apply := apply[i := apply[i].(content := content)];
      var applied := applier(i, client.world, content);
      client.world := applied.world;
      if applied.err.Some? {
        AllFailedAppend(c.errs, Wrapped(applied.err.value));
        return errs + [Failed(Wrapped(applied.err.value))];
      }
      if !applied.updated && !skipDelete {
        test.Cleanup(DeleteObject(client.id, KeyOf(content)));
      }
      return errs;
    }

    /** The first `n` objects have been applied with outcome `c`. */
    ghost predicate Reflects(test: T, c: Creation.Created, errs: seq<StepError>, n: nat, base: seq<Cleanup>)
      reads this, client, test
    {
      && n <= |apply| && client.world == c.world && apply[..n] == c.objects
      && errs == AllFailed(c.errs) && test.cleanups == base + c.cleanups
    }

    /** Applies the objects in order, registering a clean-up for each one that was created. */
    method Create(test: T, namespace: string, applier: Creation.Applier) returns (errs: seq<StepError>)
      requires test as object != this && test as object != client
      modifies this`apply, client, test
      ensures var c := Creation.CreatePhase(Reach(), old(client.world), old(apply), namespace, applier, skipDelete);
        client.world == c.world && apply == c.objects && errs == AllFailed(c.errs)
          && test.cleanups == old(test.cleanups) + c.cleanups
      ensures test.failed == old(test.failed)
    {
      if clientErr.Some? {
        return [Failed(clientErr.value)];
      }
      if discoveryErr.Some? {
        return [Failed(discoveryErr.value)];
      }
      errs := [];
      ghost var w0, os, base := client.world, apply, test.cleanups;
      ghost var c := Creation.CreateAll(Reach(), w0, [], namespace, applier, skipDelete);
      for i := 0 to |apply|
        invariant |apply| == |os| && forall j :: i <= j < |os| ==> apply[j] == os[j]
        invariant c == Creation.CreateAll(Reach(), w0, os[..i], namespace, applier, skipDelete)
        invariant Reflects(test, c, errs, i, base)
        invariant test.failed == old(test.failed)
      {
        Creation.CreateAllNext(Reach(), w0, os, i, namespace, applier, skipDelete);
        errs := CreateOne(test, namespace, applier, i, errs, base, c);
        c := Creation.CreateAll(Reach(), w0, os[..i + 1], namespace, applier, skipDelete);
      }
      assert os[..|os|] == os && apply[..|apply|] == apply;
    }

    // ----- checking -----

    /** Fills in the namespace and finds the candidates: by name when there is one, otherwise by kind and labels. */
    method FindCandidates(expected: Object, namespace: string)
      returns (resolved: Object, found: Result<seq<Fields>, Error>)
      modifies client
      ensures var l := Seek(Reach(), old(client.world), expected.content, namespace);
        client.world == l.world && resolved == expected.(content := l.content) && found == l.found
    {
      if clientErr.Some? {
        return expected, Err(clientErr.value);
      }
      if discoveryErr.Some? {
        return expected, Err(discoveryErr.value);
      }
      var r := Namespaced(client.env.disc, expected.content, namespace);
      if r.Err? {
        return expected, Err(r.error);
      }
      var content := r.value.content;
      resolved := expected.(content := content);
      if r.value.name != "" {
        var got := client.Get(Objects.Key(GvkOf(content), r.value.namespace, r.value.name));
        found := if got.Ok? then Ok([got.value]) else Err(got.error);
      } else {
        found := client.List(GvkOf(content), r.value.namespace, LabelsOf(content));
      }
    }

    /** One superset among the candidates is enough. */
    method CheckResource(expected: Object, namespace: string) returns (resolved: Object, errs: seq<StepError>)
      modifies client
      ensures var l := Seek(Reach(), old(client.world), expected.content, namespace);
        && client.world == l.world && resolved == expected.(content := l.content)
        && (errs == [] <==> Matches(l)) && (AnyTimeout(errs) <==> TimedOut(l))
        && (l.found.Err? ==> errs == [Failed(l.found.error)])
        && (l.found == Ok([]) ==> errs == [NoneMatched])
        && (l.found.Ok? && l.found.value != [] && errs != [] ==> Explains(errs, l.content, l.found.value))
    {
      var found;
      resolved, found := FindCandidates(expected, namespace);
      if found.Err? {
        errs := [Failed(found.error)];
        assert Failed(found.error) in errs;
        return;
      }
      if |found.value| == 0 {
        return resolved, [NoneMatched];
      }
      errs := CompareAll(resolved.content, found.value);
    }

    /** The negative assertion: nothing that is found may be a superset. */
    method CheckResourceAbsent(expected: Object, namespace: string) returns (resolved: Object, err: Option<StepError>)
      modifies client
      ensures var l := Seek(Reach(), old(client.world), expected.content, namespace);
        && client.world == l.world && resolved == expected.(content := l.content)
        && (err.None? <==> AcceptsAbsence(l)) && (err.Some? && IsTimeout(err.value) <==> TimedOut(l))
        && (err.Some? ==> err == Some(Failed(if l.found.Err? then l.found.error else Invalid)))
    {
      var found;
      resolved, found := FindCandidates(expected, namespace);
      err := None;
      if found.Err? {
        if !Has(found.error, NotFound) {
          err := Some(Failed(found.error));
        }
        return;
      }
      var unexpected := CountSupersets(resolved.content, found.value);
      if unexpected != 0 {
        err := Some(Failed(Invalid));
      }
    }

    /** One more positive assertion. */
    method CheckOne(expected: Object, namespace: string, errs: seq<StepError>, ghost v: Verdict)
      returns (resolved: Object, more: seq<StepError>, ghost next: Verdict, ghost part: seq<StepError>)
      requires client.world == v.world && Agrees(errs, v)
      modifies client
      ensures next == CheckNext(Reach(), v, Present, expected, namespace)
      ensures client.world == next.world && next.objects == v.objects + [resolved] && Agrees(more, next)
      ensures more == errs + part && Tells(Present, Seek(Reach(), v.world, expected.content, namespace), part)
    {
      next := CheckNext(Reach(), v, Present, expected, namespace);
      var found;
      resolved, found := CheckResource(expected, namespace);
      AnyTimeoutAppend(errs, found);
      more := errs + found;
      part := found;
    }

    /** One more negative assertion. */
    method CheckOneAbsent(expected: Object, namespace: string, errs: seq<StepError>, ghost v: Verdict)
      returns (resolved: Object, more: seq<StepError>, ghost next: Verdict, ghost part: seq<StepError>)
      requires client.world == v.world && Agrees(errs, v)
      modifies client
      ensures next == CheckNext(Reach(), v, Absent, expected, namespace)
      ensures client.world == next.world && next.objects == v.objects + [resolved] && Agrees(more, next)
      ensures more == errs + part && Tells(Absent, Seek(Reach(), v.world, expected.content, namespace), part)
    {
      next := CheckNext(Reach(), v, Absent, expected, namespace);
      var err;
      resolved, err := CheckResourceAbsent(expected, namespace);
      more, part := errs, [];
      if err.Some? {
        AnyTimeoutAppend(errs, [err.value]);
        assert err.value in [err.value];
        part := [err.value];
        more := errs + [err.value];
      }
    }

    method CheckAsserts(namespace: string) returns (errs: seq<StepError>)
      modifies this`asserts, client
      ensures var v := CheckList(Reach(), old(client.world), Present, old(asserts), namespace);
        client.world == v.world && asserts == v.objects && Agrees(errs, v)
      ensures ListReported(Reach(), old(client.world), Present, old(asserts), namespace, errs)
    {
      errs := [];
      ghost var w0, os := client.world, asserts;
      ghost var v := CheckList(Reach(), w0, Present, [], namespace);
      ghost var parts := [];
      for i := 0 to |asserts|
        invariant |asserts| == |os| && forall j :: i <= j < |os| ==> asserts[j] == os[j]
        invariant v == CheckList(Reach(), w0, Present, os[..i], namespace)
        invariant client.world == v.world && asserts[..i] == v.objects && Agrees(errs, v)
        invariant Reported(Reach(), w0, Present, os, namespace, i, parts) && errs == Flat(parts)
      {
        CheckListNext(Reach(), w0, Present, os, i, namespace);
        var resolved;
        ghost var part;
        resolved, errs, v, part := CheckOne(asserts[i], namespace, errs, v);
        ReportedNext(Reach(), w0, Present, os, namespace, i, parts, part);
        parts := parts + [part];
        ghost var before := asserts;
        asserts := asserts[i := resolved];
        assert asserts[..i + 1] == before[..i] + [resolved];
      }
      assert os[..|os|] == os && asserts[..|asserts|] == asserts;
    }

    method CheckErrors(namespace: string) returns (errs: seq<StepError>)
      modifies this`errors, client
      ensures var v := CheckList(Reach(), old(client.world), Absent, old(errors), namespace);
        client.world == v.world && errors == v.objects && Agrees(errs, v)
      ensures ListReported(Reach(), old(client.world), Absent, old(errors), namespace, errs)
    {
      errs := [];
      ghost var w0, os := client.world, errors;
      ghost var v := CheckList(Reach(), w0, Absent, [], namespace);
      ghost var parts := [];
      for i := 0 to |errors|
        invariant |errors| == |os| && forall j :: i <= j < |os| ==> errors[j] == os[j]
        invariant v == CheckList(Reach(), w0, Absent, os[..i], namespace)
        invariant client.world == v.world && errors[..i] == v.objects && Agrees(errs, v)
        invariant Reported(Reach(), w0, Absent, os, namespace, i, parts) && errs == Flat(parts)
      {
        CheckListNext(Reach(), w0, Absent, os, i, namespace);
        var resolved;
        ghost var part;
        resolved, errs, v, part := CheckOneAbsent(errors[i], namespace, errs, v);
        ReportedNext(Reach(), w0, Absent, os, namespace, i, parts, part);
        parts := parts + [part];
        ghost var before := errors;
        errors := errors[i := resolved];
        assert errors[..i + 1] == before[..i] + [resolved];
      }
      assert os[..|os|] == os && errors[..|errors|] == errors;
    }

    /** One round of checks; `probes` are the errors of the TestAssert's commands and expressions in this round. */
    method Check(namespace: string, probes: seq<Error>) returns (errs: seq<StepError>)
      modifies this`asserts, this`errors, client
      ensures var r := CheckAll(Reach(), Round(old(client.world), old(asserts), old(errors), true, false),
                                Probed(probes), namespace);
        client.world == r.world && asserts == r.asserts && errors == r.errors && (errs == [] <==> r.ok)
          && (AnyTimeout(errs) <==> r.deadline)
      ensures RoundReported(Reach(), Round(old(client.world), old(asserts), old(errors), true, false), Probed(probes),
        namespace, errs)
    {
      var present := CheckAsserts(namespace);
      errs := present;
      if assertion.Some? {
        AnyTimeoutAppend(errs, AllFailed(probes));
        AnyTimeoutFailed(probes);
        errs := errs + AllFailed(probes);
      }
      var absent := CheckErrors(namespace);
      AnyTimeoutAppend(errs, absent);
      errs := errs + absent;
      assert errs == present + AllFailed(Probed(probes)) + absent;
    }

    /** Commands and expressions are run only when there is a TestAssert. */
    function Probed(probes: seq<Error>): seq<Error>
      reads this
    {
      if assertion.Some? then probes else []
    }

    // ----- running -----

    /** Runs the step: delete, run commands, create, then check in rounds until one passes or time is up. `polls`,
        `commandsErr`, `applier`, `probes` and `elapsed` are what the outside world answers. */
    method Run(test: T, namespace: string, polls: nat, commandsErr: Option<Error>, applier: Creation.Applier,
               probes: nat -> seq<Error>, elapsed: nat -> real) returns (errs: seq<StepError>, ghost rounds: nat)
      requires Clock(elapsed) && test as object != this && test as object != client
      modifies this`apply, this`asserts, this`errors, client, test
      ensures test.failed == old(test.failed)
      ensures
        var s := Script(Reach(), step, old(apply), old(asserts), old(errors), namespace, skipDelete, polls,
                        commandsErr, applier, ProbesWhen(assertion.Some?, probes), rounds);
        var ended := EndsAs(s, old(client.world), GetTimeout(), elapsed,
                            Ending(client.world, apply, asserts, errors, errs));
        ended && test.cleanups == old(test.cleanups) + Played(s, old(client.world)).1
      ensures assertion.Some? && rounds > 0 && probes(rounds - 1) != [] ==> errs != []
    {
      ghost var s, w := Script(Reach(), step, apply, asserts, errors, namespace, skipDelete, polls, commandsErr,
                               applier, ProbesWhen(assertion.Some?, probes), 0), client.world;
      rounds := 0;
      errs := Prepare(test, namespace, polls, commandsErr, applier);
      ghost var more := test.cleanups[|old(test.cleanups)|..];
      errs, s := Finish(errs, namespace, probes, elapsed, s, w, more);
      rounds := s.rounds;
    }

    /** The rest of Run: the checks, unless something failed before. So far the run of `s` from the world `w` has come,
        with these clean-ups. */
    method Finish(failures: seq<StepError>, namespace: string, probes: nat -> seq<Error>, elapsed: nat -> real,
                  ghost s: Script, ghost w: World, ghost cleanups: seq<Cleanup>)
      returns (errs: seq<StepError>, ghost t: Script)
      requires Clock(elapsed) && s.access == Reach() && s.asserts == asserts && s.errors == errors
      requires s.namespace == namespace && s.probes == ProbesWhen(assertion.Some?, probes) && s.rounds == 0
      requires PreparedBy(s, w, Ending(client.world, apply, asserts, errors, failures), cleanups)
      modifies this`asserts, this`errors, client
      ensures t == s.(rounds := t.rounds) && Played(t, w).1 == cleanups
      ensures EndsAs(t, w, GetTimeout(), elapsed, Ending(client.world, apply, asserts, errors, errs))
      ensures assertion.Some? && t.rounds > 0 && probes(t.rounds - 1) != [] ==> errs != []
    {
      if |failures| != 0 {
        EndsEarly(s, w, GetTimeout(), elapsed, Ending(client.world, apply, asserts, errors, failures), cleanups);
        return failures, s;
      }
      errs, t := FinishChecks(namespace, probes, elapsed, s, w, cleanups);
    }

    method FinishChecks(namespace: string, probes: nat -> seq<Error>, elapsed: nat -> real, ghost s: Script,
                        ghost w: World, ghost cleanups: seq<Cleanup>) returns (errs: seq<StepError>, ghost t: Script)
      requires Clock(elapsed) && s.access == Reach() && s.asserts == asserts && s.errors == errors
      requires s.namespace == namespace && s.probes == ProbesWhen(assertion.Some?, probes)
      requires PreparedBy(s, w, Ending(client.world, apply, asserts, errors, []), cleanups)
      modifies this`asserts, this`errors, client
      ensures t == s.(rounds := t.rounds) && Played(t, w).1 == cleanups
      ensures EndsAs(t, w, GetTimeout(), elapsed, Ending(client.world, apply, asserts, errors, errs))
      ensures assertion.Some? && t.rounds > 0 && probes(t.rounds - 1) != [] ==> errs != []
    {
      ghost var applied, rounds := Ending(client.world, apply, asserts, errors, []), 0;
      errs, rounds := CheckUntil(namespace, probes, elapsed);
      t := s.(rounds := rounds);
      EndsChecked(t, w, GetTimeout(), elapsed, applied, Ending(client.world, apply, asserts, errors, errs), cleanups);
    }

    /** The part of Run before its checks. */
    method Prepare(test: T, namespace: string, polls: nat, commandsErr: Option<Error>, applier: Creation.Applier)
      returns (errs: seq<StepError>)
      requires test as object != this && test as object != client
      modifies this`apply, client, test
      ensures test.failed == old(test.failed) && old(test.cleanups) <= test.cleanups
      ensures Prepared(Reach(), step, old(apply), namespace, skipDelete, polls, commandsErr, applier, old(client.world),
                       Ending(client.world, apply, asserts, errors, errs), test.cleanups[|old(test.cleanups)|..])
    {
      var err := DeleteExisting(namespace, polls);
      if err.Some? {
        return [Failed(err.value)];
      }
      errs := [];
      if step.Some? && commandsErr.Some? {
        errs := [Failed(commandsErr.value)];
      }
      var more := Create(test, namespace, applier);
      errs := errs + more;
    }

    /** The loop of Run: rounds of checks, at least a second apart, until one finds no errors, one times out, or time is
        up. */
    method CheckUntil(namespace: string, probes: nat -> seq<Error>, elapsed: nat -> real)
      returns (errs: seq<StepError>, ghost rounds: nat)
      requires Clock(elapsed)
      modifies this`asserts, this`errors, client
      ensures var start := Round(old(client.world), old(asserts), old(errors), true, false);
        var p := ProbesWhen(assertion.Some?, probes);
        && Makes(Reach(), start, p, namespace, GetTimeout(), elapsed, rounds)
        && At(RoundAfter(Reach(), start, p, namespace, rounds))
        && LastReported(Reach(), start, p, namespace, rounds, errs)
    {
      ghost var start := Round(client.world, asserts, errors, true, false);
      ghost var p := ProbesWhen(assertion.Some?, probes);
      ghost var r := start;
      var timeout := GetTimeout();
      var k: nat := 0;
      var stop := false;
      errs := [];
      RoundedFirst(Reach(), start, p, namespace, timeout, elapsed);
      while !stop && elapsed(k) < timeout as real
        invariant Rounded(Reach(), start, p, namespace, timeout, elapsed, k, r, errs)
        invariant At(r) && (stop <==> k > 0 && Ends(r))
        decreases timeout - k
      {
        ClockAdvances(elapsed, k);
        ghost var last, before := r, errs;
        r := CheckAll(Reach(), r, p(k), namespace);
        errs, stop := OneRound(namespace, probes(k), last);
        RoundedNext(Reach(), start, p, namespace, timeout, elapsed, k, last, before, errs);
        k := k + 1;
      }
      rounds := k;
    }

    /** What a round is about is in this state. */
    ghost predicate At(r: Round)
      reads this, client
    {
      client.world == r.world && asserts == r.asserts && errors == r.errors
    }

    /** One round, and whether it ends the loop: no errors, or one that wraps a deadline. */
    method OneRound(namespace: string, probes: seq<Error>, ghost r: Round) returns (errs: seq<StepError>, stop: bool)
      requires At(r)
      modifies this`asserts, this`errors, client
      ensures var next := CheckAll(Reach(), r, Probed(probes), namespace);
        At(next) && (errs == [] <==> next.ok) && (AnyTimeout(errs) <==> next.deadline) && (stop <==> Ends(next))
      ensures RoundReported(Reach(), r, Probed(probes), namespace, errs)
    {
      CheckAllFrom(Reach(), r, Round(client.world, asserts, errors, true, false), Probed(probes), namespace);
      errs := Check(namespace, probes);
      var timedOut := HasTimeoutErr(errs);
      stop := |errs| == 0 || timedOut;
    }
  }

  /** The candidate loop of CheckResource: no errors as soon as one candidate is a superset. */
  method CompareAll(content: Fields, actuals: seq<Fields>) returns (errs: seq<StepError>)
    requires actuals != []
    ensures errs == [] <==> AnySuperset(content, actuals)
    ensures errs != [] ==> Explains(errs, content, actuals)
    ensures !AnyTimeout(errs)
  {
    errs := [];
    for i := 0 to |actuals|
      invariant Explains(errs, content, actuals[..i]) && !AnyTimeout(errs)
      invariant forall j :: 0 <= j < i ==> !Subset.IsSubsetOf(Obj(content), Obj(actuals[j]))
    {
      var err := Subset.IsSubset(Obj(content), Obj(actuals[i]));
      if err == null {
        return [];
      }
      ExplainsNext(errs, content, actuals, i, Reversed(err.path), err.message);
      errs := errs + [Difference, NotSubset(Reversed(err.path), err.message)];
    }
    assert actuals[..|actuals|] == actuals;
  }

  /** The candidate loop of CheckResourceAbsent. */
  method CountSupersets(content: Fields, actuals: seq<Fields>) returns (n: nat)
    ensures n > 0 <==> AnySuperset(content, actuals)
    ensures n <= |actuals|
  {
    n := 0;
    for i := 0 to |actuals|
      invariant n <= i && (n == 0 <==> forall j :: 0 <= j < i ==> !Subset.IsSubsetOf(Obj(content), Obj(actuals[j])))
    {
      var mismatch := Subset.IsSubset(Obj(content), Obj(actuals[i]));
      if mismatch == null {
        n := n + 1;
      }
    }
  }

  // ----- an error in a prefix of a list is the error of the whole list -----

  lemma {:induction false} SiftStopped(lib: Library, os: seq<Object>, i: nat)
    requires i <= |os| && Sift(lib, os[..i]).Err?
    ensures Sift(lib, os) == Sift(lib, os[..i])
    decreases |os|
  {
    if i < |os| {
      assert os[..|os| - 1][..i] == os[..i];
      SiftStopped(lib, os[..|os| - 1], i);
    } else {
      assert os[..i] == os;
    }
  }

  lemma {:induction false} ExpandStopped(lib: Library, paths: seq<string>, i: nat)
    requires i <= |paths| && Expand(lib, paths[..i]).Err?
    ensures Expand(lib, paths) == Expand(lib, paths[..i])
    decreases |paths|
  {
    if i < |paths| {
      assert paths[..|paths| - 1][..i] == paths[..i];
      ExpandStopped(lib, paths[..|paths| - 1], i);
    } else {
      assert paths[..i] == paths;
    }
  }

  lemma {:induction false} TakeAssertsStopped(lib: Library, s: StepState, os: seq<Object>, i: nat)
    requires i <= |os| && TakeAsserts(lib, s, os[..i]).Err?
    ensures TakeAsserts(lib, s, os) == TakeAsserts(lib, s, os[..i])
    decreases |os|
  {
    if i < |os| {
      assert os[..|os| - 1][..i] == os[..i];
      TakeAssertsStopped(lib, s, os[..|os| - 1], i);
    } else {
      assert os[..i] == os;
    }
  }

  lemma {:induction false} TakeStepStopped(lib: Library, s: StepState, os: seq<Object>, i: nat)
    requires i <= |os| && TakeStep(lib, s, os[..i]).Err?
    ensures TakeStep(lib, s, os) == TakeStep(lib, s, os[..i])
    decreases |os|
  {
    if i < |os| {
      assert os[..|os| - 1][..i] == os[..i];
      TakeStepStopped(lib, s, os[..|os| - 1], i);
    } else {
      assert os[..i] == os;
    }
  }
}
