/** Grouping the entries of a test directory into steps, and loading the steps. */
module StepFiles {
  import opened Outcomes
  import opened Errors
  import opened FileName
  import opened Loading
  import opened Steps
  import opened Cluster
  import opened Seqs
  import Order

  /** A directory entry; a directory's own entries are read later, which may fail. */
  datatype Entry = Entry(name: string, isDir: bool, children: Result<seq<string>, Error>)

  /** filepath.Match, on patterns that were validated before. */
  type Matcher = (string, string) -> bool

  predicate MatchesAny(matcher: Matcher, name: string, patterns: seq<string>)
  {
    exists i :: 0 <= i < |patterns| && matcher(patterns[i], name)
  }

  method MatchesAnyPattern(matcher: Matcher, name: string, patterns: seq<string>) returns (b: bool)
    ensures b == MatchesAny(matcher, name, patterns)
  {
    for i := 0 to |patterns|
      invariant forall j :: 0 <= j < i ==> !matcher(patterns[j], name)
    {
      if matcher(patterns[i], name) {
        return true;
      }
    }
    return false;
  }

  /** filepath.Join of a clean directory and a plain name. */
  function JoinPath(dir: string, name: string): string { dir + "/" + name }

  /** An entry belongs to a step unless it is ignored, unrecognizable, or has no number. */
  predicate Accepted(matcher: Matcher, patterns: seq<string>, e: Entry)
  {
    !MatchesAny(matcher, e.name, patterns) && !Parse(e.name).fileType.TypeUnknown? && Parse(e.name).hasIndex
  }

  function IndexOfEntry(e: Entry): nat { Parse(e.name).index }

  function JoinAll(dir: string, names: seq<string>): (r: seq<string>)
    ensures |r| == |names|
  {
    seq(|names|, i requires 0 <= i < |names| => JoinPath(dir, names[i]))
  }

  /** The files an entry stands for: itself, or what the directory holds. */
  function FilesOf(dir: string, e: Entry): seq<string>
  {
    var path := JoinPath(dir, e.name);
    if !e.isDir then [path] else if e.children.Ok? then JoinAll(path, e.children.value) else []
  }

  type Groups = map<nat, seq<string>>

  function Appended(groups: Groups, index: nat, files: seq<string>): Groups
  {
    groups[index := (if index in groups then groups[index] else []) + files]
  }

  /** The files of one step: those of its accepted entries, in directory order. */
  function StepFilesOf(matcher: Matcher, patterns: seq<string>, dir: string, es: seq<Entry>, index: nat): seq<string>
  {
    if es == [] then []
    else
      var last := es[|es| - 1];
      StepFilesOf(matcher, patterns, dir, es[..|es| - 1], index)
      + if Accepted(matcher, patterns, last) && IndexOfEntry(last) == index then FilesOf(dir, last) else []
  }

  ghost predicate HasEntry(matcher: Matcher, patterns: seq<string>, es: seq<Entry>, index: nat)
  {
    exists e :: e in es && Accepted(matcher, patterns, e) && IndexOfEntry(e) == index
  }

  predicate Readable(matcher: Matcher, patterns: seq<string>, e: Entry)
  {
    Accepted(matcher, patterns, e) && e.isDir ==> e.children.Ok?
  }

  function FilesAt(groups: Groups, index: nat): seq<string>
  {
    if index in groups then groups[index] else []
  }

  /** The groups are those of some entries, all of which can be read. */
  ghost predicate Collects(matcher: Matcher, patterns: seq<string>, dir: string, es: seq<Entry>, groups: Groups)
  {
    && (forall e :: e in es ==> Readable(matcher, patterns, e))
    && (forall index :: index in groups <==> HasEntry(matcher, patterns, es, index))
    && (forall index :: FilesAt(groups, index) == StepFilesOf(matcher, patterns, dir, es, index))
  }

  /** The groups after one more entry: its files go to the group of its number if it is accepted. */
  function Extended(matcher: Matcher, patterns: seq<string>, dir: string, groups: Groups, e: Entry): Groups
  {
    if Accepted(matcher, patterns, e) then Appended(groups, IndexOfEntry(e), FilesOf(dir, e)) else groups
  }

  lemma GroupNext(matcher: Matcher, patterns: seq<string>, dir: string, es: seq<Entry>, groups: Groups, e: Entry,
                  index: nat)
    requires FilesAt(groups, index) == StepFilesOf(matcher, patterns, dir, es, index)
    ensures FilesAt(Extended(matcher, patterns, dir, groups, e), index) ==
      StepFilesOf(matcher, patterns, dir, es + [e], index)
  {
    assert (es + [e])[..|es|] == es;
  }

  lemma CollectsNext(matcher: Matcher, patterns: seq<string>, dir: string, es: seq<Entry>, groups: Groups, e: Entry)
    requires Collects(matcher, patterns, dir, es, groups) && Readable(matcher, patterns, e)
    ensures Collects(matcher, patterns, dir, es + [e], Extended(matcher, patterns, dir, groups, e))
  {
    var more := Extended(matcher, patterns, dir, groups, e);
    HasEntryAppend(matcher, patterns, es, e);
    forall index: nat ensures FilesAt(more, index) == StepFilesOf(matcher, patterns, dir, es + [e], index) {
      GroupNext(matcher, patterns, dir, es, groups, e, index);
    }
  }

  /** Collects a directory's files by step: each accepted entry goes to the list of its number, whole and in order. */
  method CollectTestStepFiles(matcher: Matcher, patterns: seq<string>, dir: string, listing: Result<seq<Entry>, Error>)
    returns (r: Result<Groups, Error>)
    ensures r.Ok? <==> listing.Ok? && forall e :: e in listing.value ==> Readable(matcher, patterns, e)
    ensures r.Ok? ==> forall index :: index in r.value <==> HasEntry(matcher, patterns, listing.value, index)
    ensures r.Ok? ==>
      forall index :: index in r.value ==> r.value[index] == StepFilesOf(matcher, patterns, dir, listing.value, index)
  {
    if listing.Err? {
      return Err(listing.error);
    }
    var es := listing.value;
    var groups: Groups := map[];
    for i := 0 to |es|
      invariant Collects(matcher, patterns, dir, es[..i], groups)
    {
      var e := es[i];
      assert es[..i + 1] == es[..i] + [e];
      if Readable(matcher, patterns, e) { CollectsNext(matcher, patterns, dir, es[..i], groups, e); }
      var ignored := MatchesAnyPattern(matcher, e.name, patterns);
      if ignored {
        continue;
      }
      var f := Parse(e.name);
      if f.fileType == TypeUnknown || !f.hasIndex {
        continue;
      }
      var names: seq<string> := [];
      if e.isDir {
        if e.children.Err? {
          assert !Readable(matcher, patterns, e);
          return Err(e.children.error);
        }
        names := names + JoinAll(JoinPath(dir, e.name), e.children.value);
      } else {
        names := names + [JoinPath(dir, e.name)];
      }
      assert names == FilesOf(dir, e);
      groups := Appended(groups, f.index, names);
    }
    assert es[..|es|] == es;
    return Ok(groups);
  }

  lemma HasEntryAppend(matcher: Matcher, patterns: seq<string>, es: seq<Entry>, e: Entry)
    ensures forall index :: HasEntry(matcher, patterns, es + [e], index) <==>
      HasEntry(matcher, patterns, es, index) || (Accepted(matcher, patterns, e) && IndexOfEntry(e) == index)
  {
  }

  predicate BelongsTo(matcher: Matcher, patterns: seq<string>, e: Entry, index: nat)
  {
    Accepted(matcher, patterns, e) && IndexOfEntry(e) == index
  }

  /** An entry belongs to the step of the number that its name starts with, if the name follows the expression, the
      number is below 2^31 and no pattern excludes it. */
  lemma AcceptedExactly(matcher: Matcher, patterns: seq<string>, e: Entry, index: nat)
    requires IsName(e.name)
    ensures BelongsTo(matcher, patterns, e, index) <==>
      && (forall i :: 0 <= i < |patterns| ==> !matcher(patterns[i], e.name))
      && index < 0x8000_0000 && exists g :: Decomposes(e.name, g) && Numbers(g.number, index)
  {
    NumberExactly(e.name, index);
    assert BelongsTo(matcher, patterns, e, index) <==>
      !MatchesAny(matcher, e.name, patterns) && HasNumber(Parse(e.name), index);
  }

  /** The files that a directory entry stands for: itself, or all that the directory holds; none where that cannot be
      read. */
  predicate HeldBy(dir: string, e: Entry, files: seq<string>)
  {
    if !e.isDir then files == [dir + "/" + e.name]
    else if e.children.Err? then files == []
    else |files| == |e.children.value| && forall i :: 0 <= i < |files| ==>
           files[i] == dir + "/" + e.name + "/" + e.children.value[i]
  }

  lemma FilesHeld(dir: string, e: Entry)
    ensures HeldBy(dir, e, FilesOf(dir, e))
  {
  }

  /** The step's entries among `es`, in order, and the files of each. */
  ghost predicate InOrder(matcher: Matcher, patterns: seq<string>, dir: string, es: seq<Entry>, index: nat,
                          picked: seq<Entry>, at: seq<nat>, parts: seq<seq<string>>)
  {
    && Picks(es, (e: Entry) => BelongsTo(matcher, patterns, e, index), picked, at) && |parts| == |picked|
    && forall i :: 0 <= i < |picked| ==> HeldBy(dir, picked[i], parts[i])
  }

  lemma InOrderNext(matcher: Matcher, patterns: seq<string>, dir: string, es: seq<Entry>, index: nat,
                    picked: seq<Entry>, at: seq<nat>, parts: seq<seq<string>>)
    requires es != [] && InOrder(matcher, patterns, dir, es[..|es| - 1], index, picked, at, parts)
    ensures var last, n := es[|es| - 1], |es| - 1;
      if BelongsTo(matcher, patterns, last, index)
      then InOrder(matcher, patterns, dir, es, index, picked + [last], at + [n], parts + [FilesOf(dir, last)])
      else InOrder(matcher, patterns, dir, es, index, picked, at, parts)
  {
    var keep := (e: Entry) => BelongsTo(matcher, patterns, e, index);
    if keep(es[|es| - 1]) {
      PicksOneMore(es, keep, picked, at);
      FilesHeld(dir, es[|es| - 1]);
    } else {
      PicksNoMore(es, keep, picked, at);
    }
  }

  /** A step's files are those of its accepted entries, entry by entry in directory order. */
  lemma {:induction false} StepFilesInOrder(matcher: Matcher, patterns: seq<string>, dir: string, es: seq<Entry>,
                                            index: nat)
    returns (picked: seq<Entry>, at: seq<nat>, parts: seq<seq<string>>)
    ensures InOrder(matcher, patterns, dir, es, index, picked, at, parts)
    ensures StepFilesOf(matcher, patterns, dir, es, index) == Flat(parts)
  {
    picked, at, parts := [], [], [];
    if es == [] {
    } else {
      var n := |es| - 1;
      picked, at, parts := StepFilesInOrder(matcher, patterns, dir, es[..n], index);
      InOrderNext(matcher, patterns, dir, es, index, picked, at, parts);
      if BelongsTo(matcher, patterns, es[n], index) {
        FlatNext(parts, FilesOf(dir, es[n]));
        picked, at, parts := picked + [es[n]], at + [n], parts + [FilesOf(dir, es[n])];
      }
    }
  }

  // ----- loading -----

  function Infos(files: seq<string>): (r: seq<Info>)
    ensures |r| == |files|
  {
    seq(|files|, i requires 0 <= i < |files| => Parse(files[i]))
  }

  function Loaded(lib: Library, groups: Groups, index: nat): Result<StepState, Error>
    requires index in groups
  {
    LoadFiles(lib, Fresh(index), Infos(groups[index]))
  }

  /** What the steps of a test case must be, whatever order the groups were visited in. */
  ghost predicate AreSteps(lib: Library, groups: Groups, states: seq<StepState>)
  {
    && (forall i, j :: 0 <= i < j < |states| ==> states[i].index < states[j].index)
    && (forall i :: 0 <= i < |states| ==>
      states[i].index in groups && Loaded(lib, groups, states[i].index) == Ok(states[i]))
    && (forall index :: index in groups ==> exists i :: 0 <= i < |states| && states[i].index == index)
  }

  /** There is one step per number, and only one way to have them. */
  lemma {:induction false} StepsUnique(lib: Library, groups: Groups, xs: seq<StepState>, ys: seq<StepState>)
    requires AreSteps(lib, groups, xs) && AreSteps(lib, groups, ys)
    ensures xs == ys
  {
    var less := (a: StepState, b: StepState) => a.index < b.index;
    assert Order.StrictlySorted(less, xs) && Order.StrictlySorted(less, ys);
    forall x ensures x in xs <==> x in ys { StepsCover(lib, groups, xs, ys, x); StepsCover(lib, groups, ys, xs, x); }
    Order.SortedUnique(less, xs, ys);
  }

  lemma StepsCover(lib: Library, groups: Groups, xs: seq<StepState>, ys: seq<StepState>, x: StepState)
    requires AreSteps(lib, groups, xs) && AreSteps(lib, groups, ys)
    ensures x in xs ==> x in ys
  {
  }

  ghost function StatesOf(steps: seq<Step>): (r: seq<StepState>)
    reads steps
    ensures |r| == |steps| && forall i :: 0 <= i < |steps| ==> r[i] == steps[i].State()
  {
    seq(|steps|, i requires 0 <= i < |steps| reads steps => steps[i].State())
  }

  lemma {:induction false} LoadFilesStopped(lib: Library, s: StepState, infos: seq<Info>, i: nat)
    requires i <= |infos| && LoadFiles(lib, s, infos[..i]).Err?
    ensures LoadFiles(lib, s, infos) == LoadFiles(lib, s, infos[..i])
    decreases |infos|
  {
    if i < |infos| {
      assert infos[..|infos| - 1][..i] == infos[..i];
      LoadFilesStopped(lib, s, infos[..|infos| - 1], i);
    } else {
      assert infos[..i] == infos;
    }
  }

  /** One step from its files. */
  method LoadStep(lib: Library, index: nat, files: seq<string>, timeout: int, skipDelete: bool, client: Client)
    returns (step: Step, err: Option<Error>)
    ensures fresh(step) && step.index == index && step.lib == lib
    ensures match LoadFiles(lib, Fresh(index), Infos(files))
      case Ok(s) => err.None? && step.State() == s
      case Err(e) => err == Some(e)
  {
    step := new Step(index, timeout, skipDelete, lib, client, None, None);
    ghost var infos := Infos(files);
    for i := 0 to |files|
      invariant LoadFiles(lib, Fresh(index), infos[..i]) == Ok(step.State())
    {
      assert infos[..i + 1][..i] == infos[..i];
      err := step.LoadYAML(Parse(files[i]));
      if err.Some? {
        LoadFilesStopped(lib, Fresh(index), infos, i + 1);
        return;
      }
    }
    assert infos[..|files|] == infos;
    return step, None;
  }

  /** Loads every group as a step, taking the groups in any order, and sorts the steps by number. */
  method LoadTestSteps(lib: Library, groups: Groups, timeout: int, skipDelete: bool, client: Client)
    returns (r: Result<seq<Step>, Error>)
    ensures r.Ok? <==> forall index :: index in groups ==> Loaded(lib, groups, index).Ok?
    ensures r.Ok? ==> AreSteps(lib, groups, StatesOf(r.value))
    ensures r.Err? ==> exists index :: index in groups && Loaded(lib, groups, index) == Err(r.error)
  {
    var steps: seq<Step> := [];
    var left := groups.Keys;
    while left != {}
      invariant left <= groups.Keys
      invariant StepsFor(lib, groups, groups.Keys - left, steps)
      decreases |left|
    {
      var index :| index in left;
      var step, err := LoadStep(lib, index, groups[index], timeout, skipDelete, client);
      if err.Some? {
        return Err(err.value);
      }
      StepsForAdd(lib, groups, groups.Keys - left, steps, step);
      assert groups.Keys - (left - {index}) == (groups.Keys - left) + {index};
      steps, left := steps + [step], left - {index};
    }
    assert groups.Keys - left == groups.Keys;
    var sorted := Order.Sort(StepIndex, Before, steps);
    SortedSteps(lib, groups, steps, sorted);
    AllLoaded(lib, groups, steps);
    return Ok(sorted);
  }

  /** One loaded step for each of the numbers in `done`. */
  ghost predicate StepsFor(lib: Library, groups: Groups, done: set<nat>, steps: seq<Step>)
    reads steps
  {
    && (forall i, j :: 0 <= i < j < |steps| ==> steps[i].index != steps[j].index)
    && (forall i :: 0 <= i < |steps| ==> IsLoaded(lib, groups, steps[i]) && steps[i].index in done)
    && (forall index :: index in done ==> exists i :: 0 <= i < |steps| && steps[i].index == index)
  }

  ghost predicate IsLoaded(lib: Library, groups: Groups, step: Step)
    reads step
  {
    step.index in groups && Loaded(lib, groups, step.index) == Ok(step.State())
  }

  lemma StepsForAdd(lib: Library, groups: Groups, done: set<nat>, steps: seq<Step>, step: Step)
    requires StepsFor(lib, groups, done, steps) && IsLoaded(lib, groups, step) && step.index !in done
    ensures StepsFor(lib, groups, done + {step.index}, steps + [step])
  {
    var more := steps + [step];
    assert more[|steps|] == step;
    assert forall i :: 0 <= i < |steps| ==> more[i] == steps[i];
    var now := done + {step.index};
    forall index | index in now ensures exists i :: 0 <= i < |more| && more[i].index == index {
      if index in done {
        var i :| 0 <= i < |steps| && steps[i].index == index;
        assert more[i].index == index;
      }
    }
  }

  lemma AllLoaded(lib: Library, groups: Groups, steps: seq<Step>)
    requires StepsFor(lib, groups, groups.Keys, steps)
    ensures forall index :: index in groups ==> Loaded(lib, groups, index).Ok?
  {
  }

  function StepIndex(s: Step): nat { s.index }

  predicate Before(i: nat, j: nat) { i < j }

  lemma StepsForPermuted(lib: Library, groups: Groups, steps: seq<Step>, sorted: seq<Step>)
    requires multiset(sorted) == multiset(steps) && StepsFor(lib, groups, groups.Keys, steps)
    ensures StepsFor(lib, groups, groups.Keys, sorted)
  {
    Order.DistinctPermuted(StepIndex, steps, sorted);
    forall i | 0 <= i < |sorted| ensures IsLoaded(lib, groups, sorted[i]) { assert sorted[i] in multiset(steps); }
    forall index | index in groups ensures exists i :: 0 <= i < |sorted| && sorted[i].index == index {
      var k :| 0 <= k < |steps| && steps[k].index == index;
      assert steps[k] in multiset(sorted);
      var i :| 0 <= i < |sorted| && sorted[i] == steps[k];
    }
  }

  /** Sorted steps with different numbers are strictly sorted; nothing is lost. */
  lemma SortedSteps(lib: Library, groups: Groups, steps: seq<Step>, sorted: seq<Step>)
    requires Order.SortedBy(StepIndex, Before, sorted) && multiset(sorted) == multiset(steps)
    requires StepsFor(lib, groups, groups.Keys, steps)
    ensures AreSteps(lib, groups, StatesOf(sorted))
  {
    StepsForPermuted(lib, groups, steps, sorted);
    var states := StatesOf(sorted);
    forall i | 0 <= i < |states|
      ensures states[i].index in groups && Loaded(lib, groups, states[i].index) == Ok(states[i])
    {
      assert IsLoaded(lib, groups, sorted[i]);
    }
    forall index | index in groups ensures exists i :: 0 <= i < |states| && states[i].index == index {
      var i :| 0 <= i < |sorted| && sorted[i].index == index;
      assert states[i].index == index;
    }
  }
}
