/** Elision of long fields an assertion does not mention, before the diff is printed. */
module Prune {
  import opened Json
  import opened Outcomes
  import opened Subset

  const MAX_LINES := 10
  const MARKER := Str("[... elided field over 10 lines long ...]")

  /** Number of lines a field takes when printed as YAML, or None when it cannot be printed. */
  type LineCount = (string, Value) -> Option<nat>

  predicate TooLong(lines: LineCount, k: string, v: Value)
  {
    var n := lines(k, v);
    n.Some? && n.value >= MAX_LINES
  }

  function Pruned(expected: Fields, actual: Fields, lines: LineCount): Fields
    decreases Obj(actual)
  {
    map k | k in actual ::
      if k in expected then
        (if expected[k].Obj? && actual[k].Obj?
         then Obj(Pruned(expected[k].fields, actual[k].fields, lines)) else actual[k])
      else if TooLong(lines, k, actual[k]) then MARKER
      else actual[k]
  }

  /** Nested maps first; long additions are collected and then overwritten. */
  method Prune(expected: Fields, actual: Fields, lines: LineCount) returns (pruned: Fields)
    ensures pruned == Pruned(expected, actual, lines)
    decreases Obj(actual), 1
  {
    var nested, toRemove := PruneNested(expected, actual, lines);
    pruned := Overwrite(nested, toRemove);
  }

  /** The loop over the actual keys. */
  method PruneNested(expected: Fields, actual: Fields, lines: LineCount) returns (pruned: Fields, toRemove: seq<string>)
    ensures pruned.Keys == actual.Keys
    ensures forall k :: k in actual ==>
      pruned[k] == if k in expected then Pruned(expected, actual, lines)[k] else actual[k]
    ensures forall k :: k in toRemove <==> k in actual && k !in expected && TooLong(lines, k, actual[k])
    decreases Obj(actual), 0
  {
    pruned, toRemove := actual, [];
    var keys := actual.Keys;
    while keys != {}
      invariant keys <= actual.Keys == pruned.Keys
      invariant forall k :: k in actual ==>
        pruned[k] == if k in expected && k !in keys then Pruned(expected, actual, lines)[k] else actual[k]
      invariant forall k :: k in toRemove <==>
        k in actual && k !in keys && k !in expected && TooLong(lines, k, actual[k])
      decreases |keys|
    {
      var k :| k in keys;
      keys := keys - {k};
      if k in expected {
        if actual[k].Obj? && expected[k].Obj? {
          var nested := Prune(expected[k].fields, actual[k].fields, lines);
          pruned := pruned[k := Obj(nested)];
        }
        continue;
      }
      var numLines := lines(k, actual[k]);
      if numLines.None? || numLines.value < MAX_LINES {
        continue;
      }
      toRemove := toRemove + [k];
    }
  }

  /** The loop over the collected keys. */
  method Overwrite(fields: Fields, keys: seq<string>) returns (pruned: Fields)
    ensures pruned.Keys == fields.Keys + (set k | k in keys)
    ensures forall k :: k in pruned ==> pruned[k] == if k in keys then MARKER else fields[k]
  {
    pruned := fields;
    for i := 0 to |keys|
      invariant pruned.Keys == fields.Keys + (set k | k in keys[..i])
      invariant forall k :: k in pruned ==> pruned[k] == if k in keys[..i] then MARKER else fields[k]
    {
      assert keys[..i + 1] == keys[..i] + [keys[i]];
      pruned := pruned[keys[i] := MARKER];
    }
    assert keys[..|keys|] == keys;
  }

  // ----- what pruning preserves -----

  /** The same errors can be reported before and after pruning, so the diff explains the same failure. */
  lemma {:induction false} PruneKeepsReports(expected: Fields, actual: Fields, lines: LineCount, path: seq<string>,
                                             reason: Reason)
    ensures CanReport(path, reason, Obj(expected), Obj(Pruned(expected, actual, lines))) <==>
            CanReport(path, reason, Obj(expected), Obj(actual))
    decreases Obj(actual)
  {
    if path != [] && path[0] in expected && path[0] in actual && expected[path[0]].Obj? && actual[path[0]].Obj? {
      PruneKeepsReports(expected[path[0]].fields, actual[path[0]].fields, lines, path[1..], reason);
    }
  }

  /** Pruning never changes the verdict of an assertion. */
  lemma PruneKeepsVerdict(expected: Fields, actual: Fields, lines: LineCount)
    ensures IsSubsetOf(Obj(expected), Obj(Pruned(expected, actual, lines))) <==> IsSubsetOf(Obj(expected), Obj(actual))
  {
    var e, before, after := Obj(expected), Obj(actual), Obj(Pruned(expected, actual, lines));
    if !IsSubsetOf(e, before) {
      var path, reason := SomeReport(e, before);
      PruneKeepsReports(expected, actual, lines, path, reason);
      ReportRefutes(path, reason, e, after);
    }
    if !IsSubsetOf(e, after) {
      var path, reason := SomeReport(e, after);
      PruneKeepsReports(expected, actual, lines, path, reason);
      ReportRefutes(path, reason, e, before);
    }
  }

  /** Wherever a walk meets a map on both sides, the pruned map has the actual keys: a key the assertion does not
      mention is elided exactly when it is known to take 10 lines or more, and any other value is kept as it was. */
  lemma {:induction false} PruneOnlyElides(expected: Fields, actual: Fields, lines: LineCount, route: seq<Hop>,
                                           e: Fields, a: Fields)
    requires forall i :: 0 <= i < |route| ==> route[i].Field?
    requires Walk(Obj(expected), route) == Some(Obj(e)) && Walk(Obj(actual), route) == Some(Obj(a))
    ensures var p := Walk(Obj(Pruned(expected, actual, lines)), route);
      p.Some? && p.value.Obj? && p.value.fields.Keys == a.Keys &&
      forall k :: k in a ==>
        (k !in e && lines(k, a[k]).Some? && lines(k, a[k]).value >= 10 ==> p.value.fields[k] == MARKER) &&
        (k !in e && !(lines(k, a[k]).Some? && lines(k, a[k]).value >= 10) ==> p.value.fields[k] == a[k]) &&
        (k in e && !(e[k].Obj? && a[k].Obj?) ==> p.value.fields[k] == a[k])
    decreases |route|
  {
    if route == [] {
    } else {
      var k := route[0].key;
      PruneOnlyElides(expected[k].fields, actual[k].fields, lines, route[1..], e, a);
    }
  }

  /** Pruning twice is pruning once, provided the marker itself is short. */
  lemma {:induction false} PruneIdempotent(expected: Fields, actual: Fields, lines: LineCount)
    requires forall k :: !TooLong(lines, k, MARKER)
    ensures Pruned(expected, Pruned(expected, actual, lines), lines) == Pruned(expected, actual, lines)
    decreases Obj(actual)
  {
    var once := Pruned(expected, actual, lines);
    forall k | k in once ensures Pruned(expected, once, lines)[k] == once[k] {
      if k in expected && expected[k].Obj? && actual[k].Obj? {
        PruneIdempotent(expected[k].fields, actual[k].fields, lines);
      }
    }
    assert Pruned(expected, once, lines) == once;
  }
}
