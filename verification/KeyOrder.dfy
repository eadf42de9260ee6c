/** The error that a comparison reports for a given order of the keys, and why pruning does not change it. */
module KeyOrder {
  import opened Json
  import opened Outcomes
  import opened Subset
  import opened Prune

  /** The order in which the keys of each expected map are met. */
  type Order = Fields -> seq<string>

  ghost predicate ListsKeys(order: Order)
  {
    forall f, k :: k in order(f) <==> k in f
  }

  /** What a comparison reports: the path, root to leaf and without list positions, and the reason. */
  datatype Report = Report(path: seq<string>, reason: Reason)

  /** The error of the comparison that meets keys in the given order; none when it passes. */
  function Reported(order: Order, e: Value, a: Value): Option<Report>
    decreases e, 1, 0
  {
    match (e, a)
    case (List(es), List(xs)) =>
      if |es| != |xs| then Some(Report([], LengthMismatch(|es|, |xs|))) else InItems(order, es, xs, 0)
    case (Obj(ef), Obj(af)) => InFields(order, order(ef), ef, af)
    case _ =>
      if e == a then None
      else if KindOf(e) != KindOf(a) then Some(Report([], TypeMismatch(KindOf(e), KindOf(a))))
      else Some(Report([], ValueMismatch(e, a)))
  }

  /** The first failing item from the i-th on. */
  function InItems(order: Order, es: seq<Value>, xs: seq<Value>, i: nat): Option<Report>
    requires i <= |es| == |xs|
    decreases List(es), 0, |es| - i
  {
    if i == |es| then None
    else if Reported(order, es[i], xs[i]).Some? then Reported(order, es[i], xs[i])
    else InItems(order, es, xs, i + 1)
  }

  /** The first failing key. */
  function InFields(order: Order, keys: seq<string>, ef: Fields, af: Fields): Option<Report>
    decreases Obj(ef), 0, |keys|
  {
    if keys == [] then None
    else if AtKey(order, keys[0], ef, af).Some? then AtKey(order, keys[0], ef, af)
    else InFields(order, keys[1..], ef, af)
  }

  function AtKey(order: Order, k: string, ef: Fields, af: Fields): Option<Report>
    decreases Obj(ef), 0, 0
  {
    if k !in ef then None
    else if k !in af then Some(Report([k], MissingKey))
    else
      match Reported(order, ef[k], af[k])
      case None => None
      case Some(r) => Some(Report([k] + r.path, r.reason))
  }

  // ----- it is one of the errors that can be reported -----

  ghost predicate Fits(r: Option<Report>, e: Value, a: Value)
  {
    if IsSubsetOf(e, a) then r.None? else r.Some? && CanReport(r.value.path, r.value.reason, e, a)
  }

  /** The comparison reports an error just when it fails, and then one that can be reported. */
  lemma {:induction false} ReportedFits(order: Order, e: Value, a: Value)
    requires ListsKeys(order)
    ensures Fits(Reported(order, e, a), e, a)
    decreases e, 1, 0
  {
    match (e, a)
    case (List(es), List(xs)) => if |es| == |xs| { ItemsFit(order, es, xs, 0); }
    case (Obj(ef), Obj(af)) => FieldsFit(order, order(ef), ef, af);
    case _ =>
  }

  lemma {:induction false} ItemsFit(order: Order, es: seq<Value>, xs: seq<Value>, i: nat)
    requires ListsKeys(order) && i <= |es| == |xs| && forall j :: 0 <= j < i ==> IsSubsetOf(es[j], xs[j])
    ensures Fits(InItems(order, es, xs, i), List(es), List(xs))
    decreases List(es), 0, |es| - i
  {
    if i == |es| {
    } else {
      ReportedFits(order, es[i], xs[i]);
      if IsSubsetOf(es[i], xs[i]) { ItemsFit(order, es, xs, i + 1); }
    }
  }

  lemma {:induction false} FieldsFit(order: Order, keys: seq<string>, ef: Fields, af: Fields)
    requires ListsKeys(order)
    requires forall k :: k in ef && k !in keys ==> k in af && IsSubsetOf(ef[k], af[k])
    ensures Fits(InFields(order, keys, ef, af), Obj(ef), Obj(af))
    decreases Obj(ef), 0, |keys|
  {
    if keys == [] {
    } else {
      var k := keys[0];
      if k in ef && k in af {
        ReportedFits(order, ef[k], af[k]);
        var r := Reported(order, ef[k], af[k]);
        if r.Some? { assert ([k] + r.value.path)[1..] == r.value.path; }
      }
      if AtKey(order, k, ef, af).None? { FieldsFit(order, keys[1..], ef, af); }
    }
  }

  // ----- pruning changes no report -----

  /** For the same key order the comparison reports the same error before and after pruning. */
  lemma {:induction false} PruneKeepsReport(order: Order, expected: Fields, actual: Fields, lines: LineCount)
    ensures Reported(order, Obj(expected), Obj(Pruned(expected, actual, lines))) ==
            Reported(order, Obj(expected), Obj(actual))
    decreases Obj(expected), 1, 0
  {
    PruneKeepsFields(order, order(expected), expected, actual, lines);
  }

  lemma {:induction false} PruneKeepsFields(order: Order, keys: seq<string>, expected: Fields, actual: Fields,
                                            lines: LineCount)
    ensures InFields(order, keys, expected, Pruned(expected, actual, lines)) == InFields(order, keys, expected, actual)
    decreases Obj(expected), 0, |keys|
  {
    if keys == [] {
    } else {
      var k := keys[0];
      if k in expected && k in actual && expected[k].Obj? && actual[k].Obj? {
        PruneKeepsReport(order, expected[k].fields, actual[k].fields, lines);
      }
      PruneKeepsFields(order, keys[1..], expected, actual, lines);
    }
  }
}
