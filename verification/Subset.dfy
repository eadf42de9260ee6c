/** The subset relation that decides every assertion, and the error that explains a failure. */
module Subset {
  import opened Json
  import opened Outcomes

  /** Declarative relation: the keys of `e` are a part of the keys of `a`, everything else is equal. */
  ghost predicate IsSubsetOf(e: Value, a: Value)
  {
    match (e, a)
    case (List(es), List(xs)) => |es| == |xs| && forall i :: 0 <= i < |es| ==> IsSubsetOf(es[i], xs[i])
    case (Obj(ef), Obj(af)) => forall k :: k in ef ==> k in af && IsSubsetOf(ef[k], af[k])
    case _ => e == a
  }

  /** What a SubsetError's message says; the wording is left abstract. */
  datatype Reason =
    | TypeMismatch(expectedKind: Kind, actualKind: Kind)
    | LengthMismatch(expectedLen: nat, actualLen: nat)
    | MissingKey
    | ValueMismatch(expected: Value, actual: Value)

  // ----- the relation is a partial order on JSON values -----

  lemma {:induction false} Reflexive(v: Value)
    ensures IsSubsetOf(v, v)
  {
    match v
    case List(items) => forall i | 0 <= i < |items| ensures IsSubsetOf(items[i], items[i]) { Reflexive(items[i]); }
    case Obj(fields) => forall k | k in fields ensures IsSubsetOf(fields[k], fields[k]) { Reflexive(fields[k]); }
    case _ =>
  }

  lemma {:induction false} Transitive(x: Value, y: Value, z: Value)
    requires IsSubsetOf(x, y) && IsSubsetOf(y, z)
    ensures IsSubsetOf(x, z)
  {
    match (x, y, z)
    case (List(xs), List(ys), List(zs)) =>
      forall i | 0 <= i < |xs| ensures IsSubsetOf(xs[i], zs[i]) { Transitive(xs[i], ys[i], zs[i]); }
    case (Obj(xf), Obj(yf), Obj(zf)) =>
      forall k | k in xf ensures k in zf && IsSubsetOf(xf[k], zf[k]) { Transitive(xf[k], yf[k], zf[k]); }
    case _ =>
  }

  lemma {:induction false} Antisymmetric(x: Value, y: Value)
    requires IsSubsetOf(x, y) && IsSubsetOf(y, x)
    ensures x == y
  {
    match (x, y)
    case (List(xs), List(ys)) =>
      forall i | 0 <= i < |xs| ensures xs[i] == ys[i] { Antisymmetric(xs[i], ys[i]); }
    case (Obj(xf), Obj(yf)) =>
      forall k | k in xf ensures xf[k] == yf[k] { Antisymmetric(xf[k], yf[k]); }
      assert xf == yf;
    case _ =>
  }

  // ----- which errors can be reported, over all iteration orders -----

  /** The errors `IsSubset(e, a)` can return: `path` is read root to leaf, list positions are not recorded. */
  ghost predicate CanReport(path: seq<string>, reason: Reason, e: Value, a: Value)
    decreases e
  {
    match (e, a)
    case (List(es), List(xs)) =>
      if |es| != |xs| then path == [] && reason == LengthMismatch(|es|, |xs|)
      else
        exists i :: 0 <= i < |es| && CanReport(path, reason, es[i], xs[i]) &&
          forall j :: 0 <= j < i ==> IsSubsetOf(es[j], xs[j])
    case (Obj(ef), Obj(af)) =>
      path != [] && path[0] in ef &&
      (if path[0] in af then CanReport(path[1..], reason, ef[path[0]], af[path[0]])
       else path == [path[0]] && reason == MissingKey)
    case _ =>
      path == [] && e != a &&
      reason == (if KindOf(e) != KindOf(a) then TypeMismatch(KindOf(e), KindOf(a)) else ValueMismatch(e, a))
  }

  /** An error can be reported exactly when the relation fails. */
  lemma {:induction false} ReportableExactlyOnFailure(e: Value, a: Value)
    ensures !IsSubsetOf(e, a) <==> exists path, reason :: CanReport(path, reason, e, a)
  {
    if !IsSubsetOf(e, a) {
      var path, reason := SomeReport(e, a);
      assert CanReport(path, reason, e, a);
    }
    forall path, reason | CanReport(path, reason, e, a) ensures !IsSubsetOf(e, a) { ReportRefutes(path, reason, e, a); }
  }

  lemma {:induction false} SomeReport(e: Value, a: Value) returns (path: seq<string>, reason: Reason)
    requires !IsSubsetOf(e, a)
    ensures CanReport(path, reason, e, a)
    decreases e
  {
    match (e, a)
    case (List(es), List(xs)) =>
      if |es| != |xs| {
        path, reason := [], LengthMismatch(|es|, |xs|);
      } else {
        var i := FirstFailure(es, xs, 0);
        path, reason := SomeReport(es[i], xs[i]);
      }
    case (Obj(ef), Obj(af)) =>
      var k :| k in ef && !(k in af && IsSubsetOf(ef[k], af[k]));
      if k in af {
        var p, r := SomeReport(ef[k], af[k]);
        path, reason := [k] + p, r;
        assert path[1..] == p;
      } else {
        path, reason := [k], MissingKey;
      }
    case _ =>
      path, reason := [], if KindOf(e) != KindOf(a) then TypeMismatch(KindOf(e), KindOf(a)) else ValueMismatch(e, a);
  }

  lemma {:induction false} FirstFailure(es: seq<Value>, xs: seq<Value>, from: nat) returns (i: nat)
    requires |es| == |xs| && from <= |es|
    requires forall j :: 0 <= j < from ==> IsSubsetOf(es[j], xs[j])
    requires !forall j :: 0 <= j < |es| ==> IsSubsetOf(es[j], xs[j])
    ensures i < |es| && !IsSubsetOf(es[i], xs[i]) && forall j :: 0 <= j < i ==> IsSubsetOf(es[j], xs[j])
    decreases |es| - from
  {
    if !IsSubsetOf(es[from], xs[from]) {
      i := from;
    } else {
      i := FirstFailure(es, xs, from + 1);
    }
  }

  lemma {:induction false} ReportRefutes(path: seq<string>, reason: Reason, e: Value, a: Value)
    requires CanReport(path, reason, e, a)
    ensures !IsSubsetOf(e, a)
    decreases e
  {
    match (e, a)
    case (List(es), List(xs)) =>
      if |es| == |xs| {
        var i :| 0 <= i < |es| && CanReport(path, reason, es[i], xs[i]);
        ReportRefutes(path, reason, es[i], xs[i]);
      }
    case (Obj(ef), Obj(af)) =>
      if path[0] in af { ReportRefutes(path[1..], reason, ef[path[0]], af[path[0]]); }
    case _ =>
  }

  // ----- an independent reading of an error: walk both trees -----

  /** One step into a tree. */
  datatype Hop = Field(key: string) | Item(i: nat)

  function Walk(v: Value, route: seq<Hop>): Option<Value>
  {
    if route == [] then Some(v)
    else match (route[0], v)
      case (Field(k), Obj(f)) => if k in f then Walk(f[k], route[1..]) else None
      case (Item(i), List(s)) => if i < |s| then Walk(s[i], route[1..]) else None
      case _ => None
  }

  /** The keys of a route: what is left once the list positions are forgotten. */
  function KeysOf(route: seq<Hop>): seq<string>
  {
    if route == [] then []
    else (if route[0].Field? then [route[0].key] else []) + KeysOf(route[1..])
  }

  predicate IsScalar(v: Value) { !v.List? && !v.Obj? }

  /** A genuine difference at the end of `route`, stated on the two trees alone. */
  ghost predicate RealDifference(route: seq<Hop>, reason: Reason, e: Value, a: Value)
  {
    var x, y := Walk(e, route), Walk(a, route);
    match reason
    case TypeMismatch(ke, ka) =>
      x.Some? && y.Some? && KindOf(x.value) == ke && KindOf(y.value) == ka && ke != ka
    case LengthMismatch(m, n) =>
      x.Some? && y.Some? && x.value.List? && y.value.List? && |x.value.items| == m && |y.value.items| == n && m != n
    case ValueMismatch(v, w) =>
      x == Some(v) && y == Some(w) && v != w && KindOf(v) == KindOf(w) && IsScalar(v)
    case MissingKey =>
      route != [] && route[|route| - 1].Field? && x.Some? &&
      var parent := Walk(a, route[..|route| - 1]);
      parent.Some? && parent.value.Obj? && route[|route| - 1].key !in parent.value.fields
  }

  /** Every reported error leads, read root to leaf, to a genuine difference. */
  lemma {:induction false} ReportIsTrueWitness(path: seq<string>, reason: Reason, e: Value, a: Value)
    returns (route: seq<Hop>)
    requires CanReport(path, reason, e, a)
    ensures KeysOf(route) == path && RealDifference(route, reason, e, a)
    decreases e
  {
    match (e, a)
    case (List(es), List(xs)) =>
      if |es| != |xs| {
        route := [];
      } else {
        var i :| 0 <= i < |es| && CanReport(path, reason, es[i], xs[i]);
        var r := ReportIsTrueWitness(path, reason, es[i], xs[i]);
        route := [Item(i)] + r;
        PrependHop(Item(i), r, reason, e, a, es[i], xs[i]);
      }
    case (Obj(ef), Obj(af)) =>
      var k := path[0];
      if k in af {
        var r := ReportIsTrueWitness(path[1..], reason, ef[k], af[k]);
        route := [Field(k)] + r;
        PrependHop(Field(k), r, reason, e, a, ef[k], af[k]);
        assert path == [k] + path[1..];
      } else {
        route := [Field(k)];
        assert route[1..] == [] && route[..0] == [];
      }
    case _ =>
      route := [];
  }

  lemma PrependHop(hop: Hop, r: seq<Hop>, reason: Reason, e: Value, a: Value, e1: Value, a1: Value)
    requires Walk(e, [hop]) == Some(e1) && Walk(a, [hop]) == Some(a1)
    requires RealDifference(r, reason, e1, a1)
    ensures RealDifference([hop] + r, reason, e, a)
    ensures KeysOf([hop] + r) == (if hop.Field? then [hop.key] else []) + KeysOf(r)
  {
    var route := [hop] + r;
    assert route[1..] == r;
    WalkCons(e, hop, r, e1);
    WalkCons(a, hop, r, a1);
    if reason.MissingKey? {
      assert route[..|route| - 1] == [hop] + r[..|r| - 1];
      WalkCons(a, hop, r[..|r| - 1], a1);
    }
  }

  lemma WalkCons(v: Value, hop: Hop, r: seq<Hop>, v1: Value)
    requires Walk(v, [hop]) == Some(v1)
    ensures Walk(v, [hop] + r) == Walk(v1, r)
  {
  }

  lemma {:induction false} DifferenceRefutes(route: seq<Hop>, reason: Reason, e: Value, a: Value)
    requires RealDifference(route, reason, e, a)
    ensures !IsSubsetOf(e, a)
  {
    if route != [] && !(reason.MissingKey? && |route| == 1) {
      if reason.MissingKey? { assert route[..|route| - 1][1..] == route[1..][..|route| - 2]; }
      match (route[0], e, a)
      case (Field(k), Obj(ef), Obj(af)) =>
        if k in af { DifferenceRefutes(route[1..], reason, ef[k], af[k]); }
      case (Item(i), List(es), List(xs)) =>
        if i < |xs| { DifferenceRefutes(route[1..], reason, es[i], xs[i]); }
      case _ =>
    }
  }

  /** The relation fails exactly when some walk down both trees ends in a genuine difference. */
  lemma {:induction false} FailureHasRealDifference(e: Value, a: Value)
    ensures !IsSubsetOf(e, a) <==> exists route, reason :: RealDifference(route, reason, e, a)
  {
    if !IsSubsetOf(e, a) {
      var path, reason := SomeReport(e, a);
      var route := ReportIsTrueWitness(path, reason, e, a);
      assert RealDifference(route, reason, e, a);
    }
    forall route, reason | RealDifference(route, reason, e, a)
      ensures !IsSubsetOf(e, a)
    {
      DifferenceRefutes(route, reason, e, a);
    }
  }

  // ----- the code -----

  /** Root-to-leaf path text: every key preceded by a dot. */
  function Dotted(path: seq<string>): string
  {
    if path == [] then "" else "." + path[0] + Dotted(path[1..])
  }

  lemma {:induction false} DottedAppend(path: seq<string>, key: string)
    ensures Dotted(path + [key]) == Dotted(path) + "." + key
  {
    if path == [] {
      assert ([] + [key])[1..] == [];
      assert [] + [key] == [key];
    } else {
      assert (path + [key])[1..] == path[1..] + [key];
      DottedAppend(path[1..], key);
    }
  }

  /** The error value: `path` grows leaf to root while the recursion returns. */
  class SubsetError {
    var path: seq<string>
    var message: Reason

    constructor (path: seq<string>, message: Reason)
      ensures this.path == path && this.message == message
    {
      this.path, this.message := path, message;
    }

    method AppendPath(key: string)
      modifies this
      ensures path == old(path) + [key] && message == old(message)
    {
      path := path + [key];
    }

    /** Prints the path root to leaf, then the message; `render` is the message's wording. */
    method Error(render: Reason -> string) returns (text: string)
      ensures text == if path == [] then render(message) else Dotted(Reversed(path)) + ": " + render(message)
    {
      if |path| == 0 {
        return render(message);
      }
      var printed := "";
      var i := |path| - 1;
      while i >= 0
        invariant -1 <= i < |path|
        invariant printed == Dotted(Reversed(path[i + 1..]))
      {
        printed := printed + "." + path[i];
        assert path[i..] == [path[i]] + path[i + 1..];
        DottedAppend(Reversed(path[i + 1..]), path[i]);
        i := i - 1;
      }
      assert path[0..] == path;
      return printed + ": " + render(message);
    }
  }

  /** Compares two trees. The map loop takes the keys in any order, as Go's map iteration does. */
  method IsSubset(expected: Value, actual: Value) returns (err: SubsetError?)
    ensures err == null <==> IsSubsetOf(expected, actual)
    ensures err != null ==> fresh(err) && CanReport(Reversed(err.path), err.message, expected, actual)
    decreases expected
  {
    if KindOf(expected) != KindOf(actual) {
      err := new SubsetError([], TypeMismatch(KindOf(expected), KindOf(actual)));
      return;
    }
    if expected == actual {
      Reflexive(expected);
      return null;
    }
    match expected
    case List(es) =>
      var xs := actual.items;
      if |es| != |xs| {
        err := new SubsetError([], LengthMismatch(|es|, |xs|));
        return;
      }
      for i := 0 to |es|
        invariant forall j :: 0 <= j < i ==> IsSubsetOf(es[j], xs[j])
      {
        err := IsSubset(es[i], xs[i]);
        if err != null {
          return;
        }
      }
      return null;
    case Obj(ef) =>
      var af := actual.fields;
      var keys := ef.Keys;
      while keys != {}
        invariant keys <= ef.Keys
        invariant forall k :: k in ef && k !in keys ==> k in af && IsSubsetOf(ef[k], af[k])
        decreases |keys|
      {
        var key :| key in keys;
        if key !in af {
          err := new SubsetError([key], MissingKey);
          assert Reversed([key]) == [key];
          return;
        }
        err := IsSubset(ef[key], af[key]);
        if err != null {
          var inner := Reversed(err.path);
          ReversedAppend(err.path, key);
          err.AppendPath(key);
          assert ([key] + inner)[1..] == inner;
          return;
        }
        keys := keys - {key};
      }
      return null;
    case _ =>
      err := new SubsetError([], ValueMismatch(expected, actual));
  }
}
