/** The JSON-like trees that Kubernetes objects are made of. */
module Json {

  /** An unstructured value: what `interface{}` holds after decoding YAML or JSON. */
  datatype Value =
    | Null
    | Bool(b: bool)
    | Int(i: int)
    | Float(r: real)
    | Str(s: string)
    | List(items: seq<Value>)
    | Obj(fields: Fields)

  type Fields = map<string, Value>

  /** The dynamic Go type of a value, as `reflect.TypeOf` reports it. */
  datatype Kind = NilKind | BoolKind | IntKind | FloatKind | StringKind | SliceKind | MapKind

  function KindOf(v: Value): Kind
  {
    match v
    case Null => NilKind
    case Bool(_) => BoolKind
    case Int(_) => IntKind
    case Float(_) => FloatKind
    case Str(_) => StringKind
    case List(_) => SliceKind
    case Obj(_) => MapKind
  }

  function Reversed<T>(s: seq<T>): (r: seq<T>)
    ensures |r| == |s|
  {
    if s == [] then [] else Reversed(s[1..]) + [s[0]]
  }

  lemma {:induction false} ReversedAt<T>(s: seq<T>, i: nat)
    requires i < |s|
    ensures Reversed(s)[i] == s[|s| - 1 - i]
  {
    if i == |s| - 1 {
    } else {
      ReversedAt(s[1..], i);
    }
  }

  lemma {:induction false} ReversedAppend<T>(s: seq<T>, x: T)
    ensures Reversed(s + [x]) == [x] + Reversed(s)
  {
    if s == [] {
    } else {
      assert (s + [x])[1..] == s[1..] + [x];
      ReversedAppend(s[1..], x);
    }
  }
}
