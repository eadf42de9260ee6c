/** Strictly sorted sequences, and the order of names. */
module Order {
  ghost predicate StrictlySorted<T(!new)>(less: (T, T) -> bool, xs: seq<T>)
  {
    forall i, j :: 0 <= i < j < |xs| ==> less(xs[i], xs[j])
  }

  ghost predicate Asymmetric<T(!new)>(less: (T, T) -> bool)
  {
    forall x, y :: less(x, y) ==> !less(y, x)
  }

  lemma FirstIsLeast<T(!new)>(less: (T, T) -> bool, xs: seq<T>, x: T)
    requires StrictlySorted(less, xs) && x in xs
    ensures x == xs[0] || less(xs[0], x)
  {
  }

  lemma SameFirst<T(!new)>(less: (T, T) -> bool, xs: seq<T>, ys: seq<T>)
    requires Asymmetric(less) && StrictlySorted(less, xs) && StrictlySorted(less, ys)
    requires forall x :: x in xs <==> x in ys
    ensures xs == [] <==> ys == []
    ensures xs != [] && ys != [] ==> xs[0] == ys[0]
  {
    if xs != [] { FirstIsLeast(less, ys, xs[0]); }
    if ys != [] { FirstIsLeast(less, xs, ys[0]); }
  }

  /** A set of elements has one strictly sorted sequence. */
  lemma {:induction false} SortedUnique<T(!new)>(less: (T, T) -> bool, xs: seq<T>, ys: seq<T>)
    requires Asymmetric(less) && StrictlySorted(less, xs) && StrictlySorted(less, ys)
    requires forall x :: x in xs <==> x in ys
    ensures xs == ys
  {
    SameFirst(less, xs, ys);
    if xs != [] {
      forall x ensures x in xs[1..] <==> x in ys[1..] { TailMembers(less, xs, x); TailMembers(less, ys, x); }
      SortedUnique(less, xs[1..], ys[1..]);
    }
  }

  lemma TailMembers<T(!new)>(less: (T, T) -> bool, xs: seq<T>, x: T)
    requires Asymmetric(less) && StrictlySorted(less, xs) && xs != []
    ensures x in xs[1..] <==> x in xs && x != xs[0]
  {
  }

  /** Go's order of strings. */
  predicate Less(a: string, b: string)
  {
    b != "" && (a == "" || a[0] < b[0] || (a[0] == b[0] && Less(a[1..], b[1..])))
  }

  /** `a` comes first: it is a proper prefix of `b`, or has the smaller character where they first differ at `n`. */
  predicate ComesFirst(a: string, b: string, n: nat)
  {
    && n <= |a| && n < |b| && a[..n] == b[..n] && (n == |a| || a[n] < b[n])
  }

  /** The order is that of a dictionary, prefixes first. */
  lemma {:induction false} LessExactly(a: string, b: string)
    ensures Less(a, b) <==> exists n: nat :: ComesFirst(a, b, n)
  {
    forall n: nat | ComesFirst(a, b, n) && n > 0 ensures a != "" && b != "" && a[0] == b[0] {
      assert a[..n][0] == a[0] && b[..n][0] == b[0];
    }
    if a != "" && b != "" && a[0] == b[0] {
      LessExactly(a[1..], b[1..]);
      if n: nat :| ComesFirst(a[1..], b[1..], n) {
        assert a[..n + 1] == [a[0]] + a[1..][..n] && b[..n + 1] == [b[0]] + b[1..][..n];
        assert ComesFirst(a, b, n + 1);
      }
      if n: nat :| ComesFirst(a, b, n) {
        assert n > 0 && a[1..][..n - 1] == a[..n][1..] && b[1..][..n - 1] == b[..n][1..];
        assert ComesFirst(a[1..], b[1..], n - 1);
      }
    } else if Less(a, b) {
      assert ComesFirst(a, b, 0);
    }
  }

  lemma {:induction false} LessTotal(a: string, b: string)
    ensures Less(a, b) || a == b || Less(b, a)
    ensures !(Less(a, b) && Less(b, a))
  {
    if a != "" && b != "" && a[0] == b[0] {
      LessTotal(a[1..], b[1..]);
      if a[1..] == b[1..] { assert a == [a[0]] + a[1..] && b == [b[0]] + b[1..]; }
    }
  }

  lemma {:induction false} LessTransitive(a: string, b: string, c: string)
    requires Less(a, b) && Less(b, c)
    ensures Less(a, c)
  {
    if a != "" && a[0] == b[0] == c[0] { LessTransitive(a[1..], b[1..], c[1..]); }
  }

  lemma LessAsymmetric()
    ensures Asymmetric(Less)
  {
    forall a, b | Less(a, b) ensures !Less(b, a) { LessTotal(a, b); }
  }

  lemma LessIsTotalOrder()
    ensures TotalOrder(Less)
  {
    LessAsymmetric();
    forall a, b, c | Less(a, b) && Less(b, c) ensures Less(a, c) { LessTransitive(a, b, c); }
    forall a, b ensures Less(a, b) || a == b || Less(b, a) { LessTotal(a, b); }
  }

  // ----- sorting by a key, as sort.Slice does: elements with equal keys may come out in any order -----

  ghost predicate TotalOrder<K(!new)>(less: (K, K) -> bool)
  {
    && Asymmetric(less)
    && (forall x, y, z :: less(x, y) && less(y, z) ==> less(x, z))
    && (forall x, y :: less(x, y) || x == y || less(y, x))
  }

  ghost predicate SortedBy<T, K>(key: T -> K, less: (K, K) -> bool, xs: seq<T>)
  {
    forall i, j :: 0 <= i < j < |xs| ==> !less(key(xs[j]), key(xs[i]))
  }

  ghost predicate DistinctKeys<T, K>(key: T -> K, xs: seq<T>)
  {
    forall i, j :: 0 <= i < j < |xs| ==> key(xs[i]) != key(xs[j])
  }

  ghost function Keys<T, K>(key: T -> K, xs: seq<T>): seq<K>
  {
    seq(|xs|, i requires 0 <= i < |xs| => key(xs[i]))
  }

  method Sort<T, K(!new)>(key: T -> K, less: (K, K) -> bool, xs: seq<T>) returns (sorted: seq<T>)
    requires TotalOrder(less)
    ensures SortedBy(key, less, sorted) && multiset(sorted) == multiset(xs)
  {
    sorted := [];
    for i := 0 to |xs|
      invariant SortedBy(key, less, sorted) && multiset(sorted) == multiset(xs[..i])
    {
      assert xs[..i + 1] == xs[..i] + [xs[i]];
      sorted := Insert(key, less, sorted, xs[i]);
    }
    assert xs[..|xs|] == xs;
  }

  method Insert<T, K(!new)>(key: T -> K, less: (K, K) -> bool, sorted: seq<T>, x: T) returns (r: seq<T>)
    requires TotalOrder(less) && SortedBy(key, less, sorted)
    ensures SortedBy(key, less, r) && multiset(r) == multiset(sorted) + multiset{x}
  {
    var at := |sorted|;
    while at > 0 && less(key(x), key(sorted[at - 1]))
      invariant 0 <= at <= |sorted|
      invariant forall j :: at <= j < |sorted| ==> less(key(x), key(sorted[j]))
    {
      at := at - 1;
    }
    r := sorted[..at] + [x] + sorted[at..];
    InsertKeepsOrder(key, less, sorted, x, at);
    assert sorted == sorted[..at] + sorted[at..];
  }

  lemma InsertKeepsOrder<T, K(!new)>(key: T -> K, less: (K, K) -> bool, sorted: seq<T>, x: T, at: nat)
    requires TotalOrder(less) && SortedBy(key, less, sorted) && at <= |sorted|
    requires at > 0 ==> !less(key(x), key(sorted[at - 1]))
    requires forall j :: at <= j < |sorted| ==> less(key(x), key(sorted[j]))
    ensures SortedBy(key, less, sorted[..at] + [x] + sorted[at..])
  {
  }

  /** With distinct keys the order is strict. */
  lemma SortedKeysStrict<T, K(!new)>(key: T -> K, less: (K, K) -> bool, xs: seq<T>)
    requires TotalOrder(less) && SortedBy(key, less, xs) && DistinctKeys(key, xs)
    ensures StrictlySorted(less, Keys(key, xs))
  {
  }

  lemma {:induction false} DistinctOnce<T, K>(key: T -> K, xs: seq<T>)
    requires DistinctKeys(key, xs)
    ensures forall x :: x in xs ==> multiset(xs)[x] == 1
  {
    if xs == [] {
    } else {
      var n := |xs| - 1;
      DistinctOnce(key, xs[..n]);
      assert xs == xs[..n] + [xs[n]];
      assert xs[n] !in multiset(xs[..n]);
    }
  }

  lemma OnceDiffer<T>(xs: seq<T>, i: nat, j: nat)
    requires i < j < |xs| && multiset(xs)[xs[i]] == 1
    ensures xs[i] != xs[j]
  {
    assert xs == xs[..i] + [xs[i]] + xs[i + 1..j] + [xs[j]] + xs[j + 1..];
  }

  lemma DistinctPermuted<T, K>(key: T -> K, xs: seq<T>, ys: seq<T>)
    requires DistinctKeys(key, xs) && multiset(xs) == multiset(ys)
    ensures DistinctKeys(key, ys)
  {
    DistinctOnce(key, xs);
    forall i, j | 0 <= i < j < |ys| ensures key(ys[i]) != key(ys[j]) {
      assert ys[i] in multiset(xs) && ys[j] in multiset(xs);
      OnceDiffer(ys, i, j);
      var k :| 0 <= k < |xs| && xs[k] == ys[i];
      var l :| 0 <= l < |xs| && xs[l] == ys[j];
    }
  }

  lemma KeysPermuted<T, K>(key: T -> K, xs: seq<T>, ys: seq<T>, k: K)
    requires multiset(xs) == multiset(ys) && k in Keys(key, xs)
    ensures k in Keys(key, ys)
  {
    var i :| 0 <= i < |xs| && Keys(key, xs)[i] == k;
    assert xs[i] in multiset(ys);
    var j :| 0 <= j < |ys| && ys[j] == xs[i];
    assert Keys(key, ys)[j] == k;
  }

  lemma SameKeySameElement<T, K>(key: T -> K, xs: seq<T>, y: T, i: nat)
    requires DistinctKeys(key, xs) && y in multiset(xs) && i < |xs| && key(y) == key(xs[i])
    ensures y == xs[i]
  {
    var j :| 0 <= j < |xs| && xs[j] == y;
  }

  /** Whatever the sort does with the elements' original order, distinct keys leave one result. */
  lemma SortedByUnique<T, K(!new)>(key: T -> K, less: (K, K) -> bool, xs: seq<T>, ys: seq<T>)
    requires TotalOrder(less) && SortedBy(key, less, xs) && SortedBy(key, less, ys)
    requires multiset(xs) == multiset(ys) && DistinctKeys(key, xs)
    ensures xs == ys
  {
    DistinctPermuted(key, xs, ys);
    SortedKeysStrict(key, less, xs);
    SortedKeysStrict(key, less, ys);
    forall k ensures k in Keys(key, xs) <==> k in Keys(key, ys) {
      if k in Keys(key, xs) { KeysPermuted(key, xs, ys, k); }
      if k in Keys(key, ys) { KeysPermuted(key, ys, xs, k); }
    }
    SortedUnique(less, Keys(key, xs), Keys(key, ys));
    forall i | 0 <= i < |xs| ensures xs[i] == ys[i] {
      assert Keys(key, xs)[i] == Keys(key, ys)[i];
      assert ys[i] in multiset(ys);
      SameKeySameElement(key, xs, ys[i], i);
    }
  }

  // ----- permutations -----

  ghost function Image<T, U>(f: map<T, U>, xs: seq<T>): (r: seq<U>)
    requires forall x :: x in xs ==> x in f
    ensures |r| == |xs| && forall i :: 0 <= i < |xs| ==> r[i] == f[xs[i]]
  {
    seq(|xs|, i requires 0 <= i < |xs| => f[xs[i]])
  }

  function Without<T>(xs: seq<T>, j: nat): (r: seq<T>)
    requires j < |xs|
    ensures |r| == |xs| - 1
  {
    xs[..j] + xs[j + 1..]
  }

  lemma TakeOut<T>(xs: seq<T>, j: nat)
    requires j < |xs|
    ensures multiset(xs) == multiset(Without(xs, j)) + multiset{xs[j]}
    ensures xs == xs[..j] + [xs[j]] + xs[j + 1..]
  {
  }

  lemma SomewhereIn<T>(xs: seq<T>, ys: seq<T>) returns (j: nat)
    requires multiset(xs) == multiset(ys) && xs != []
    ensures j < |ys| && ys[j] == xs[|xs| - 1] && multiset(xs[..|xs| - 1]) == multiset(Without(ys, j))
  {
    assert xs[|xs| - 1] in multiset(ys);
    j :| 0 <= j < |ys| && ys[j] == xs[|xs| - 1];
    TakeOut(ys, j);
    assert xs == xs[..|xs| - 1] + [xs[|xs| - 1]];
    assert multiset(xs[..|xs| - 1]) == multiset(xs) - multiset{xs[|xs| - 1]};
  }

  lemma {:induction false} ImagePermuted<T, U>(f: map<T, U>, xs: seq<T>, ys: seq<T>)
    requires multiset(xs) == multiset(ys)
    requires (forall x :: x in xs ==> x in f) && (forall y :: y in ys ==> y in f)
    ensures multiset(Image(f, xs)) == multiset(Image(f, ys))
    decreases |xs|
  {
    if xs == [] {
      assert |multiset(ys)| == 0;
      assert Image(f, xs) == Image(f, ys);
    } else {
      var n := |xs| - 1;
      var j := SomewhereIn(xs, ys);
      ImagePermuted(f, xs[..n], Without(ys, j));
      assert Image(f, Without(ys, j)) == Without(Image(f, ys), j);
      TakeOut(Image(f, ys), j);
      assert Image(f, xs) == Image(f, xs[..n]) + [f[xs[n]]];
    }
  }
}
