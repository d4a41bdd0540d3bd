/** Small facts about reals, sorted samples and totals that several components share. */
module Numbers {

  datatype Option<+T> = None | Some(value: T)

  function Positive(x: real): real {
    if x > 0.0 then x else 0.0
  }

  function Abs(x: real): real {
    if x < 0.0 then -x else x
  }

  function Min(x: real, y: real): real {
    if y < x then y else x
  }

  /** Multiplication under a name: a proof that hides it sees no product, only the facts it asks for. */
  function Times(x: real, y: real): real {
    x * y
  }

  lemma MulMono(s: real, x: real, y: real)
    requires s >= 0.0 && x <= y
    ensures s * x <= s * y
  {
    assert s * (y - x) >= 0.0;
  }

  /** Strictly ascending, so also without duplicates. */
  ghost predicate Ascending(xs: seq<real>) {
    forall i, j :: 0 <= i < j < |xs| ==> xs[i] < xs[j]
  }

  /** Puts `x` into an ascending list, once. */
  method Insert(xs: seq<real>, x: real) returns (ys: seq<real>)
    requires Ascending(xs)
    ensures Ascending(ys)
    ensures forall v :: v in ys <==> v in xs || v == x
  {
    var i := 0;
    while i < |xs| && xs[i] < x
      invariant 0 <= i <= |xs|
      invariant forall k :: 0 <= k < i ==> xs[k] < x
    {
      i := i + 1;
    }
    if i < |xs| && xs[i] == x {
      return xs;
    }
    ys := xs[..i] + [x] + xs[i..];
    InsertKeepsOrder(xs, i, x);
    forall v
      ensures v in ys <==> v in xs || v == x
    {
      InsertMembers(xs, i, x, v);
    }
  }

  lemma InsertMembers<T>(xs: seq<T>, i: nat, x: T, v: T)
    requires i <= |xs|
    ensures v in xs[..i] + [x] + xs[i..] <==> v in xs || v == x
  {
    assert xs == xs[..i] + xs[i..];
  }

  lemma InsertKeepsOrder(xs: seq<real>, i: nat, x: real)
    requires Ascending(xs) && i <= |xs|
    requires forall k :: 0 <= k < i ==> xs[k] < x
    requires i < |xs| ==> x < xs[i]
    ensures Ascending(xs[..i] + [x] + xs[i..])
  {
    var ys := xs[..i] + [x] + xs[i..];
    forall j, k | 0 <= j < k < |ys|
      ensures ys[j] < ys[k]
    {
      assert k > i ==> ys[k] == xs[k - 1];
      assert j > i ==> ys[j] == xs[j - 1];
    }
  }

  /** Any element of a non-empty set. */
  method Member<T>(s: set<T>) returns (v: T)
    requires s != {}
    ensures v in s
  {
    v :| v in s;
  }

  /** The `[...set].sort((a, b) => a - b)` and `sorted(set)` of the sources. */
  method SortedSamples(s: set<real>) returns (xs: seq<real>)
    ensures Ascending(xs)
    ensures forall v :: v in xs <==> v in s
  {
    xs := [];
    var rest := s;
    while rest != {}
      invariant rest <= s
      invariant Ascending(xs)
      invariant forall v :: v in xs <==> v in s && v !in rest
      decreases |rest|
    {
      var v := Member(rest);
      xs := Insert(xs, v);
      rest := rest - {v};
    }
  }

  /** Finds the sample at or just below `x`. */
  lemma Bracket(xs: seq<real>, x: real) returns (i: nat)
    requires Ascending(xs)
    requires |xs| > 0 && xs[0] <= x <= xs[|xs| - 1]
    ensures i < |xs| && xs[i] <= x
    ensures x == xs[i] || (i + 1 < |xs| && x < xs[i + 1])
  {
    i := 0;
    while i + 1 < |xs| && xs[i + 1] <= x
      invariant i < |xs| && xs[i] <= x
    {
      i := i + 1;
    }
  }

  /** No sample lies strictly between two neighbours. */
  lemma Neighbours(xs: seq<real>, i: nat, v: real)
    requires Ascending(xs) && i + 1 < |xs| && v in xs
    ensures !(xs[i] < v < xs[i + 1])
  {
    var j :| 0 <= j < |xs| && xs[j] == v;
    assert j < i ==> xs[j] < xs[i];
    assert j > i + 1 ==> xs[i + 1] < xs[j];
  }

  /** The total of the values of a finite map. */
  ghost function SumMap<K>(m: map<K, real>): real
    decreases |m|
  {
    if m == map[] then 0.0 else
      var k :| k in m;
      m[k] + SumMap(m - {k})
  }

  lemma {:induction false} SumMapRemove<K>(m: map<K, real>, k: K)
    requires k in m
    ensures SumMap(m) == m[k] + SumMap(m - {k})
    decreases |m|
  {
    var p :| p in m && SumMap(m) == m[p] + SumMap(m - {p});
    if p != k {
      SumMapRemove(m - {p}, k);
      SumMapRemove(m - {k}, p);
      assert m - {p} - {k} == m - {k} - {p};
    }
  }

  /** Adding an amount under one key moves the total by exactly that amount. */
  lemma SumMapAdd<K>(m: map<K, real>, k: K, amount: real)
    ensures SumMap(m[k := (if k in m then m[k] else 0.0) + amount]) == SumMap(m) + amount
  {
    var n := m[k := (if k in m then m[k] else 0.0) + amount];
    SumMapRemove(n, k);
    if k in m {
      SumMapRemove(m, k);
    }
    assert n - {k} == m - {k};
    assert k !in m ==> m - {k} == m;
  }
}
