/** Sorting the keys of a map, as `sorted` does. */
module Sorting {
  import opened Numbers

  /** The order of strings by their characters, a prefix first. */
  function Less(s: string, t: string): bool {
    t != "" && (s == "" || s[0] < t[0] || (s[0] == t[0] && Less(s[1..], t[1..])))
  }

  /** The order of pairs, first parts first. */
  function LessPair(p: (string, string), q: (string, string)): bool {
    Less(p.0, q.0) || (p.0 == q.0 && Less(p.1, q.1))
  }

  ghost predicate IsOrder<T(!new)>(less: (T, T) -> bool) {
    && (forall x :: !less(x, x))
    && (forall x, y, z :: less(x, y) && less(y, z) ==> less(x, z))
    && (forall x, y :: x == y || less(x, y) || less(y, x))
  }

  ghost predicate InOrder<T(!new)>(xs: seq<T>, less: (T, T) -> bool) {
    forall i, j :: 0 <= i < j < |xs| ==> less(xs[i], xs[j])
  }

  lemma {:induction false} LessIrreflexive(s: string)
    ensures !Less(s, s)
  {
    if s != "" { LessIrreflexive(s[1..]); }
  }

  lemma {:induction false} LessTransitive(s: string, t: string, u: string)
    requires Less(s, t) && Less(t, u)
    ensures Less(s, u)
  {
    if s != "" && s[0] == t[0] == u[0] { LessTransitive(s[1..], t[1..], u[1..]); }
  }

  lemma {:induction false} LessTotal(s: string, t: string)
    ensures s == t || Less(s, t) || Less(t, s)
  {
    if s != "" && t != "" && s[0] == t[0] {
      LessTotal(s[1..], t[1..]);
      assert s == [s[0]] + s[1..] && t == [t[0]] + t[1..];
    }
  }

  /** The order in plain terms: at the first place where the strings part, the first has ended or has the smaller
      character. */
  lemma {:induction false} LessAtFirstDifference(s: string, t: string, k: nat)
    requires k <= |s| && k <= |t| && s[..k] == t[..k]
    requires (k < |s| && k < |t| ==> s[k] != t[k]) && (k < |s| || k < |t|)
    ensures Less(s, t) <==> k < |t| && (k == |s| || s[k] < t[k])
  {
    if k > 0 {
      assert s[0] == s[..k][0] == t[..k][0] == t[0];
      assert s[1..][..k - 1] == s[..k][1..] && t[1..][..k - 1] == t[..k][1..];
      LessAtFirstDifference(s[1..], t[1..], k - 1);
    }
  }

  lemma StringsAreOrdered()
    ensures IsOrder(Less)
  {
    forall s: string ensures !Less(s, s) { LessIrreflexive(s); }
    forall s: string, t: string, u: string | Less(s, t) && Less(t, u) ensures Less(s, u) { LessTransitive(s, t, u); }
    forall s: string, t: string ensures s == t || Less(s, t) || Less(t, s) { LessTotal(s, t); }
  }

  lemma PairsAreOrdered()
    ensures IsOrder(LessPair)
  {
    hide Less;
    forall p: (string, string) ensures !LessPair(p, p) {
      LessIrreflexive(p.0);
      LessIrreflexive(p.1);
    }
    forall p: (string, string), q: (string, string), r: (string, string) | LessPair(p, q) && LessPair(q, r)
      ensures LessPair(p, r)
    {
      if Less(p.0, q.0) && Less(q.0, r.0) { LessTransitive(p.0, q.0, r.0); }
      if Less(p.1, q.1) && Less(q.1, r.1) { LessTransitive(p.1, q.1, r.1); }
    }
    forall p: (string, string), q: (string, string) ensures p == q || LessPair(p, q) || LessPair(q, p) {
      LessTotal(p.0, q.0);
      LessTotal(p.1, q.1);
    }
  }

  method InsertInOrder<T(!new)>(xs: seq<T>, x: T, less: (T, T) -> bool) returns (ys: seq<T>)
    requires IsOrder(less) && InOrder(xs, less) && x !in xs
    ensures InOrder(ys, less) && forall y :: y in ys <==> y in xs || y == x
  {
    var i := 0;
    while i < |xs| && less(xs[i], x)
      invariant i <= |xs| && forall k :: 0 <= k < i ==> less(xs[k], x)
    {
      i := i + 1;
    }
    ys := xs[..i] + [x] + xs[i..];
    assert forall y :: y in xs <==> y in xs[..i] || y in xs[i..] by { assert xs == xs[..i] + xs[i..]; }
    forall a, b | 0 <= a < b < |ys|
      ensures less(ys[a], ys[b])
    {
      InsertedPair(xs, i, x, less, a, b);
    }
  }

  lemma InsertedPair<T(!new)>(xs: seq<T>, i: nat, x: T, less: (T, T) -> bool, a: nat, b: nat)
    requires IsOrder(less) && InOrder(xs, less) && x !in xs && i <= |xs| && a < b <= |xs|
    requires (forall k :: 0 <= k < i ==> less(xs[k], x)) && (i < |xs| ==> !less(xs[i], x))
    ensures var ys := xs[..i] + [x] + xs[i..]; less(ys[a], ys[b])
  {
    var ys := xs[..i] + [x] + xs[i..];
    assert ys[a] == if a < i then xs[a] else if a == i then x else xs[a - 1];
    assert ys[b] == if b < i then xs[b] else if b == i then x else xs[b - 1];
    if i < |xs| {
      assert xs[i] in xs && less(x, xs[i]);
    }
  }

  method Sorted<T(!new)>(s: set<T>, less: (T, T) -> bool) returns (xs: seq<T>)
    requires IsOrder(less)
    ensures InOrder(xs, less) && forall x :: x in xs <==> x in s
  {
    xs := [];
    var rest := s;
    while rest != {}
      invariant rest <= s && InOrder(xs, less)
      invariant forall x :: x in xs <==> x in s && x !in rest
      decreases |rest|
    {
      var x := Member(rest);
      xs := InsertInOrder(xs, x, less);
      rest := rest - {x};
    }
  }
}
