/** Sums of straight lines and option-like hinges, the shape every expiry payoff has.

    The facts here turn finitely many samples of such a sum into statements about every real number:
    between two neighbouring kinks the sum is a straight line, so its extremes are at samples. */
module PiecewiseLinear {
  import opened Numbers

  /** A straight line, or a hinge that is flat on one side of its kink and sloped on the other. */
  datatype Piece =
    | Ramp(slope: real, base: real)
    | Hinge(scale: real, kink: real, rising: bool, base: real)

  function Eval(p: Piece, x: real): real {
    match p
    case Ramp(slope, base) => Times(slope, x) + base
    case Hinge(scale, kink, rising, base) => Times(scale, Positive(if rising then x - kink else kink - x)) + base
  }

  function Value(ps: seq<Piece>, x: real): real {
    if ps == [] then 0.0 else Value(ps[..|ps| - 1], x) + Eval(ps[|ps| - 1], x)
  }

  ghost predicate StraightOn(ps: seq<Piece>, a: real, b: real) {
    forall p :: p in ps && p.Hinge? ==> !(a < p.kink < b)
  }

  /** Every kink strictly inside (lo, hi) is one of the samples. */
  ghost predicate KinksSampled(ps: seq<Piece>, xs: seq<real>, lo: real, hi: real) {
    forall p :: p in ps && p.Hinge? && lo < p.kink < hi ==> p.kink in xs
  }

  ghost predicate OnLine(ps: seq<Piece>, a: real, b: real, slope: real, base: real) {
    forall x :: a <= x <= b ==> Value(ps, x) == Times(slope, x) + base
  }

  /** Between neighbouring kinks the sum is one straight line. */
  lemma {:induction false} LineBetween(ps: seq<Piece>, a: real, b: real) returns (slope: real, base: real)
    requires a < b && StraightOn(ps, a, b)
    ensures OnLine(ps, a, b, slope, base)
  {
    if ps == [] {
      slope, base := 0.0, 0.0;
    } else {
      hide Times, Eval;
      var s, c := LineBetween(ps[..|ps| - 1], a, b);
      var p := ps[|ps| - 1];
      var s', c' := LineOfPiece(p, a, b);
      slope, base := s + s', c + c';
      forall x | a <= x <= b
        ensures Value(ps, x) == Times(slope, x) + base
      {
        Distribute(s, s', x);
      }
    }
  }

  lemma LineOfPiece(p: Piece, a: real, b: real) returns (slope: real, base: real)
    requires a < b && (p.Hinge? ==> !(a < p.kink < b))
    ensures forall x :: a <= x <= b ==> Eval(p, x) == Times(slope, x) + base
  {
    match p
    case Ramp(s, c) =>
      slope, base := s, c;
    case Hinge(scale, kink, rising, c) =>
      slope := if rising then (if kink <= a then scale else 0.0) else (if kink >= b then -scale else 0.0);
      base := if slope == 0.0 then c else if rising then c - Times(scale, kink) else c + Times(scale, kink);
      forall x | a <= x <= b
        ensures Eval(p, x) == Times(slope, x) + base
      {
        hide Times;
        Algebra(scale, x, kink);
      }
  }

  /** A straight stretch takes its extremes at its ends, and runs linearly between them. */
  lemma BetweenEnds(ps: seq<Piece>, a: real, b: real, x: real)
    requires a < b && StraightOn(ps, a, b) && a <= x <= b
    ensures Value(ps, a) <= Value(ps, x) <= Value(ps, b) || Value(ps, b) <= Value(ps, x) <= Value(ps, a)
    ensures Times(b - a, Value(ps, x) - Value(ps, a)) == Times(x - a, Value(ps, b) - Value(ps, a))
  {
    hide Value, Times;
    var s, c := LineBetween(ps, a, b);
    LineOrder(s, c, a, b, x, Value(ps, a), Value(ps, b), Value(ps, x));
  }

  /** The same two facts for one bare line. */
  lemma LineOrder(s: real, c: real, a: real, b: real, x: real, fa: real, fb: real, fx: real)
    requires a <= x <= b
    requires fa == Times(s, a) + c && fb == Times(s, b) + c && fx == Times(s, x) + c
    ensures fa <= fx <= fb || fb <= fx <= fa
    ensures Times(b - a, fx - fa) == Times(x - a, fb - fa)
  {
    if s >= 0.0 {
      MulMono(s, a, x);
      MulMono(s, x, b);
    } else {
      MulMono(-s, a, x);
      MulMono(-s, x, b);
    }
    var u, v := x - a, b - a;
    assert fx - fa == s * u;
    assert fb - fa == s * v;
    assert v * (s * u) == u * (s * v);
  }

  /** Finite samples decide the extremes over a whole interval: at every real point between two samples
      `lo` and `hi`, the sum lies between its values at two samples of that interval. */
  lemma SamplesBound(ps: seq<Piece>, xs: seq<real>, lo: real, hi: real, x: real) returns (low: nat, high: nat)
    requires Ascending(xs) && lo in xs && hi in xs
    requires KinksSampled(ps, xs, lo, hi)
    requires lo <= x <= hi
    ensures low < |xs| && high < |xs|
    ensures lo <= xs[low] <= hi && lo <= xs[high] <= hi
    ensures Value(ps, xs[low]) <= Value(ps, x) <= Value(ps, xs[high])
  {
    assert xs[0] <= lo && hi <= xs[|xs| - 1];
    var i := Bracket(xs, x);
    if x == xs[i] {
      low, high := i, i;
    } else {
      SampleGap(ps, xs, lo, hi, i, x);
      BetweenEnds(ps, xs[i], xs[i + 1], x);
      low := if Value(ps, xs[i]) <= Value(ps, xs[i + 1]) then i else i + 1;
      high := if Value(ps, xs[i]) <= Value(ps, xs[i + 1]) then i + 1 else i;
    }
  }

  /** The gap of samples around an interior point holds no kink. */
  lemma SampleGap(ps: seq<Piece>, xs: seq<real>, lo: real, hi: real, i: nat, x: real)
    requires Ascending(xs) && lo in xs && hi in xs && KinksSampled(ps, xs, lo, hi)
    requires i + 1 < |xs| && xs[i] < x < xs[i + 1] && lo <= x <= hi
    ensures lo <= xs[i] && xs[i + 1] <= hi
    ensures StraightOn(ps, xs[i], xs[i + 1])
  {
    Neighbours(xs, i, lo);
    Neighbours(xs, i, hi);
    forall p | p in ps && p.Hinge?
      ensures !(xs[i] < p.kink < xs[i + 1])
    {
      if lo < p.kink < hi {
        Neighbours(xs, i, p.kink);
      }
    }
  }

  // ---- Where the sum really bends ----

  /** How much steeper the piece gets at `k`. */
  function Bend(p: Piece, k: real): real {
    if p.Hinge? && p.kink == k then p.scale else 0.0
  }

  function BendAt(ps: seq<Piece>, k: real): real {
    if ps == [] then 0.0 else BendAt(ps[..|ps| - 1], k) + Bend(ps[|ps| - 1], k)
  }

  ghost predicate Linear(ps: seq<Piece>, a: real, b: real) {
    exists slope, base :: OnLine(ps, a, b, slope, base)
  }

  ghost predicate BendsCancel(ps: seq<Piece>, a: real, b: real) {
    forall k :: a < k < b ==> BendAt(ps, k) == 0.0
  }

  /** On an interval the sum is one straight line exactly when the bends at every point inside cancel out. */
  lemma LinearExactly(ps: seq<Piece>, a: real, b: real)
    requires a < b
    ensures Linear(ps, a, b) <==> BendsCancel(ps, a, b)
  {
    if Linear(ps, a, b) {
      forall k | a < k < b
        ensures BendAt(ps, k) == 0.0
      {
        LineHasNoBend(ps, a, b, k);
      }
    }
    if BendsCancel(ps, a, b) {
      CancelledIsLinear(ps, a, b);
    }
  }

  /** A distance around `k` within which no other kink lies. */
  lemma {:induction false} Isolated(ps: seq<Piece>, k: real, limit: real) returns (e: real)
    requires limit > 0.0
    ensures 0.0 < e <= limit
    ensures forall p :: p in ps && p.Hinge? ==> p.kink == k || Abs(p.kink - k) >= e
  {
    e := limit;
    if ps != [] {
      var p := ps[|ps| - 1];
      e := Isolated(ps[..|ps| - 1], k, limit);
      if p.Hinge? && p.kink != k && Abs(p.kink - k) < e {
        e := Abs(p.kink - k);
      }
    }
  }

  lemma PieceDifference(p: Piece, k: real, e: real)
    requires e > 0.0 && (p.Hinge? ==> p.kink == k || Abs(p.kink - k) >= e)
    ensures Eval(p, k - e) + Eval(p, k + e) - 2.0 * Eval(p, k) == Times(Bend(p, k), e)
  {
  }

  /** Around an isolated point the second difference is the bend there. */
  lemma {:induction false} SecondDifference(ps: seq<Piece>, k: real, e: real)
    requires e > 0.0 && forall p :: p in ps && p.Hinge? ==> p.kink == k || Abs(p.kink - k) >= e
    ensures Value(ps, k - e) + Value(ps, k + e) - 2.0 * Value(ps, k) == Times(BendAt(ps, k), e)
  {
    hide Times, Eval, Bend;
    if ps == [] {
      Algebra(0.0, e, e);
    } else {
      SecondDifference(ps[..|ps| - 1], k, e);
      PieceDifference(ps[|ps| - 1], k, e);
      Distribute(BendAt(ps[..|ps| - 1], k), Bend(ps[|ps| - 1], k), e);
    }
  }

  lemma LineHasNoBend(ps: seq<Piece>, a: real, b: real, k: real)
    requires a < k < b && Linear(ps, a, b)
    ensures BendAt(ps, k) == 0.0
  {
    hide Value, BendAt;
    var slope, base :| OnLine(ps, a, b, slope, base);
    var e := Isolated(ps, k, Min(k - a, b - k));
    SecondDifference(ps, k, e);
    assert Times(slope, k - e) + Times(slope, k + e) == 2.0 * Times(slope, k);
  }

  function DropKink(ps: seq<Piece>, k: real): seq<Piece> {
    if ps == [] then []
    else
      var p := ps[|ps| - 1];
      DropKink(ps[..|ps| - 1], k) + if p.Hinge? && p.kink == k then [] else [p]
  }

  lemma {:induction false} DropKinkKeepsOthers(ps: seq<Piece>, k: real)
    ensures |DropKink(ps, k)| <= |ps|
    ensures (exists p :: p in ps && p.Hinge? && p.kink == k) ==> |DropKink(ps, k)| < |ps|
    ensures forall k' :: BendAt(DropKink(ps, k), k') == if k' == k then 0.0 else BendAt(ps, k')
  {
    if ps != [] {
      var rest, p := ps[..|ps| - 1], ps[|ps| - 1];
      DropKinkKeepsOthers(rest, k);
      var dropped := DropKink(ps, k);
      if p.Hinge? && p.kink == k {
        assert dropped == DropKink(rest, k);
      } else {
        assert dropped[..|dropped| - 1] == DropKink(rest, k);
        assert forall q :: q in ps && q.Hinge? && q.kink == k ==> q in rest;
      }
    }
  }

  lemma KinkedPiece(p: Piece, k: real, x: real)
    requires p.Hinge? && p.kink == k
    ensures Eval(p, x) == Times(p.scale, Positive(x - k)) +
      if p.rising then p.base else Times(-p.scale, x) + Times(p.scale, k) + p.base
  {
  }

  /** All the hinges at one kink amount to a single one, of their total bend, and a straight line. */
  lemma {:induction false} KinkSplit(ps: seq<Piece>, k: real) returns (slope: real, base: real)
    ensures forall x ::
      Value(ps, x) == Value(DropKink(ps, k), x) + Times(BendAt(ps, k), Positive(x - k)) + (Times(slope, x) + base)
  {
    hide Times, Eval;
    slope, base := 0.0, 0.0;
    if ps == [] {
      forall x: real
        ensures Value(ps, x) == Value([], x) + Times(0.0, Positive(x - k)) + (Times(0.0, x) + 0.0)
      {
        Algebra(0.0, Positive(x - k), x);
      }
    } else {
      var rest, p := ps[..|ps| - 1], ps[|ps| - 1];
      var s, c := KinkSplit(rest, k);
      slope, base := s, c;
      var dropped := DropKink(ps, k);
      if p.Hinge? && p.kink == k {
        if p.rising {
          base := c + p.base;
        } else {
          slope, base := s - p.scale, c + Times(p.scale, k) + p.base;
        }
        assert dropped == DropKink(rest, k);
        forall x
          ensures Value(ps, x) == Value(dropped, x) + Times(BendAt(ps, k), Positive(x - k)) + (Times(slope, x) + base)
        {
          KinkedPiece(p, k, x);
          Distribute(BendAt(rest, k), p.scale, Positive(x - k));
          Distribute(s, -p.scale, x);
        }
      } else {
        assert dropped[..|dropped| - 1] == DropKink(rest, k);
      }
    }
  }

  lemma {:induction false} CancelledIsLinear(ps: seq<Piece>, a: real, b: real)
    requires a < b && BendsCancel(ps, a, b)
    ensures Linear(ps, a, b)
    decreases |ps|
  {
    hide Times, Value, BendAt;
    if p :| p in ps && p.Hinge? && a < p.kink < b {
      var k, rest := p.kink, DropKink(ps, p.kink);
      DropKinkKeepsOthers(ps, k);
      CancelledIsLinear(rest, a, b);
      var s, c :| OnLine(rest, a, b, s, c);
      var s', c' := KinkSplit(ps, k);
      forall x | a <= x <= b
        ensures Value(ps, x) == Times(s + s', x) + (c + c')
      {
        Algebra(0.0, Positive(x - k), x);
        Distribute(s, s', x);
      }
      assert OnLine(ps, a, b, s + s', c + c');
    } else {
      var s, c := LineBetween(ps, a, b);
    }
  }

  /** The line through (a, fa) and (b, fb), at x. */
  function Chord(a: real, b: real, fa: real, fb: real, x: real): real
    requires a < b
  {
    fa + (fb - fa) / (b - a) * (x - a)
  }

  ghost predicate IsChord(ps: seq<Piece>, a: real, b: real)
    requires a < b
  {
    forall x :: a <= x <= b ==> Chord(a, b, Value(ps, a), Value(ps, b), x) == Value(ps, x)
  }

  /** A straight stretch is the chord of its ends, and only a straight stretch is. */
  lemma LinearIsChord(ps: seq<Piece>, a: real, b: real)
    requires a < b
    ensures Linear(ps, a, b) <==> IsChord(ps, a, b)
  {
    hide Value;
    var fa, fb := Value(ps, a), Value(ps, b);
    if Linear(ps, a, b) {
      var s, c :| OnLine(ps, a, b, s, c);
      forall x | a <= x <= b
        ensures Chord(a, b, fa, fb, x) == Value(ps, x)
      {
        ChordOfLine(s, c, a, b, x);
      }
    }
    if IsChord(ps, a, b) {
      var s := (fb - fa) / (b - a);
      forall x | a <= x <= b
        ensures Value(ps, x) == Times(s, x) + (fa - Times(s, a))
      {
        assert s * (x - a) == s * x - s * a;
      }
      assert OnLine(ps, a, b, s, fa - Times(s, a));
    }
  }

  lemma ChordOfLine(s: real, c: real, a: real, b: real, x: real)
    requires a < b
    ensures Chord(a, b, Times(s, a) + c, Times(s, b) + c, x) == Times(s, x) + c
  {
    assert (s * b + c) - (s * a + c) == s * (b - a);
    assert s * (b - a) / (b - a) == s;
    assert s * (x - a) == s * x - s * a;
  }

  function FarSlope(p: Piece): real {
    match p
    case Ramp(slope, _) => slope
    case Hinge(scale, _, rising, _) => if rising then scale else 0.0
  }

  function Spread(p: Piece): real {
    Abs(p.base) + (if p.Hinge? then Abs(Times(p.scale, p.kink)) else 0.0)
  }

  /** The slope far to the right: what every unbounded tail follows. */
  function TailSlope(ps: seq<Piece>): real {
    if ps == [] then 0.0 else TailSlope(ps[..|ps| - 1]) + FarSlope(ps[|ps| - 1])
  }

  function TailSpread(ps: seq<Piece>): real {
    if ps == [] then 0.0 else TailSpread(ps[..|ps| - 1]) + Spread(ps[|ps| - 1])
  }

  lemma {:induction false} TailWithinSpread(ps: seq<Piece>, x: real)
    requires x >= 0.0
    ensures Abs(Value(ps, x) - Times(TailSlope(ps), x)) <= TailSpread(ps)
  {
    if ps != [] {
      hide Eval, FarSlope, Spread, Times;
      var rest, p := ps[..|ps| - 1], ps[|ps| - 1];
      TailWithinSpread(rest, x);
      PieceWithinSpread(p, x);
      Distribute(TailSlope(rest), FarSlope(p), x);
    }
  }

  /** A hinge strays from its far slope by no more than `scale * kink`. */
  lemma PieceWithinSpread(p: Piece, x: real)
    requires x >= 0.0
    ensures Abs(Eval(p, x) - Times(FarSlope(p), x)) <= Spread(p)
  {
    hide Times;
    if p.Hinge? {
      Algebra(p.scale, x, p.kink);
      if x <= p.kink {
        PartOfProduct(p.scale, x, p.kink);
      }
    }
  }

  lemma PartOfProduct(s: real, x: real, y: real)
    requires 0.0 <= x <= y
    ensures Abs(Times(s, x)) <= Abs(Times(s, y)) && Abs(Times(s, y - x)) <= Abs(Times(s, y))
  {
    if s >= 0.0 {
      MulMono(s, x, y);
      MulMono(s, 0.0, x);
    } else {
      MulMono(-s, x, y);
      MulMono(-s, 0.0, x);
    }
  }

  ghost predicate Floor(ps: seq<Piece>, floor: real) {
    forall x: real :: x >= 0.0 ==> Value(ps, x) >= floor
  }

  ghost predicate BoundedBelow(ps: seq<Piece>) {
    exists floor: real :: Floor(ps, floor)
  }

  /** Over all non-negative prices the loss is capped exactly when the far slope is not negative. */
  lemma BoundedBelowIffTail(ps: seq<Piece>)
    ensures BoundedBelow(ps) <==> TailSlope(ps) >= 0.0
  {
    hide Value, TailSlope, TailSpread, Times;
    if TailSlope(ps) >= 0.0 {
      forall x: real | x >= 0.0
        ensures Value(ps, x) >= -TailSpread(ps)
      {
        TailWithinSpread(ps, x);
        NonNegativeProduct(TailSlope(ps), x);
      }
      assert Floor(ps, -TailSpread(ps));
    } else {
      forall floor: real
        ensures !Floor(ps, floor)
      {
        var x := FarEnough(TailSlope(ps), TailSpread(ps), floor);
        TailWithinSpread(ps, x);
        assert Value(ps, x) < floor;
      }
    }
  }

  lemma FarEnough(s: real, spread: real, floor: real) returns (x: real)
    requires s < 0.0
    ensures x >= 0.0 && Times(s, x) + spread < floor
  {
    if floor > spread {
      x := 0.0;
    } else {
      x := (spread - floor + 1.0) / -s;
      assert -s * x == spread - floor + 1.0;
    }
  }

  /** What the line through the samples `a` and `b` misses at zero: all of `scale * kink` for a piece that bends at
      or below `a`, a share of `scale * a` for one that bends between the two, nothing for one beyond. */
  function LowBends(ps: seq<Piece>, a: real, b: real): real
    requires a < b
  {
    if ps == [] then 0.0 else LowBends(ps[..|ps| - 1], a, b) + LowBend(ps[|ps| - 1], a, b)
  }

  function LowBend(p: Piece, a: real, b: real): real
    requires a < b
  {
    if p.Ramp? || p.kink >= b then 0.0
    else if p.kink <= a then Times(p.scale, p.kink)
    else (Times(p.scale, b - p.kink) / (b - a)) * a
  }

  /** Where the line through (a, fa) and (b, fb) meets zero. */
  function Intercept(a: real, b: real, fa: real, fb: real): real
    requires a < b
  {
    fa - (fb - fa) / (b - a) * a
  }

  /** Extending the chord of [a, b] straight down to zero misses the value at zero by exactly `LowBends`. */
  lemma {:induction false} ZeroIntercept(ps: seq<Piece>, a: real, b: real)
    requires 0.0 < a < b
    requires forall p :: p in ps && p.Hinge? ==> p.kink > 0.0
    ensures Intercept(a, b, Value(ps, a), Value(ps, b)) == Value(ps, 0.0) - LowBends(ps, a, b)
  {
    hide Intercept, Eval, LowBend;
    if ps == [] {
      NoIntercept(a, b);
    } else {
      var rest, p := ps[..|ps| - 1], ps[|ps| - 1];
      ZeroIntercept(rest, a, b);
      PieceIntercept(p, a, b);
      InterceptsAdd(a, b, Value(rest, a), Value(rest, b), Eval(p, a), Eval(p, b));
    }
  }

  lemma NoIntercept(a: real, b: real)
    requires a < b
    ensures Intercept(a, b, 0.0, 0.0) == 0.0
  {
  }

  lemma InterceptsAdd(a: real, b: real, fa: real, fb: real, ga: real, gb: real)
    requires a < b
    ensures Intercept(a, b, fa + ga, fb + gb) == Intercept(a, b, fa, fb) + Intercept(a, b, ga, gb)
  {
    var f, g, w := fb - fa, gb - ga, b - a;
    assert (f + g) / w == f / w + g / w;
    assert (f / w + g / w) * a == f / w * a + g / w * a;
  }

  lemma PieceIntercept(p: Piece, a: real, b: real)
    requires 0.0 < a < b && (p.Hinge? ==> p.kink > 0.0)
    ensures Intercept(a, b, Eval(p, a), Eval(p, b)) == Eval(p, 0.0) - LowBend(p, a, b)
  {
    hide Times, Intercept;
    match p
    case Ramp(slope, base) =>
      LineIntercept(slope, base, a, b, Eval(p, a), Eval(p, b));
      Algebra(slope, 0.0, 0.0);
    case Hinge(scale, kink, rising, base) =>
      Algebra(scale, a, kink);
      Algebra(scale, b, kink);
      Algebra(scale, 0.0, kink);
      Algebra(0.0, a, b);
      if a < kink < b {
        InnerIntercept(scale, kink, rising, base, a, b);
      } else if rising && kink <= a {
        LineIntercept(scale, base - Times(scale, kink), a, b, Eval(p, a), Eval(p, b));
      } else if !rising && kink >= b {
        LineIntercept(-scale, base + Times(scale, kink), a, b, Eval(p, a), Eval(p, b));
      } else {
        LineIntercept(0.0, base, a, b, Eval(p, a), Eval(p, b));
      }
  }

  lemma InnerIntercept(scale: real, kink: real, rising: bool, base: real, a: real, b: real)
    requires 0.0 < a < kink < b
    ensures
      var p := Hinge(scale, kink, rising, base);
      Intercept(a, b, Eval(p, a), Eval(p, b)) == Eval(p, 0.0) - (Times(scale, b - kink) / (b - a)) * a
  {
    var w := b - a;
    if !rising {
      assert scale * (kink - a) == scale * w - scale * (b - kink);
      assert (-(scale * (kink - a))) / w == -scale + scale * (b - kink) / w;
      assert (-scale + scale * (b - kink) / w) * a == -scale * a + scale * (b - kink) / w * a;
    }
  }

  lemma LineIntercept(s: real, c: real, a: real, b: real, fa: real, fb: real)
    requires a < b && fa == Times(s, a) + c && fb == Times(s, b) + c
    ensures Intercept(a, b, fa, fb) == c
  {
    assert fb - fa == s * (b - a);
    assert (fb - fa) / (b - a) == s;
  }

  /** The product rules the proofs above use. */
  lemma Algebra(s: real, x: real, y: real)
    ensures Times(s, x - y) == Times(s, x) - Times(s, y)
    ensures Times(s, y - x) == Times(s, y) - Times(s, x)
    ensures Times(-s, x) == -Times(s, x)
    ensures Times(s, 0.0) == 0.0 && Times(0.0, x) == 0.0 && Times(0.0, y) == 0.0
  {
  }

  lemma Distribute(s: real, s': real, x: real)
    ensures Times(s + s', x) == Times(s, x) + Times(s', x)
  {
  }

  lemma NonNegativeProduct(x: real, y: real)
    requires x >= 0.0 && y >= 0.0
    ensures Times(x, y) >= 0.0
  {
  }
}
