/** Break-even prices read from a sampled price curve (frontend/lib/payoff.ts, breakevens). */
module Breakevens {
  import opened Numbers
  import opened PiecewiseLinear
  import opened Payoff
  import opened PriceCurve

  /** `Math.round(p * 100) / 100`: to the cent, halves up. */
  function RoundCents(p: real): real {
    (p * 100.0 + 0.5).Floor as real / 100.0
  }

  /** Where the line from (p, a) to (q, b) meets zero. */
  function Root(a: real, b: real, p: real, q: real): real
    requires a != b
  {
    p + a / (a - b) * (q - p)
  }

  /** The crossing one step of the scan reports, before rounding. */
  function Crossing(p: PricePoint, q: PricePoint, offset: real): Option<real> {
    var a, b := p.terminal + offset, q.terminal + offset;
    if a == 0.0 then Some(p.price)
    else if (a < 0.0) != (b < 0.0) then Some(Root(a, b, p.price, q.price))
    else None
  }

  ghost predicate Reports(points: seq<PricePoint>, offset: real, z: real) {
    exists i :: 1 <= i < |points| && Crossing(points[i - 1], points[i], offset) == Some(z)
  }

  ghost predicate IsBreakeven(points: seq<PricePoint>, offset: real, r: real) {
    exists z :: Reports(points, offset, z) && r == RoundCents(z)
  }

  /** On a chart, whose prices ascend, the break-evens come in ascending order. */
  method FindBreakevens(points: seq<PricePoint>, offset: real) returns (out: seq<real>)
    ensures forall r :: r in out <==> IsBreakeven(points, offset, r)
    ensures forall i, j :: 0 <= i < j < |out| ==> out[i] != out[j]
    ensures Ascending(Prices(points)) ==> Ascending(out)
  {
    hide Crossing, RoundCents;
    var exact := FindCrossings(points, offset);
    out := [];
    for i := 0 to |exact|
      invariant forall r :: r in out <==> exists k :: 0 <= k < i && r == RoundCents(exact[k])
      invariant forall i, j :: 0 <= i < j < |out| ==> out[i] != out[j]
      invariant NeverDescends(exact) ==> Ascending(out) && forall r :: i > 0 && r in out ==> r <= RoundCents(exact[i - 1])
    {
      if i > 0 && NeverDescends(exact) {
        RoundingKeepsOrder(exact[i - 1], exact[i]);
      }
      if RoundCents(exact[i]) !in out {
        OneMore(out, RoundCents(exact[i]));
        out := out + [RoundCents(exact[i])];
      }
    }
  }

  ghost predicate NeverDescends(xs: seq<real>) {
    forall i, j :: 0 <= i < j < |xs| ==> xs[i] <= xs[j]
  }

  method FindCrossings(points: seq<PricePoint>, offset: real) returns (exact: seq<real>)
    ensures forall z :: z in exact <==> Reports(points, offset, z)
    ensures Ascending(Prices(points)) ==> NeverDescends(exact)
  {
    hide Crossing;
    exact := [];
    var i := 1;
    while i < |points|
      invariant 1 <= i && (|points| > 0 ==> i <= |points|)
      invariant forall k :: 1 <= k < i && k < |points| && Crossing(points[k - 1], points[k], offset).Some? ==>
        Crossing(points[k - 1], points[k], offset).value in exact
      invariant forall z :: z in exact ==> Reports(points, offset, z)
      invariant |points| > 0 && Ascending(Prices(points)) ==>
        NeverDescends(exact) && forall z :: z in exact ==> z <= points[i - 1].price
      invariant |points| == 0 ==> exact == []
    {
      var found := Crossing(points[i - 1], points[i], offset);
      if Ascending(Prices(points)) {
        assert Prices(points)[i - 1] < Prices(points)[i];
      }
      if found.Some? {
        if Ascending(Prices(points)) {
          CrossingInStep(points[i - 1], points[i], offset);
        }
        assert Reports(points, offset, found.value);
        OneMore(exact, found.value);
        exact := exact + [found.value];
      }
      i := i + 1;
    }
  }

  lemma RoundingKeepsOrder(x: real, y: real)
    requires x <= y
    ensures RoundCents(x) <= RoundCents(y)
  {
    var a, b := x * 100.0 + 0.5, y * 100.0 + 0.5;
    assert a.Floor as real <= a <= b < b.Floor as real + 1.0;
    assert a.Floor <= b.Floor;
  }

  lemma OneMore(xs: seq<real>, x: real)
    ensures NeverDescends(xs) && (forall v :: v in xs ==> v <= x) ==> NeverDescends(xs + [x])
    ensures Ascending(xs) && (forall v :: v in xs ==> v < x) ==> Ascending(xs + [x])
  {
    var more := xs + [x];
    forall i, j | 0 <= i < j < |more|
      ensures more[i] in xs
      ensures j < |xs| ==> more[i] == xs[i] && more[j] == xs[j]
      ensures j == |xs| ==> more[j] == x
    {
      assert more[i] == xs[i];
    }
  }

  // ---- What is reported, and what is not missed ----

  /** A step of a sampled curve that is exact at both ends and a straight line between them. */
  ghost predicate Straight(ps: seq<Piece>, p: PricePoint, q: PricePoint) {
    && p.price < q.price && p.terminal == Value(ps, p.price) && q.terminal == Value(ps, q.price)
    && Linear(ps, p.price, q.price)
  }

  ghost predicate Sampled(ps: seq<Piece>, points: seq<PricePoint>) {
    && Ascending(Prices(points))
    && forall i :: 1 <= i < |points| ==> Straight(ps, points[i - 1], points[i])
  }

  lemma ExactStepIsStraight(pricer: Pricer, legs: Book, view: View, points: seq<PricePoint>, i: int)
    requires Charted(pricer, legs, view, points) && 1 <= i < |points|
    ensures Ascending(Prices(points))
    ensures StepExact(legs, points, i) <==> Straight(PricePieces(legs), points[i - 1], points[i])
  {
    hide LowPrice, HighPrice, PricePieces, Charted, StepExact, Value, Settle;
    ChartAscends(pricer, legs, view, points);
    assert Prices(points)[i - 1] < Prices(points)[i];
    PointIsSettle(pricer, legs, view, points, i - 1);
    PointIsSettle(pricer, legs, view, points, i);
    StepExactly(pricer, legs, view, points, i);
    LinearExactly(PricePieces(legs), points[i - 1].price, points[i].price);
  }

  /** The exact charts of one underlying are such curves. */
  lemma ExactChartIsSampled(pricer: Pricer, legs: Book, view: View, points: seq<PricePoint>)
    requires Charted(pricer, legs, view, points) && HiddenStrikesCancel(legs, points)
    ensures Sampled(PricePieces(legs), points)
  {
    hide PricePieces, Charted, StepExact, HiddenStrikesCancel, Straight;
    ChartExactly(pricer, legs, view, points);
    ChartAscends(pricer, legs, view, points);
    forall i | 1 <= i < |points|
      ensures Straight(PricePieces(legs), points[i - 1], points[i])
    {
      assert StepExact(legs, points, i);
      ExactStepIsStraight(pricer, legs, view, points, i);
    }
  }

  /** Of every chart, the part from the lower to the upper end of the range is. */
  lemma RangeIsSampled(pricer: Pricer, legs: Book, view: View, points: seq<PricePoint>) returns (lo: nat, hi: nat)
    requires Charted(pricer, legs, view, points)
    ensures lo < hi < |points| && points[lo].price == LowPrice(view) && points[hi].price == HighPrice(view)
    ensures Sampled(PricePieces(legs), points[lo..hi + 1])
  {
    lo, hi := RangeEnds(pricer, legs, view, points);
    hide PricePieces, Charted, StepExact, Straight, LowPrice, HighPrice;
    var xs, part := Prices(points), points[lo..hi + 1];
    ChartAscends(pricer, legs, view, points);
    forall i, j | 0 <= i < j < |part|
      ensures Prices(part)[i] < Prices(part)[j]
    {
      assert xs[lo + i] < xs[lo + j];
    }
    forall i | 1 <= i < |part|
      ensures Straight(PricePieces(legs), part[i - 1], part[i])
    {
      assert xs[lo] <= xs[lo + i - 1] && xs[lo + i] <= xs[hi];
      StepInRangeIsExact(pricer, legs, view, points, lo + i);
      ExactStepIsStraight(pricer, legs, view, points, lo + i);
    }
  }

  lemma RangeEnds(pricer: Pricer, legs: Book, view: View, points: seq<PricePoint>) returns (lo: nat, hi: nat)
    requires Charted(pricer, legs, view, points)
    ensures lo < hi < |points| && points[lo].price == LowPrice(view) && points[hi].price == HighPrice(view)
  {
    hide LowPrice, HighPrice;
    RangeIsProper(view);
    GridEnds(view);
    var xs := Prices(points);
    assert IsPrice(legs, view, LowPrice(view)) && IsPrice(legs, view, HighPrice(view));
    lo :| lo < |xs| && xs[lo] == LowPrice(view);
    hi :| hi < |xs| && xs[hi] == HighPrice(view);
    assert xs[lo] < xs[hi];
  }

  /** Where the line through two values of opposite sign meets zero. */
  lemma LineCrossing(a: real, b: real, p: real, q: real, s: real, c: real)
    requires p < q && (a < 0.0) != (b < 0.0) && a != 0.0
    requires a == Times(s, p) + c && b == Times(s, q) + c
    ensures a != b
    ensures p <= Root(a, b, p, q) <= q && Times(s, Root(a, b, p, q)) + c == 0.0
  {
    var t, w := a / (a - b), q - p;
    assert t * (a - b) == a;
    assert a - b == -(s * w);
    assert 0.0 <= t <= 1.0 by {
      if a < 0.0 {
        assert t == (-a) / (b - a);
      }
    }
    assert 0.0 <= t * w by { MulMono(w, 0.0, t); }
    assert t * w <= w by { MulMono(w, t, 1.0); }
    assert s * (t * w) == t * (s * w);
    assert s * (p + t * w) == s * p + s * (t * w);
  }

  /** Every price a straight step reports is an exact zero of the curve itself, inside the step. */
  lemma ReportedIsZero(ps: seq<Piece>, p: PricePoint, q: PricePoint, offset: real)
    requires Straight(ps, p, q) && Crossing(p, q, offset).Some?
    ensures var z := Crossing(p, q, offset).value;
      p.price <= z <= q.price && Value(ps, z) + offset == 0.0
  {
    hide Value, Times, Root;
    if p.terminal + offset != 0.0 {
      var s, c :| OnLine(ps, p.price, q.price, s, c);
      LineCrossing(p.terminal + offset, q.terminal + offset, p.price, q.price, s, c + offset);
    }
  }

  /** A zero of the curve is reported, unless it lies inside a stretch that is flat at zero: then the start of
      that stretch is. Only the very last sample is outside the promise. */
  lemma EveryZeroIsReported(ps: seq<Piece>, points: seq<PricePoint>, offset: real, z: real) returns (i: int)
    requires Sampled(ps, points) && points != []
    requires points[0].price <= z < points[|points| - 1].price && Value(ps, z) + offset == 0.0
    ensures 1 <= i < |points| && points[i - 1].price <= z < points[i].price
    ensures Crossing(points[i - 1], points[i], offset) == Some(z)
      || (Crossing(points[i - 1], points[i], offset) == Some(points[i - 1].price)
          && points[i - 1].terminal + offset == 0.0 && points[i].terminal + offset == 0.0)
  {
    hide Value, Times, Root;
    var k := Bracket(Prices(points), z);
    i := k + 1;
    var p, q := points[i - 1], points[i];
    assert Prices(points)[i - 1] < Prices(points)[i];
    if z != p.price {
      assert Straight(ps, points[i - 1], points[i]);
      var s, c :| OnLine(ps, p.price, q.price, s, c);
      LineZero(p.terminal + offset, q.terminal + offset, p.price, q.price, z, s, c + offset);
    }
  }

  /** A line with a zero strictly inside either is zero or changes sign, and its crossing is that zero. */
  lemma LineZero(a: real, b: real, p: real, q: real, z: real, s: real, c: real)
    requires p < z < q
    requires a == Times(s, p) + c && b == Times(s, q) + c && Times(s, z) + c == 0.0
    ensures (a == 0.0 && b == 0.0)
      || (a != 0.0 && (a < 0.0) != (b < 0.0) && z == Root(a, b, p, q))
  {
    assert a == s * (p - z);
    assert b == s * (q - z);
    if s == 0.0 {
      assert a == 0.0 && b == 0.0;
    } else {
      ProductSign(s, p - z);
      ProductSign(s, q - z);
      var w, u := q - p, z - p;
      assert a - b == -(s * w);
      assert a == -(s * u);
      assert s * w != 0.0;
      assert a / (a - b) == u / w by {
        assert (-(s * u)) / (-(s * w)) == u / w;
      }
      assert u / w * w == u;
    }
  }

  lemma ProductSign(s: real, x: real)
    requires s != 0.0 && x != 0.0
    ensures s * x < 0.0 <==> (s < 0.0) != (x < 0.0)
    ensures s * x != 0.0
  {
  }

  /** Between two prices of strictly opposite sign, a true zero of the curve is reported. */
  lemma {:induction false} SignChangeIsReported(ps: seq<Piece>, points: seq<PricePoint>, offset: real, x: real, y: real, k: nat)
      returns (z: real)
    requires Sampled(ps, points) && k + 1 < |points|
    requires points[k].price <= x < points[k + 1].price && x < y <= points[|points| - 1].price
    requires (Value(ps, x) + offset < 0.0 < Value(ps, y) + offset) || (Value(ps, y) + offset < 0.0 < Value(ps, x) + offset)
    ensures x < z < y && Value(ps, z) + offset == 0.0 && Reports(points, offset, z)
    decreases |points| - k
  {
    hide Value, Times, Root;
    var p, q := points[k], points[k + 1];
    assert Prices(points)[k] < Prices(points)[k + 1];
    assert Straight(ps, points[k + 1 - 1], points[k + 1]);
    var s, c :| OnLine(ps, p.price, q.price, s, c);
    var right := if y <= q.price then y else q.price;
    var at := Value(ps, right) + offset;
    if at != 0.0 && (at < 0.0) != (Value(ps, x) + offset < 0.0) {
      var a, b := p.terminal + offset, q.terminal + offset;
      SignSpreads(p.price, q.price, x, right, s, c + offset);
      LineCrossing(a, b, p.price, q.price, s, c + offset);
      z := Root(a, b, p.price, q.price);
      ZeroBetween(x, right, z, s, c + offset);
      assert Crossing(points[k + 1 - 1], points[k + 1], offset) == Some(z);
    } else if at == 0.0 {
      z := q.price;
      assert k + 2 < |points|;
      assert Crossing(points[k + 2 - 1], points[k + 2], offset) == Some(z);
    } else {
      assert k + 2 < |points|;
      assert Prices(points)[k + 1] < Prices(points)[k + 2];
      z := SignChangeIsReported(ps, points, offset, q.price, y, k + 1);
    }
  }

  /** A line that changes sign inside a stretch has those signs at its ends. */
  lemma SignSpreads(p: real, q: real, x: real, y: real, s: real, c: real)
    requires p <= x < y <= q
    requires Times(s, x) + c != 0.0 && Times(s, y) + c != 0.0
    requires (Times(s, x) + c < 0.0) != (Times(s, y) + c < 0.0)
    ensures Times(s, p) + c != 0.0 && Times(s, q) + c != 0.0
    ensures (Times(s, p) + c < 0.0) == (Times(s, x) + c < 0.0)
    ensures (Times(s, q) + c < 0.0) == (Times(s, y) + c < 0.0)
  {
    LineOrder(s, c, x, y, x, Times(s, x) + c, Times(s, y) + c, Times(s, x) + c);
    assert s * (y - x) == (Times(s, y) + c) - (Times(s, x) + c);
    if s >= 0.0 {
      MulMono(s, p, x);
      MulMono(s, y, q);
      MulMono(s, x, y);
    } else {
      MulMono(-s, p, x);
      MulMono(-s, y, q);
      MulMono(-s, x, y);
    }
  }

  lemma ZeroBetween(x: real, y: real, z: real, s: real, c: real)
    requires x < y && Times(s, z) + c == 0.0
    requires Times(s, x) + c != 0.0 && Times(s, y) + c != 0.0
    requires (Times(s, x) + c < 0.0) != (Times(s, y) + c < 0.0)
    ensures x < z < y
  {
    if z <= x {
      if s >= 0.0 { MulMono(s, z, x); MulMono(s, x, y); } else { MulMono(-s, z, x); MulMono(-s, x, y); }
    }
    if z >= y {
      if s >= 0.0 { MulMono(s, y, z); MulMono(s, x, y); } else { MulMono(-s, y, z); MulMono(-s, x, y); }
    }
  }

  lemma ReportsAreZeros(ps: seq<Piece>, points: seq<PricePoint>, offset: real, z: real)
    requires Sampled(ps, points) && points != [] && Reports(points, offset, z)
    ensures points[0].price <= z <= points[|points| - 1].price && Value(ps, z) + offset == 0.0
  {
    hide Value, Crossing, Straight;
    var i :| 1 <= i < |points| && Crossing(points[i - 1], points[i], offset) == Some(z);
    assert Straight(ps, points[i - 1], points[i]);
    ReportedIsZero(ps, points[i - 1], points[i], offset);
    var xs := Prices(points);
    assert xs[0] <= xs[i - 1] && xs[i] <= xs[|xs| - 1];
  }

  // ---- Inside the range the scan is right for every book ----

  /** Soundness: what a step inside the range reports is a true zero of the settlement. */
  lemma ReportedInRangeIsZero(pricer: Pricer, legs: Book, view: View, points: seq<PricePoint>, offset: real, i: int)
    requires Charted(pricer, legs, view, points) && 1 <= i < |points|
    requires LowPrice(view) <= points[i - 1].price && points[i].price <= HighPrice(view)
    requires Crossing(points[i - 1], points[i], offset).Some?
    ensures
      var z := Crossing(points[i - 1], points[i], offset).value;
      points[i - 1].price <= z <= points[i].price && Settle(legs, z) + offset == 0.0
  {
    StepInRangeIsExact(pricer, legs, view, points, i);
    ExactStepIsStraight(pricer, legs, view, points, i);
    hide LowPrice, HighPrice, Settle, Value, PricePieces, Crossing, Charted;
    ReportedIsZero(PricePieces(legs), points[i - 1], points[i], offset);
    SettleIsPiecewise(legs, Crossing(points[i - 1], points[i], offset).value);
  }

  /** Completeness: wherever the settlement changes strictly from loss to profit or back inside the range, the
      rounding of a true zero in between is a break-even. */
  lemma SignChangeHasBreakeven(pricer: Pricer, legs: Book, view: View, points: seq<PricePoint>, offset: real,
                               x: real, y: real) returns (z: real)
    requires Charted(pricer, legs, view, points)
    requires LowPrice(view) <= x < y <= HighPrice(view)
    requires (Settle(legs, x) + offset < 0.0 < Settle(legs, y) + offset)
      || (Settle(legs, y) + offset < 0.0 < Settle(legs, x) + offset)
    ensures x < z < y && Settle(legs, z) + offset == 0.0
    ensures Reports(points, offset, z) && IsBreakeven(points, offset, RoundCents(z))
  {
    hide LowPrice, HighPrice, Settle, Value, PricePieces, RoundCents, Crossing, Charted, Sampled;
    var lo, hi := RangeIsSampled(pricer, legs, view, points);
    z := SampledSignChange(legs, points[lo..hi + 1], offset, x, y);
    ReportsOfPart(points, lo, hi + 1, offset, z);
  }

  lemma SampledSignChange(legs: Book, points: seq<PricePoint>, offset: real, x: real, y: real) returns (z: real)
    requires Sampled(PricePieces(legs), points) && points != []
    requires points[0].price <= x < y <= points[|points| - 1].price
    requires (Settle(legs, x) + offset < 0.0 < Settle(legs, y) + offset)
      || (Settle(legs, y) + offset < 0.0 < Settle(legs, x) + offset)
    ensures x < z < y && Settle(legs, z) + offset == 0.0 && Reports(points, offset, z)
  {
    hide Settle, Value, PricePieces, Crossing, Straight;
    SettleIsPiecewise(legs, x);
    SettleIsPiecewise(legs, y);
    var k := Bracket(Prices(points), x);
    assert x == Prices(points)[k] ==> k + 1 < |points|;
    assert k + 1 < |points| ==> Prices(points)[k] < Prices(points)[k + 1];
    z := SignChangeIsReported(PricePieces(legs), points, offset, x, y, k);
    SettleIsPiecewise(legs, z);
  }

  lemma ReportsOfPart(points: seq<PricePoint>, lo: nat, hi: nat, offset: real, z: real)
    requires lo <= hi <= |points| && Reports(points[lo..hi], offset, z)
    ensures Reports(points, offset, z)
  {
    hide Crossing;
    var part := points[lo..hi];
    var i :| 1 <= i < |part| && Crossing(part[i - 1], part[i], offset) == Some(z);
    assert Crossing(points[lo + i - 1], points[lo + i], offset) == Some(z);
  }

  // ---- On the whole chart it is right exactly when no hidden strike bends the settlement ----

  /** Soundness of the whole scan: every break-even is the rounding of a true zero of the settlement. */
  lemma BreakevensAreZeros(pricer: Pricer, legs: Book, view: View, points: seq<PricePoint>, offset: real, r: real) returns (z: real)
    requires Charted(pricer, legs, view, points) && points != [] && HiddenStrikesCancel(legs, points)
    requires IsBreakeven(points, offset, r)
    ensures r == RoundCents(z) && Settle(legs, z) + offset == 0.0
    ensures points[0].price <= z <= points[|points| - 1].price
  {
    hide Settle, Value, PricePieces, RoundCents, Reports, Charted, HiddenStrikesCancel, Sampled;
    z :| Reports(points, offset, z) && r == RoundCents(z);
    ExactChartIsSampled(pricer, legs, view, points);
    ReportsAreZeros(PricePieces(legs), points, offset, z);
    SettleIsPiecewise(legs, z);
  }

  /** Whatever the offset, every price reported before rounding is a true zero. */
  ghost predicate ReportsOnlyZeros(legs: Book, points: seq<PricePoint>) {
    forall offset, z :: Reports(points, offset, z) ==> Settle(legs, z) + offset == 0.0
  }

  ghost predicate ChangesSign(legs: Book, offset: real, x: real, y: real) {
    || (Settle(legs, x) + offset < 0.0 < Settle(legs, y) + offset)
    || (Settle(legs, y) + offset < 0.0 < Settle(legs, x) + offset)
  }

  ghost predicate ReportsBetween(points: seq<PricePoint>, offset: real, x: real, y: real) {
    exists z :: x < z < y && Reports(points, offset, z)
  }

  /** Whatever the offset, something is reported inside every strict change of sign. */
  ghost predicate ReportsEverySignChange(legs: Book, points: seq<PricePoint>) {
    forall offset, x, y ::
      points != [] && points[0].price <= x < y <= points[|points| - 1].price && ChangesSign(legs, offset, x, y) ==>
        ReportsBetween(points, offset, x, y)
  }

  /** Over all offsets the scan of a chart is sound and complete exactly when the strikes hidden between its samples
      cancel out. */
  lemma BreakevensExactly(pricer: Pricer, legs: Book, view: View, points: seq<PricePoint>)
    requires Charted(pricer, legs, view, points)
    ensures ReportsOnlyZeros(legs, points) && ReportsEverySignChange(legs, points) <==> HiddenStrikesCancel(legs, points)
  {
    hide Charted, StepExact, HiddenStrikesCancel, ReportsOnlyZeros, ReportsEverySignChange;
    ChartExactly(pricer, legs, view, points);
    ChartAscends(pricer, legs, view, points);
    if HiddenStrikesCancel(legs, points) {
      ExactScanIsRight(pricer, legs, view, points);
    }
    if ReportsOnlyZeros(legs, points) && ReportsEverySignChange(legs, points) {
      forall i | 1 <= i < |points|
        ensures StepExact(legs, points, i)
      {
        RightScanIsExact(pricer, legs, view, points, i);
      }
    }
  }

  lemma ExactScanIsRight(pricer: Pricer, legs: Book, view: View, points: seq<PricePoint>)
    requires Charted(pricer, legs, view, points) && HiddenStrikesCancel(legs, points)
    ensures ReportsOnlyZeros(legs, points) && ReportsEverySignChange(legs, points)
  {
    hide Charted, HiddenStrikesCancel, Sampled, Settle, Value, PricePieces, Crossing;
    ExactChartIsSampled(pricer, legs, view, points);
    forall offset, z | Reports(points, offset, z)
      ensures Settle(legs, z) + offset == 0.0
    {
      ReportsAreZeros(PricePieces(legs), points, offset, z);
      SettleIsPiecewise(legs, z);
    }
    forall offset, x, y | points != [] && points[0].price <= x < y <= points[|points| - 1].price
      && ChangesSign(legs, offset, x, y)
      ensures ReportsBetween(points, offset, x, y)
    {
      var z := SampledSignChange(legs, points, offset, x, y);
    }
  }

  /** Where a line that is not flat takes the value of its chord at x, its crossing is x. */
  lemma RootOfChord(a: real, b: real, p: real, q: real, x: real)
    requires p < x < q && a != b
    ensures
      var d := Chord(p, q, a, b, x);
      a - d != 0.0 && (a - d < 0.0) != (b - d < 0.0) && Root(a - d, b - d, p, q) == x
  {
    var w, u, s := q - p, x - p, (b - a) / (q - p);
    var d := Chord(p, q, a, b, x);
    assert s * w == b - a && s != 0.0;
    assert a - d == -(s * u);
    assert b - d == s * (w - u) by {
      assert s * (w - u) == s * w - s * u;
    }
    ProductSign(s, u);
    ProductSign(s, w - u);
    assert (a - d) - (b - d) == -(s * w);
    assert (-(s * u)) / (-(s * w)) == u / w;
    assert u / w * w == u;
  }

  /** A crossing lies inside its step. */
  lemma CrossingInStep(p: PricePoint, q: PricePoint, offset: real)
    requires p.price < q.price && Crossing(p, q, offset).Some?
    ensures p.price <= Crossing(p, q, offset).value <= q.price
  {
    hide Root, Times;
    var a, b := p.terminal + offset, q.terminal + offset;
    if a != 0.0 {
      var s := (b - a) / (q.price - p.price);
      LineThrough(p.price, q.price, a, b);
      LineCrossing(a, b, p.price, q.price, s, a - Times(s, p.price));
    }
  }

  lemma LineThrough(p: real, q: real, a: real, b: real)
    requires p < q
    ensures Times((b - a) / (q - p), q) + (a - Times((b - a) / (q - p), p)) == b
  {
    var s := (b - a) / (q - p);
    assert s * (q - p) == b - a;
    assert s * (q - p) == s * q - s * p;
  }

  lemma RightScanIsExact(pricer: Pricer, legs: Book, view: View, points: seq<PricePoint>, i: int)
    requires Charted(pricer, legs, view, points) && 1 <= i < |points|
    requires ReportsOnlyZeros(legs, points) && ReportsEverySignChange(legs, points)
    ensures Ascending(Prices(points)) && StepExact(legs, points, i)
  {
    hide Charted, Settle, Value, PricePieces, ReportsOnlyZeros, ReportsEverySignChange, Chord;
    ChartAscends(pricer, legs, view, points);
    var p, q := points[i - 1], points[i];
    assert Prices(points)[i - 1] < Prices(points)[i];
    PointIsSettle(pricer, legs, view, points, i - 1);
    PointIsSettle(pricer, legs, view, points, i);
    forall price | p.price <= price <= q.price
      ensures Drawn(p, q, price) == Settle(legs, price)
    {
      if p.price < price < q.price {
        if p.terminal != q.terminal {
          SlopedStepIsExact(legs, points, i, price);
        } else {
          FlatStepIsExact(legs, points, i, price);
        }
      } else {
        ChordEnds(p.price, q.price, p.terminal, q.terminal);
      }
    }
  }

  lemma ChordEnds(p: real, q: real, a: real, b: real)
    requires p < q
    ensures Chord(p, q, a, b, p) == a && Chord(p, q, a, b, q) == b
    ensures a == b ==> forall x :: Chord(p, q, a, b, x) == a
  {
    assert (b - a) / (q - p) * (q - p) == b - a;
  }

  lemma SlopedStepIsExact(legs: Book, points: seq<PricePoint>, i: int, price: real)
    requires Ascending(Prices(points)) && 1 <= i < |points| && ReportsOnlyZeros(legs, points)
    requires points[i - 1].price < price < points[i].price && points[i - 1].terminal != points[i].terminal
    ensures Drawn(points[i - 1], points[i], price) == Settle(legs, price)
  {
    hide Settle, Chord, Root;
    var p, q := points[i - 1], points[i];
    var d := Drawn(p, q, price);
    RootOfChord(p.terminal, q.terminal, p.price, q.price, price);
    assert Crossing(points[i - 1], points[i], -d) == Some(price);
    assert Reports(points, -d, price);
  }

  lemma FlatStepIsExact(legs: Book, points: seq<PricePoint>, i: int, price: real)
    requires Ascending(Prices(points)) && 1 <= i < |points| && ReportsEverySignChange(legs, points)
    requires points[i - 1].price < price < points[i].price && points[i - 1].terminal == points[i].terminal
    requires points[i - 1].terminal == Settle(legs, points[i - 1].price)
    ensures Drawn(points[i - 1], points[i], price) == Settle(legs, price)
  {
    hide Settle, Chord, Crossing;
    var p, q, xs := points[i - 1], points[i], Prices(points);
    ChordEnds(p.price, q.price, p.terminal, q.terminal);
    var a, v := p.terminal, Settle(legs, price);
    if a != v {
      var offset := -((a + v) / 2.0);
      assert xs[0] <= xs[i - 1] && xs[i] <= xs[|xs| - 1];
      assert ChangesSign(legs, offset, p.price, price);
      assert ReportsBetween(points, offset, p.price, price);
      var z :| p.price < z < price && Reports(points, offset, z);
      var j :| 1 <= j < |points| && Crossing(points[j - 1], points[j], offset) == Some(z);
      assert xs[j - 1] < xs[j];
      CrossingInStep(points[j - 1], points[j], offset);
      OneStep(xs, i, j, z);
      FlatStepReportsNothing(p, q, offset);
      assert false;
    }
  }

  lemma OneStep(xs: seq<real>, i: int, j: int, z: real)
    requires Ascending(xs) && 1 <= i < |xs| && 1 <= j < |xs|
    requires xs[i - 1] < z < xs[i] && xs[j - 1] <= z <= xs[j]
    ensures i == j
  {
  }

  lemma FlatStepReportsNothing(p: PricePoint, q: PricePoint, offset: real)
    requires p.terminal == q.terminal && p.terminal + offset != 0.0
    ensures Crossing(p, q, offset) == None
  {
  }

  /** Rounding moves a price by half a cent at most, up on a tie, and to whole cents. */
  lemma RoundingIsToTheCent(p: real) returns (cents: int)
    ensures -0.005 < RoundCents(p) - p <= 0.005
    ensures RoundCents(p) * 100.0 == cents as real
  {
    cents := (p * 100.0 + 0.5).Floor;
  }
}
