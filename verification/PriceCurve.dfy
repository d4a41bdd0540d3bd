/** One underlying's expiry curve over prices, and the statistics read from it
    (frontend/lib/payoff.ts, buildPriceCurve and strategyStats). */
module PriceCurve {
  import opened Numbers
  import opened PiecewiseLinear
  import opened Payoff
  import Curves

  datatype PricePoint = PricePoint(price: real, shock: real, terminal: real, modeled: real, accounts: map<string, real>)

  /** Everything but the legs that a price curve is drawn from. */
  datatype View = View(assumptions: Assumptions, key: string, range: real, horizon: real, rate: real, samples: int)

  ghost predicate HasSpot(view: View) {
    view.key in view.assumptions && view.assumptions[view.key].spot > 0.0
  }

  function Own(view: View): Assumption
    requires HasSpot(view)
  {
    view.assumptions[view.key]
  }

  function LowPrice(view: View): real
    requires HasSpot(view)
  {
    Times(Own(view).spot, 1.0 - Min(view.range, 95.0) / 100.0)
  }

  function HighPrice(view: View): real
    requires HasSpot(view)
  {
    Times(Own(view).spot, 1.0 + view.range / 100.0)
  }

  function GridPrice(view: View, i: int): real
    requires HasSpot(view) && view.samples > 0
  {
    LowPrice(view) + (HighPrice(view) - LowPrice(view)) * i as real / view.samples as real
  }

  /** A strike in range brings itself and two prices a millionth to either side. */
  predicate IsStrikePrice(leg: RiskLeg, lo: real, hi: real, p: real) {
    && leg.contract.Opt? && leg.contract.strike > 0.0 && lo <= leg.contract.strike <= hi
    && (p == leg.contract.strike || p == leg.contract.strike * 0.999999 || p == leg.contract.strike * 1.000001)
  }

  ghost predicate IsPrice(legs: Book, view: View, p: real)
    requires HasSpot(view) && view.samples > 0
  {
    || (exists i :: 0 <= i <= view.samples && p == GridPrice(view, i))
    || p == Own(view).spot
    || (exists leg :: leg in legs && IsStrikePrice(leg, LowPrice(view), HighPrice(view), p))
  }

  function ShockAt(a: Assumption, price: real): real
    requires a.spot > 0.0
  {
    (price / a.spot - 1.0) * 100.0 / (if Beta(a) > 0.0 then Beta(a) else 1.0)
  }

  function Prices(points: seq<PricePoint>): seq<real> {
    seq(|points|, i requires 0 <= i < |points| => points[i].price)
  }

  ghost predicate IsPricePoint(pricer: Pricer, legs: Book, view: View, p: PricePoint)
    requires HasSpot(view) && Priced(legs, view.assumptions)
  {
    && p.shock == ShockAt(Own(view), p.price)
    && p.terminal == Terminal(legs, view.assumptions, p.shock)
    && p.modeled == Modeled(pricer, legs, view.assumptions, p.shock, view.horizon, view.rate)
    && p.accounts == Curves.AccountTotals(legs, view.assumptions, p.shock)
  }

  ghost predicate IsPriceCurve(pricer: Pricer, legs: Book, view: View, points: seq<PricePoint>)
    requires HasSpot(view) && view.samples > 0 && Priced(legs, view.assumptions)
  {
    && Ascending(Prices(points))
    && (forall p :: p in Prices(points) <==> IsPrice(legs, view, p))
    && (forall p :: p in points ==> IsPricePoint(pricer, legs, view, p))
  }

  method SamplePrices(legs: Book, view: View) returns (prices: set<real>)
    requires HasSpot(view) && view.samples > 0
    ensures forall p :: p in prices <==> IsPrice(legs, view, p)
  {
    hide GridPrice, LowPrice, HighPrice, IsStrikePrice;
    var lo, hi := LowPrice(view), HighPrice(view);
    prices := {};
    for i := 0 to view.samples + 1
      invariant forall p :: p in prices <==> exists k :: 0 <= k < i && p == GridPrice(view, k)
    {
      prices := prices + {GridPrice(view, i)};
    }
    prices := prices + {Own(view).spot};
    ghost var fixed := prices;
    for i := 0 to |legs|
      invariant forall p :: p in prices <==> p in fixed || exists k :: 0 <= k < i && IsStrikePrice(legs[k], lo, hi, p)
    {
      ghost var before := prices;
      prices := AddStrike(legs[i], lo, hi, prices);
      assert forall p :: p in prices <==> p in before || IsStrikePrice(legs[i], lo, hi, p);
    }
  }

  method AddStrike(leg: RiskLeg, lo: real, hi: real, before: set<real>) returns (prices: set<real>)
    ensures forall p :: p in prices <==> p in before || IsStrikePrice(leg, lo, hi, p)
  {
    prices := before;
    if leg.contract.Opt? && leg.contract.strike > 0.0 && lo <= leg.contract.strike <= hi {
      var k := leg.contract.strike;
      prices := prices + {k, k * 0.999999, k * 1.000001};
    }
  }

  method BuildPriceCurve(pricer: Pricer, legs: Book, view: View) returns (points: seq<PricePoint>)
    requires view.samples > 0
    requires HasSpot(view) ==> Priced(legs, view.assumptions)
    ensures !HasSpot(view) ==> points == []
    ensures HasSpot(view) ==> IsPriceCurve(pricer, legs, view, points)
  {
    if view.key !in view.assumptions || view.assumptions[view.key].spot <= 0.0 {
      return [];
    }
    var prices := SamplePrices(legs, view);
    var fits := [];
    for i := 0 to |legs|
      invariant |fits| == i
      invariant forall k :: 0 <= k < i ==>
        fits[k] == ModelLeg(pricer, legs[k], view.assumptions[UnderlyingKey(legs[k])], view.horizon, view.rate)
    {
      fits := fits + [ModelLeg(pricer, legs[i], view.assumptions[UnderlyingKey(legs[i])], view.horizon, view.rate)];
    }
    var sorted := SortedSamples(prices);
    var scene := Curves.Scene(view.assumptions, view.range, view.horizon, view.rate, []);
    points := [];
    for i := 0 to |sorted|
      invariant Prices(points) == sorted[..i]
      invariant forall p :: p in points ==> IsPricePoint(pricer, legs, view, p)
    {
      var shock := ShockAt(Own(view), sorted[i]);
      var p := Curves.SamplePoint(pricer, legs, scene, fits, shock);
      points := points + [PricePoint(sorted[i], shock, p.terminal, p.modeled, p.accounts)];
    }
    assert sorted[..|sorted|] == sorted;
  }

  // ---- The curve is the settlement of its underlying at each price ----

  /** The shock written beside a price leads back to that price exactly when the beta is positive; with a beta of
      zero or less the axis is only right at the reference price itself. */
  lemma PriceAxis(a: Assumption, price: real)
    requires a.spot > 0.0
    ensures OwnSpot(a, ShockAt(a, price)) == price <==> Beta(a) > 0.0 || price == a.spot
  {
    var s, b, r := a.spot, Beta(a), price / a.spot - 1.0;
    assert s * (price / s) == price;
    if b > 0.0 {
      assert r * 100.0 / b * b == r * 100.0;
      assert OwnSpot(a, ShockAt(a, price)) == s * (1.0 + r);
      assert s * (1.0 + r) == s * (price / s);
    } else {
      assert OwnSpot(a, ShockAt(a, price)) == s * (1.0 + r * b);
      assert s * (r * b) == (s * r) * b;
      assert s * r == price - s;
      assert OwnSpot(a, ShockAt(a, price)) - price == (price - s) * (b - 1.0);
    }
  }

  ghost predicate OneUnderlying(legs: Book, view: View) {
    forall leg :: leg in legs ==> UnderlyingKey(leg) == view.key
  }

  lemma {:induction false} TerminalIsSettle(legs: Book, view: View, price: real)
    requires HasSpot(view) && Priced(legs, view.assumptions)
    requires OneUnderlying(legs, view) && Beta(Own(view)) > 0.0
    ensures Terminal(legs, view.assumptions, ShockAt(Own(view), price)) == Settle(legs, price)
  {
    if legs != [] {
      TerminalIsSettle(legs[..|legs| - 1], view, price);
      PriceAxis(Own(view), price);
      assert legs[|legs| - 1] in legs;
    }
  }

  /** The setting all results below share: one underlying, a positive (or unset) beta, a positive range. */
  ghost predicate Charted(pricer: Pricer, legs: Book, view: View, points: seq<PricePoint>) {
    && HasSpot(view) && view.samples > 0 && view.range > 0.0
    && Priced(legs, view.assumptions) && OneUnderlying(legs, view) && Beta(Own(view)) > 0.0
    && IsPriceCurve(pricer, legs, view, points)
  }

  lemma RangeIsProper(view: View)
    requires HasSpot(view) && view.range > 0.0
    ensures 0.0 < LowPrice(view) < HighPrice(view)
  {
    hide Times;
    ScaledOrder(Own(view).spot, 1.0 - Min(view.range, 95.0) / 100.0, 1.0 + view.range / 100.0);
  }

  lemma ScaledOrder(s: real, x: real, y: real)
    requires s > 0.0 && 0.0 < x < y
    ensures 0.0 < Times(s, x) < Times(s, y)
  {
    assert s * (y - x) > 0.0;
  }

  lemma Share(d: real, k: real, n: real)
    requires d >= 0.0 && k >= 0.0 && n > 0.0
    ensures d * k / n >= 0.0 && d * n / n == d && d * 0.0 / n == 0.0
  {
    assert d * k >= 0.0;
  }

  lemma GridEnds(view: View)
    requires HasSpot(view) && view.samples > 0 && LowPrice(view) <= HighPrice(view)
    ensures GridPrice(view, 0) == LowPrice(view) && GridPrice(view, view.samples) == HighPrice(view)
  {
    hide LowPrice, HighPrice;
    Share(HighPrice(view) - LowPrice(view), 0.0, view.samples as real);
  }

  lemma EndsAreSampled(pricer: Pricer, legs: Book, view: View, points: seq<PricePoint>)
    requires Charted(pricer, legs, view, points)
    ensures |points| > 1
    ensures 0.0 < points[0].price <= LowPrice(view) < HighPrice(view) <= points[|points| - 1].price
  {
    hide LowPrice, HighPrice;
    RangeIsProper(view);
    GridEnds(view);
    assert IsPrice(legs, view, LowPrice(view));
    assert IsPrice(legs, view, HighPrice(view));
    var xs := Prices(points);
    var i :| 0 <= i < |xs| && xs[i] == LowPrice(view);
    var j :| 0 <= j < |xs| && xs[j] == HighPrice(view);
    assert xs[0] <= xs[i] < xs[j] <= xs[|xs| - 1];
    assert xs[0] in xs;
    assert points[0].price == xs[0] && points[|points| - 1].price == xs[|xs| - 1];
    PriceIsPositive(legs, view, xs[0]);
  }

  lemma PriceIsPositive(legs: Book, view: View, p: real)
    requires HasSpot(view) && view.samples > 0 && view.range > 0.0 && IsPrice(legs, view, p)
    ensures p > 0.0
  {
    if i :| 0 <= i <= view.samples && p == GridPrice(view, i) {
      GridPriceIsPositive(view, i);
    }
  }

  lemma GridPriceIsPositive(view: View, i: nat)
    requires HasSpot(view) && view.samples > 0 && view.range > 0.0 && i <= view.samples
    ensures GridPrice(view, i) > 0.0
  {
    hide LowPrice, HighPrice;
    RangeIsProper(view);
    Share(HighPrice(view) - LowPrice(view), i as real, view.samples as real);
  }

  lemma PointIsSettle(pricer: Pricer, legs: Book, view: View, points: seq<PricePoint>, i: int)
    requires Charted(pricer, legs, view, points) && 0 <= i < |points|
    ensures points[i].terminal == Settle(legs, points[i].price) == Value(PricePieces(legs), points[i].price)
  {
    assert points[i] in points;
    TerminalIsSettle(legs, view, points[i].price);
    SettleIsPiecewise(legs, points[i].price);
  }

  /** Every strike of the range is a sample. */
  lemma StrikesAreSampled(pricer: Pricer, legs: Book, view: View, points: seq<PricePoint>)
    requires Charted(pricer, legs, view, points)
    ensures forall leg :: leg in legs && leg.contract.Opt? && LowPrice(view) <= leg.contract.strike <= HighPrice(view) ==>
      leg.contract.strike in Prices(points)
    ensures KinksSampled(PricePieces(legs), Prices(points), LowPrice(view), HighPrice(view))
  {
    hide LowPrice, HighPrice;
    RangeIsProper(view);
    forall leg | leg in legs && leg.contract.Opt? && LowPrice(view) <= leg.contract.strike <= HighPrice(view)
      ensures leg.contract.strike in Prices(points)
    {
      assert IsStrikePrice(leg, LowPrice(view), HighPrice(view), leg.contract.strike);
      assert IsPrice(legs, view, leg.contract.strike);
    }
    forall p | p in PricePieces(legs) && p.Hinge? && LowPrice(view) < p.kink < HighPrice(view)
      ensures p.kink in Prices(points)
    {
      PricePieceOfLeg(legs, p);
    }
  }

  /** The range in percent: down by the range but never below five per cent of the reference price, and up by it. */
  lemma RangeInPercent(view: View)
    requires HasSpot(view)
    ensures
      var spot := view.assumptions[view.key].spot;
      && (view.range <= 95.0 ==> 100.0 * LowPrice(view) == (100.0 - view.range) * spot)
      && (view.range > 95.0 ==> 20.0 * LowPrice(view) == spot)
      && 100.0 * HighPrice(view) == (100.0 + view.range) * spot
  {
    var spot, r := view.assumptions[view.key].spot, view.range;
    assert spot * (1.0 - r / 100.0) * 100.0 == (100.0 - r) * spot;
    assert spot * (1.0 + r / 100.0) * 100.0 == (100.0 + r) * spot;
  }

  /** The grid runs from one end of the range to the other in equal steps. */
  lemma GridIsEven(view: View, i: int)
    requires HasSpot(view) && view.samples > 0 && view.range > 0.0
    ensures GridPrice(view, 0) == LowPrice(view) && GridPrice(view, view.samples) == HighPrice(view)
    ensures view.samples as real * (GridPrice(view, i + 1) - GridPrice(view, i)) == HighPrice(view) - LowPrice(view)
  {
    hide LowPrice, HighPrice;
    RangeIsProper(view);
    GridEnds(view);
    EvenStep(HighPrice(view) - LowPrice(view), i as real, view.samples as real);
  }

  lemma EvenStep(d: real, k: real, n: real)
    requires n > 0.0
    ensures n * (d * (k + 1.0) / n - d * k / n) == d
  {
    assert d * (k + 1.0) / n - d * k / n == d / n;
  }

  /** A chart has the reference price among its samples, and around each strike of the range the strike itself and
      the prices a millionth of it below and above. */
  lemma StrikesBringNeighbours(pricer: Pricer, legs: Book, view: View, points: seq<PricePoint>, leg: RiskLeg)
    requires Charted(pricer, legs, view, points)
    ensures view.assumptions[view.key].spot in Prices(points)
    ensures leg in legs && leg.contract.Opt? && LowPrice(view) <= leg.contract.strike <= HighPrice(view) ==>
      && leg.contract.strike in Prices(points)
      && leg.contract.strike - leg.contract.strike / 1000000.0 in Prices(points)
      && leg.contract.strike + leg.contract.strike / 1000000.0 in Prices(points)
  {
    hide LowPrice, HighPrice;
    RangeIsProper(view);
    assert IsPrice(legs, view, Own(view).spot);
    if leg in legs && leg.contract.Opt? && LowPrice(view) <= leg.contract.strike <= HighPrice(view) {
      var k := leg.contract.strike;
      assert k - k / 1000000.0 == k * 0.999999 && k + k / 1000000.0 == k * 1.000001;
      forall p | p == k || p == k * 0.999999 || p == k * 1.000001
        ensures p in Prices(points)
      {
        assert IsStrikePrice(leg, LowPrice(view), HighPrice(view), p);
        assert IsPrice(legs, view, p);
      }
    }
  }

  // ---- Between the samples ----

  /** What is drawn between two neighbouring samples. */
  function Drawn(p: PricePoint, q: PricePoint, price: real): real
    requires p.price < q.price
  {
    Chord(p.price, q.price, p.terminal, q.terminal, price)
  }

  /** The drawn line is the settlement at every real price, not just at the samples. */
  ghost predicate ChartExact(legs: Book, points: seq<PricePoint>)
    requires Ascending(Prices(points))
  {
    forall i :: 1 <= i < |points| ==> StepExact(legs, points, i)
  }

  ghost predicate StepExact(legs: Book, points: seq<PricePoint>, i: int)
    requires Ascending(Prices(points)) && 1 <= i < |points|
  {
    assert Prices(points)[i - 1] < Prices(points)[i];
    forall price :: points[i - 1].price <= price <= points[i].price ==>
      Drawn(points[i - 1], points[i], price) == Settle(legs, price)
  }

  /** The net number of options struck at a price. */
  function StruckAt(legs: Book, price: real): real {
    if legs == [] then 0.0
    else
      var leg := legs[|legs| - 1];
      StruckAt(legs[..|legs| - 1], price) +
        if leg.contract.Opt? && leg.contract.strike == price then leg.quantity * leg.multiplier else 0.0
  }

  /** Wherever no sample is, the options struck there cancel out. Only strikes inside the range bring their own
      samples, but they bring neighbours a millionth away too, so the chart can end just outside its range. */
  ghost predicate HiddenStrikesCancel(legs: Book, points: seq<PricePoint>) {
    forall price :: points != [] && points[0].price < price < points[|points| - 1].price && price !in Prices(points) ==>
      StruckAt(legs, price) == 0.0
  }

  lemma {:induction false} StruckAtIsBend(legs: Book, price: real)
    ensures BendAt(PricePieces(legs), price) == StruckAt(legs, price)
  {
    if legs != [] {
      StruckAtIsBend(legs[..|legs| - 1], price);
      var ps := PricePieces(legs);
      assert ps[..|ps| - 1] == PricePieces(legs[..|legs| - 1]);
    }
  }

  lemma {:induction false} NoneStruck(legs: Book, price: real)
    requires forall leg :: leg in legs && leg.contract.Opt? ==> leg.contract.strike != price
    ensures StruckAt(legs, price) == 0.0
  {
    if legs != [] {
      NoneStruck(legs[..|legs| - 1], price);
    }
  }

  /** One step is drawn exactly when the options struck inside it cancel out, strike by strike. */
  lemma StepExactly(pricer: Pricer, legs: Book, view: View, points: seq<PricePoint>, i: int)
    requires Charted(pricer, legs, view, points) && 1 <= i < |points|
    ensures StepExact(legs, points, i) <==> BendsCancel(PricePieces(legs), points[i - 1].price, points[i].price)
  {
    hide Value, Settle, PricePieces, Chord, Charted, BendsCancel;
    ChartAscends(pricer, legs, view, points);
    var ps, p, q := PricePieces(legs), points[i - 1], points[i];
    assert Prices(points)[i - 1] < Prices(points)[i];
    PointIsSettle(pricer, legs, view, points, i - 1);
    PointIsSettle(pricer, legs, view, points, i);
    LinearExactly(ps, p.price, q.price);
    LinearIsChord(ps, p.price, q.price);
    forall price
      ensures Settle(legs, price) == Value(ps, price)
    {
      SettleIsPiecewise(legs, price);
    }
  }

  lemma ChartAscends(pricer: Pricer, legs: Book, view: View, points: seq<PricePoint>)
    requires Charted(pricer, legs, view, points)
    ensures Ascending(Prices(points))
  {
  }

  /** The chart is exact at every real price between its ends exactly when the strikes hidden between its samples
      cancel out. */
  lemma ChartExactly(pricer: Pricer, legs: Book, view: View, points: seq<PricePoint>)
    requires Charted(pricer, legs, view, points)
    ensures ChartExact(legs, points) <==> HiddenStrikesCancel(legs, points)
  {
    hide StepExact, Charted, StruckAt, BendAt, PricePieces;
    ChartAscends(pricer, legs, view, points);
    var xs, ps := Prices(points), PricePieces(legs);
    forall i | 1 <= i < |points|
      ensures StepExact(legs, points, i) <==> BendsCancel(ps, points[i - 1].price, points[i].price)
    {
      StepExactly(pricer, legs, view, points, i);
    }
    forall price
      ensures BendAt(ps, price) == StruckAt(legs, price)
    {
      StruckAtIsBend(legs, price);
    }
    if ChartExact(legs, points) {
      forall price | points != [] && points[0].price < price < points[|points| - 1].price && price !in xs
        ensures StruckAt(legs, price) == 0.0
      {
        var i := Bracket(xs, price);
        assert BendsCancel(ps, points[i].price, points[i + 1].price) by {
          assert StepExact(legs, points, i + 1);
        }
      }
    }
    if HiddenStrikesCancel(legs, points) {
      forall i | 1 <= i < |points|
        ensures StepExact(legs, points, i)
      {
        HiddenInStep(legs, points, i);
      }
    }
  }

  lemma HiddenInStep(legs: Book, points: seq<PricePoint>, i: int)
    requires Ascending(Prices(points)) && HiddenStrikesCancel(legs, points) && 1 <= i < |points|
    ensures BendsCancel(PricePieces(legs), points[i - 1].price, points[i].price)
  {
    var xs := Prices(points);
    forall price | points[i - 1].price < price < points[i].price
      ensures BendAt(PricePieces(legs), price) == 0.0
    {
      if price in xs {
        Neighbours(xs, i - 1, price);
      }
      assert xs[0] <= xs[i - 1] && xs[i] <= xs[|xs| - 1];
      StruckAtIsBend(legs, price);
    }
  }

  /** A step inside the range is always exact. */
  lemma StepInRangeIsExact(pricer: Pricer, legs: Book, view: View, points: seq<PricePoint>, i: int)
    requires Charted(pricer, legs, view, points) && 1 <= i < |points|
    requires LowPrice(view) <= points[i - 1].price && points[i].price <= HighPrice(view)
    ensures StepExact(legs, points, i)
  {
    hide LowPrice, HighPrice, StepExact, PricePieces;
    StrikesAreSampled(pricer, legs, view, points);
    StepExactly(pricer, legs, view, points, i);
    forall price | points[i - 1].price < price < points[i].price
      ensures BendAt(PricePieces(legs), price) == 0.0
    {
      if price in Prices(points) {
        Neighbours(Prices(points), i - 1, price);
      }
      NoneStruck(legs, price);
      StruckAtIsBend(legs, price);
    }
  }

  /** Strikes all in range hide nothing. */
  lemma StrikesInRangeHideNothing(pricer: Pricer, legs: Book, view: View, points: seq<PricePoint>)
    requires Charted(pricer, legs, view, points) && StrikesInRange(legs, view)
    ensures HiddenStrikesCancel(legs, points)
  {
    hide LowPrice, HighPrice;
    StrikesAreSampled(pricer, legs, view, points);
    forall price | price !in Prices(points)
      ensures StruckAt(legs, price) == 0.0
    {
      NoneStruck(legs, price);
    }
  }

  ghost predicate StrikesInRange(legs: Book, view: View)
    requires HasSpot(view)
  {
    forall leg :: leg in legs && leg.contract.Opt? ==> LowPrice(view) <= leg.contract.strike <= HighPrice(view)
  }

  /** Two calls on a name at 100, one at the lower edge of a chart of 95 per cent and one just below it. */
  function SliverBook(): (legs: Book)
    ensures |legs| == 2
  {
    [RiskLeg("USD", "X", "DU1", Opt(Call, 5.0, "20270115", 30.0), 1.0, 0.0, 1.0, None, None),
     RiskLeg("USD", "X", "DU1", Opt(Call, 4.999998, "20270115", 30.0), 1.0, 0.0, 1.0, None, None)]
  }

  function SliverView(samples: int): View {
    View(map["USD:X" := Assumption(100.0, 0.3, 0.0, None)], "USD:X", 95.0, 0.0, 0.0, samples)
  }

  /** The strike at the edge brings the sample 4.999995, so the other strike lies inside the chart unsampled: however
      many samples it takes, the chart of this book is not exact. */
  lemma ChartCanCutCorner(pricer: Pricer, samples: int, points: seq<PricePoint>)
    requires samples > 0 && Priced(SliverBook(), SliverView(samples).assumptions)
    requires IsPriceCurve(pricer, SliverBook(), SliverView(samples), points)
    ensures Charted(pricer, SliverBook(), SliverView(samples), points)
    ensures !HiddenStrikesCancel(SliverBook(), points) && !ChartExact(SliverBook(), points)
  {
    var legs, view, xs := SliverBook(), SliverView(samples), Prices(points);
    assert UnderlyingKey(legs[0]) == UnderlyingKey(legs[1]) == "USD:X";
    assert LowPrice(view) == 5.0 && HighPrice(view) == 195.0;
    assert IsStrikePrice(legs[0], 5.0, 195.0, 4.999995);
    assert 4.999995 in xs && 100.0 in xs;
    var i :| 0 <= i < |xs| && xs[i] == 4.999995;
    var j :| 0 <= j < |xs| && xs[j] == 100.0;
    assert xs[0] <= xs[i] && xs[j] <= xs[|xs| - 1];
    if k :| 0 <= k <= samples && 4.999998 == GridPrice(view, k) {
      hide LowPrice, HighPrice;
      Share(HighPrice(view) - LowPrice(view), k as real, samples as real);
    }
    assert 4.999998 !in xs;
    assert legs[..1][..0] == [];
    assert StruckAt(legs[..1], 4.999998) == 0.0;
    assert StruckAt(legs, 4.999998) == 1.0;
    ChartExactly(pricer, legs, view, points);
  }

  // ---- strategyStats ----

  /** Where the first stretch of the curve points at a price of zero. */
  function ZeroValue(wide: seq<PricePoint>, offset: real): Option<real> {
    if |wide| > 1 && wide[0].price > 0.0 && wide[1].price > wide[0].price then
      Some(Intercept(wide[0].price, wide[1].price, wide[0].terminal, wide[1].terminal) + offset)
    else None
  }

  ghost predicate IsExtreme(points: seq<PricePoint>, extra: Option<real>, offset: real, low: real, high: real) {
    && (forall p :: p in points ==> low <= p.terminal + offset <= high)
    && (extra.Some? ==> low <= extra.value <= high)
    && (points == [] && extra.None? ==> low == 0.0 && high == 0.0)
    && (points != [] ==>
          && ((exists p :: p in points && low == p.terminal + offset) || extra == Some(low))
          && ((exists p :: p in points && high == p.terminal + offset) || extra == Some(high)))
  }

  datatype StrategyStats = StrategyStats(netCredit: real, maxProfit: real, maxLoss: real)

  function CostTotal(legs: Book): real {
    if legs == [] then 0.0 else
      CostTotal(legs[..|legs| - 1]) + legs[|legs| - 1].quantity * legs[|legs| - 1].cost
  }

  /** The net credit is what is left where everything settles worthless: every option out of the money, and any
      shares at a price of zero. */
  lemma {:induction false} WorthlessBookKeepsCredit(legs: Book, price: real)
    requires forall leg :: leg in legs ==>
      match leg.contract
      case Stock => price == 0.0
      case Opt(right, strike, _, _) => if right.Call? then price <= strike else price >= strike
    ensures Settle(legs, price) == -CostTotal(legs)
  {
    if legs != [] {
      WorthlessBookKeepsCredit(legs[..|legs| - 1], price);
      var leg := legs[|legs| - 1];
      assert SettlePnl(leg, price) == leg.quantity * (0.0 * leg.multiplier - leg.cost);
    }
  }

  method Stats(points: seq<PricePoint>, wide: seq<PricePoint>, legs: Book, offset: real) returns (stats: StrategyStats)
    ensures stats.netCredit == -CostTotal(legs)
    ensures IsExtreme(if wide != [] then wide else points, ZeroValue(wide, offset), offset, stats.maxLoss, stats.maxProfit)
  {
    var paid := 0.0;
    for i := 0 to |legs|
      invariant paid == CostTotal(legs[..i])
    {
      paid := paid + legs[i].quantity * legs[i].cost;
      assert legs[..i + 1][..i] == legs[..i];
    }
    assert legs[..|legs|] == legs;
    var from := if wide != [] then wide else points;
    var extra := ZeroValue(wide, offset);
    if from == [] {
      return StrategyStats(-paid, 0.0, 0.0);
    }
    var low, high := from[0].terminal + offset, from[0].terminal + offset;
    assert from[0] in from;
    for i := 1 to |from|
      invariant forall k :: 0 <= k < i ==> low <= from[k].terminal + offset <= high
      invariant exists p :: p in from && low == p.terminal + offset
      invariant exists p :: p in from && high == p.terminal + offset
    {
      var value := from[i].terminal + offset;
      assert from[i] in from;
      low := if value < low then value else low;
      high := if value > high then value else high;
    }
    if extra.Some? {
      low := if extra.value < low then extra.value else low;
      high := if extra.value > high then extra.value else high;
    }
    stats := StrategyStats(-paid, high, low);
  }

  lemma ZeroValueIsIntercept(pricer: Pricer, legs: Book, view: View, wide: seq<PricePoint>, offset: real)
    requires Charted(pricer, legs, view, wide)
    ensures |wide| > 1 && 0.0 < wide[0].price < wide[1].price
    ensures ZeroValue(wide, offset) == Some(offset +
      Intercept(wide[0].price, wide[1].price, Value(PricePieces(legs), wide[0].price), Value(PricePieces(legs), wide[1].price)))
  {
    hide LowPrice, HighPrice, Value, Settle, PricePieces, Intercept;
    EndsAreSampled(pricer, legs, view, wide);
    assert Prices(wide)[0] < Prices(wide)[1];
    PointIsSettle(pricer, legs, view, wide, 0);
    PointIsSettle(pricer, legs, view, wide, 1);
  }

  /** The exact error of the extrapolation to a price of zero, for every book: quantity * multiplier * strike for
      each option struck at or below the first sample, and a share of it for one struck before the second. */
  lemma ZeroExtrapolationError(pricer: Pricer, legs: Book, view: View, wide: seq<PricePoint>, offset: real)
    requires Charted(pricer, legs, view, wide)
    requires forall leg :: leg in legs && leg.contract.Opt? ==> leg.contract.strike > 0.0
    ensures ZeroValue(wide, offset).Some? && |wide| > 1 && wide[0].price < wide[1].price
    ensures ZeroValue(wide, offset).value ==
      Settle(legs, 0.0) + offset - LowBends(PricePieces(legs), wide[0].price, wide[1].price)
  {
    hide Charted, LowPrice, HighPrice, Value, Settle, ZeroValue, Times, Intercept, LowBends;
    var ps := PricePieces(legs);
    ZeroValueIsIntercept(pricer, legs, view, wide, offset);
    forall p | p in ps && p.Hinge?
      ensures p.kink > 0.0
    {
      PricePieceOfLeg(legs, p);
    }
    ZeroIntercept(ps, wide[0].price, wide[1].price);
    SettleIsPiecewise(legs, 0.0);
  }

  lemma NothingBelowSecondSample(pricer: Pricer, legs: Book, view: View, wide: seq<PricePoint>)
    requires Charted(pricer, legs, view, wide) && |wide| > 1 && StrikesInRange(legs, view)
    ensures forall p :: p in PricePieces(legs) && p.Hinge? ==> p.kink >= wide[1].price
  {
    hide LowPrice, HighPrice;
    RangeIsProper(view);
    StrikesAreSampled(pricer, legs, view, wide);
    forall p | p in PricePieces(legs) && p.Hinge?
      ensures p.kink >= wide[1].price
    {
      PricePieceOfLeg(legs, p);
      var leg :| leg in legs && p == PricePiece(leg);
      var xs, beside := Prices(wide), p.kink * 0.999999;
      assert IsStrikePrice(leg, LowPrice(view), HighPrice(view), beside);
      assert IsPrice(legs, view, beside);
      var i :| 0 <= i < |xs| && xs[i] == beside;
      var j :| 0 <= j < |xs| && xs[j] == p.kink;
      assert i < j;
      assert xs[1] <= xs[j];
    }
  }

  lemma {:induction false} NoLowBends(ps: seq<Piece>, a: real, b: real)
    requires a < b && forall p :: p in ps && p.Hinge? ==> p.kink >= b
    ensures LowBends(ps, a, b) == 0.0
  {
    if ps != [] {
      NoLowBends(ps[..|ps| - 1], a, b);
    }
  }

  /** With every strike in range, the two figures bound the settlement at every real price from zero to the top
      sample, and the extrapolated value is the settlement at zero itself. */
  lemma StatsBoundEveryPrice(pricer: Pricer, legs: Book, view: View, wide: seq<PricePoint>, offset: real,
                             maxLoss: real, maxProfit: real, price: real)
    requires Charted(pricer, legs, view, wide) && wide != [] && StrikesInRange(legs, view)
    requires IsExtreme(wide, ZeroValue(wide, offset), offset, maxLoss, maxProfit)
    requires 0.0 <= price <= wide[|wide| - 1].price
    ensures maxLoss <= Settle(legs, price) + offset <= maxProfit
    ensures ZeroValue(wide, offset) == Some(Settle(legs, 0.0) + offset)
  {
    hide Charted, LowPrice, HighPrice, Value, Settle, PricePieces, ZeroValue, Times;
    var ps, xs, n := PricePieces(legs), Prices(wide), |wide|;
    EndsAreSampled(pricer, legs, view, wide);
    ChartAscends(pricer, legs, view, wide);
    NothingBelowSecondSample(pricer, legs, view, wide);
    StrikesArePositive(pricer, legs, view, wide);
    ZeroExtrapolationError(pricer, legs, view, wide, offset);
    NoLowBends(ps, wide[0].price, wide[1].price);
    SettleIsPiecewise(legs, 0.0);
    SettleIsPiecewise(legs, price);
    if price <= wide[0].price {
      assert StraightOn(ps, 0.0, wide[0].price);
      BetweenEnds(ps, 0.0, wide[0].price, price);
      PointIsSettle(pricer, legs, view, wide, 0);
      assert wide[0] in wide;
    } else {
      AllKinksSampled(pricer, legs, view, wide);
      assert xs[0] in xs && xs[n - 1] in xs;
      var i, j := SamplesBound(ps, xs, wide[0].price, wide[n - 1].price, price);
      PointIsSettle(pricer, legs, view, wide, i);
      PointIsSettle(pricer, legs, view, wide, j);
      assert wide[i] in wide && wide[j] in wide;
    }
  }

  lemma StrikesArePositive(pricer: Pricer, legs: Book, view: View, wide: seq<PricePoint>)
    requires Charted(pricer, legs, view, wide) && StrikesInRange(legs, view)
    ensures forall leg :: leg in legs && leg.contract.Opt? ==> leg.contract.strike > 0.0
  {
    hide LowPrice, HighPrice;
    RangeIsProper(view);
  }

  lemma AllKinksSampled(pricer: Pricer, legs: Book, view: View, wide: seq<PricePoint>)
    requires Charted(pricer, legs, view, wide) && StrikesInRange(legs, view)
    ensures forall p :: p in PricePieces(legs) && p.Hinge? ==> p.kink in Prices(wide)
  {
    hide LowPrice, HighPrice;
    StrikesAreSampled(pricer, legs, view, wide);
    forall p | p in PricePieces(legs) && p.Hinge?
      ensures p.kink in Prices(wide)
    {
      PricePieceOfLeg(legs, p);
    }
  }
}
