/** The shock curves: finitely many sampled shocks, exact over the whole plotted range
    (frontend/lib/payoff.ts, buildCurves). */
module Curves {
  import opened Numbers
  import opened PiecewiseLinear
  import opened Payoff

  datatype CurvePoint = CurvePoint(shock: real, terminal: real, modeled: real, accounts: map<string, real>)

  /** Everything but the legs that a curve is drawn from. */
  datatype Scene = Scene(assumptions: Assumptions, range: real, horizon: real, rate: real, levels: seq<real>)

  function LowEnd(range: real): real {
    -Min(range, 100.0)
  }

  function GridShock(range: real, i: int): real {
    LowEnd(range) + (Min(range, 100.0) + range) * i as real / 80.0
  }

  ghost predicate IsGridShock(range: real, s: real) {
    exists i :: 0 <= i <= 80 && s == GridShock(range, i)
  }

  predicate IsStrikeShock(leg: RiskLeg, scene: Scene, s: real)
    requires UnderlyingKey(leg) in scene.assumptions && scene.assumptions[UnderlyingKey(leg)].spot > 0.0
  {
    var a := scene.assumptions[UnderlyingKey(leg)];
    leg.contract.Opt? && Beta(a) > 0.0 && s == KinkShock(leg.contract.strike, a) && LowEnd(scene.range) <= s <= scene.range
  }

  /** The shocks a curve samples: the grid, zero, the asked-for levels above -100, and the strikes in range. */
  ghost predicate IsShock(legs: Book, scene: Scene, s: real)
    requires Priced(legs, scene.assumptions)
  {
    || IsGridShock(scene.range, s)
    || s == 0.0
    || (s in scene.levels && s > -100.0)
    || exists leg :: leg in legs && IsStrikeShock(leg, scene, s)
  }

  function Shocks(points: seq<CurvePoint>): seq<real> {
    seq(|points|, i requires 0 <= i < |points| => points[i].shock)
  }

  /** The terminal value of each account at one shock. */
  function AccountTotals(legs: Book, assumptions: Assumptions, shock: real): map<string, real>
    requires Priced(legs, assumptions)
  {
    if legs == [] then map[] else
      var leg := legs[|legs| - 1];
      var before := AccountTotals(legs[..|legs| - 1], assumptions, shock);
      var pnl := SettlePnl(leg, OwnSpot(assumptions[UnderlyingKey(leg)], shock));
      before[leg.account := (if leg.account in before then before[leg.account] else 0.0) + pnl]
  }

  ghost predicate IsPoint(pricer: Pricer, legs: Book, scene: Scene, p: CurvePoint)
    requires Priced(legs, scene.assumptions)
  {
    && p.terminal == Terminal(legs, scene.assumptions, p.shock)
    && p.modeled == Modeled(pricer, legs, scene.assumptions, p.shock, scene.horizon, scene.rate)
    && p.accounts == AccountTotals(legs, scene.assumptions, p.shock)
  }

  ghost predicate IsCurve(pricer: Pricer, legs: Book, scene: Scene, points: seq<CurvePoint>)
    requires Priced(legs, scene.assumptions)
  {
    && Ascending(Shocks(points))
    && (forall s :: s in Shocks(points) <==> IsShock(legs, scene, s))
    && (forall p :: p in points ==> IsPoint(pricer, legs, scene, p))
  }

  method SampleShocks(legs: Book, scene: Scene) returns (shocks: set<real>)
    requires Priced(legs, scene.assumptions)
    ensures forall s :: s in shocks <==> IsShock(legs, scene, s)
  {
    shocks := {};
    for i := 0 to 81
      invariant forall s :: s in shocks <==> exists k :: 0 <= k < i && s == GridShock(scene.range, k)
    {
      shocks := shocks + {GridShock(scene.range, i)};
    }
    shocks := shocks + {0.0};
    for i := 0 to |scene.levels|
      invariant forall s :: s in shocks <==>
        IsGridShock(scene.range, s) || s == 0.0 || (s in scene.levels[..i] && s > -100.0)
    {
      if scene.levels[i] > -100.0 {
        shocks := shocks + {scene.levels[i]};
      }
    }
    assert scene.levels[..|scene.levels|] == scene.levels;
    ghost var fixed := shocks;
    for i := 0 to |legs|
      invariant forall s :: s in shocks <==> s in fixed || exists k :: 0 <= k < i && IsStrikeShock(legs[k], scene, s)
    {
      var leg := legs[i];
      if leg.contract.Opt? {
        var a := scene.assumptions[UnderlyingKey(leg)];
        if Beta(a) > 0.0 {
          var shock := KinkShock(leg.contract.strike, a);
          if LowEnd(scene.range) <= shock <= scene.range {
            shocks := shocks + {shock};
          }
        }
      }
    }
  }

  lemma TerminalScenario(pricer: Pricer, leg: RiskLeg, a: Assumption, shock: real, horizon: real, rate: real)
    ensures ScenarioPnl(pricer, leg, a, shock, horizon, rate, true, None) == SettlePnl(leg, OwnSpot(a, shock))
  {
  }

  method SamplePoint(pricer: Pricer, legs: Book, scene: Scene, fits: seq<Option<Fit>>, shock: real) returns (p: CurvePoint)
    requires Priced(legs, scene.assumptions)
    requires |fits| == |legs|
    requires forall i :: 0 <= i < |legs| ==>
      fits[i] == ModelLeg(pricer, legs[i], scene.assumptions[UnderlyingKey(legs[i])], scene.horizon, scene.rate)
    ensures p.shock == shock && IsPoint(pricer, legs, scene, p)
  {
    hide ScenarioPnl, SettlePnl, ModelLeg, OwnSpot;
    var terminal, modeled := 0.0, 0.0;
    var accounts: map<string, real> := map[];
    for i := 0 to |legs|
      invariant terminal == Terminal(legs[..i], scene.assumptions, shock)
      invariant modeled == Modeled(pricer, legs[..i], scene.assumptions, shock, scene.horizon, scene.rate)
      invariant accounts == AccountTotals(legs[..i], scene.assumptions, shock)
    {
      var leg := legs[i];
      var a := scene.assumptions[UnderlyingKey(leg)];
      var pnl := ScenarioPnl(pricer, leg, a, shock, scene.horizon, scene.rate, true, None);
      TerminalScenario(pricer, leg, a, shock, scene.horizon, scene.rate);
      terminal := terminal + pnl;
      modeled := modeled + ScenarioPnl(pricer, leg, a, shock, scene.horizon, scene.rate, false, fits[i]);
      accounts := accounts[leg.account := (if leg.account in accounts then accounts[leg.account] else 0.0) + pnl];
      assert legs[..i + 1][..i] == legs[..i];
    }
    assert legs[..|legs|] == legs;
    p := CurvePoint(shock, terminal, modeled, accounts);
  }

  method BuildCurves(pricer: Pricer, legs: Book, scene: Scene) returns (points: seq<CurvePoint>)
    requires Priced(legs, scene.assumptions)
    ensures IsCurve(pricer, legs, scene, points)
  {
    var shocks := SampleShocks(legs, scene);
    var fits := [];
    for i := 0 to |legs|
      invariant |fits| == i
      invariant forall k :: 0 <= k < i ==>
        fits[k] == ModelLeg(pricer, legs[k], scene.assumptions[UnderlyingKey(legs[k])], scene.horizon, scene.rate)
    {
      fits := fits + [ModelLeg(pricer, legs[i], scene.assumptions[UnderlyingKey(legs[i])], scene.horizon, scene.rate)];
    }
    var sorted := SortedSamples(shocks);
    points := [];
    for i := 0 to |sorted|
      invariant Shocks(points) == sorted[..i]
      invariant forall p :: p in points ==> IsPoint(pricer, legs, scene, p)
    {
      var p := SamplePoint(pricer, legs, scene, fits, sorted[i]);
      points := points + [p];
    }
    assert sorted[..|sorted|] == sorted;
  }

  // ---- What the samples say about every shock ----

  lemma EndsAreSampled(legs: Book, scene: Scene)
    requires Priced(legs, scene.assumptions)
    ensures IsShock(legs, scene, LowEnd(scene.range)) && IsShock(legs, scene, scene.range)
  {
    assert GridShock(scene.range, 0) == LowEnd(scene.range);
    assert GridShock(scene.range, 80) == scene.range;
  }

  lemma StrikesAreSampled(legs: Book, scene: Scene, xs: seq<real>)
    requires Priced(legs, scene.assumptions) && BetasCovered(legs, scene.assumptions)
    requires forall s :: IsShock(legs, scene, s) ==> s in xs
    ensures KinksSampled(ShockPieces(legs, scene.assumptions), xs, LowEnd(scene.range), scene.range)
  {
    forall p | p in ShockPieces(legs, scene.assumptions) && p.Hinge? && LowEnd(scene.range) < p.kink < scene.range
      ensures p.kink in xs
    {
      ShockPieceOfLeg(legs, scene.assumptions, p);
      var leg :| leg in legs && p == ShockPiece(leg, scene.assumptions[UnderlyingKey(leg)]);
      assert IsStrikeShock(leg, scene, p.kink);
      assert IsShock(legs, scene, p.kink);
    }
  }

  /** Finite samples, exact answer: at every real shock of the plotted range the terminal total lies between
      two sampled terminal totals, so the sampled worst and best are the worst and best of the whole range. */
  lemma CurveBoundsEveryShock(pricer: Pricer, legs: Book, scene: Scene, points: seq<CurvePoint>, x: real)
      returns (low: CurvePoint, high: CurvePoint)
    requires Priced(legs, scene.assumptions) && BetasCovered(legs, scene.assumptions)
    requires IsCurve(pricer, legs, scene, points)
    requires LowEnd(scene.range) <= x <= scene.range
    ensures low in points && high in points
    ensures low.terminal <= Terminal(legs, scene.assumptions, x) <= high.terminal
  {
    var xs, ps := Shocks(points), ShockPieces(legs, scene.assumptions);
    EndsAreSampled(legs, scene);
    StrikesAreSampled(legs, scene, xs);
    var i, j := SamplesBound(ps, xs, LowEnd(scene.range), scene.range, x);
    low, high := points[i], points[j];
    TerminalIsPiecewise(legs, scene.assumptions, x);
    TerminalIsPiecewise(legs, scene.assumptions, low.shock);
    TerminalIsPiecewise(legs, scene.assumptions, high.shock);
  }

  /** At every shock the account lines add up to the terminal line. */
  lemma {:induction false} AccountsSumToTerminal(legs: Book, assumptions: Assumptions, shock: real)
    requires Priced(legs, assumptions)
    ensures SumMap(AccountTotals(legs, assumptions, shock)) == Terminal(legs, assumptions, shock)
  {
    if legs != [] {
      var rest, leg := legs[..|legs| - 1], legs[|legs| - 1];
      AccountsSumToTerminal(rest, assumptions, shock);
      SumMapAdd(AccountTotals(rest, assumptions, shock), leg.account,
                SettlePnl(leg, OwnSpot(assumptions[UnderlyingKey(leg)], shock)));
    }
  }

  function OfAccount(legs: Book, account: string): (mine: Book)
    ensures forall leg :: leg in mine ==> leg in legs && leg.account == account
    ensures forall leg :: leg in legs && leg.account == account ==> leg in mine
  {
    if legs == [] then [] else
      var leg := legs[|legs| - 1];
      OfAccount(legs[..|legs| - 1], account) + (if leg.account == account then [leg] else [])
  }

  lemma OfAccountLast(legs: Book, account: string)
    requires legs != []
    ensures
      var rest, leg := OfAccount(legs[..|legs| - 1], account), legs[|legs| - 1];
      OfAccount(legs, account) == if leg.account == account then rest + [leg] else rest
  {
  }

  /** Each account line is the terminal total of that account's own legs, and no other account appears. */
  lemma {:induction false} AccountLineIsItsOwnBook(legs: Book, assumptions: Assumptions, shock: real, account: string)
    requires Priced(legs, assumptions)
    ensures account in AccountTotals(legs, assumptions, shock) <==> OfAccount(legs, account) != []
    ensures account in AccountTotals(legs, assumptions, shock) ==>
      AccountTotals(legs, assumptions, shock)[account] == Terminal(OfAccount(legs, account), assumptions, shock)
  {
    hide SettlePnl, OwnSpot, UnderlyingKey;
    if legs != [] {
      var rest, leg := legs[..|legs| - 1], legs[|legs| - 1];
      AccountLineIsItsOwnBook(rest, assumptions, shock, account);
      var mine := OfAccount(legs, account);
      OfAccountLast(legs, account);
      hide OfAccount;
      if leg.account == account {
        assert mine[..|mine| - 1] == OfAccount(rest, account);
      }
    }
  }

  // ---- What the modelled value is, leg by leg ----

  lemma ModeledAddsLeg(pricer: Pricer, legs: Book, leg: RiskLeg, assumptions: Assumptions, shock: real, horizon: real, rate: real)
    requires Priced(legs + [leg], assumptions)
    ensures Priced(legs, assumptions) && Priced([leg], assumptions)
    ensures Modeled(pricer, legs + [leg], assumptions, shock, horizon, rate) ==
      Modeled(pricer, legs, assumptions, shock, horizon, rate) + Modeled(pricer, [leg], assumptions, shock, horizon, rate)
  {
    assert (legs + [leg])[..|legs|] == legs && [leg][..0] == [];
    assert leg in legs + [leg] && forall l :: l in legs ==> l in legs + [leg];
  }

  /** An unmarked leg is worth the pricing formula at its own shocked price and its remaining years, or its intrinsic
      value once the horizon reaches its expiry; a share is worth its shocked price. */
  lemma UnmarkedLegIsFormula(pricer: Pricer, leg: RiskLeg, assumptions: Assumptions, shock: real, horizon: real, rate: real)
      returns (spot: real, value: real)
    requires leg.marked.None? && Priced([leg], assumptions)
    ensures leg.currency + ":" + leg.symbol in assumptions
    ensures
      var a := assumptions[leg.currency + ":" + leg.symbol];
      && spot == a.spot * (1.0 + shock * (if a.beta.Some? then a.beta.value else 1.0) / 100.0)
      && value ==
        match leg.contract
        case Stock => spot
        case Opt(right, strike, _, days) =>
          if horizon < days then pricer(spot, strike, right, (days - horizon) / 365.0, a.volatility, rate, a.dividend)
          else if right.Call? then (if spot > strike then spot - strike else 0.0)
          else if strike > spot then strike - spot else 0.0
    ensures Modeled(pricer, [leg], assumptions, shock, horizon, rate) == leg.quantity * (value * leg.multiplier - leg.cost)
  {
    ModeledOfOne(pricer, leg, assumptions, shock, horizon, rate);
    var a := assumptions[leg.currency + ":" + leg.symbol];
    spot := OwnSpot(a, shock);
    value := LegValue(pricer, leg, a, spot, Positive(Days(leg) - horizon), rate);
    hide LegValue;
    ShownValue(pricer, leg, a, spot, horizon, rate);
  }

  lemma ShownValue(pricer: Pricer, leg: RiskLeg, a: Assumption, spot: real, horizon: real, rate: real)
    ensures LegValue(pricer, leg, a, spot, Positive(Days(leg) - horizon), rate) ==
      match leg.contract
      case Stock => spot
      case Opt(right, strike, _, days) =>
        if horizon < days then pricer(spot, strike, right, (days - horizon) / 365.0, a.volatility, rate, a.dividend)
        else if right.Call? then (if spot > strike then spot - strike else 0.0)
        else if strike > spot then strike - spot else 0.0
  {
    if leg.contract.Opt? {
      var Opt(right, strike, _, days) := leg.contract;
      if horizon < days {
        assert (days - horizon) / 365.0 > 0.0;
      } else {
        assert Positive(days - horizon) / 365.0 == 0.0;
        assert LegValue(pricer, leg, a, spot, Positive(Days(leg) - horizon), rate) == Intrinsic(right, spot, strike);
      }
    }
  }

  /** The gap between a leg's mark and the formula at the anchor fades in proportion to the days left, at every shock:
      a marked option shows that share of it until its expiry and none of it after, a marked share all of it always. */
  lemma MarkFadesWithDays(pricer: Pricer, leg: RiskLeg, assumptions: Assumptions, shock: real, horizon: real, rate: real)
    requires leg.marked.Some? && Priced([leg], assumptions)
    ensures Priced([leg.(marked := None)], assumptions) && leg.currency + ":" + leg.symbol in assumptions
    ensures
      var a := assumptions[leg.currency + ":" + leg.symbol];
      var anchor := if leg.anchorSpot.Some? then leg.anchorSpot.value else a.spot;
      var gain := Modeled(pricer, [leg], assumptions, shock, horizon, rate) -
        Modeled(pricer, [leg.(marked := None)], assumptions, shock, horizon, rate);
      match leg.contract
      case Stock => gain == leg.marked.value - leg.quantity * (anchor * leg.multiplier - leg.cost)
      case Opt(right, strike, _, days) =>
        && (days > 0.0 && horizon <= days ==>
              days * gain == (days - horizon) * (leg.marked.value -
                leg.quantity * (pricer(anchor, strike, right, days / 365.0, a.volatility, rate, a.dividend) * leg.multiplier - leg.cost)))
        && (days <= 0.0 || horizon >= days ==> gain == 0.0)
  {
    var unmarked := leg.(marked := None);
    assert UnderlyingKey(unmarked) == UnderlyingKey(leg) && leg in [leg];
    ModeledOfOne(pricer, leg, assumptions, shock, horizon, rate);
    ModeledOfOne(pricer, unmarked, assumptions, shock, horizon, rate);
    hide Modeled, ScenarioPnl, ModelLeg;
    MarkedLegGains(pricer, leg, assumptions[UnderlyingKey(leg)], shock, horizon, rate);
  }

  lemma MarkedLegGains(pricer: Pricer, leg: RiskLeg, a: Assumption, shock: real, horizon: real, rate: real)
    requires leg.marked.Some?
    ensures
      var anchor := if leg.anchorSpot.Some? then leg.anchorSpot.value else a.spot;
      var gain := ScenarioPnl(pricer, leg, a, shock, horizon, rate, false, ModelLeg(pricer, leg, a, horizon, rate)) -
        ScenarioPnl(pricer, leg.(marked := None), a, shock, horizon, rate, false,
          ModelLeg(pricer, leg.(marked := None), a, horizon, rate));
      match leg.contract
      case Stock => gain == leg.marked.value - leg.quantity * (anchor * leg.multiplier - leg.cost)
      case Opt(right, strike, _, days) =>
        && (days > 0.0 && horizon <= days ==>
              days * gain == (days - horizon) * (leg.marked.value -
                leg.quantity * (pricer(anchor, strike, right, days / 365.0, a.volatility, rate, a.dividend) * leg.multiplier - leg.cost)))
        && (days <= 0.0 || horizon >= days ==> gain == 0.0)
  {
    var model := ModelLeg(pricer, leg, a, horizon, rate).value;
    var unmarked := leg.(marked := None);
    GainIsShare(pricer, leg, a, shock, horizon, rate, model);
    if leg.contract.Opt? {
      if leg.contract.days > 0.0 && horizon <= leg.contract.days {
        ShareOfDays(leg.contract.days, horizon, model.gap, model.remaining);
      }
      if leg.contract.days <= 0.0 || horizon >= leg.contract.days {
        assert model.remaining == 0.0;
        assert model.gap * model.remaining == 0.0;
      }
    }
  }

  lemma GainIsShare(pricer: Pricer, leg: RiskLeg, a: Assumption, shock: real, horizon: real, rate: real, model: Fit)
    ensures
      ScenarioPnl(pricer, leg, a, shock, horizon, rate, false, Some(model)) ==
      ScenarioPnl(pricer, leg.(marked := None), a, shock, horizon, rate, false, None) + model.gap * model.remaining
  {
  }

  lemma ModeledOfOne(pricer: Pricer, leg: RiskLeg, assumptions: Assumptions, shock: real, horizon: real, rate: real)
    requires Priced([leg], assumptions)
    ensures UnderlyingKey(leg) in assumptions
    ensures
      var a := assumptions[UnderlyingKey(leg)];
      Modeled(pricer, [leg], assumptions, shock, horizon, rate) ==
        ScenarioPnl(pricer, leg, a, shock, horizon, rate, false, ModelLeg(pricer, leg, a, horizon, rate))
  {
    assert [leg][..0] == [] && leg in [leg];
  }

  lemma ShareOfDays(days: real, horizon: real, gap: real, remaining: real)
    requires days > 0.0 && remaining == (days - horizon) / days
    ensures days * (gap * remaining) == (days - horizon) * gap
  {
    assert days * remaining == days - horizon;
    assert days * (gap * remaining) == gap * (days * remaining);
  }

  // ---- What is sampled, in percent ----

  /** The grid runs in 80 equal steps from minus the range, but not below -100, up to the range. */
  lemma GridIsEven(range: real, i: int)
    ensures GridShock(range, 0) == if range < 100.0 then -range else -100.0
    ensures GridShock(range, 80) == range
    ensures 80.0 * (GridShock(range, i + 1) - GridShock(range, i)) == range + if range < 100.0 then range else 100.0
  {
  }

  /** An option brings a shock exactly when its beta is positive and the shock, inside the range, takes its own
      underlying to the strike. */
  lemma StrikeShockHitsStrike(leg: RiskLeg, scene: Scene, s: real)
    requires Priced([leg], scene.assumptions)
    ensures UnderlyingKey(leg) in scene.assumptions && scene.assumptions[UnderlyingKey(leg)].spot > 0.0
    ensures
      var a := scene.assumptions[leg.currency + ":" + leg.symbol];
      var beta := if a.beta.Some? then a.beta.value else 1.0;
      IsStrikeShock(leg, scene, s) <==>
        && leg.contract.Opt? && beta > 0.0 && a.spot * (1.0 + s * beta / 100.0) == leg.contract.strike
        && s <= scene.range && s >= -100.0 && s >= -scene.range
  {
    assert leg in [leg];
    var a := scene.assumptions[UnderlyingKey(leg)];
    if leg.contract.Opt? && Beta(a) > 0.0 {
      KinkOnlyThere(a.spot, Beta(a), leg.contract.strike, s);
    }
  }

  lemma KinkOnlyThere(spot: real, beta: real, strike: real, s: real)
    requires spot > 0.0 && beta > 0.0
    ensures s == (strike / spot - 1.0) * 100.0 / beta <==> spot * (1.0 + s * beta / 100.0) == strike
  {
    var r := strike / spot - 1.0;
    assert spot * (1.0 + r) == strike;
    if s == r * 100.0 / beta {
      assert s * beta == r * 100.0;
    }
    if spot * (1.0 + s * beta / 100.0) == strike {
      assert spot * (s * beta / 100.0 - r) == 0.0;
      assert s * beta == r * 100.0;
    }
  }

  // ---- Calibration to the broker's marks ----

  function Anchor(leg: RiskLeg, a: Assumption): real {
    if leg.anchorSpot.Some? then leg.anchorSpot.value else a.spot
  }

  /** Today, unshocked, a marked leg shows its mark, off by exactly the value of moving the underlying from the
      price the broker marked it at to the assumed one. */
  lemma LegShowsMark(pricer: Pricer, leg: RiskLeg, a: Assumption, rate: real)
    requires leg.marked.Some? && (leg.contract.Opt? ==> leg.contract.days > 0.0)
    ensures ScenarioPnl(pricer, leg, a, 0.0, 0.0, rate, false, ModelLeg(pricer, leg, a, 0.0, rate))
         == leg.marked.value + leg.quantity * leg.multiplier *
            (LegValue(pricer, leg, a, a.spot, Days(leg), rate) - LegValue(pricer, leg, a, Anchor(leg, a), Days(leg), rate))
  {
    assert OwnSpot(a, 0.0) == a.spot;
    assert leg.contract.Opt? ==> Positive(Days(leg) - 0.0) / Days(leg) == 1.0;
    var here := LegValue(pricer, leg, a, a.spot, Days(leg), rate);
    var there := LegValue(pricer, leg, a, Anchor(leg, a), Days(leg), rate);
    var q, m, c := leg.quantity, leg.multiplier, leg.cost;
    assert q * (here * m - c) - q * (there * m - c) == q * m * (here - there);
  }

  function Marks(legs: Book): real
    requires forall leg :: leg in legs ==> leg.marked.Some?
  {
    if legs == [] then 0.0 else Marks(legs[..|legs| - 1]) + legs[|legs| - 1].marked.value
  }

  ghost predicate MarkedAtAssumedSpot(legs: Book, assumptions: Assumptions)
    requires Priced(legs, assumptions)
  {
    forall leg :: leg in legs ==>
      && leg.marked.Some?
      && Anchor(leg, assumptions[UnderlyingKey(leg)]) == assumptions[UnderlyingKey(leg)].spot
      && (leg.contract.Opt? ==> leg.contract.days > 0.0)
  }

  /** The modelled curve starts at the broker's own total. */
  lemma {:induction false} CurveStartsAtMarks(pricer: Pricer, legs: Book, assumptions: Assumptions, rate: real)
    requires Priced(legs, assumptions) && MarkedAtAssumedSpot(legs, assumptions)
    ensures Modeled(pricer, legs, assumptions, 0.0, 0.0, rate) == Marks(legs)
  {
    if legs != [] {
      var leg := legs[|legs| - 1];
      CurveStartsAtMarks(pricer, legs[..|legs| - 1], assumptions, rate);
      LegShowsMark(pricer, leg, assumptions[UnderlyingKey(leg)], rate);
    }
  }

  /** Once the horizon has reached every expiry of an options-only book, the estimate is the settlement. */
  lemma {:induction false} EstimateEndsAtSettlement(pricer: Pricer, legs: Book, assumptions: Assumptions,
                                                    shock: real, horizon: real, rate: real)
    requires Priced(legs, assumptions)
    requires forall leg :: leg in legs ==> leg.contract.Opt? && leg.contract.days <= horizon
    ensures Modeled(pricer, legs, assumptions, shock, horizon, rate) == Terminal(legs, assumptions, shock)
  {
    if legs != [] {
      var leg := legs[|legs| - 1];
      EstimateEndsAtSettlement(pricer, legs[..|legs| - 1], assumptions, shock, horizon, rate);
      assert Positive(Days(leg) - horizon) == 0.0;
      var model := ModelLeg(pricer, leg, assumptions[UnderlyingKey(leg)], horizon, rate);
      if model.Some? {
        assert model.value.remaining == 0.0;
        assert model.value.gap * model.value.remaining == 0.0;
      }
    }
  }
}
