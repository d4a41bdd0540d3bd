/** Legs, scenario values and the straight pieces they are made of (frontend/lib/payoff.ts). */
module Payoff {
  import opened Numbers
  import opened PiecewiseLinear

  datatype Right = Call | Put

  /** What an included leg is: a share, or an option whose days to expiry were already worked out. */
  datatype Contract =
    | Stock
    | Opt(right: Right, strike: real, expiry: string, days: real)

  datatype Assumption = Assumption(spot: real, volatility: real, dividend: real, beta: Option<real>)

  datatype RiskLeg = RiskLeg(
    currency: string, symbol: string, account: string, contract: Contract,
    quantity: real, cost: real, multiplier: real,
    marked: Option<real>, anchorSpot: Option<real>)

  /** The option value before expiry, kept abstract: spot, strike, right, years, volatility, rate, dividend. */
  type Pricer = (real, real, Right, real, real, real, real) -> real

  type Book = seq<RiskLeg>
  type Assumptions = map<string, Assumption>

  function UnderlyingKey(leg: RiskLeg): string {
    leg.currency + ":" + leg.symbol
  }

  /** Curves are only drawn once every leg's underlying has a valid reference price. */
  ghost predicate Priced(legs: Book, assumptions: Assumptions) {
    forall leg :: leg in legs ==> UnderlyingKey(leg) in assumptions && assumptions[UnderlyingKey(leg)].spot > 0.0
  }

  function Beta(a: Assumption): real {
    if a.beta.Some? then a.beta.value else 1.0
  }

  function OwnShock(a: Assumption, shock: real): real {
    shock * Beta(a)
  }

  function OwnSpot(a: Assumption, shock: real): real {
    a.spot * (1.0 + OwnShock(a, shock) / 100.0)
  }

  function Intrinsic(right: Right, spot: real, strike: real): real {
    Positive(if right.Call? then spot - strike else strike - spot)
  }

  function OptionValue(pricer: Pricer, spot: real, strike: real, right: Right, years: real,
                       volatility: real, rate: real, dividend: real): real {
    if years <= 0.0 then Intrinsic(right, spot, strike)
    else pricer(spot, strike, right, years, volatility, rate, dividend)
  }

  /** The share of a leg's gap to its broker mark that is still shown at the horizon. */
  datatype Fit = Fit(gap: real, remaining: real)

  function LegValue(pricer: Pricer, leg: RiskLeg, a: Assumption, spot: real, days: real, rate: real): real {
    match leg.contract
    case Stock => spot
    case Opt(right, strike, _, _) =>
      OptionValue(pricer, spot, strike, right, days / 365.0, a.volatility, rate, a.dividend)
  }

  function Days(leg: RiskLeg): real {
    if leg.contract.Opt? then leg.contract.days else 0.0
  }

  function ModelLeg(pricer: Pricer, leg: RiskLeg, a: Assumption, horizon: real, rate: real): Option<Fit> {
    if leg.marked.None? then None else
      var anchorSpot := if leg.anchorSpot.Some? then leg.anchorSpot.value else a.spot;
      var anchorValue := LegValue(pricer, leg, a, anchorSpot, Days(leg), rate);
      var remaining :=
        if leg.contract.Stock? then 1.0
        else if Days(leg) > 0.0 then Positive(Days(leg) - horizon) / Days(leg)
        else 0.0;
      Some(Fit(leg.marked.value - leg.quantity * (anchorValue * leg.multiplier - leg.cost), remaining))
  }

  function ScenarioPnl(pricer: Pricer, leg: RiskLeg, a: Assumption, shock: real, horizon: real, rate: real,
                       terminal: bool, model: Option<Fit>): real {
    var spot := OwnSpot(a, shock);
    var value := LegValue(pricer, leg, a, spot, if terminal then 0.0 else Positive(Days(leg) - horizon), rate);
    var raw := leg.quantity * (value * leg.multiplier - leg.cost);
    if terminal || model.None? then raw else raw + model.value.gap * model.value.remaining
  }

  /** What a leg settles at when its underlying ends at `price`. */
  function SettlePnl(leg: RiskLeg, price: real): real {
    var value :=
      match leg.contract
      case Stock => price
      case Opt(right, strike, _, _) => Intrinsic(right, price, strike);
    leg.quantity * (value * leg.multiplier - leg.cost)
  }

  /** The terminal total of a book at one common shock. */
  function Terminal(legs: Book, assumptions: Assumptions, shock: real): real
    requires Priced(legs, assumptions)
  {
    if legs == [] then 0.0 else
      var leg := legs[|legs| - 1];
      Terminal(legs[..|legs| - 1], assumptions, shock) +
      SettlePnl(leg, OwnSpot(assumptions[UnderlyingKey(leg)], shock))
  }

  /** The modelled total of a book at one common shock, `horizon` days ahead. */
  function Modeled(pricer: Pricer, legs: Book, assumptions: Assumptions, shock: real, horizon: real, rate: real): real
    requires Priced(legs, assumptions)
  {
    if legs == [] then 0.0 else
      var leg := legs[|legs| - 1];
      var a := assumptions[UnderlyingKey(leg)];
      Modeled(pricer, legs[..|legs| - 1], assumptions, shock, horizon, rate) +
      ScenarioPnl(pricer, leg, a, shock, horizon, rate, false, ModelLeg(pricer, leg, a, horizon, rate))
  }

  /** The settlement of a book whose legs all follow one price. */
  function Settle(legs: Book, price: real): real {
    if legs == [] then 0.0 else Settle(legs[..|legs| - 1], price) + SettlePnl(legs[|legs| - 1], price)
  }

  // ---- A leg as a straight piece of its underlying's price ----

  function PricePiece(leg: RiskLeg): Piece {
    var scale, base := leg.quantity * leg.multiplier, -(leg.quantity * leg.cost);
    match leg.contract
    case Stock => Ramp(scale, base)
    case Opt(right, strike, _, _) => Hinge(scale, strike, right.Call?, base)
  }

  function PricePieces(legs: Book): seq<Piece> {
    if legs == [] then [] else PricePieces(legs[..|legs| - 1]) + [PricePiece(legs[|legs| - 1])]
  }

  lemma PricePieceValue(leg: RiskLeg, price: real)
    ensures Eval(PricePiece(leg), price) == SettlePnl(leg, price)
  {
    var value := match leg.contract case Stock => price case Opt(right, strike, _, _) => Intrinsic(right, price, strike);
    assert leg.quantity * (value * leg.multiplier - leg.cost) == leg.quantity * leg.multiplier * value - leg.quantity * leg.cost;
    assert Eval(PricePiece(leg), price) == Times(leg.quantity * leg.multiplier, value) - leg.quantity * leg.cost;
  }

  /** A book that follows one price is a sum of straight pieces of that price. */
  lemma {:induction false} SettleIsPiecewise(legs: Book, price: real)
    ensures Settle(legs, price) == Value(PricePieces(legs), price)
  {
    if legs != [] {
      var rest := legs[..|legs| - 1];
      SettleIsPiecewise(rest, price);
      PricePieceValue(legs[|legs| - 1], price);
      assert PricePieces(legs)[..|PricePieces(legs)| - 1] == PricePieces(rest);
    }
  }

  lemma {:induction false} PricePieceOfLeg(legs: Book, p: Piece)
    requires p in PricePieces(legs)
    ensures exists leg :: leg in legs && p == PricePiece(leg)
  {
    var last := legs[|legs| - 1];
    if p == PricePiece(last) {
      assert last in legs;
    } else {
      PricePieceOfLeg(legs[..|legs| - 1], p);
    }
  }

  // ---- A leg as a straight piece of the common shock ----

  /** The shock at which an option's underlying reaches its strike. */
  function KinkShock(strike: real, a: Assumption): real
    requires a.spot > 0.0 && Beta(a) > 0.0
  {
    (strike / a.spot - 1.0) * 100.0 / Beta(a)
  }

  /** The source adds a breakpoint only for a positive beta; at zero the underlying never moves. */
  ghost predicate BetasCovered(legs: Book, assumptions: Assumptions)
    requires Priced(legs, assumptions)
  {
    forall leg :: leg in legs && leg.contract.Opt? ==> Beta(assumptions[UnderlyingKey(leg)]) >= 0.0
  }

  function ShockPiece(leg: RiskLeg, a: Assumption): Piece
    requires a.spot > 0.0 && (leg.contract.Opt? ==> Beta(a) >= 0.0)
  {
    var p, step := PricePiece(leg), a.spot * Beta(a) / 100.0;
    if leg.contract.Opt? && Beta(a) > 0.0 then
      Hinge(Times(p.scale, step), KinkShock(p.kink, a), p.rising, p.base)
    else if leg.contract.Opt? then
      Ramp(0.0, Eval(p, a.spot))
    else
      Ramp(Times(p.slope, step), Times(p.slope, a.spot) + p.base)
  }

  function ShockPieces(legs: Book, assumptions: Assumptions): seq<Piece>
    requires Priced(legs, assumptions) && BetasCovered(legs, assumptions)
  {
    if legs == [] then [] else
      var leg := legs[|legs| - 1];
      ShockPieces(legs[..|legs| - 1], assumptions) + [ShockPiece(leg, assumptions[UnderlyingKey(leg)])]
  }

  lemma ShockPieceValue(leg: RiskLeg, a: Assumption, shock: real)
    requires a.spot > 0.0 && (leg.contract.Opt? ==> Beta(a) >= 0.0)
    ensures Eval(ShockPiece(leg, a), shock) == SettlePnl(leg, OwnSpot(a, shock))
  {
    var spot, step, beta := OwnSpot(a, shock), a.spot * Beta(a) / 100.0, Beta(a);
    PricePieceValue(leg, spot);
    OwnSpotIsLine(a, shock);
    var p := PricePiece(leg);
    if leg.contract.Stock? {
      Chain(p.slope, step, shock, a.spot);
    } else if beta == 0.0 {
      assert step == 0.0;
      assert spot == a.spot;
    } else {
      StrikeAtKink(a, p.kink);
      var k := KinkShock(p.kink, a);
      PositiveScales(step, shock - k);
      PositiveScales(step, k - shock);
      StepDistributes(step, shock, k);
      Chain(p.scale, step, Positive(if p.rising then shock - k else k - shock), 0.0);
    }
  }

  lemma OwnSpotIsLine(a: Assumption, shock: real)
    ensures OwnSpot(a, shock) == Times(a.spot * Beta(a) / 100.0, shock) + a.spot
  {
  }

  lemma StrikeAtKink(a: Assumption, strike: real)
    requires a.spot > 0.0 && Beta(a) > 0.0
    ensures Times(a.spot * Beta(a) / 100.0, KinkShock(strike, a)) + a.spot == strike
  {
    var s, b := a.spot, Beta(a);
    var r := (strike / s - 1.0) * 100.0;
    assert r / b * b == r;
    assert s * b / 100.0 * (r / b) == s * (r / b * b) / 100.0;
    assert s * (strike / s) == strike;
    assert s * r / 100.0 == strike - s;
  }

  lemma StepDistributes(step: real, x: real, y: real)
    ensures Times(step, x - y) == Times(step, x) - Times(step, y)
    ensures Times(step, y - x) == Times(step, y) - Times(step, x)
  {
  }

  lemma PositiveScales(step: real, x: real)
    requires step >= 0.0
    ensures Positive(Times(step, x)) == Times(step, Positive(x))
  {
    if x > 0.0 {
      MulMono(step, 0.0, x);
    } else {
      MulMono(step, x, 0.0);
    }
  }

  lemma Chain(scale: real, step: real, x: real, y: real)
    ensures Times(Times(scale, step), x) == Times(scale, Times(step, x))
    ensures Times(scale, Times(step, x) + y) == Times(scale, Times(step, x)) + Times(scale, y)
  {
    assert scale * step * x == scale * (step * x);
  }

  /** A book under a common shock is a sum of straight pieces of the shock. */
  lemma {:induction false} TerminalIsPiecewise(legs: Book, assumptions: Assumptions, shock: real)
    requires Priced(legs, assumptions) && BetasCovered(legs, assumptions)
    ensures Terminal(legs, assumptions, shock) == Value(ShockPieces(legs, assumptions), shock)
  {
    if legs != [] {
      var rest, leg := legs[..|legs| - 1], legs[|legs| - 1];
      TerminalIsPiecewise(rest, assumptions, shock);
      ShockPieceValue(leg, assumptions[UnderlyingKey(leg)], shock);
      var ps := ShockPieces(legs, assumptions);
      assert ps[..|ps| - 1] == ShockPieces(rest, assumptions);
    }
  }

  lemma {:induction false} ShockPieceOfLeg(legs: Book, assumptions: Assumptions, p: Piece)
    requires Priced(legs, assumptions) && BetasCovered(legs, assumptions)
    requires p in ShockPieces(legs, assumptions)
    ensures exists leg :: leg in legs && p == ShockPiece(leg, assumptions[UnderlyingKey(leg)])
  {
    var last := legs[|legs| - 1];
    if p == ShockPiece(last, assumptions[UnderlyingKey(last)]) {
      assert last in legs;
    } else {
      ShockPieceOfLeg(legs[..|legs| - 1], assumptions, p);
    }
  }
}
