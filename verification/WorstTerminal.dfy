/** The worst expiry loss the alerts report (backend/app/alerts.py, terminal_pnl and worst_terminal_at). */
module WorstTerminal {
  import opened Numbers
  import opened PiecewiseLinear

  /** A stored position row; a field that does not parse as a number is None. */
  datatype Position = Position(
    secType: string, right: string, quantity: Option<real>, cost: Option<real>,
    strike: Option<real>, multiplier: Option<real>)

  function OrZero(x: Option<real>): real {
    if x.Some? then x.value else 0.0
  }

  predicate IsPriceable(p: Position) {
    p.secType == "OPT" && p.strike.Some? && p.multiplier.Some? && (p.right == "C" || p.right == "P")
  }

  /** What one row settles at; rows that cannot be priced count as nothing. */
  function PositionPnl(p: Position, spot: real): real {
    var quantity, cost := OrZero(p.quantity), OrZero(p.cost);
    if quantity == 0.0 then 0.0
    else if p.secType == "STK" then quantity * (spot - cost)
    else if !IsPriceable(p) then 0.0
    else
      var intrinsic := Positive(if p.right == "C" then spot - p.strike.value else p.strike.value - spot);
      quantity * (intrinsic * p.multiplier.value - cost)
  }

  function Pnl(positions: seq<Position>, spot: real): real {
    if positions == [] then 0.0 else
      Pnl(positions[..|positions| - 1], spot) + PositionPnl(positions[|positions| - 1], spot)
  }

  method TerminalPnl(positions: seq<Position>, spot: real) returns (total: real)
    ensures total == Pnl(positions, spot)
  {
    total := 0.0;
    for i := 0 to |positions|
      invariant total == Pnl(positions[..i], spot)
    {
      assert positions[..i + 1][..i] == positions[..i];
      var p := positions[i];
      var quantity, cost := OrZero(p.quantity), OrZero(p.cost);
      if quantity == 0.0 {
        continue;
      }
      if p.secType == "STK" {
        total := total + quantity * (spot - cost);
        continue;
      }
      if p.secType != "OPT" {
        continue;
      }
      if p.strike.None? || p.multiplier.None? || (p.right != "C" && p.right != "P") {
        continue;
      }
      var gap := if p.right == "C" then spot - p.strike.value else p.strike.value - spot;
      var intrinsic := if gap > 0.0 then gap else 0.0;
      total := total + quantity * (intrinsic * p.multiplier.value - cost);
    }
    assert positions[..|positions|] == positions;
  }

  // ---- The sampled prices ----

  ghost predicate IsGridPrice(spot: real, price: real) {
    || price == spot * 0.05 || price == spot || price == spot * 1.95
    || exists step :: 1 <= step < 40 && IsStep(spot, step, price)
  }

  predicate IsStep(spot: real, step: int, price: real) {
    || price == spot * (1.0 + step as real / 20.0)
    || (price == spot * (1.0 - step as real / 20.0) && price > 0.0)
  }

  predicate IsStrikePrice(p: Position, price: real) {
    && p.strike.Some? && p.strike.value > 0.0 && OrZero(p.quantity) != 0.0
    && (price == p.strike.value || price == p.strike.value * 0.999 || price == p.strike.value * 1.001)
  }

  ghost predicate IsSample(positions: seq<Position>, spot: real, price: real) {
    IsGridPrice(spot, price) || exists p :: p in positions && IsStrikePrice(p, price)
  }

  method SamplePrices(positions: seq<Position>, spot: real) returns (prices: set<real>)
    ensures forall price :: price in prices <==> IsSample(positions, spot, price)
  {
    prices := {spot * 0.05, spot, spot * 1.95};
    ghost var base := prices;
    for step := 1 to 40
      invariant forall price :: price in prices <==> price in base || exists k :: 1 <= k < step && IsStep(spot, k, price)
    {
      ghost var before := prices;
      var low := spot * (1.0 - step as real / 20.0);
      prices := prices + {spot * (1.0 + step as real / 20.0)};
      if low > 0.0 {
        prices := prices + {low};
      }
      assert forall price :: price in prices <==> price in before || IsStep(spot, step, price);
    }
    ghost var grid := prices;
    for i := 0 to |positions|
      invariant forall price :: price in prices <==> price in grid || exists k :: 0 <= k < i && IsStrikePrice(positions[k], price)
    {
      ghost var before := prices;
      var p := positions[i];
      if p.strike.Some? && p.strike.value > 0.0 && OrZero(p.quantity) != 0.0 {
        var k := p.strike.value;
        prices := prices + {k, k * 0.999, k * 1.001};
      }
      assert forall price :: price in prices <==> price in before || IsStrikePrice(p, price);
    }
  }

  /** (pnl, distance from spot) in the order the source compares them. */
  predicate Before(pnl: real, price: real, pnl': real, price': real, spot: real) {
    pnl < pnl' || (pnl == pnl' && Abs(price - spot) < Abs(price' - spot))
  }

  /** The first sample, in ascending order, that no other sample comes before. */
  ghost predicate IsWorst(positions: seq<Position>, spot: real, xs: seq<real>, pnl: real, price: real) {
    exists i :: 0 <= i < |xs| && xs[i] == price && pnl == Pnl(positions, price)
      && (forall j :: 0 <= j < |xs| ==> !Before(Pnl(positions, xs[j]), xs[j], pnl, price, spot))
      && (forall j :: 0 <= j < i ==> Before(pnl, price, Pnl(positions, xs[j]), xs[j], spot))
  }

  ghost predicate AreSamples(positions: seq<Position>, spot: real, xs: seq<real>) {
    Ascending(xs) && forall price :: price in xs <==> IsSample(positions, spot, price)
  }

  method WorstTerminalAt(positions: seq<Position>, spot: Option<real>)
      returns (worst: Option<(real, real)>, ghost xs: seq<real>)
    ensures worst.None? <==> spot.None? || spot.value <= 0.0
    ensures worst.Some? ==> AreSamples(positions, spot.value, xs)
    ensures worst.Some? ==> IsWorst(positions, spot.value, xs, worst.value.0, worst.value.1)
  {
    xs := [];
    if spot.None? || spot.value <= 0.0 {
      return None, [];
    }
    var prices := SamplePrices(positions, spot.value);
    assert IsSample(positions, spot.value, spot.value);
    var sorted := SortedSamples(prices);
    xs := sorted;
    var price := sorted[0];
    var pnl := TerminalPnl(positions, price);
    ghost var at := 0;
    for i := 1 to |sorted|
      invariant 0 <= at < i && sorted[at] == price && pnl == Pnl(positions, price)
      invariant forall j :: 0 <= j < i ==> !Before(Pnl(positions, sorted[j]), sorted[j], pnl, price, spot.value)
      invariant forall j :: 0 <= j < at ==> Before(pnl, price, Pnl(positions, sorted[j]), sorted[j], spot.value)
    {
      var next := TerminalPnl(positions, sorted[i]);
      if Before(next, sorted[i], pnl, price, spot.value) {
        price, pnl := sorted[i], next;
        at := i;
      }
    }
    worst := Some((pnl, price));
  }

  // ---- The samples decide the whole range ----

  function PieceOf(p: Position): Piece {
    var quantity, cost := OrZero(p.quantity), OrZero(p.cost);
    if quantity == 0.0 then Ramp(0.0, 0.0)
    else if p.secType == "STK" then Ramp(quantity, -(quantity * cost))
    else if !IsPriceable(p) then Ramp(0.0, 0.0)
    else Hinge(quantity * p.multiplier.value, p.strike.value, p.right == "C", -(quantity * cost))
  }

  function PiecesOf(positions: seq<Position>): seq<Piece> {
    if positions == [] then [] else PiecesOf(positions[..|positions| - 1]) + [PieceOf(positions[|positions| - 1])]
  }

  lemma PieceOfValue(p: Position, spot: real)
    ensures Eval(PieceOf(p), spot) == PositionPnl(p, spot)
  {
    if OrZero(p.quantity) != 0.0 && p.secType != "STK" && IsPriceable(p) {
      var q, m, c := OrZero(p.quantity), p.multiplier.value, OrZero(p.cost);
      var intrinsic := Positive(if p.right == "C" then spot - p.strike.value else p.strike.value - spot);
      assert q * (intrinsic * m - c) == q * m * intrinsic - q * c;
      assert Eval(PieceOf(p), spot) == Times(q * m, intrinsic) - q * c;
    }
  }

  lemma {:induction false} PnlIsPiecewise(positions: seq<Position>, spot: real)
    ensures Pnl(positions, spot) == Value(PiecesOf(positions), spot)
  {
    if positions != [] {
      var rest := positions[..|positions| - 1];
      PnlIsPiecewise(rest, spot);
      PieceOfValue(positions[|positions| - 1], spot);
      assert PiecesOf(positions)[..|PiecesOf(positions)| - 1] == PiecesOf(rest);
    }
  }

  lemma {:induction false} PieceFromPosition(positions: seq<Position>, piece: Piece)
    requires piece in PiecesOf(positions)
    ensures exists p :: p in positions && piece == PieceOf(p)
  {
    var last := positions[|positions| - 1];
    if piece == PieceOf(last) {
      assert last in positions;
    } else {
      PieceFromPosition(positions[..|positions| - 1], piece);
    }
  }

  lemma SampleIsPositive(positions: seq<Position>, spot: real, price: real)
    requires spot > 0.0 && IsSample(positions, spot, price)
    ensures price > 0.0
  {
    if step :| 1 <= step < 40 && IsStep(spot, step, price) {
      assert spot * (1.0 + step as real / 20.0) > 0.0;
    }
  }

  /** The samples span at least 5 to 295 per cent of the spot price. */
  lemma SamplesSpan(positions: seq<Position>, spot: real)
    ensures IsSample(positions, spot, 0.05 * spot) && IsSample(positions, spot, 2.95 * spot)
  {
    assert IsStep(spot, 39, 2.95 * spot);
  }

  /** The reported loss is the true minimum over every real price between the lowest and the highest sample. */
  lemma WorstIsTrueMinimum(positions: seq<Position>, spot: real, xs: seq<real>, pnl: real, price: real, x: real)
    requires spot > 0.0 && AreSamples(positions, spot, xs) && IsWorst(positions, spot, xs, pnl, price)
    requires xs != [] && xs[0] <= x <= xs[|xs| - 1]
    ensures pnl <= Pnl(positions, x)
  {
    var ps, lo, hi := PiecesOf(positions), xs[0], xs[|xs| - 1];
    assert lo in xs && hi in xs;
    SampleIsPositive(positions, spot, lo);
    forall p | p in ps && p.Hinge? && lo < p.kink < hi
      ensures p.kink in xs
    {
      PieceFromPosition(positions, p);
      var position :| position in positions && p == PieceOf(position);
      assert IsStrikePrice(position, p.kink);
      assert IsSample(positions, spot, p.kink);
    }
    var low, _ := SamplesBound(ps, xs, lo, hi, x);
    PnlIsPiecewise(positions, x);
    PnlIsPiecewise(positions, xs[low]);
  }

  /** In particular over 5 to 295 per cent of the spot price. */
  lemma WorstCoversUsualRange(positions: seq<Position>, spot: real, xs: seq<real>, pnl: real, price: real, x: real)
    requires spot > 0.0 && AreSamples(positions, spot, xs) && IsWorst(positions, spot, xs, pnl, price)
    requires 0.05 * spot <= x <= 2.95 * spot
    ensures pnl <= Pnl(positions, x)
  {
    SamplesSpan(positions, spot);
    assert 0.05 * spot in xs && 2.95 * spot in xs;
    WorstIsTrueMinimum(positions, spot, xs, pnl, price, x);
  }

  /** The answer in plain terms: it is attained at a sample, no sample loses more, among those that lose as much none
      is nearer to spot, and of two as near it is the lower one. */
  lemma WorstIsNearest(positions: seq<Position>, spot: real, xs: seq<real>, pnl: real, price: real, x: real)
    requires AreSamples(positions, spot, xs) && IsWorst(positions, spot, xs, pnl, price) && x in xs
    ensures price in xs && pnl == Pnl(positions, price)
    ensures pnl <= Pnl(positions, x)
    ensures pnl == Pnl(positions, x) ==>
      var near, far := if price > spot then price - spot else spot - price, if x > spot then x - spot else spot - x;
      near <= far && (near == far ==> price <= x)
  {
    hide Pnl;
    var i :| 0 <= i < |xs| && xs[i] == price && pnl == Pnl(positions, price)
      && (forall j :: 0 <= j < |xs| ==> !Before(Pnl(positions, xs[j]), xs[j], pnl, price, spot))
      && (forall j :: 0 <= j < i ==> Before(pnl, price, Pnl(positions, xs[j]), xs[j], spot));
    var j :| 0 <= j < |xs| && xs[j] == x;
    assert !Before(Pnl(positions, xs[j]), xs[j], pnl, price, spot);
    if j < i {
      assert Before(pnl, price, Pnl(positions, xs[j]), xs[j], spot);
    }
  }

  /** A position without a quantity counts for nothing, and one without a cost as if it had cost nothing. */
  lemma MissingCountsAsZero(p: Position, spot: real)
    ensures p.quantity.None? ==> PositionPnl(p, spot) == 0.0
    ensures p.cost.None? ==> PositionPnl(p, spot) == PositionPnl(p.(cost := Some(0.0)), spot)
    ensures p.secType == "STK" && p.quantity.Some? && p.cost.Some? ==>
      PositionPnl(p, spot) == p.quantity.value * (spot - p.cost.value)
  {
  }
}
