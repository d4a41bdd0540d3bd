/** The worst case the alerts report against the one the dashboard draws: two implementations of one settlement, from
    the same stored rows (backend/app/alerts.py, worst_terminal_at; frontend/lib/payoff.ts, prepareLegs and
    buildPriceCurve). */
module AlertedRisk {
  import opened Numbers
  import opened PiecewiseLinear
  import opened Payoff
  import PriceCurve
  import UpsideRisks
  import WorstTerminal

  /** A stored position row; `days` is None when the expiry is not a valid date, and each figure of the broker when it
      is missing. */
  datatype Row = Row(
    currency: string, symbol: string, account: string, terms: WorstTerminal.Position, expiry: string, days: Option<real>,
    price: Option<real>, unrealized: Option<real>, underlyingPrice: Option<real>)

  predicate IsPositive(x: Option<real>) {
    x.Some? && x.value > 0.0
  }

  /** The rows the dashboard leaves out, zero positions first and then the reasons it lists. */
  predicate IsDropped(row: Row) {
    var t := row.terms;
    || t.quantity == Some(0.0)
    || (t.secType != "STK" && t.secType != "OPT")
    || row.currency == "" || row.currency == "BASE" || row.symbol == ""
    || t.quantity.None? || t.cost.None? || t.cost.value < 0.0
    || (t.secType == "OPT" && (!IsPositive(t.multiplier) || !IsPositive(t.strike) || (t.right != "C" && t.right != "P")))
    || (t.secType == "OPT" && (row.days.None? || row.days.value < 0.0))
  }

  function LegOf(row: Row): RiskLeg
    requires !IsDropped(row)
  {
    var t := row.terms;
    var contract :=
      if t.secType == "STK" then Stock
      else Opt(if t.right == "C" then Call else Put, t.strike.value, row.expiry, row.days.value);
    var multiplier := if t.secType == "STK" then 1.0 else t.multiplier.value;
    var marked :=
      if row.unrealized.Some? then row.unrealized
      else if row.price.Some? then Some(t.quantity.value * (row.price.value * multiplier - t.cost.value))
      else None;
    RiskLeg(row.currency, row.symbol, row.account, contract, t.quantity.value, t.cost.value, multiplier, marked,
      if t.secType == "STK" then row.price else row.underlyingPrice)
  }

  /** A leg is its row's position, under the row's currency, name and account, with the row's own expiry. */
  lemma LegKeepsRow(row: Row)
    requires !IsDropped(row)
    ensures
      var leg := LegOf(row);
      && leg.currency == row.currency && leg.symbol == row.symbol && leg.account == row.account
      && (row.terms.secType == "STK" <==> leg.contract.Stock?)
      && (leg.contract.Opt? ==>
            && leg.contract.expiry == row.expiry && Some(leg.contract.days) == row.days && leg.contract.days >= 0.0
            && Some(leg.contract.strike) == row.terms.strike && Some(leg.multiplier) == row.terms.multiplier
            && (leg.contract.right.Call? <==> row.terms.right == "C"))
  {
  }

  /** The broker's own figure marks a leg where there is one; otherwise its price does, and a share so marked is worth
      what it settles at there, an option what it would cost to close. An option is anchored at its underlying. */
  lemma MarksOfRow(row: Row)
    requires !IsDropped(row)
    ensures row.unrealized.Some? ==> LegOf(row).marked == row.unrealized
    ensures row.unrealized.None? && row.price.None? ==> LegOf(row).marked == None
    ensures row.unrealized.None? && row.price.Some? ==> LegOf(row).marked.Some?
    ensures row.unrealized.None? && row.price.Some? && row.terms.secType == "STK" ==>
      LegOf(row).marked.value == SettlePnl(LegOf(row), row.price.value)
    ensures row.unrealized.None? && row.price.Some? && row.terms.secType == "OPT" ==>
      LegOf(row).marked.value == row.terms.quantity.value * row.price.value * row.terms.multiplier.value -
        row.terms.quantity.value * row.terms.cost.value
    ensures LegOf(row).anchorSpot == if row.terms.secType == "STK" then row.price else row.underlyingPrice
  {
    if row.price.Some? {
      var q, p, c := row.terms.quantity.value, row.price.value, row.terms.cost.value;
      var m := if row.terms.secType == "STK" then 1.0 else row.terms.multiplier.value;
      assert q * (p * m - c) == q * p * m - q * c;
      assert row.unrealized.None? ==> LegOf(row).marked.value == q * (p * m - c);
      assert row.terms.secType == "STK" ==> SettlePnl(LegOf(row), p) == q * (p * m - c);
    }
  }

  function LegsOf(rows: seq<Row>): Book {
    if rows == [] then []
    else
      var row := rows[|rows| - 1];
      LegsOf(rows[..|rows| - 1]) + if IsDropped(row) then [] else [LegOf(row)]
  }

  function DroppedOf(rows: seq<Row>): seq<Row> {
    if rows == [] then []
    else
      var row := rows[|rows| - 1];
      DroppedOf(rows[..|rows| - 1]) + if IsDropped(row) then [row] else []
  }

  /** The rows the dashboard lists as excluded: those it drops although they hold something. */
  function ExcludedOf(rows: seq<Row>): seq<Row> {
    if rows == [] then []
    else
      var row := rows[|rows| - 1];
      ExcludedOf(rows[..|rows| - 1]) + if IsDropped(row) && row.terms.quantity != Some(0.0) then [row] else []
  }

  function TermsOf(rows: seq<Row>): seq<WorstTerminal.Position> {
    if rows == [] then [] else TermsOf(rows[..|rows| - 1]) + [rows[|rows| - 1].terms]
  }

  method PrepareLegs(rows: seq<Row>) returns (legs: Book, excluded: seq<Row>)
    ensures legs == LegsOf(rows)
    ensures excluded == ExcludedOf(rows)
  {
    legs, excluded := [], [];
    for i := 0 to |rows|
      invariant legs == LegsOf(rows[..i])
      invariant excluded == ExcludedOf(rows[..i])
    {
      assert rows[..i + 1][..i] == rows[..i];
      if rows[i].terms.quantity == Some(0.0) {
      } else if IsDropped(rows[i]) {
        excluded := excluded + [rows[i]];
      } else {
        legs := legs + [LegOf(rows[i])];
      }
    }
    assert rows[..|rows|] == rows;
  }

  lemma {:induction false} LegsArePlain(rows: seq<Row>)
    ensures UpsideRisks.PlainShares(LegsOf(rows))
  {
    if rows != [] {
      LegsArePlain(rows[..|rows| - 1]);
    }
  }

  /** A row both programs use settles alike in both. */
  lemma RowSettlesAlike(row: Row, price: real)
    requires !IsDropped(row)
    ensures WorstTerminal.PositionPnl(row.terms, price) == SettlePnl(LegOf(row), price)
  {
  }

  lemma PnlOfOneMore(rows: seq<Row>, row: Row, price: real)
    ensures WorstTerminal.Pnl(TermsOf(rows + [row]), price) ==
      WorstTerminal.Pnl(TermsOf(rows), price) + WorstTerminal.PositionPnl(row.terms, price)
  {
    assert (rows + [row])[..|rows|] == rows;
    var terms := TermsOf(rows + [row]);
    assert terms[..|terms| - 1] == TermsOf(rows);
  }

  lemma SettleOfOneMore(legs: Book, leg: RiskLeg, price: real)
    ensures Settle(legs + [leg], price) == Settle(legs, price) + SettlePnl(leg, price)
  {
    assert (legs + [leg])[..|legs|] == legs;
  }

  /** The alerts' total differs from the dashboard's settlement by exactly what the rows the dashboard leaves out are
      worth to the alerts. */
  lemma {:induction false} TotalsDifferByDropped(rows: seq<Row>, price: real)
    ensures WorstTerminal.Pnl(TermsOf(rows), price) ==
      Settle(LegsOf(rows), price) + WorstTerminal.Pnl(TermsOf(DroppedOf(rows)), price)
  {
    if rows != [] {
      hide IsDropped, LegOf, Settle, SettlePnl, TermsOf, WorstTerminal.Pnl, WorstTerminal.PositionPnl;
      var rest, row := rows[..|rows| - 1], rows[|rows| - 1];
      TotalsDifferByDropped(rest, price);
      assert rows == rest + [row];
      PnlOfOneMore(rest, row, price);
      if IsDropped(row) {
        PnlOfOneMore(DroppedOf(rest), row, price);
        assert LegsOf(rows) == LegsOf(rest);
      } else {
        RowSettlesAlike(row, price);
        SettleOfOneMore(LegsOf(rest), LegOf(row), price);
        assert DroppedOf(rows) == DroppedOf(rest);
      }
    }
  }

  /** The dropped rows that the alerts still count: a share or priceable option whose currency, name or cost is
      missing or not usable, whose strike or multiplier is not positive, or whose expiry is invalid or past. */
  predicate IsAlertOnly(row: Row) {
    var t := row.terms;
    && WorstTerminal.OrZero(t.quantity) != 0.0
    && (t.secType == "STK" || WorstTerminal.IsPriceable(t))
    && (|| row.currency == "" || row.currency == "BASE" || row.symbol == ""
        || t.cost.None? || t.cost.value < 0.0
        || (t.secType == "OPT" && (t.multiplier.value <= 0.0 || t.strike.value <= 0.0))
        || (t.secType == "OPT" && (row.days.None? || row.days.value < 0.0)))
  }

  lemma DroppedCounts(row: Row)
    requires IsDropped(row) && !IsAlertOnly(row)
    ensures forall price :: WorstTerminal.PositionPnl(row.terms, price) == 0.0
  {
  }

  /** An alert-only share always moves the alerts' total, and an alert-only option does whenever it has a multiplier. */
  lemma AlertOnlyMatters(row: Row)
    requires IsAlertOnly(row) && (row.terms.secType == "STK" || row.terms.multiplier.value != 0.0)
    ensures IsDropped(row)
    ensures exists price :: WorstTerminal.PositionPnl(row.terms, price) != 0.0
  {
    var t := row.terms;
    var quantity, cost := t.quantity.value, WorstTerminal.OrZero(t.cost);
    if t.secType == "STK" {
      assert WorstTerminal.PositionPnl(t, cost + 1.0) == quantity * 1.0;
    } else {
      var near := t.strike.value;
      var far := if t.right == "C" then near + 1.0 else near - 1.0;
      assert WorstTerminal.PositionPnl(t, near) == quantity * (0.0 - cost);
      assert WorstTerminal.PositionPnl(t, far) == quantity * (t.multiplier.value - cost);
      if cost == 0.0 {
        assert quantity * t.multiplier.value != 0.0;
      } else {
        assert quantity * (0.0 - cost) != 0.0;
      }
    }
  }

  lemma {:induction false} NoAlertOnlyNoDifference(rows: seq<Row>, price: real)
    requires forall row :: row in rows ==> !IsAlertOnly(row)
    ensures WorstTerminal.Pnl(TermsOf(DroppedOf(rows)), price) == 0.0
  {
    if rows != [] {
      hide IsDropped, IsAlertOnly, TermsOf, WorstTerminal.Pnl, WorstTerminal.PositionPnl;
      var rest, row := rows[..|rows| - 1], rows[|rows| - 1];
      NoAlertOnlyNoDifference(rest, price);
      if IsDropped(row) {
        PnlOfOneMore(DroppedOf(rest), row, price);
        DroppedCounts(row);
      } else {
        assert DroppedOf(rows) == DroppedOf(rest);
      }
    }
  }

  lemma TotalsAgree(rows: seq<Row>, price: real)
    requires forall row :: row in rows ==> !IsAlertOnly(row)
    ensures WorstTerminal.Pnl(TermsOf(rows), price) == Settle(LegsOf(rows), price)
  {
    TotalsDifferByDropped(rows, price);
    NoAlertOnlyNoDifference(rows, price);
  }

  /** Without alert-only rows, an alert never reports less loss than any point the chart shows inside the alert's
      span; and the two worst cases are equal when besides the alert's price is inside the chart's range, although
      the two sample different prices. */
  lemma AlertMatchesChart(pricer: Pricer, rows: seq<Row>, view: PriceCurve.View, points: seq<PriceCurve.PricePoint>,
                          xs: seq<real>, pnl: real, price: real, lowest: nat)
    requires PriceCurve.Charted(pricer, LegsOf(rows), view, points)
    requires forall row :: row in rows ==> !IsAlertOnly(row)
    requires WorstTerminal.AreSamples(TermsOf(rows), PriceCurve.Own(view).spot, xs)
    requires WorstTerminal.IsWorst(TermsOf(rows), PriceCurve.Own(view).spot, xs, pnl, price)
    requires lowest < |points| && forall i :: 0 <= i < |points| ==> points[lowest].terminal <= points[i].terminal
    requires xs[0] <= points[lowest].price <= xs[|xs| - 1]
    ensures pnl <= points[lowest].terminal
    ensures PriceCurve.LowPrice(view) <= price <= PriceCurve.HighPrice(view) ==> pnl == points[lowest].terminal
  {
    hide Value, Settle, PricePieces, PriceCurve.LowPrice, PriceCurve.HighPrice, IsAlertOnly, PriceCurve.IsPrice;
    var legs, terms, ps := LegsOf(rows), TermsOf(rows), PricePieces(LegsOf(rows));
    // the alert's minimum holds at the chart's lowest price
    WorstTerminal.WorstIsTrueMinimum(terms, PriceCurve.Own(view).spot, xs, pnl, price, points[lowest].price);
    TotalsAgree(rows, points[lowest].price);
    PriceCurve.PointIsSettle(pricer, legs, view, points, lowest);
    // and the chart's minimum holds at the alert's price
    if PriceCurve.LowPrice(view) <= price <= PriceCurve.HighPrice(view) {
      ChartBoundsRange(pricer, legs, view, points, price, lowest);
      TotalsAgree(rows, price);
    }
  }

  /** The lowest point of a chart bounds the settlement at every real price of its range. */
  lemma ChartBoundsRange(pricer: Pricer, legs: Book, view: PriceCurve.View, points: seq<PriceCurve.PricePoint>,
                         price: real, lowest: nat)
    requires PriceCurve.Charted(pricer, legs, view, points)
    requires PriceCurve.LowPrice(view) <= price <= PriceCurve.HighPrice(view)
    requires lowest < |points| && forall i :: 0 <= i < |points| ==> points[lowest].terminal <= points[i].terminal
    ensures points[lowest].terminal <= Settle(legs, price)
  {
    hide Value, Settle, PricePieces, PriceCurve.LowPrice, PriceCurve.HighPrice;
    PriceCurve.RangeIsProper(view);
    PriceCurve.GridEnds(view);
    PriceCurve.StrikesAreSampled(pricer, legs, view, points);
    assert PriceCurve.IsPrice(legs, view, PriceCurve.LowPrice(view));
    assert PriceCurve.IsPrice(legs, view, PriceCurve.HighPrice(view));
    var low, _ := SamplesBound(PricePieces(legs), PriceCurve.Prices(points),
      PriceCurve.LowPrice(view), PriceCurve.HighPrice(view), price);
    PriceCurve.PointIsSettle(pricer, legs, view, points, low);
    SettleIsPiecewise(legs, price);
  }
}
