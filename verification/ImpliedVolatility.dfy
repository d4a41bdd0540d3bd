/** The volatility that reproduces a broker mark, by bisection (frontend/lib/payoff.ts, impliedVolatility). */
module ImpliedVolatility {
  import opened Numbers
  import opened Payoff

  /** The question: the price to reproduce and everything but the volatility. */
  datatype Quote = Quote(price: real, spot: real, strike: real, right: Right, years: real, rate: real, dividend: real)

  function ValueAt(pricer: Pricer, q: Quote, volatility: real): real {
    OptionValue(pricer, q.spot, q.strike, q.right, q.years, volatility, q.rate, q.dividend)
  }

  /** Before expiry that is the pricing formula at the quote's own terms, at expiry what the option pays. */
  lemma ValueIsFormula(pricer: Pricer, q: Quote, v: real)
    ensures q.years > 0.0 ==> ValueAt(pricer, q, v) == pricer(q.spot, q.strike, q.right, q.years, v, q.rate, q.dividend)
    ensures q.years <= 0.0 && q.right.Call? ==> ValueAt(pricer, q, v) == if q.spot > q.strike then q.spot - q.strike else 0.0
    ensures q.years <= 0.0 && q.right.Put? ==> ValueAt(pricer, q, v) == if q.strike > q.spot then q.strike - q.spot else 0.0
  {
  }

  predicate Answerable(pricer: Pricer, q: Quote) {
    && q.price > 0.0 && q.spot > 0.0 && q.strike > 0.0 && q.years > 0.0
    && q.price >= Intrinsic(q.right, q.spot, q.strike)
    && ValueAt(pricer, q, 5.0) >= q.price
  }

  /** The width of the bracket after n halvings. */
  function Width(n: nat): real {
    if n == 0 then 5.0 else Width(n - 1) / 2.0
  }

  function Pow2(n: nat): real {
    if n == 0 then 1.0 else 2.0 * Pow2(n - 1)
  }

  lemma {:induction false} WidthIsFiveOverPow2(n: nat)
    ensures Width(n) > 0.0 && Width(n) * Pow2(n) == 5.0
  {
    if n > 0 { WidthIsFiveOverPow2(n - 1); }
  }

  /** A bracket of the given width that still holds the target. */
  ghost predicate Brackets(pricer: Pricer, q: Quote, lo: real, hi: real) {
    && 0.0 <= lo < hi <= 5.0
    && ValueAt(pricer, q, hi) >= q.price
    && (lo == 0.0 || ValueAt(pricer, q, lo) <= q.price)
  }

  /** The midpoint of some bracket left after sixty halvings. */
  ghost predicate IsMidpoint(pricer: Pricer, q: Quote, volatility: real) {
    exists lo, hi :: Brackets(pricer, q, lo, hi) && hi - lo == Width(60) && volatility == (lo + hi) / 2.0
  }

  method Solve(pricer: Pricer, q: Quote) returns (volatility: Option<real>)
    ensures volatility.Some? <==> Answerable(pricer, q)
    ensures volatility.Some? ==> IsMidpoint(pricer, q, volatility.value)
  {
    if !(q.price > 0.0 && q.spot > 0.0 && q.strike > 0.0 && q.years > 0.0) {
      return None;
    }
    if q.price < Intrinsic(q.right, q.spot, q.strike) {
      return None;
    }
    var lo, hi := 0.0, 5.0;
    if ValueAt(pricer, q, hi) < q.price {
      return None;
    }
    hide ValueAt;
    for i := 0 to 60
      invariant Brackets(pricer, q, lo, hi)
      invariant hi - lo == Width(i)
    {
      WidthIsFiveOverPow2(i);
      var mid := (lo + hi) / 2.0;
      if ValueAt(pricer, q, mid) > q.price {
        hi := mid;
      } else {
        lo := mid;
      }
    }
    volatility := Some((lo + hi) / 2.0);
  }

  ghost predicate MonotoneInVolatility(pricer: Pricer, q: Quote) {
    forall v, w :: 0.0 <= v <= w ==> ValueAt(pricer, q, v) <= ValueAt(pricer, q, w)
  }

  /** For every pricing function that rises with volatility and starts at or below the price, each volatility that
      prices strictly below the target is below the answer, and each that prices strictly above is above it, both
      to within half the final bracket. */
  lemma AnswerSeparatesVolatilities(pricer: Pricer, q: Quote, answer: real, v: real)
    requires MonotoneInVolatility(pricer, q) && ValueAt(pricer, q, 0.0) <= q.price
    requires IsMidpoint(pricer, q, answer)
    requires v >= 0.0
    ensures ValueAt(pricer, q, v) < q.price ==> v < answer + Width(61)
    ensures ValueAt(pricer, q, v) > q.price ==> v > answer - Width(61)
  {
    hide ValueAt;
    var lo, hi :| Brackets(pricer, q, lo, hi) && hi - lo == Width(60) && answer == (lo + hi) / 2.0;
    assert Width(61) == Width(60) / 2.0;
    assert hi <= v ==> ValueAt(pricer, q, hi) <= ValueAt(pricer, q, v);
    assert v <= lo ==> ValueAt(pricer, q, v) <= ValueAt(pricer, q, lo);
  }

  /** Where exactly one volatility reproduces the price, the answer is within half the final bracket of it. */
  lemma AnswerIsNearTheRoot(pricer: Pricer, q: Quote, answer: real, root: real)
    requires MonotoneInVolatility(pricer, q)
    requires IsMidpoint(pricer, q, answer)
    requires root >= 0.0 && ValueAt(pricer, q, root) == q.price
    requires forall v :: v >= 0.0 && ValueAt(pricer, q, v) == q.price ==> v == root
    ensures Abs(answer - root) <= Width(61)
  {
    hide ValueAt;
    var lo, hi :| Brackets(pricer, q, lo, hi) && hi - lo == Width(60) && answer == (lo + hi) / 2.0;
    assert Width(61) == Width(60) / 2.0;
    assert hi < root ==> ValueAt(pricer, q, hi) <= ValueAt(pricer, q, root);
    assert root < lo ==> ValueAt(pricer, q, root) <= ValueAt(pricer, q, lo);
  }

  /** A price below the value at zero volatility has no volatility that reproduces it; the answer is then the lowest
      one the bisection can give. The guard compares with the undiscounted intrinsic value, so this can happen. */
  lemma UnreachablePriceGivesFloor(pricer: Pricer, q: Quote, answer: real)
    requires MonotoneInVolatility(pricer, q) && ValueAt(pricer, q, 0.0) > q.price
    requires IsMidpoint(pricer, q, answer)
    ensures answer == Width(61)
    ensures forall v :: v >= 0.0 ==> ValueAt(pricer, q, v) > q.price
  {
    hide ValueAt;
    var lo, hi :| Brackets(pricer, q, lo, hi) && hi - lo == Width(60) && answer == (lo + hi) / 2.0;
    assert lo > 0.0 ==> ValueAt(pricer, q, 0.0) <= ValueAt(pricer, q, lo);
    assert Width(61) == Width(60) / 2.0;
  }

  /** Such a price does pass the guards: they admit it exactly when it is positive and at least the undiscounted
      intrinsic value. */
  lemma UnreachablePricePasses(pricer: Pricer, q: Quote)
    requires MonotoneInVolatility(pricer, q) && ValueAt(pricer, q, 0.0) > q.price
    requires q.spot > 0.0 && q.strike > 0.0 && q.years > 0.0
    ensures Answerable(pricer, q) <==> q.price > 0.0 && q.price >= Intrinsic(q.right, q.spot, q.strike)
  {
    hide ValueAt;
    assert ValueAt(pricer, q, 0.0) <= ValueAt(pricer, q, 5.0);
  }

  /** A pricing formula that discounts the strike by a given factor, and rises with volatility. */
  function Discounted(factor: real): Pricer {
    (spot: real, strike: real, right: Right, years: real, volatility: real, rate: real, dividend: real) =>
      Positive(if right.Call? then spot - strike * factor else strike * factor - spot) + volatility
  }

  /** For example a call at the money whose strike is discounted by four per cent, quoted at 1 when it is worth 4
      without any volatility. */
  lemma DiscountedCallBelowFloor(answer: real)
    ensures
      var pricer, q := Discounted(0.96), Quote(1.0, 100.0, 100.0, Call, 1.0, 0.04, 0.0);
      && MonotoneInVolatility(pricer, q) && ValueAt(pricer, q, 0.0) == 4.0 && Answerable(pricer, q)
      && (IsMidpoint(pricer, q, answer) ==> answer == Width(61) && ValueAt(pricer, q, answer) > q.price)
  {
    var pricer, q := Discounted(0.96), Quote(1.0, 100.0, 100.0, Call, 1.0, 0.04, 0.0);
    forall v: real
      ensures ValueAt(pricer, q, v) == 4.0 + v
    {
      assert pricer(q.spot, q.strike, q.right, q.years, v, q.rate, q.dividend) == Positive(100.0 - 100.0 * 0.96) + v;
    }
    WidthIsFiveOverPow2(61);
    hide ValueAt;
    if IsMidpoint(pricer, q, answer) {
      UnreachablePriceGivesFloor(pricer, q, answer);
    }
  }
}
