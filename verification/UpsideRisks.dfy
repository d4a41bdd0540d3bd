/** Uncapped upside losses (frontend/lib/payoff.ts, upsideRisks). */
module UpsideRisks {
  import opened Numbers
  import opened PiecewiseLinear
  import opened Payoff
  import opened RiskLenses

  /** What the scan keeps per underlying: net calls by expiry, and net shares. */
  datatype Exposure = Exposure(calls: map<string, real>, shares: real)

  function AddLeg(e: Exposure, leg: RiskLeg): Exposure {
    match leg.contract
    case Stock => e.(shares := e.shares + leg.quantity)
    case Opt(right, _, expiry, _) =>
      if right.Put? then e
      else e.(calls := e.calls[expiry := (if expiry in e.calls then e.calls[expiry] else 0.0) + leg.quantity * leg.multiplier])
  }

  /** The exposure of a book that is all on one underlying. */
  function ExposureOf(book: Book): Exposure {
    if book == [] then Exposure(map[], 0.0) else AddLeg(ExposureOf(book[..|book| - 1]), book[|book| - 1])
  }

  /** Long calls help only when they share the one call expiry. */
  function Counted(calls: map<string, real>): map<string, real> {
    if |calls| == 1 then calls else map expiry | expiry in calls :: Min(0.0, calls[expiry])
  }

  ghost predicate IsRisky(e: Exposure) {
    e.shares + SumMap(Counted(e.calls)) < 0.0
  }

  ghost predicate Flagged(legs: Book, key: string) {
    OfGroup(Asset, legs, key) != [] && IsRisky(ExposureOf(OfGroup(Asset, legs, key)))
  }

  method SumValues(m: map<string, real>) returns (total: real)
    ensures total == SumMap(m)
  {
    total := 0.0;
    var rest := m;
    while rest != map[]
      invariant total + SumMap(rest) == SumMap(m)
      decreases |rest|
    {
      assert rest.Keys != {};
      var k := Member(rest.Keys);
      SumMapRemove(rest, k);
      total := total + rest[k];
      rest := rest - {k};
    }
  }

  method Measure(book: Book) returns (e: Exposure)
    ensures e == ExposureOf(book)
  {
    e := Exposure(map[], 0.0);
    for i := 0 to |book|
      invariant e == ExposureOf(book[..i])
    {
      e := AddLeg(e, book[i]);
      assert book[..i + 1][..i] == book[..i];
    }
    assert book[..|book|] == book;
  }

  /** The flagged underlyings, each once, in the order in which their first legs come. */
  method FindUpsideRisks(legs: Book) returns (flagged: seq<string>)
    ensures forall key :: key in flagged <==> Flagged(legs, key)
    ensures Distinct(flagged)
    ensures forall a, b :: 0 <= a < b < |flagged| ==> SeenBefore(Asset, legs, flagged[a], flagged[b])
  {
    hide ExposureOf, SumMap, OfGroup, Counted, GroupMap, SeenBefore;
    var ids, groups := GroupLegs(Asset, legs);
    flagged := [];
    for i := 0 to |ids|
      invariant forall key :: key in flagged <==> key in ids[..i] && Flagged(legs, key)
      invariant Distinct(flagged)
      invariant forall a, b :: 0 <= a < b < |flagged| ==> SeenBefore(Asset, legs, flagged[a], flagged[b])
    {
      var key := ids[i];
      assert key !in ids[..i];
      GroupMapIsGroups(Asset, legs, key);
      var e := Measure(groups[key]);
      var slope := SumValues(Counted(e.calls));
      if e.shares + slope < 0.0 {
        forall a | 0 <= a < |flagged|
          ensures SeenBefore(Asset, legs, flagged[a], key)
        {
          assert flagged[a] in ids[..i];
        }
        flagged := flagged + [key];
      }
    }
    forall key | Flagged(legs, key)
      ensures key in ids
    {
      GroupMapIsGroups(Asset, legs, key);
    }
  }

  // ---- What is counted, read off the legs ----

  predicate IsCall(leg: RiskLeg, key: string, expiry: string) {
    leg.currency + ":" + leg.symbol == key && leg.contract.Opt? && leg.contract.right.Call? && leg.contract.expiry == expiry
  }

  predicate HasCall(legs: Book, key: string, expiry: string) {
    exists leg :: leg in legs && IsCall(leg, key, expiry)
  }

  function NetCalls(legs: Book, key: string, expiry: string): real {
    if legs == [] then 0.0
    else
      var leg := legs[|legs| - 1];
      NetCalls(legs[..|legs| - 1], key, expiry) + if IsCall(leg, key, expiry) then leg.quantity * leg.multiplier else 0.0
  }

  function NetShares(legs: Book, key: string): real {
    if legs == [] then 0.0
    else
      var leg := legs[|legs| - 1];
      NetShares(legs[..|legs| - 1], key) +
        if leg.currency + ":" + leg.symbol == key && leg.contract.Stock? then leg.quantity else 0.0
  }

  /** The net calls of each expiry that has any. */
  ghost predicate AreNetCalls(legs: Book, key: string, calls: map<string, real>) {
    && (forall expiry :: expiry in calls <==> HasCall(legs, key, expiry))
    && (forall expiry :: expiry in calls ==> calls[expiry] == NetCalls(legs, key, expiry))
  }

  ghost predicate IsNet(legs: Book, key: string, e: Exposure) {
    e.shares == NetShares(legs, key) && forall expiry :: IsNetAt(legs, key, e, expiry)
  }

  ghost predicate IsNetAt(legs: Book, key: string, e: Exposure, expiry: string) {
    && (expiry in e.calls <==> HasCall(legs, key, expiry))
    && NetCalls(legs, key, expiry) == if expiry in e.calls then e.calls[expiry] else 0.0
  }

  lemma {:induction false} ExposureIsNet(legs: Book, key: string)
    ensures IsNet(legs, key, ExposureOf(OfGroup(Asset, legs, key)))
  {
    if legs != [] {
      hide IsNet, AddLeg;
      var rest, leg := legs[..|legs| - 1], legs[|legs| - 1];
      ExposureIsNet(rest, key);
      assert legs == rest + [leg];
      var mine, group := OfGroup(Asset, rest, key), OfGroup(Asset, legs, key);
      NetStep(rest, leg, key, ExposureOf(mine));
      if leg.currency + ":" + leg.symbol == key {
        assert group == mine + [leg] && group[..|group| - 1] == mine;
      } else {
        assert group == mine;
      }
    } else {
      assert IsNet([], key, Exposure(map[], 0.0));
    }
  }

  lemma NetStep(rest: Book, leg: RiskLeg, key: string, e: Exposure)
    requires IsNet(rest, key, e)
    ensures IsNet(rest + [leg], key, if leg.currency + ":" + leg.symbol == key then AddLeg(e, leg) else e)
  {
    assert (rest + [leg])[..|rest|] == rest;
    var after := if leg.currency + ":" + leg.symbol == key then AddLeg(e, leg) else e;
    assert after.shares == NetShares(rest + [leg], key);
    forall expiry
      ensures IsNetAt(rest + [leg], key, after, expiry)
    {
      assert IsNetAt(rest, key, e, expiry);
      NetStepAt(rest, leg, key, e, expiry);
    }
  }

  lemma NetStepAt(rest: Book, leg: RiskLeg, key: string, e: Exposure, expiry: string)
    requires IsNetAt(rest, key, e, expiry)
    ensures IsNetAt(rest + [leg], key, if leg.currency + ":" + leg.symbol == key then AddLeg(e, leg) else e, expiry)
  {
    assert (rest + [leg])[..|rest|] == rest;
    HasCallStep(rest, leg, key, expiry);
    hide HasCall;
  }

  lemma HasCallStep(rest: Book, leg: RiskLeg, key: string, expiry: string)
    ensures HasCall(rest + [leg], key, expiry) <==> HasCall(rest, key, expiry) || IsCall(leg, key, expiry)
  {
    if HasCall(rest, key, expiry) {
      var l :| l in rest && IsCall(l, key, expiry);
      assert l in rest + [leg];
    }
    assert leg in rest + [leg];
  }

  lemma SameNet(legs: Book, key: string, e: Exposure, calls: map<string, real>)
    requires IsNet(legs, key, e) && AreNetCalls(legs, key, calls)
    ensures e.calls == calls
  {
    hide HasCall, NetCalls;
    forall expiry
      ensures expiry in e.calls <==> expiry in calls
      ensures expiry in calls ==> e.calls[expiry] == calls[expiry]
    {
      assert IsNetAt(legs, key, e, expiry);
    }
  }

  /** An underlying is flagged exactly when it has a leg and its net shares and calls are short together: net calls
      count in full where they have one expiry in all, and only the short expiries count otherwise. */
  lemma FlagsCountShorts(legs: Book, key: string, calls: map<string, real>, shorts: map<string, real>)
    requires AreNetCalls(legs, key, calls)
    requires shorts.Keys == calls.Keys
    requires forall expiry :: expiry in calls ==> shorts[expiry] == if calls[expiry] < 0.0 then calls[expiry] else 0.0
    ensures Flagged(legs, key) <==>
      && (exists leg :: leg in legs && leg.currency + ":" + leg.symbol == key)
      && NetShares(legs, key) + (if |calls.Keys| == 1 then SumMap(calls) else SumMap(shorts)) < 0.0
  {
    hide SumMap, OfGroup, ExposureOf;
    var group := OfGroup(Asset, legs, key);
    OfGroupMembers(Asset, legs, key);
    ExposureIsNet(legs, key);
    SameNet(legs, key, ExposureOf(group), calls);
    assert |calls.Keys| == |calls|;
    if |calls| != 1 {
      assert Counted(calls) == shorts;
    }
    if leg :| leg in legs && leg.currency + ":" + leg.symbol == key {
      assert leg in group;
    }
    if group != [] {
      assert group[0] in group;
    }
  }

  // ---- What a flag means for the settlement ----

  ghost predicate LossAbove(book: Book, floor: real) {
    forall price: real :: price >= 0.0 ==> Settle(book, price) >= floor
  }

  ghost predicate LossCapped(book: Book) {
    exists floor: real :: LossAbove(book, floor)
  }

  /** Included shares carry no multiplier. */
  ghost predicate PlainShares(book: Book) {
    forall leg :: leg in book && leg.contract.Stock? ==> leg.multiplier == 1.0
  }

  lemma LegFarSlope(leg: RiskLeg)
    ensures FarSlope(PricePiece(leg)) ==
      if leg.contract.Opt? && leg.contract.right.Put? then 0.0 else leg.quantity * leg.multiplier
  {
  }

  lemma {:induction false} FarSlopeIsExposure(book: Book)
    requires PlainShares(book)
    ensures TailSlope(PricePieces(book)) == ExposureOf(book).shares + SumMap(ExposureOf(book).calls)
  {
    if book != [] {
      hide SumMap;
      var rest, leg := book[..|book| - 1], book[|book| - 1];
      FarSlopeIsExposure(rest);
      var ps, before := PricePieces(book), ExposureOf(rest);
      assert ps[..|ps| - 1] == PricePieces(rest);
      LegFarSlope(leg);
      hide FarSlope, PricePiece;
      if leg.contract.Opt? && leg.contract.right.Call? {
        SumMapAdd(before.calls, leg.contract.expiry, leg.quantity * leg.multiplier);
      }
    } else {
      assert SumMap<string>(map[]) == 0.0;
    }
  }

  lemma {:induction false} CountedIsLess(calls: map<string, real>, floored: map<string, real>)
    requires floored.Keys == calls.Keys
    requires forall expiry :: expiry in calls ==> floored[expiry] == Min(0.0, calls[expiry])
    ensures SumMap(floored) <= SumMap(calls)
    decreases |calls|
  {
    if calls != map[] {
      assert calls.Keys != {};
      var expiry :| expiry in calls.Keys;
      SumMapRemove(calls, expiry);
      SumMapRemove(floored, expiry);
      CountedIsLess(calls - {expiry}, floored - {expiry});
    } else {
      assert floored == map[];
    }
  }

  lemma LossCappedIsBounded(book: Book)
    ensures LossCapped(book) <==> BoundedBelow(PricePieces(book))
  {
    forall price: real
      ensures Settle(book, price) == Value(PricePieces(book), price)
    {
      SettleIsPiecewise(book, price);
    }
    if floor :| LossAbove(book, floor) {
      assert Floor(PricePieces(book), floor);
    }
    if floor :| Floor(PricePieces(book), floor) {
      assert LossAbove(book, floor);
    }
  }

  /** An unflagged underlying's settlement loss is capped over every price from zero up, whatever mix of expiries;
      where the calls have at most one expiry, a flagged one's is not. */
  lemma FlagsAreSound(book: Book)
    requires PlainShares(book)
    ensures !IsRisky(ExposureOf(book)) ==> LossCapped(book)
    ensures |ExposureOf(book).calls| <= 1 ==> (LossCapped(book) <==> !IsRisky(ExposureOf(book)))
  {
    var calls := ExposureOf(book).calls;
    FarSlopeIsExposure(book);
    BoundedBelowIffTail(PricePieces(book));
    LossCappedIsBounded(book);
    if |calls| != 1 {
      CountedIsLess(calls, Counted(calls));
    }
    if |calls| == 0 {
      assert calls == map[];
      assert Counted(calls) == map[];
    }
  }

  /** With several call expiries a flag is conservative: it is a false alarm exactly when the long calls of other
      expiries would cover the short ones at a single price. */
  lemma FalseAlarmsExactly(book: Book)
    requires PlainShares(book)
    ensures
      var e := ExposureOf(book);
      IsRisky(e) && LossCapped(book) <==> e.shares + SumMap(Counted(e.calls)) < 0.0 <= e.shares + SumMap(e.calls)
  {
    FarSlopeIsExposure(book);
    BoundedBelowIffTail(PricePieces(book));
    LossCappedIsBounded(book);
  }
}
