/** A book split into rows by asset, expiry or account (frontend/lib/risk-lenses.ts, buildRows). */
module RiskLenses {
  import opened Numbers
  import opened Payoff
  import opened Curves

  datatype Lens = Asset | Expiry | Account

  const NO_EXPIRY := "STK"

  function GroupKey(lens: Lens, leg: RiskLeg): string {
    match lens
    case Asset => UnderlyingKey(leg)
    case Expiry => if leg.contract.Opt? && leg.contract.expiry != "" then leg.contract.expiry else NO_EXPIRY
    case Account => leg.account
  }

  datatype LensRow = LensRow(
    id: string, legs: Book, now: real, at: map<real, real>, estimate: map<real, real>, worst: real, spark: seq<real>,
    adjustment: real)

  function OfGroup(lens: Lens, legs: Book, id: string): Book {
    if legs == [] then [] else
      var leg := legs[|legs| - 1];
      OfGroup(lens, legs[..|legs| - 1], id) + (if GroupKey(lens, leg) == id then [leg] else [])
  }

  lemma {:induction false} OfGroupMembers(lens: Lens, legs: Book, id: string)
    ensures forall leg :: leg in OfGroup(lens, legs, id) <==> leg in legs && GroupKey(lens, leg) == id
  {
    if legs != [] {
      var rest, leg := legs[..|legs| - 1], legs[|legs| - 1];
      OfGroupMembers(lens, rest, id);
      assert legs == rest + [leg];
    }
  }

  function Lowest(points: seq<CurvePoint>): real
    requires points != []
  {
    var p := points[|points| - 1];
    if |points| == 1 then p.terminal else Min(Lowest(points[..|points| - 1]), p.terminal)
  }

  lemma {:induction false} LowestIsLowest(points: seq<CurvePoint>)
    requires points != []
    ensures forall p :: p in points ==> Lowest(points) <= p.terminal
    ensures exists p :: p in points && p.terminal == Lowest(points)
  {
    var rest, last := points[..|points| - 1], points[|points| - 1];
    assert points == rest + [last];
    if rest == [] {
      assert last in points;
    } else {
      LowestIsLowest(rest);
      var p :| p in rest && p.terminal == Lowest(rest);
      assert p in points && last in points;
    }
  }

  /** The first sample within 1e-9 of a level. */
  function NearLevel(points: seq<CurvePoint>, level: real): (found: Option<CurvePoint>)
    ensures found.Some? ==> found.value in points && Abs(found.value.shock - level) < 0.000000001
    ensures found.None? ==> forall p :: p in points ==> Abs(p.shock - level) >= 0.000000001
  {
    if points == [] then None
    else if Abs(points[0].shock - level) < 0.000000001 then Some(points[0])
    else NearLevel(points[1..], level)
  }

  /** What the column of a level shows: the first sample near it, or for zero without a column of its own the sample
      of the unshocked book. */
  function Shown(points: seq<CurvePoint>, levels: seq<real>, zero: CurvePoint, level: real): CurvePoint {
    if level in levels && NearLevel(points, level).Some? then NearLevel(points, level).value else zero
  }

  /** The columns are zero and exactly the levels that have a sample near them. */
  ghost predicate ShowsLevels(points: seq<CurvePoint>, levels: seq<real>, zero: CurvePoint, adjustment: real,
                              at: map<real, real>, estimate: map<real, real>) {
    && at.Keys == estimate.Keys
    && (forall level :: level in at <==> level == 0.0 || (level in levels && NearLevel(points, level).Some?))
    && (forall level :: level in at ==>
          && at[level] == Shown(points, levels, zero, level).terminal + adjustment
          && estimate[level] == Shown(points, levels, zero, level).modeled + adjustment)
  }

  ghost predicate ShowsLevelsFrom(points: seq<CurvePoint>, levels: seq<real>, adjustment: real,
                                  at: map<real, real>, estimate: map<real, real>) {
    exists zero :: zero in points && zero.shock == 0.0 && ShowsLevels(points, levels, zero, adjustment, at, estimate)
  }

  ghost predicate IsRowOf(pricer: Pricer, lens: Lens, legs: Book, scene: Scene, adjustments: map<string, real>,
                          row: LensRow, points: seq<CurvePoint>)
    requires Priced(legs, scene.assumptions)
  {
    && row.legs == OfGroup(lens, legs, row.id) && row.legs != []
    && Priced(row.legs, scene.assumptions)
    && IsCurve(pricer, row.legs, scene, points) && points != []
    && row.adjustment == (if row.id in adjustments then adjustments[row.id] else 0.0)
    && row.worst == Lowest(points) + row.adjustment
    && row.now == Modeled(pricer, row.legs, scene.assumptions, 0.0, scene.horizon, scene.rate) + row.adjustment
    && ShowsLevelsFrom(points, scene.levels, row.adjustment, row.at, row.estimate)
    && |row.spark| == |points|
    && (forall i :: 0 <= i < |points| ==> row.spark[i] == points[i].terminal + row.adjustment)
  }

  ghost predicate IsRow(pricer: Pricer, lens: Lens, legs: Book, scene: Scene, adjustments: map<string, real>, row: LensRow)
    requires Priced(legs, scene.assumptions)
  {
    exists points :: IsRowOf(pricer, lens, legs, scene, adjustments, row, points)
  }

  function Ids(rows: seq<LensRow>): seq<string> {
    seq(|rows|, i requires 0 <= i < |rows| => rows[i].id)
  }

  ghost predicate Distinct<T(!new)>(xs: seq<T>) {
    forall i, j :: 0 <= i < j < |xs| ==> xs[i] != xs[j]
  }

  /** One row per group that has a leg, in any order, each holding exactly its group's legs. */
  ghost predicate AreRows(pricer: Pricer, lens: Lens, legs: Book, scene: Scene, adjustments: map<string, real>, rows: seq<LensRow>)
    requires Priced(legs, scene.assumptions)
  {
    && Distinct(Ids(rows))
    && (forall leg :: leg in legs ==> GroupKey(lens, leg) in Ids(rows))
    && (forall row :: row in rows ==> IsRow(pricer, lens, legs, scene, adjustments, row))
  }

  function GroupMap(lens: Lens, legs: Book): map<string, Book> {
    if legs == [] then map[] else
      var leg, before := legs[|legs| - 1], GroupMap(lens, legs[..|legs| - 1]);
      var id := GroupKey(lens, leg);
      before[id := (if id in before then before[id] else []) + [leg]]
  }

  /** The groups filled leg by leg are the legs that share a key. */
  lemma {:induction false} GroupMapIsGroups(lens: Lens, legs: Book, id: string)
    ensures OfGroup(lens, legs, id) == if id in GroupMap(lens, legs) then GroupMap(lens, legs)[id] else []
    ensures id in GroupMap(lens, legs) ==> GroupMap(lens, legs)[id] != []
  {
    if legs != [] {
      GroupMapIsGroups(lens, legs[..|legs| - 1], id);
    }
  }

  /** A leg of one group comes before every leg of the other. */
  ghost predicate SeenBefore(lens: Lens, legs: Book, id: string, other: string) {
    exists m :: 0 <= m < |legs| && GroupKey(lens, legs[m]) == id
      && forall n :: 0 <= n <= m ==> GroupKey(lens, legs[n]) != other
  }

  ghost predicate OccursBefore(lens: Lens, legs: Book, id: string, i: int) {
    exists m :: 0 <= m < i && m < |legs| && GroupKey(lens, legs[m]) == id
  }

  lemma NothingOccurs(lens: Lens, legs: Book)
    ensures forall id :: !OccursBefore(lens, legs, id, 0)
  {
  }

  lemma OccursStep(lens: Lens, legs: Book, i: nat)
    requires i < |legs|
    ensures forall id :: OccursBefore(lens, legs, id, i + 1) <==>
      OccursBefore(lens, legs, id, i) || id == GroupKey(lens, legs[i])
  {
    forall id
      ensures OccursBefore(lens, legs, id, i + 1) <==> OccursBefore(lens, legs, id, i) || id == GroupKey(lens, legs[i])
    {
      if m :| 0 <= m < i + 1 && m < |legs| && GroupKey(lens, legs[m]) == id {
        assert m < i || m == i;
      }
    }
  }

  lemma FirstSeenLater(lens: Lens, legs: Book, id: string, other: string, i: nat)
    requires i < |legs| && OccursBefore(lens, legs, id, i) && !OccursBefore(lens, legs, other, i)
    ensures SeenBefore(lens, legs, id, other)
  {
  }

  /** The groups of the legs, in the order in which their first legs come. */
  method GroupLegs(lens: Lens, legs: Book) returns (ids: seq<string>, groups: map<string, Book>)
    ensures Distinct(ids) && (forall id :: id in ids <==> id in groups)
    ensures groups == GroupMap(lens, legs)
    ensures forall a, b :: 0 <= a < b < |ids| ==> SeenBefore(lens, legs, ids[a], ids[b])
  {
    hide GroupKey, OccursBefore, SeenBefore;
    NothingOccurs(lens, legs);
    ids, groups := [], map[];
    for i := 0 to |legs|
      invariant Distinct(ids) && (forall id :: id in ids <==> id in groups)
      invariant groups == GroupMap(lens, legs[..i])
      invariant forall id :: id in ids <==> OccursBefore(lens, legs, id, i)
      invariant forall a, b :: 0 <= a < b < |ids| ==> SeenBefore(lens, legs, ids[a], ids[b])
    {
      var id := GroupKey(lens, legs[i]);
      assert legs[..i + 1][..i] == legs[..i];
      OccursStep(lens, legs, i);
      if id !in groups {
        forall a | 0 <= a < |ids|
          ensures SeenBefore(lens, legs, ids[a], id)
        {
          assert ids[a] in ids;
          FirstSeenLater(lens, legs, ids[a], id, i);
        }
        ids := ids + [id];
      }
      groups := groups[id := (if id in groups then groups[id] else []) + [legs[i]]];
    }
    assert legs[..|legs|] == legs;
  }

  method LowestOf(points: seq<CurvePoint>) returns (worst: real)
    requires points != []
    ensures worst == Lowest(points)
  {
    worst := points[0].terminal;
    for i := 1 to |points|
      invariant worst == Lowest(points[..i])
    {
      worst := Min(worst, points[i].terminal);
      assert points[..i + 1][..i] == points[..i];
    }
    assert points[..|points|] == points;
  }

  /** The first point near a level, if the curve has one. */
  method FindLevel(points: seq<CurvePoint>, level: real) returns (found: Option<CurvePoint>)
    ensures found == NearLevel(points, level)
  {
    for i := 0 to |points|
      invariant NearLevel(points, level) == NearLevel(points[i..], level)
    {
      if Abs(points[i].shock - level) < 0.000000001 {
        return Some(points[i]);
      }
    }
    found := None;
  }

  /** The table columns: zero, and every level the curve has a sample for. */
  method FillLevels(curve: seq<CurvePoint>, levels: seq<real>, zero: CurvePoint, adjustment: real)
      returns (at: map<real, real>, estimate: map<real, real>)
    ensures ShowsLevels(curve, levels, zero, adjustment, at, estimate)
  {
    hide NearLevel;
    at, estimate := map[0.0 := zero.terminal + adjustment], map[0.0 := zero.modeled + adjustment];
    for i := 0 to |levels|
      invariant ShowsLevels(curve, levels[..i], zero, adjustment, at, estimate)
    {
      var level := levels[i];
      assert forall l :: l in levels[..i + 1] <==> l in levels[..i] || l == level;
      var found := FindLevel(curve, level);
      if found.Some? {
        at := at[level := found.value.terminal + adjustment];
        estimate := estimate[level := found.value.modeled + adjustment];
      }
    }
    assert levels[..|levels|] == levels;
  }

  method Spark(points: seq<CurvePoint>, adjustment: real) returns (spark: seq<real>)
    ensures |spark| == |points|
    ensures forall i :: 0 <= i < |points| ==> spark[i] == points[i].terminal + adjustment
  {
    spark := [];
    for i := 0 to |points|
      invariant |spark| == i && forall k :: 0 <= k < i ==> spark[k] == points[k].terminal + adjustment
    {
      spark := spark + [points[i].terminal + adjustment];
    }
  }

  method FindZero(pricer: Pricer, group: Book, scene: Scene, curve: seq<CurvePoint>) returns (zero: CurvePoint)
    requires Priced(group, scene.assumptions) && IsCurve(pricer, group, scene, curve)
    ensures zero in curve && zero.shock == 0.0
  {
    assert IsShock(group, scene, 0.0);
    assert 0.0 in Shocks(curve);
    ghost var z :| 0 <= z < |curve| && Shocks(curve)[z] == 0.0;
    var k := 0;
    while curve[k].shock != 0.0
      invariant k <= z
      decreases z - k
    {
      k := k + 1;
    }
    zero := curve[k];
  }

  method BuildRow(pricer: Pricer, lens: Lens, ghost legs: Book, scene: Scene, adjustments: map<string, real>,
                  id: string, group: Book) returns (row: LensRow)
    requires Priced(legs, scene.assumptions) && Priced(group, scene.assumptions)
    requires group == OfGroup(lens, legs, id) && group != []
    ensures row.id == id && IsRow(pricer, lens, legs, scene, adjustments, row)
  {
    var points := BuildCurves(pricer, group, scene);
    var adjustment := if id in adjustments then adjustments[id] else 0.0;
    var zero := FindZero(pricer, group, scene, points);
    var at, estimate := FillLevels(points, scene.levels, zero, adjustment);
    var worst := LowestOf(points);
    var spark := Spark(points, adjustment);
    row := LensRow(id, group, zero.modeled + adjustment, at, estimate, worst + adjustment, spark, adjustment);
    hide Lowest, ShowsLevels, OfGroup, NearLevel;
    assert ShowsLevelsFrom(points, scene.levels, adjustment, at, estimate);
    assert IsRowOf(pricer, lens, legs, scene, adjustments, row, points);
  }

  /** Every level above -100 has a column, and it shows a sample that close to the level. */
  lemma LevelsHaveColumns(pricer: Pricer, lens: Lens, legs: Book, scene: Scene, adjustments: map<string, real>,
                          row: LensRow, points: seq<CurvePoint>, level: real)
    requires Priced(legs, scene.assumptions) && IsRowOf(pricer, lens, legs, scene, adjustments, row, points)
    requires level in scene.levels && level > -100.0
    ensures level in row.at && level in row.estimate
    ensures exists p ::
      (p in points && Abs(p.shock - level) < 0.000000001
      && row.at[level] == p.terminal + row.adjustment && row.estimate[level] == p.modeled + row.adjustment)
  {
    hide Lowest;
    assert IsShock(row.legs, scene, level);
    assert level in Shocks(points);
    var i :| 0 <= i < |points| && Shocks(points)[i] == level;
    assert points[i] in points;
    assert NearLevel(points, level).Some?;
    var p := NearLevel(points, level).value;
    assert row.at[level] == p.terminal + row.adjustment;
  }

  method BuildRows(pricer: Pricer, lens: Lens, legs: Book, scene: Scene, adjustments: map<string, real>)
      returns (rows: seq<LensRow>)
    requires Priced(legs, scene.assumptions)
    ensures AreRows(pricer, lens, legs, scene, adjustments, rows)
  {
    hide IsRow, OfGroup, GroupKey;
    var ids, groups := GroupLegs(lens, legs);
    rows := [];
    for i := 0 to |ids|
      invariant Ids(rows) == ids[..i]
      invariant forall row :: row in rows ==> IsRow(pricer, lens, legs, scene, adjustments, row)
    {
      OfGroupMembers(lens, legs, ids[i]);
      GroupMapIsGroups(lens, legs, ids[i]);
      var row := BuildRow(pricer, lens, legs, scene, adjustments, ids[i], groups[ids[i]]);
      rows := rows + [row];
    }
    assert Ids(rows) == ids;
    EveryLegHasGroup(lens, legs);
  }

  lemma EveryLegHasGroup(lens: Lens, legs: Book)
    ensures forall leg :: leg in legs ==> GroupKey(lens, leg) in GroupMap(lens, legs)
  {
    forall leg | leg in legs
      ensures GroupKey(lens, leg) in GroupMap(lens, legs)
    {
      OfGroupMembers(lens, legs, GroupKey(lens, leg));
      GroupMapIsGroups(lens, legs, GroupKey(lens, leg));
    }
  }

  // ---- What a row groups ----

  /** The legs of a row agree with its id in the field of the lens, and its adjustment is the one filed under that id:
      an account; an expiry, with everything that has none under "STK"; or a currency and symbol. */
  lemma RowsHoldTheirField(pricer: Pricer, lens: Lens, legs: Book, scene: Scene, adjustments: map<string, real>,
                           rows: seq<LensRow>, row: LensRow, leg: RiskLeg)
    requires Priced(legs, scene.assumptions) && AreRows(pricer, lens, legs, scene, adjustments, rows)
    requires row in rows && leg in row.legs
    ensures leg in legs
    ensures lens.Account? ==> row.id == leg.account
    ensures lens.Expiry? && leg.contract.Opt? && leg.contract.expiry != "" ==> row.id == leg.contract.expiry
    ensures lens.Expiry? && (leg.contract.Stock? || leg.contract.expiry == "") ==> row.id == "STK"
    ensures lens.Asset? ==> row.id == leg.currency + ":" + leg.symbol
    ensures row.adjustment == if row.id in adjustments then adjustments[row.id] else 0.0
  {
    hide IsCurve, ShowsLevelsFrom, Lowest;
    OfGroupMembers(lens, legs, row.id);
    assert IsRow(pricer, lens, legs, scene, adjustments, row);
  }

  ghost predicate Together(rows: seq<LensRow>, leg: RiskLeg, other: RiskLeg) {
    exists row :: row in rows && leg in row.legs && other in row.legs
  }

  /** Two legs share a row exactly when they agree in the field of the lens; in particular every leg has a row. */
  lemma RowsAreByField(pricer: Pricer, lens: Lens, legs: Book, scene: Scene, adjustments: map<string, real>,
                       rows: seq<LensRow>, leg: RiskLeg, other: RiskLeg)
    requires Priced(legs, scene.assumptions) && AreRows(pricer, lens, legs, scene, adjustments, rows)
    requires leg in legs && other in legs
    ensures Together(rows, leg, other) <==>
      match lens
      case Account => leg.account == other.account
      case Asset => leg.currency + ":" + leg.symbol == other.currency + ":" + other.symbol
      case Expiry =>
        (if leg.contract.Opt? && leg.contract.expiry != "" then leg.contract.expiry else "STK") ==
          if other.contract.Opt? && other.contract.expiry != "" then other.contract.expiry else "STK"
  {
    hide IsCurve, ShowsLevelsFrom, Lowest, IsRow;
    if row :| row in rows && leg in row.legs && other in row.legs {
      RowsHoldTheirField(pricer, lens, legs, scene, adjustments, rows, row, leg);
      RowsHoldTheirField(pricer, lens, legs, scene, adjustments, rows, row, other);
    }
    RowOfLeg(pricer, lens, legs, scene, adjustments, rows, leg, other);
  }

  lemma RowOfLeg(pricer: Pricer, lens: Lens, legs: Book, scene: Scene, adjustments: map<string, real>,
                 rows: seq<LensRow>, leg: RiskLeg, other: RiskLeg)
    requires Priced(legs, scene.assumptions) && AreRows(pricer, lens, legs, scene, adjustments, rows)
    requires leg in legs && other in legs
    ensures GroupKey(lens, leg) == GroupKey(lens, other) ==> Together(rows, leg, other)
  {
    hide IsCurve, ShowsLevelsFrom, Lowest;
    var i :| 0 <= i < |rows| && Ids(rows)[i] == GroupKey(lens, leg);
    OfGroupMembers(lens, legs, rows[i].id);
    assert rows[i] in rows && IsRow(pricer, lens, legs, scene, adjustments, rows[i]);
  }

  // ---- Splitting never hides risk ----

  function GroupTotal(lens: Lens, id: string, legs: Book, assumptions: Assumptions, shock: real): real
    requires Priced(legs, assumptions)
  {
    OfGroupMembers(lens, legs, id);
    Terminal(OfGroup(lens, legs, id), assumptions, shock)
  }

  /** The terminal total of the listed groups at one shock. */
  function GroupSum(lens: Lens, ids: seq<string>, legs: Book, assumptions: Assumptions, shock: real): real
    requires Priced(legs, assumptions)
  {
    if ids == [] then 0.0 else
      GroupSum(lens, ids[..|ids| - 1], legs, assumptions, shock) + GroupTotal(lens, ids[|ids| - 1], legs, assumptions, shock)
  }

  lemma {:induction false} GroupSumOfNothing(lens: Lens, ids: seq<string>, assumptions: Assumptions, shock: real)
    ensures GroupSum(lens, ids, [], assumptions, shock) == 0.0
  {
    if ids != [] {
      GroupSumOfNothing(lens, ids[..|ids| - 1], assumptions, shock);
    }
  }

  /** A leg joins one group only. */
  lemma {:induction false} GroupSumAddsLeg(lens: Lens, ids: seq<string>, legs: Book, assumptions: Assumptions, shock: real)
    requires legs != [] && Priced(legs, assumptions) && Distinct(ids)
    ensures
      var leg := legs[|legs| - 1];
      GroupSum(lens, ids, legs, assumptions, shock) ==
        GroupSum(lens, ids, legs[..|legs| - 1], assumptions, shock) +
        (if GroupKey(lens, leg) in ids then SettlePnl(leg, OwnSpot(assumptions[UnderlyingKey(leg)], shock)) else 0.0)
  {
    if ids != [] {
      hide SettlePnl, OwnSpot, GroupKey, GroupTotal;
      var others, id := ids[..|ids| - 1], ids[|ids| - 1];
      assert ids == others + [id];
      assert id !in others;
      GroupSumAddsLeg(lens, others, legs, assumptions, shock);
      GroupTotalAddsLeg(lens, id, legs, assumptions, shock);
    }
  }

  lemma GroupTotalAddsLeg(lens: Lens, id: string, legs: Book, assumptions: Assumptions, shock: real)
    requires legs != [] && Priced(legs, assumptions)
    ensures
      var leg := legs[|legs| - 1];
      GroupTotal(lens, id, legs, assumptions, shock) ==
        GroupTotal(lens, id, legs[..|legs| - 1], assumptions, shock) +
        (if GroupKey(lens, leg) == id then SettlePnl(leg, OwnSpot(assumptions[UnderlyingKey(leg)], shock)) else 0.0)
  {
    hide SettlePnl, OwnSpot;
    var leg, mine := legs[|legs| - 1], OfGroup(lens, legs, id);
    OfGroupMembers(lens, legs, id);
    OfGroupMembers(lens, legs[..|legs| - 1], id);
    if GroupKey(lens, leg) == id {
      assert mine[..|mine| - 1] == OfGroup(lens, legs[..|legs| - 1], id);
    } else {
      assert mine == OfGroup(lens, legs[..|legs| - 1], id);
    }
  }

  /** The groups are a partition: their terminal totals add up to the book's, at every shock. */
  lemma {:induction false} GroupsPartitionTheBook(lens: Lens, ids: seq<string>, legs: Book, assumptions: Assumptions, shock: real)
    requires Priced(legs, assumptions) && Distinct(ids)
    requires forall leg :: leg in legs ==> GroupKey(lens, leg) in ids
    ensures GroupSum(lens, ids, legs, assumptions, shock) == Terminal(legs, assumptions, shock)
  {
    if legs == [] {
      GroupSumOfNothing(lens, ids, assumptions, shock);
    } else {
      GroupSumAddsLeg(lens, ids, legs, assumptions, shock);
      GroupsPartitionTheBook(lens, ids, legs[..|legs| - 1], assumptions, shock);
    }
  }

  /** The sum of the rows' worst cases, without what was already realized. */
  function RowsWorst(rows: seq<LensRow>): real {
    if rows == [] then 0.0 else
      var row := rows[|rows| - 1];
      RowsWorst(rows[..|rows| - 1]) + (row.worst - row.adjustment)
  }

  /** A row's own samples bound it at every shock the whole book samples, even at other rows' strikes. */
  lemma RowWorstBoundsBookSamples(pricer: Pricer, lens: Lens, legs: Book, scene: Scene, adjustments: map<string, real>,
                                  row: LensRow, points: seq<CurvePoint>, s: real)
    requires Priced(legs, scene.assumptions) && BetasCovered(legs, scene.assumptions)
    requires IsRowOf(pricer, lens, legs, scene, adjustments, row, points)
    requires IsShock(legs, scene, s)
    ensures row.worst - row.adjustment <= Terminal(row.legs, scene.assumptions, s)
  {
    OfGroupMembers(lens, legs, row.id);
    LowestIsLowest(points);
    if IsShock(row.legs, scene, s) {
      assert s in Shocks(points);
      var i :| 0 <= i < |points| && Shocks(points)[i] == s;
      assert points[i] in points;
    } else {
      var low, _ := CurveBoundsEveryShock(pricer, row.legs, scene, points, s);
    }
  }

  lemma {:induction false} RowsWorstBelow(pricer: Pricer, lens: Lens, legs: Book, scene: Scene, adjustments: map<string, real>,
                                          rows: seq<LensRow>, s: real)
    requires Priced(legs, scene.assumptions) && BetasCovered(legs, scene.assumptions)
    requires forall row :: row in rows ==> IsRow(pricer, lens, legs, scene, adjustments, row)
    requires IsShock(legs, scene, s)
    ensures RowsWorst(rows) <= GroupSum(lens, Ids(rows), legs, scene.assumptions, s)
  {
    if rows != [] {
      var rest, row := rows[..|rows| - 1], rows[|rows| - 1];
      RowsWorstBelow(pricer, lens, legs, scene, adjustments, rest, s);
      assert Ids(rows)[..|rows| - 1] == Ids(rest);
      assert IsRow(pricer, lens, legs, scene, adjustments, row);
      var points :| IsRowOf(pricer, lens, legs, scene, adjustments, row, points);
      RowWorstBoundsBookSamples(pricer, lens, legs, scene, adjustments, row, points, s);
    }
  }

  /** Splitting a book by any lens never hides risk: the rows' worst cases together are no better than the worst
      case of the whole book, although every row samples only its own strikes. */
  lemma SplittingNeverHidesRisk(pricer: Pricer, lens: Lens, legs: Book, scene: Scene, adjustments: map<string, real>,
                                rows: seq<LensRow>, whole: seq<CurvePoint>)
    requires Priced(legs, scene.assumptions) && BetasCovered(legs, scene.assumptions)
    requires AreRows(pricer, lens, legs, scene, adjustments, rows)
    requires IsCurve(pricer, legs, scene, whole) && whole != []
    ensures RowsWorst(rows) <= Lowest(whole)
  {
    LowestIsLowest(whole);
    var p :| p in whole && p.terminal == Lowest(whole);
    PointShock(pricer, legs, scene, whole, p);
    RowsWorstBelow(pricer, lens, legs, scene, adjustments, rows, p.shock);
    GroupsPartitionTheBook(lens, Ids(rows), legs, scene.assumptions, p.shock);
  }

  // ---- The law needs the breakpoints: with a negative beta it fails ----

  function UnitOption(symbol: string, right: Right, strike: real): RiskLeg {
    RiskLeg("USD", symbol, "DU1", Opt(right, strike, "20270115", 30.0), 1.0, 0.0, 1.0, None, None)
  }

  /** A straddle on a name of the given beta and a call on a plain one, both bending at a shock of -1/3. */
  function BentBook(beta: real): (legs: Book)
    ensures |legs| == 3
  {
    [UnitOption("A", Call, 1.0 - beta / 300.0), UnitOption("A", Put, 1.0 - beta / 300.0),
     UnitOption("B", Call, 1.0 - 1.0 / 300.0)]
  }

  function BentScene(beta: real): Scene {
    Scene(map["USD:A" := Assumption(1.0, 0.3, 0.0, Some(beta)), "USD:B" := Assumption(1.0, 0.3, 0.0, None)],
          10.0, 0.0, 0.0, [])
  }

  lemma BentGroups(beta: real)
    ensures Priced(BentBook(beta), BentScene(beta).assumptions)
    ensures OfGroup(Asset, BentBook(beta), "USD:A") == BentBook(beta)[..2]
    ensures OfGroup(Asset, BentBook(beta), "USD:B") == BentBook(beta)[2..]
  {
    var legs := BentBook(beta);
    assert UnderlyingKey(legs[0]) == UnderlyingKey(legs[1]) == "USD:A";
    assert UnderlyingKey(legs[2]) == "USD:B";
    assert legs[..2][..1] == legs[..1] && legs[..1][..0] == [];
    assert OfGroup(Asset, legs[..1], "USD:A") == legs[..1];
    assert OfGroup(Asset, legs[..1], "USD:B") == [];
    assert OfGroup(Asset, legs[..2], "USD:A") == legs[..2];
    assert OfGroup(Asset, legs[..2], "USD:B") == [];
    assert legs[..2] + [] == legs[..2];
  }

  lemma BentTotals(beta: real, s: real)
    requires Priced(BentBook(beta), BentScene(beta).assumptions)
    requires Priced(BentBook(beta)[..2], BentScene(beta).assumptions)
    requires Priced(BentBook(beta)[2..], BentScene(beta).assumptions)
    ensures
      var legs, a := BentBook(beta), BentScene(beta).assumptions;
      && Terminal(legs[..2], a, s) == Abs((s + 1.0 / 3.0) * beta / 100.0)
      && Terminal(legs[2..], a, s) == Positive((s + 1.0 / 3.0) / 100.0)
      && Terminal(legs, a, s) == Terminal(legs[..2], a, s) + Terminal(legs[2..], a, s)
  {
    var legs, a := BentBook(beta), BentScene(beta).assumptions;
    assert UnderlyingKey(legs[0]) == UnderlyingKey(legs[1]) == "USD:A";
    assert UnderlyingKey(legs[2]) == "USD:B";
    var x, k := 1.0 + s * beta / 100.0, 1.0 - beta / 300.0;
    assert x - k == (s + 1.0 / 3.0) * beta / 100.0;
    assert OwnSpot(a["USD:A"], s) == x;
    assert SettlePnl(legs[0], x) == Positive(x - k);
    assert SettlePnl(legs[1], x) == Positive(k - x);
    assert OwnSpot(a["USD:B"], s) == 1.0 + s / 100.0;
    assert legs[..2][..1] == legs[..1] && legs[..1][..0] == [];
    assert Terminal(legs[..1], a, s) == Positive(x - k);
    assert Terminal(legs[..2], a, s) == Positive(x - k) + Positive(k - x);
    assert legs[2..][..0] == [];
  }

  lemma NoGridShockAtThird(s: real)
    requires IsGridShock(10.0, s)
    ensures s != -1.0 / 3.0
  {
    var i :| 0 <= i <= 80 && s == GridShock(10.0, i);
    assert 12.0 * s == (3 * i - 120) as real;
    assert 3 * i - 120 != -4;
  }

  /** For every negative beta the law fails: there is a book whose rows, however they are built, together look
      strictly better than the whole. The source skips the breakpoints of such a name, so its own row misses a dip
      that another name's strike makes the whole-book curve sample. */
  lemma NegativeBetaCanHideRisk(pricer: Pricer, beta: real, adjustments: map<string, real>, rows: seq<LensRow>,
                                whole: seq<CurvePoint>)
    requires beta < 0.0
    requires Priced(BentBook(beta), BentScene(beta).assumptions)
    requires AreRows(pricer, Asset, BentBook(beta), BentScene(beta), adjustments, rows)
    requires IsCurve(pricer, BentBook(beta), BentScene(beta), whole) && whole != []
    ensures RowsWorst(rows) > Lowest(whole)
  {
    BentIds(beta);
    hide IsCurve, OfGroup, Lowest, BentBook, BentScene, GroupKey, IsRow;
    BentGroups(beta);
    WholeSeesDip(pricer, beta, whole);
    forall row | row in rows
      ensures row.worst - row.adjustment >= 0.0
      ensures row.id == "USD:A" ==> row.worst - row.adjustment > 0.0
    {
      BentRow(pricer, beta, adjustments, row);
    }
    var i :| 0 <= i < |rows| && Ids(rows)[i] == "USD:A";
    assert rows[i] in rows;
    RowsWorstPositive(rows, i);
  }

  lemma BentIds(beta: real)
    ensures forall leg :: leg in BentBook(beta) ==> GroupKey(Asset, leg) == "USD:A" || GroupKey(Asset, leg) == "USD:B"
    ensures exists leg :: leg in BentBook(beta) && GroupKey(Asset, leg) == "USD:A"
  {
    var legs := BentBook(beta);
    assert UnderlyingKey(legs[0]) == UnderlyingKey(legs[1]) == "USD:A";
    assert UnderlyingKey(legs[2]) == "USD:B";
    assert legs[0] in legs && GroupKey(Asset, legs[0]) == "USD:A";
  }

  lemma BentRow(pricer: Pricer, beta: real, adjustments: map<string, real>, row: LensRow)
    requires beta < 0.0 && Priced(BentBook(beta), BentScene(beta).assumptions)
    requires IsRow(pricer, Asset, BentBook(beta), BentScene(beta), adjustments, row)
    ensures row.worst - row.adjustment >= 0.0
    ensures row.id == "USD:A" ==> row.worst - row.adjustment > 0.0
  {
    BentIds(beta);
    hide IsCurve, OfGroup, Lowest, BentBook, BentScene, GroupKey, ShowsLevelsFrom;
    BentGroups(beta);
    OfGroupMembers(Asset, BentBook(beta), row.id);
    var points :| IsRowOf(pricer, Asset, BentBook(beta), BentScene(beta), adjustments, row, points);
    assert row.legs[0] in row.legs;
    if row.id == "USD:A" {
      RowMissesDip(pricer, beta, points);
    } else {
      OtherRowIsFlat(pricer, beta, points);
    }
  }

  lemma {:induction false} RowsWorstPositive(rows: seq<LensRow>, i: nat)
    requires i < |rows| && forall row :: row in rows ==> row.worst - row.adjustment >= 0.0
    requires rows[i].worst - rows[i].adjustment > 0.0
    ensures RowsWorst(rows) > 0.0
  {
    var rest, row := rows[..|rows| - 1], rows[|rows| - 1];
    assert row in rows;
    if i < |rest| {
      RowsWorstPositive(rest, i);
    } else {
      RowsWorstNotNegative(rest);
    }
  }

  lemma {:induction false} RowsWorstNotNegative(rows: seq<LensRow>)
    requires forall row :: row in rows ==> row.worst - row.adjustment >= 0.0
    ensures RowsWorst(rows) >= 0.0
  {
    if rows != [] {
      RowsWorstNotNegative(rows[..|rows| - 1]);
      assert rows[|rows| - 1] in rows;
    }
  }

  lemma WholeSeesDip(pricer: Pricer, beta: real, whole: seq<CurvePoint>)
    requires Priced(BentBook(beta), BentScene(beta).assumptions)
    requires Priced(BentBook(beta)[..2], BentScene(beta).assumptions)
    requires Priced(BentBook(beta)[2..], BentScene(beta).assumptions)
    requires IsCurve(pricer, BentBook(beta), BentScene(beta), whole) && whole != []
    ensures Lowest(whole) <= 0.0
  {
    var legs, scene, dip := BentBook(beta), BentScene(beta), -1.0 / 3.0;
    assert UnderlyingKey(legs[2]) == "USD:B";
    assert IsStrikeShock(legs[2], scene, dip);
    hide Terminal, IsStrikeShock;
    BentTotals(beta, dip);
    assert dip in Shocks(whole);
    var i :| 0 <= i < |whole| && Shocks(whole)[i] == dip;
    assert whole[i] in whole;
    LowestIsLowest(whole);
  }

  lemma RowMissesDip(pricer: Pricer, beta: real, points: seq<CurvePoint>)
    requires beta < 0.0
    requires Priced(BentBook(beta), BentScene(beta).assumptions)
    requires Priced(BentBook(beta)[..2], BentScene(beta).assumptions)
    requires Priced(BentBook(beta)[2..], BentScene(beta).assumptions)
    requires IsCurve(pricer, BentBook(beta)[..2], BentScene(beta), points) && points != []
    ensures Lowest(points) > 0.0
  {
    hide Terminal, BentBook, BentScene;
    LowestIsLowest(points);
    var p :| p in points && p.terminal == Lowest(points);
    PointShock(pricer, BentBook(beta)[..2], BentScene(beta), points, p);
    BentShockMissesDip(beta, p.shock);
    BentTotals(beta, p.shock);
    assert (p.shock + 1.0 / 3.0) * beta != 0.0;
  }

  lemma OtherRowIsFlat(pricer: Pricer, beta: real, points: seq<CurvePoint>)
    requires Priced(BentBook(beta), BentScene(beta).assumptions)
    requires Priced(BentBook(beta)[..2], BentScene(beta).assumptions)
    requires Priced(BentBook(beta)[2..], BentScene(beta).assumptions)
    requires IsCurve(pricer, BentBook(beta)[2..], BentScene(beta), points) && points != []
    ensures Lowest(points) >= 0.0
  {
    hide Terminal, BentBook, BentScene;
    LowestIsLowest(points);
    var p :| p in points && p.terminal == Lowest(points);
    PointShock(pricer, BentBook(beta)[2..], BentScene(beta), points, p);
    BentTotals(beta, p.shock);
  }

  lemma PointShock(pricer: Pricer, legs: Book, scene: Scene, points: seq<CurvePoint>, p: CurvePoint)
    requires Priced(legs, scene.assumptions) && IsCurve(pricer, legs, scene, points) && p in points
    ensures IsShock(legs, scene, p.shock) && IsPoint(pricer, legs, scene, p)
  {
    var i :| 0 <= i < |points| && points[i] == p;
    assert Shocks(points)[i] == p.shock;
  }

  lemma BentShockMissesDip(beta: real, s: real)
    requires beta < 0.0
    requires Priced(BentBook(beta)[..2], BentScene(beta).assumptions)
    requires IsShock(BentBook(beta)[..2], BentScene(beta), s)
    ensures s != -1.0 / 3.0
  {
    var legs := BentBook(beta)[..2];
    forall leg | leg in legs
      ensures !IsStrikeShock(leg, BentScene(beta), s)
    {
      assert UnderlyingKey(leg) == "USD:A";
    }
    if IsGridShock(10.0, s) {
      NoGridShockAtThird(s);
    }
  }
}
