/** The combined intraday P&L line over several accounts (backend/app/main.py, intraday). */
module Intraday {
  import opened Numbers

  datatype Row = Row(account: string, stamp: real, dayPnl: Option<real>)

  datatype Point = Point(stamp: real, accounts: nat, carried: nat, dayPnl: real)

  // ---- What the loop computes ----

  function GroupAt(rows: seq<Row>, stamp: real): seq<Row> {
    if rows == [] then []
    else
      var before, row := GroupAt(rows[..|rows| - 1], stamp), rows[|rows| - 1];
      if row.stamp == stamp then before + [row] else before
  }

  function Present(rows: seq<Row>): set<string> {
    set r | r in rows :: r.account
  }

  function Reporting(rows: seq<Row>): set<string> {
    set r | r in rows && r.dayPnl.Some? :: r.account
  }

  /** The latest values after one group of rows. */
  function LastAfter(last: map<string, real>, group: seq<Row>): map<string, real> {
    if group == [] then last
    else
      var before, row := LastAfter(last, group[..|group| - 1]), group[|group| - 1];
      if row.dayPnl.Some? then before[row.account := row.dayPnl.value] else before
  }

  function Carried(group: seq<Row>, reporting: set<string>): nat {
    if group == [] then 0
    else
      var row := group[|group| - 1];
      Carried(group[..|group| - 1], reporting) + if row.dayPnl.None? && row.account in reporting then 1 else 0
  }

  function Counted(group: seq<Row>, reporting: set<string>): seq<Row> {
    if group == [] then []
    else
      var before, row := Counted(group[..|group| - 1], reporting), group[|group| - 1];
      if row.account in reporting then before + [row] else before
  }

  function ValueOf(last: map<string, real>, account: string): real {
    if account in last then last[account] else 0.0
  }

  function TotalOf(last: map<string, real>, counted: seq<Row>): real {
    if counted == [] then 0.0
    else TotalOf(last, counted[..|counted| - 1]) + ValueOf(last, counted[|counted| - 1].account)
  }

  function PointsOf(rows: seq<Row>, group: seq<Row>, last: map<string, real>, stamp: real): seq<Point> {
    var counted := Counted(group, Reporting(rows));
    if |group| != |Present(rows)| || counted == [] || exists r :: r in counted && r.account !in last then []
    else [Point(stamp, |counted|, Carried(group, Reporting(rows)), TotalOf(last, counted))]
  }

  function LastUpTo(rows: seq<Row>, stamps: seq<real>): map<string, real> {
    if stamps == [] then map[]
    else LastAfter(LastUpTo(rows, stamps[..|stamps| - 1]), GroupAt(rows, stamps[|stamps| - 1]))
  }

  function PointsUpTo(rows: seq<Row>, stamps: seq<real>): seq<Point> {
    if stamps == [] then []
    else
      var stamp := stamps[|stamps| - 1];
      PointsUpTo(rows, stamps[..|stamps| - 1]) +
        PointsOf(rows, GroupAt(rows, stamp), LastUpTo(rows, stamps), stamp)
  }

  function Stamps(rows: seq<Row>): set<real> {
    set r | r in rows :: r.stamp
  }

  /** Walks the stamps in order, carrying each account's latest value forward. */
  method Combine(rows: seq<Row>) returns (combined: seq<Point>, ghost stamps: seq<real>)
    ensures Ascending(stamps) && forall t :: t in stamps <==> t in Stamps(rows)
    ensures combined == PointsUpTo(rows, stamps)
  {
    hide GroupAt, PointsOf, LastAfter, Carried, LastUpTo, PointsUpTo, Stamps;
    var at := GroupByStamp(rows);
    var order := SortedSamples(at.Keys);
    stamps := order;
    combined := [];
    var last: map<string, real> := map[];
    NoStamps(rows);
    for i := 0 to |order|
      invariant last == LastUpTo(rows, order[..i])
      invariant combined == PointsUpTo(rows, order[..i])
    {
      StampStep(rows, order, i);
      assert order[i] in order;
      var group, carried := at[order[i]], 0;
      last, carried := CarryForward(last, group, Reporting(rows));
      var points := PointFor(rows, group, last, order[i], carried);
      combined := combined + points;
    }
    assert order[..|order|] == order;
  }

  lemma NoStamps(rows: seq<Row>)
    ensures LastUpTo(rows, []) == map[] && PointsUpTo(rows, []) == []
  {
  }

  lemma StampStep(rows: seq<Row>, stamps: seq<real>, i: nat)
    requires i < |stamps|
    ensures LastUpTo(rows, stamps[..i + 1]) == LastAfter(LastUpTo(rows, stamps[..i]), GroupAt(rows, stamps[i]))
    ensures PointsUpTo(rows, stamps[..i + 1]) ==
      PointsUpTo(rows, stamps[..i]) +
        PointsOf(rows, GroupAt(rows, stamps[i]), LastUpTo(rows, stamps[..i + 1]), stamps[i])
  {
    assert stamps[..i + 1][..i] == stamps[..i];
  }

  method GroupByStamp(rows: seq<Row>) returns (at: map<real, seq<Row>>)
    ensures forall t :: t in at <==> t in Stamps(rows)
    ensures forall t :: t in at ==> at[t] == GroupAt(rows, t)
  {
    at := map[];
    for i := 0 to |rows|
      invariant forall t :: t in at <==> t in Stamps(rows[..i])
      invariant forall t :: t in at ==> at[t] == GroupAt(rows[..i], t)
    {
      GroupStep(rows, i);
      at := at[rows[i].stamp := (if rows[i].stamp in at then at[rows[i].stamp] else []) + [rows[i]]];
    }
    assert rows[..|rows|] == rows;
  }

  method CarryForward(before: map<string, real>, group: seq<Row>, reporting: set<string>)
    returns (last: map<string, real>, carried: nat)
    ensures last == LastAfter(before, group)
    ensures carried == Carried(group, reporting)
  {
    last, carried := before, 0;
    for j := 0 to |group|
      invariant last == LastAfter(before, group[..j])
      invariant carried == Carried(group[..j], reporting)
    {
      assert group[..j + 1][..j] == group[..j];
      if group[j].dayPnl.Some? {
        last := last[group[j].account := group[j].dayPnl.value];
      } else if group[j].account in reporting {
        carried := carried + 1;
      }
    }
    assert group[..|group|] == group;
  }

  method PointFor(rows: seq<Row>, group: seq<Row>, last: map<string, real>, stamp: real, carried: nat)
    returns (points: seq<Point>)
    requires carried == Carried(group, Reporting(rows))
    ensures points == PointsOf(rows, group, last, stamp)
  {
    var reporting := Reporting(rows);
    var counted: seq<Row> := [];
    for j := 0 to |group|
      invariant counted == Counted(group[..j], reporting)
    {
      assert group[..j + 1][..j] == group[..j];
      if group[j].account in reporting {
        counted := counted + [group[j]];
      }
    }
    assert group[..|group|] == group;
    if |group| != |Present(rows)| || counted == [] { return []; }
    var total := 0.0;
    for j := 0 to |counted|
      invariant total == TotalOf(last, counted[..j])
      invariant forall k :: 0 <= k < j ==> counted[k].account in last
    {
      assert counted[..j + 1][..j] == counted[..j];
      if counted[j].account !in last { return []; }
      total := total + last[counted[j].account];
    }
    assert counted[..|counted|] == counted;
    points := [Point(stamp, |counted|, carried, total)];
  }

  lemma GroupStep(rows: seq<Row>, i: nat)
    requires i < |rows|
    ensures Stamps(rows[..i + 1]) == Stamps(rows[..i]) + {rows[i].stamp}
    ensures forall t ::
      GroupAt(rows[..i + 1], t) == if t == rows[i].stamp then GroupAt(rows[..i], t) + [rows[i]] else GroupAt(rows[..i], t)
    ensures rows[i].stamp !in Stamps(rows[..i]) ==> GroupAt(rows[..i], rows[i].stamp) == []
  {
    assert rows[..i + 1] == rows[..i] + [rows[i]];
    assert rows[..i + 1][..i] == rows[..i];
    GroupHolds(rows[..i], rows[i].stamp);
    if GroupAt(rows[..i], rows[i].stamp) != [] {
      assert GroupAt(rows[..i], rows[i].stamp)[0] in rows[..i];
    }
  }

  lemma {:induction false} GroupHolds(rows: seq<Row>, stamp: real)
    ensures forall r :: r in GroupAt(rows, stamp) <==> r in rows && r.stamp == stamp
  {
    if rows != [] {
      GroupHolds(rows[..|rows| - 1], stamp);
      assert rows == rows[..|rows| - 1] + [rows[|rows| - 1]];
    }
  }

  // ---- What it means ----

  /** At most one row per account and stamp. */
  ghost predicate OneRowPerStamp(rows: seq<Row>) {
    forall i, j :: 0 <= i < j < |rows| ==> rows[i].account != rows[j].account || rows[i].stamp != rows[j].stamp
  }

  /** The account reports `value` at some stamp up to `stamp`, and nothing later than that up to `stamp`. */
  ghost predicate IsLatest(rows: seq<Row>, account: string, stamp: real, value: real) {
    exists r :: r in rows && r.account == account && r.dayPnl == Some(value) && r.stamp <= stamp
      && forall r' :: r' in rows && r'.account == account && r'.dayPnl.Some? ==> !(r.stamp < r'.stamp <= stamp)
  }

  /** The latest known values, as of a stamp, of exactly the accounts that reported one by then. */
  ghost predicate Knows(rows: seq<Row>, stamp: real, last: map<string, real>) {
    && (forall a :: a in last ==> IsLatest(rows, a, stamp, last[a]))
    && (forall r :: r in rows && r.dayPnl.Some? && r.stamp <= stamp ==> r.account in last)
  }

  /** The accounts with a value of their own at a stamp. */
  function Fresh(rows: seq<Row>, stamp: real): set<string> {
    set r | r in rows && r.stamp == stamp && r.dayPnl.Some? :: r.account
  }

  function At(rows: seq<Row>, stamp: real): set<string> {
    set r | r in rows && r.stamp == stamp :: r.account
  }

  ghost predicate DistinctAccounts(group: seq<Row>) {
    forall i, j :: 0 <= i < j < |group| ==> group[i].account != group[j].account
  }

  lemma {:induction false} GroupIsDistinct(rows: seq<Row>, stamp: real)
    requires OneRowPerStamp(rows)
    ensures DistinctAccounts(GroupAt(rows, stamp))
  {
    if rows != [] {
      var before, row := rows[..|rows| - 1], rows[|rows| - 1];
      GroupIsDistinct(before, stamp);
      GroupHolds(before, stamp);
      var group := GroupAt(before, stamp);
      forall i | 0 <= i < |group| && row.stamp == stamp
        ensures group[i].account != row.account
      {
        assert group[i] in before;
      }
    }
  }

  /** One group of distinct accounts renews exactly the accounts with a value in it. */
  lemma {:induction false} LastAfterHolds(last: map<string, real>, group: seq<Row>)
    requires DistinctAccounts(group)
    ensures forall r :: r in group && r.dayPnl.Some? ==>
      r.account in LastAfter(last, group) && LastAfter(last, group)[r.account] == r.dayPnl.value
    ensures forall a :: (forall r :: r in group && r.dayPnl.Some? ==> r.account != a) ==>
      (a in LastAfter(last, group) <==> a in last) && (a in last ==> LastAfter(last, group)[a] == last[a])
  {
    if group != [] {
      var before, row := group[..|group| - 1], group[|group| - 1];
      LastAfterHolds(last, before);
      forall r | r in before
        ensures r.account != row.account && r in group
      {
      }
    }
  }

  lemma KnowsStep(rows: seq<Row>, previous: Option<real>, stamp: real, last: map<string, real>)
    requires OneRowPerStamp(rows)
    requires previous.None? ==> last == map[] && forall r :: r in rows ==> r.stamp >= stamp
    requires previous.Some? ==> previous.value < stamp && Knows(rows, previous.value, last)
    requires previous.Some? ==> forall r :: r in rows ==> !(previous.value < r.stamp < stamp)
    ensures Knows(rows, stamp, LastAfter(last, GroupAt(rows, stamp)))
  {
    var group := GroupAt(rows, stamp);
    var after := LastAfter(last, group);
    GroupIsDistinct(rows, stamp);
    GroupHolds(rows, stamp);
    LastAfterHolds(last, group);
    forall a | a in after
      ensures IsLatest(rows, a, stamp, after[a])
    {
      if r :| r in group && r.account == a && r.dayPnl.Some? {
        assert r in rows && r.dayPnl == Some(after[a]);
      } else {
        assert IsLatest(rows, a, previous.value, last[a]);
        var r :| r in rows && r.account == a && r.dayPnl == Some(last[a]) && r.stamp <= previous.value
          && forall r' :: r' in rows && r'.account == a && r'.dayPnl.Some? ==> !(r.stamp < r'.stamp <= previous.value);
        assert forall r' :: r' in rows && r'.account == a && r'.dayPnl.Some? && r'.stamp == stamp ==> r' in group;
      }
    }
    forall r | r in rows && r.dayPnl.Some? && r.stamp <= stamp
      ensures r.account in after
    {
      if r.stamp == stamp {
        assert r in group;
      }
    }
  }

  ghost predicate InStampOrder(rows: seq<Row>, stamps: seq<real>) {
    Ascending(stamps) && forall t :: t in stamps <==> t in Stamps(rows)
  }

  /** After each stamp, the carried values are the latest known ones. */
  lemma {:induction false} LastIsKnown(rows: seq<Row>, stamps: seq<real>, i: nat)
    requires OneRowPerStamp(rows) && InStampOrder(rows, stamps) && i < |stamps|
    ensures Knows(rows, stamps[i], LastUpTo(rows, stamps[..i + 1]))
  {
    hide Knows, GroupAt;
    assert stamps[..i + 1][..i] == stamps[..i];
    if i > 0 {
      LastIsKnown(rows, stamps, i - 1);
    }
    forall r | r in rows
      ensures if i == 0 then r.stamp >= stamps[0] else !(stamps[i - 1] < r.stamp < stamps[i])
    {
      assert r.stamp in stamps;
      if i > 0 {
        Neighbours(stamps, i - 1, r.stamp);
      }
    }
    KnowsStep(rows, if i == 0 then None else Some(stamps[i - 1]), stamps[i], LastUpTo(rows, stamps[..i]));
  }

  /** Every account present has a row at the stamp, some account reports, and each that does has a value by then. */
  ghost predicate Emitted(rows: seq<Row>, stamp: real) {
    && At(rows, stamp) == Present(rows)
    && Reporting(rows) != {}
    && forall a :: a in Reporting(rows) ==> HasValue(rows, a, stamp)
  }

  ghost predicate HasValue(rows: seq<Row>, account: string, stamp: real) {
    exists r :: r in rows && r.account == account && r.dayPnl.Some? && r.stamp <= stamp
  }

  /** The sum over all reporting accounts of each one's latest value, with the accounts whose value is not of this
      stamp counted as carried. */
  ghost predicate IsPoint(rows: seq<Row>, p: Point) {
    && p.accounts == |Reporting(rows)|
    && p.carried == |Reporting(rows) - Fresh(rows, p.stamp)|
    && exists latest: map<string, real> :: latest.Keys == Reporting(rows)
        && (forall a :: a in latest ==> IsLatest(rows, a, p.stamp, latest[a]))
        && p.dayPnl == SumMap(latest)
  }

  function AccountsOf(group: seq<Row>): set<string> {
    set r | r in group :: r.account
  }

  lemma {:induction false} DistinctCount(group: seq<Row>)
    requires DistinctAccounts(group)
    ensures |AccountsOf(group)| == |group|
  {
    if group != [] {
      var before, row := group[..|group| - 1], group[|group| - 1];
      DistinctCount(before);
      assert group == before + [row];
      assert AccountsOf(group) == AccountsOf(before) + {row.account};
    }
  }

  lemma SameSize<T>(s: set<T>, t: set<T>)
    requires s <= t && |s| == |t|
    ensures s == t
  {
    assert |t - s| == |t| - |s|;
  }

  lemma {:induction false} CountedHolds(group: seq<Row>, reporting: set<string>)
    requires DistinctAccounts(group)
    ensures DistinctAccounts(Counted(group, reporting))
    ensures forall r :: r in Counted(group, reporting) <==> r in group && r.account in reporting
  {
    if group != [] {
      var before, row := group[..|group| - 1], group[|group| - 1];
      CountedHolds(before, reporting);
      assert group == before + [row];
      var counted := Counted(before, reporting);
      forall i | 0 <= i < |counted|
        ensures counted[i].account != row.account
      {
        assert counted[i] in before;
      }
    }
  }

  /** The reporting accounts whose row in the group has no value. */
  function Valueless(group: seq<Row>, reporting: set<string>): set<string> {
    set r | r in group && r.dayPnl.None? && r.account in reporting :: r.account
  }

  lemma ValuelessStep(before: seq<Row>, row: Row, reporting: set<string>)
    requires row.account !in AccountsOf(before)
    ensures |Valueless(before + [row], reporting)| ==
      |Valueless(before, reporting)| + if row.dayPnl.None? && row.account in reporting then 1 else 0
  {
    var was, now := Valueless(before, reporting), Valueless(before + [row], reporting);
    assert was <= AccountsOf(before);
    if row.dayPnl.None? && row.account in reporting {
      assert now == was + {row.account};
    } else {
      assert now == was;
    }
  }

  lemma {:induction false} CarriedHolds(group: seq<Row>, reporting: set<string>)
    requires DistinctAccounts(group)
    ensures Carried(group, reporting) == |Valueless(group, reporting)|
  {
    if group != [] {
      hide Valueless, DistinctAccounts, AccountsOf;
      var before, row := group[..|group| - 1], group[|group| - 1];
      assert group == before + [row];
      AccountsStep(before, row);
      CarriedHolds(before, reporting);
      ValuelessStep(before, row, reporting);
    }
  }

  function Values(last: map<string, real>, accounts: set<string>): map<string, real> {
    map a | a in accounts :: ValueOf(last, a)
  }

  lemma ValuesStep(last: map<string, real>, accounts: set<string>, account: string)
    requires account !in accounts
    ensures SumMap(Values(last, accounts + {account})) == ValueOf(last, account) + SumMap(Values(last, accounts))
  {
    SumMapRemove(Values(last, accounts + {account}), account);
    assert Values(last, accounts + {account}) - {account} == Values(last, accounts);
  }

  lemma AccountsStep(before: seq<Row>, row: Row)
    requires DistinctAccounts(before + [row])
    ensures DistinctAccounts(before)
    ensures AccountsOf(before + [row]) == AccountsOf(before) + {row.account} && row.account !in AccountsOf(before)
  {
    var all := before + [row];
    assert all[|before|] == row;
    forall i | 0 <= i < |before|
      ensures before[i].account != row.account
    {
      assert all[i] == before[i];
    }
    forall i, j | 0 <= i < j < |before|
      ensures before[i].account != before[j].account
    {
      assert all[i].account != all[j].account;
    }
  }

  lemma {:induction false} TotalIsSum(last: map<string, real>, counted: seq<Row>)
    requires DistinctAccounts(counted)
    ensures TotalOf(last, counted) == SumMap(Values(last, AccountsOf(counted)))
  {
    if counted == [] {
      assert Values(last, AccountsOf(counted)) == map[];
    } else {
      hide SumMap, Values, DistinctAccounts;
      var before, row := counted[..|counted| - 1], counted[|counted| - 1];
      assert counted == before + [row];
      AccountsStep(before, row);
      TotalIsSum(last, before);
      ValuesStep(last, AccountsOf(before), row.account);
    }
  }

  lemma KnownExactly(rows: seq<Row>, last: map<string, real>, stamp: real)
    requires Knows(rows, stamp, last)
    ensures forall a :: a in last <==> HasValue(rows, a, stamp)
  {
  }

  lemma OnlyRow(group: seq<Row>, r: Row, r': Row)
    requires DistinctAccounts(group) && r in group && r' in group && r.account == r'.account
    ensures r == r'
  {
  }

  /** What a stamp at which every account present has a row contributes. */
  lemma CompleteStamp(rows: seq<Row>, stamp: real)
    requires OneRowPerStamp(rows) && At(rows, stamp) == Present(rows)
    ensures
      var group, reporting := GroupAt(rows, stamp), Reporting(rows);
      var counted := Counted(group, reporting);
      && DistinctAccounts(counted) && AccountsOf(counted) == reporting && |counted| == |reporting|
      && Carried(group, reporting) == |reporting - Fresh(rows, stamp)|
  {
    var group, reporting := GroupAt(rows, stamp), Reporting(rows);
    var counted := Counted(group, reporting);
    GroupHolds(rows, stamp);
    GroupIsDistinct(rows, stamp);
    CountedHolds(group, reporting);
    DistinctCount(counted);
    CarriedHolds(group, reporting);
    forall a | a in reporting
      ensures a in AccountsOf(counted)
      ensures a in Fresh(rows, stamp) <==> a !in Valueless(group, reporting)
    {
      assert a in At(rows, stamp);
      var r :| r in rows && r.stamp == stamp && r.account == a;
      assert r in counted;
      forall r' | r' in group && r'.account == a
        ensures r' == r
      {
        OnlyRow(group, r, r');
      }
    }
    assert reporting - Fresh(rows, stamp) == Valueless(group, reporting);
  }

  lemma CompletePoint(rows: seq<Row>, last: map<string, real>, stamp: real)
    requires OneRowPerStamp(rows) && Knows(rows, stamp, last) && At(rows, stamp) == Present(rows)
    requires forall a :: a in Reporting(rows) ==> a in last
    ensures
      var group := GroupAt(rows, stamp);
      var counted := Counted(group, Reporting(rows));
      IsPoint(rows, Point(stamp, |counted|, Carried(group, Reporting(rows)), TotalOf(last, counted)))
  {
    hide GroupAt, Counted, Carried, TotalOf, SumMap, IsLatest, Fresh, At, Present, Reporting, OneRowPerStamp;
    CompleteStamp(rows, stamp);
    TotalIsSum(last, Counted(GroupAt(rows, stamp), Reporting(rows)));
    var latest := Values(last, Reporting(rows));
    assert forall a :: a in latest ==> IsLatest(rows, a, stamp, latest[a]);
  }

  /** At a stamp there is one point, and it is right, exactly when the stamp is one to emit. */
  lemma PointMeans(rows: seq<Row>, last: map<string, real>, stamp: real)
    requires OneRowPerStamp(rows) && Knows(rows, stamp, last)
    ensures
      var points := PointsOf(rows, GroupAt(rows, stamp), last, stamp);
      if Emitted(rows, stamp) then |points| == 1 && points[0].stamp == stamp && IsPoint(rows, points[0])
      else points == []
  {
    hide GroupAt, Counted, Carried, TotalOf, Knows, IsLatest, HasValue, IsPoint, OneRowPerStamp, Reporting;
    var group, reporting := GroupAt(rows, stamp), Reporting(rows);
    var counted := Counted(group, reporting);
    GroupHolds(rows, stamp);
    GroupIsDistinct(rows, stamp);
    DistinctCount(group);
    assert AccountsOf(group) == At(rows, stamp) <= Present(rows);
    if |group| == |Present(rows)| {
      SameSize(At(rows, stamp), Present(rows));
      CompleteStamp(rows, stamp);
      KnownExactly(rows, last, stamp);
      AllKnown(counted, last);
      if forall a :: a in reporting ==> a in last {
        CompletePoint(rows, last, stamp);
      }
    }
  }

  lemma AllKnown(counted: seq<Row>, last: map<string, real>)
    ensures (exists r :: r in counted && r.account !in last) <==> exists a :: a in AccountsOf(counted) && a !in last
    ensures counted == [] <==> AccountsOf(counted) == {}
  {
    if counted != [] {
      assert counted[0].account in AccountsOf(counted);
    }
    forall r | r in counted
      ensures r.account in AccountsOf(counted)
    {
    }
  }

  /** The points are exactly those of the stamps to emit among the given ones, in their order, and each is right. */
  ghost predicate IsLine(rows: seq<Row>, stamps: seq<real>, points: seq<Point>) {
    && (forall i :: 0 <= i < |points| ==>
          points[i].stamp in stamps && Emitted(rows, points[i].stamp) && IsPoint(rows, points[i]))
    && (forall i, j :: 0 <= i < j < |points| ==> points[i].stamp < points[j].stamp)
    && (forall t :: t in stamps && Emitted(rows, t) ==> Charted(points, t))
  }

  ghost predicate Charted(points: seq<Point>, stamp: real) {
    exists i :: 0 <= i < |points| && points[i].stamp == stamp
  }

  lemma LineStep(rows: seq<Row>, stamps: seq<real>, points: seq<Point>, stamp: real, added: seq<Point>)
    requires IsLine(rows, stamps, points)
    requires forall t :: t in stamps ==> t < stamp
    requires if Emitted(rows, stamp) then |added| == 1 && added[0].stamp == stamp && IsPoint(rows, added[0])
      else added == []
    ensures IsLine(rows, stamps + [stamp], points + added)
  {
    hide Emitted, IsPoint;
    var longer := points + added;
    forall t | t in stamps + [stamp] && Emitted(rows, t)
      ensures Charted(longer, t)
    {
      if t == stamp {
        assert longer[|points|] == added[0];
      } else {
        assert Charted(points, t);
        var i :| 0 <= i < |points| && points[i].stamp == t;
        assert longer[i] == points[i];
      }
    }
  }

  /** Over any rows with one per account and stamp: the emitted points are exactly those of the stamps at which every
      account present has a row and every reporting account has a value by then, in order of their stamps; each is
      the sum over all reporting accounts of the latest value of each, and says how many of them were carried. */
  lemma {:induction false} CombinedLine(rows: seq<Row>, stamps: seq<real>, n: nat)
    requires OneRowPerStamp(rows) && InStampOrder(rows, stamps) && n <= |stamps|
    ensures IsLine(rows, stamps[..n], PointsUpTo(rows, stamps[..n]))
  {
    hide Emitted, IsPoint, PointsOf, LastUpTo, GroupAt, OneRowPerStamp, Knows, Stamps, PointsUpTo;
    if n == 0 {
      NoStamps(rows);
      assert stamps[..0] == [];
    } else {
      CombinedLine(rows, stamps, n - 1);
      hide IsLine;
      LastIsKnown(rows, stamps, n - 1);
      PointMeans(rows, LastUpTo(rows, stamps[..n]), stamps[n - 1]);
      StampStep(rows, stamps, n - 1);
      assert stamps[..n] == stamps[..n - 1] + [stamps[n - 1]];
      LineStep(rows, stamps[..n - 1], PointsUpTo(rows, stamps[..n - 1]), stamps[n - 1],
        PointsOf(rows, GroupAt(rows, stamps[n - 1]), LastUpTo(rows, stamps[..n]), stamps[n - 1]));
    }
  }

  /** The whole line: a stamp has a point exactly when it is one to emit. */
  lemma CombinedLineIsComplete(rows: seq<Row>, stamps: seq<real>)
    requires OneRowPerStamp(rows) && InStampOrder(rows, stamps)
    ensures
      var points := PointsUpTo(rows, stamps);
      && (forall t :: Emitted(rows, t) <==> Charted(points, t))
      && (forall p :: p in points ==> IsPoint(rows, p))
  {
    hide IsPoint, PointsOf;
    CombinedLine(rows, stamps, |stamps|);
    assert stamps[..|stamps|] == stamps;
    forall t | Emitted(rows, t)
      ensures t in stamps
    {
      var a :| a in Reporting(rows);
      assert a in At(rows, t);
    }
  }

  // ---- The line in terms of the rows alone ----

  ghost predicate IsPresent(rows: seq<Row>, account: string) {
    exists r :: r in rows && r.account == account
  }

  ghost predicate HasRow(rows: seq<Row>, account: string, stamp: real) {
    exists r :: r in rows && r.account == account && r.stamp == stamp
  }

  ghost predicate Reports(rows: seq<Row>, account: string) {
    exists r :: r in rows && r.account == account && r.dayPnl.Some?
  }

  ghost predicate ReportsAt(rows: seq<Row>, account: string, stamp: real) {
    exists r :: r in rows && r.account == account && r.dayPnl.Some? && r.stamp == stamp
  }

  /** `latest` holds for each account that ever reports, and no other, its latest value as of the stamp. */
  ghost predicate AreLatest(rows: seq<Row>, stamp: real, latest: map<string, real>) {
    && (forall a :: a in latest <==> Reports(rows, a))
    && (forall a :: a in latest ==> IsLatest(rows, a, stamp, latest[a]))
  }

  ghost predicate SumsLatest(rows: seq<Row>, p: Point) {
    exists latest :: AreLatest(rows, p.stamp, latest) && p.accounts == |latest| && p.dayPnl == SumMap(latest)
      && p.carried == |set a | a in latest && !ReportsAt(rows, a, p.stamp)|
  }

  /** Every account present has a row at the stamp, some account ever reports, and each that does has by then. */
  ghost predicate EmittedByRows(rows: seq<Row>, t: real) {
    && (exists a :: Reports(rows, a))
    && (forall a :: IsPresent(rows, a) ==> HasRow(rows, a, t))
    && (forall a :: Reports(rows, a) ==> HasValue(rows, a, t))
  }

  /** A stamp has a point exactly when it is one to emit by the rows, and each point sums the latest values of all
      accounts that ever report and counts the ones that are not of this stamp. */
  lemma LineByRows(rows: seq<Row>, stamps: seq<real>)
    requires OneRowPerStamp(rows) && InStampOrder(rows, stamps)
    ensures forall t :: Charted(PointsUpTo(rows, stamps), t) <==> EmittedByRows(rows, t)
    ensures forall p :: p in PointsUpTo(rows, stamps) ==> SumsLatest(rows, p)
  {
    CombinedLineIsComplete(rows, stamps);
    hide PointsOf, GroupAt, LastUpTo, IsPoint, SumsLatest, Emitted, EmittedByRows, Charted, OneRowPerStamp;
    forall t
      ensures Emitted(rows, t) <==> EmittedByRows(rows, t)
    {
      EmittedIsByRows(rows, t);
    }
    var points := PointsUpTo(rows, stamps);
    forall p | p in points
      ensures SumsLatest(rows, p)
    {
      PointByRows(rows, p);
    }
  }

  lemma SetsByRows(rows: seq<Row>)
    ensures forall a :: a in Present(rows) <==> IsPresent(rows, a)
    ensures forall a :: a in Reporting(rows) <==> Reports(rows, a)
    ensures forall a, t :: a in At(rows, t) <==> HasRow(rows, a, t)
    ensures forall a, t :: a in Fresh(rows, t) <==> ReportsAt(rows, a, t)
  {
  }

  lemma EmittedIsByRows(rows: seq<Row>, t: real)
    ensures Emitted(rows, t) <==> EmittedByRows(rows, t)
  {
    SetsByRows(rows);
    hide IsPresent, Reports, HasRow, HasValue, Present, Reporting;
    assert At(rows, t) <= Present(rows) by {
      RowsArePresent(rows, t);
    }
    if a :| Reports(rows, a) {
      assert a in Reporting(rows);
    }
    if (forall a :: IsPresent(rows, a) ==> HasRow(rows, a, t)) {
      assert Present(rows) <= At(rows, t);
    }
    if Reporting(rows) != {} {
      var a :| a in Reporting(rows);
      assert Reports(rows, a);
    }
  }

  lemma RowsArePresent(rows: seq<Row>, t: real)
    ensures At(rows, t) <= Present(rows)
  {
  }

  lemma PointByRows(rows: seq<Row>, p: Point)
    requires IsPoint(rows, p)
    ensures SumsLatest(rows, p)
  {
    SetsByRows(rows);
    hide IsLatest, Reports, ReportsAt, Reporting, Fresh;
    var latest: map<string, real> :| latest.Keys == Reporting(rows)
      && (forall a :: a in latest ==> IsLatest(rows, a, p.stamp, latest[a])) && p.dayPnl == SumMap(latest);
    assert |latest| == |latest.Keys|;
    assert (set a | a in latest && !ReportsAt(rows, a, p.stamp)) == Reporting(rows) - Fresh(rows, p.stamp);
    assert AreLatest(rows, p.stamp, latest);
  }
}
