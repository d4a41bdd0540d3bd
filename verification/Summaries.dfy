/** Commission and realised P&L summaries and their breakdowns (backend/app/main.py, commission_summary,
    realized_summary and history_rows; frontend/lib/risk-lenses.ts, realizedByGroup). */
module Summaries {
  import opened Numbers
  import opened Sorting
  import Payoff
  import RiskLenses

  // ---- Breakdowns of a total ----

  function Total<R>(rows: seq<R>, amount: R -> real): real {
    if rows == [] then 0.0 else Total(rows[..|rows| - 1], amount) + amount(rows[|rows| - 1])
  }

  /** What the rows with key `k` add up to. */
  function Bucket<R, K(==)>(rows: seq<R>, key: R -> K, amount: R -> real, k: K): real {
    if rows == [] then 0.0
    else
      var row := rows[|rows| - 1];
      Bucket(rows[..|rows| - 1], key, amount, k) + if key(row) == k then amount(row) else 0.0
  }

  /** Every entry is what its rows add up to, rows without an entry add up to nothing, and the entries together are
      the total. */
  ghost predicate IsBreakdown<R, K(!new)>(rows: seq<R>, key: R -> K, amount: R -> real, m: map<K, real>) {
    && SumMap(m) == Total(rows, amount)
    && (forall k :: k in m ==> m[k] == Bucket(rows, key, amount, k))
    && (forall k :: k !in m ==> Bucket(rows, key, amount, k) == 0.0)
  }

  lemma BreakdownStart<R, K(!new)>(key: R -> K, amount: R -> real)
    ensures IsBreakdown([], key, amount, map[])
  {
  }

  lemma BreakdownAdd<R, K(!new)>(rows: seq<R>, i: nat, key: R -> K, amount: R -> real, m: map<K, real>)
    requires i < |rows| && IsBreakdown(rows[..i], key, amount, m)
    ensures
      var k := key(rows[i]);
      IsBreakdown(rows[..i + 1], key, amount, m[k := (if k in m then m[k] else 0.0) + amount(rows[i])])
  {
    assert rows[..i + 1][..i] == rows[..i];
    SumMapAdd(m, key(rows[i]), amount(rows[i]));
  }

  lemma BreakdownSkip<R, K(!new)>(rows: seq<R>, i: nat, key: R -> K, amount: R -> real, m: map<K, real>)
    requires i < |rows| && IsBreakdown(rows[..i], key, amount, m) && amount(rows[i]) == 0.0
    ensures IsBreakdown(rows[..i + 1], key, amount, m)
  {
    assert rows[..i + 1][..i] == rows[..i];
  }

  /** The entries of a map in the order of their keys. */
  ghost predicate IsListing<K(!new), V(!new)>(list: seq<(K, V)>, m: map<K, V>, less: (K, K) -> bool) {
    && (forall i, j :: 0 <= i < j < |list| ==> less(list[i].0, list[j].0))
    && (forall i :: 0 <= i < |list| ==> list[i].0 in m && m[list[i].0] == list[i].1)
    && (forall k :: k in m ==> exists i :: 0 <= i < |list| && list[i].0 == k)
  }

  ghost predicate ListsBreakdown<R>(rows: seq<R>, key: R -> string, amount: R -> real, list: seq<(string, real)>) {
    exists m :: IsBreakdown(rows, key, amount, m) && IsListing(list, m, Less)
  }

  method Listing<K(!new), V(!new)>(m: map<K, V>, less: (K, K) -> bool) returns (list: seq<(K, V)>)
    requires IsOrder(less)
    ensures IsListing(list, m, less)
  {
    var keys := Sorted(m.Keys, less);
    list := [];
    for i := 0 to |keys|
      invariant |list| == i && forall k :: 0 <= k < i ==> list[k].0 == keys[k] && keys[k] in m && list[k].1 == m[keys[k]]
    {
      assert keys[i] in keys;
      list := list + [(keys[i], m[keys[i]])];
    }
    forall k | k in m
      ensures exists i :: 0 <= i < |list| && list[i].0 == k
    {
      assert k in keys;
      var i :| 0 <= i < |keys| && keys[i] == k;
      assert list[i].0 == k;
    }
  }

  // ---- Commissions ----

  datatype Fill = Fill(
    id: string, account: string, executedAt: string, commission: real, realized: real, expiry: Option<string>)

  function Day(fill: Fill): string {
    if |fill.executedAt| <= 10 then fill.executedAt else fill.executedAt[..10]
  }

  /** Fills are filed under the date part of their time: the first ten characters, or all of a shorter one. */
  lemma DayIsDate(fill: Fill)
    ensures Day(fill) <= fill.executedAt
    ensures |Day(fill)| == 10 || (|fill.executedAt| < 10 && Day(fill) == fill.executedAt)
  {
  }

  function Account(fill: Fill): string {
    fill.account
  }

  function Commission(fill: Fill): real {
    fill.commission
  }

  datatype FillLine = FillLine(id: string, account: string, amount: real, expiry: Option<string>)

  datatype Commissions = Commissions(
    total: real, count: nat, byDay: seq<(string, real)>, byAccount: seq<(string, real)>, fills: seq<FillLine>)

  method CommissionSummary(rows: seq<Fill>) returns (s: Commissions)
    ensures s.total == Total(rows, Commission) && s.count == |rows|
    ensures ListsBreakdown(rows, Day, Commission, s.byDay)
    ensures ListsBreakdown(rows, Account, Commission, s.byAccount)
    ensures |s.fills| == |rows| && forall i :: 0 <= i < |rows| ==>
      s.fills[i] == FillLine(rows[i].id, rows[i].account, rows[i].commission, rows[i].expiry)
  {
    hide IsBreakdown;
    var total := 0.0;
    var byDay: map<string, real>, byAccount: map<string, real> := map[], map[];
    var fills: seq<FillLine> := [];
    BreakdownStart(Day, Commission);
    BreakdownStart(Account, Commission);
    for i := 0 to |rows|
      invariant total == Total(rows[..i], Commission)
      invariant IsBreakdown(rows[..i], Day, Commission, byDay)
      invariant IsBreakdown(rows[..i], Account, Commission, byAccount)
      invariant |fills| == i && forall j :: 0 <= j < i ==>
        fills[j] == FillLine(rows[j].id, rows[j].account, rows[j].commission, rows[j].expiry)
    {
      assert rows[..i + 1][..i] == rows[..i];
      BreakdownAdd(rows, i, Day, Commission, byDay);
      BreakdownAdd(rows, i, Account, Commission, byAccount);
      var amount, day, account := rows[i].commission, Day(rows[i]), rows[i].account;
      total := total + amount;
      byDay := byDay[day := (if day in byDay then byDay[day] else 0.0) + amount];
      byAccount := byAccount[account := (if account in byAccount then byAccount[account] else 0.0) + amount];
      fills := fills + [FillLine(rows[i].id, account, amount, rows[i].expiry)];
    }
    assert rows[..|rows|] == rows;
    hide Total, Bucket;
    StringsAreOrdered();
    var days := Listing(byDay, Less);
    var accounts := Listing(byAccount, Less);
    s := Commissions(total, |rows|, days, accounts, fills);
  }

  // ---- Realised P&L ----

  function Realized(fill: Fill): real {
    fill.realized
  }

  function OneIfRealized(fill: Fill): real {
    if fill.realized != 0.0 then 1.0 else 0.0
  }

  datatype RealizedSummary = RealizedSummary(
    total: real, commission: real, count: nat, byAccount: seq<(string, real)>, legs: seq<Fill>)

  ghost predicate Realizes(rows: seq<Fill>, account: string) {
    exists i :: 0 <= i < |rows| && rows[i].account == account && rows[i].realized != 0.0
  }

  ghost predicate HasEntry(list: seq<(string, real)>, key: string) {
    exists i :: 0 <= i < |list| && list[i].0 == key
  }

  lemma RealizesStep(rows: seq<Fill>, i: nat)
    requires i < |rows|
    ensures forall a :: Realizes(rows[..i + 1], a) <==>
      Realizes(rows[..i], a) || (a == rows[i].account && rows[i].realized != 0.0)
  {
    var before, after := rows[..i], rows[..i + 1];
    assert after == before + [rows[i]];
    forall a | Realizes(before, a)
      ensures Realizes(after, a)
    {
      var j :| 0 <= j < |before| && before[j].account == a && before[j].realized != 0.0;
      assert after[j] == before[j];
    }
    assert after[i] == rows[i];
  }

  /** Rows that realise nothing are listed as legs but open no account entry; their commission still counts. */
  method RealizedSummaryOf(rows: seq<Fill>) returns (s: RealizedSummary)
    ensures s.total == Total(rows, Realized) && s.commission == Total(rows, Commission)
    ensures s.count as real == Total(rows, OneIfRealized)
    ensures ListsBreakdown(rows, Account, Realized, s.byAccount)
    ensures forall a :: HasEntry(s.byAccount, a) <==> Realizes(rows, a)
    ensures s.legs == rows
  {
    hide IsBreakdown;
    var total, commission, count := 0.0, 0.0, 0;
    var byAccount: map<string, real> := map[];
    var legs: seq<Fill> := [];
    BreakdownStart(Account, Realized);
    for i := 0 to |rows|
      invariant total == Total(rows[..i], Realized) && commission == Total(rows[..i], Commission)
      invariant count as real == Total(rows[..i], OneIfRealized)
      invariant IsBreakdown(rows[..i], Account, Realized, byAccount)
      invariant forall a :: a in byAccount <==> Realizes(rows[..i], a)
      invariant legs == rows[..i]
    {
      assert rows[..i + 1][..i] == rows[..i];
      assert rows[..i + 1] == rows[..i] + [rows[i]];
      RealizesStep(rows, i);
      var amount, account := rows[i].realized, rows[i].account;
      commission := commission + rows[i].commission;
      legs := legs + [rows[i]];
      if amount == 0.0 {
        BreakdownSkip(rows, i, Account, Realized, byAccount);
        continue;
      }
      BreakdownAdd(rows, i, Account, Realized, byAccount);
      total := total + amount;
      count := count + 1;
      byAccount := byAccount[account := (if account in byAccount then byAccount[account] else 0.0) + amount];
    }
    assert rows[..|rows|] == rows;
    hide Total, Bucket, Realizes;
    StringsAreOrdered();
    var accounts := Listing(byAccount, Less);
    s := RealizedSummary(total, commission, count, accounts, legs);
  }

  // ---- Realised adjustments by lens ----

  datatype RealizedLeg = RealizedLeg(
    account: string, currency: Option<string>, underlying: Option<string>, symbol: Option<string>,
    expiry: Option<string>, realized: Option<real>, commission: Option<real>)

  /** How adjustments are shown: with closed legs, with commissions charged, and which contracts are still open. */
  datatype Display = Display(withClosed: bool, withCommissions: bool, stillOpen: string -> bool)

  function OrElse<T>(x: Option<T>, y: T): T {
    if x.Some? then x.value else y
  }

  /** What `\s` matches. */
  predicate IsSpace(c: char) {
    || '\t' <= c <= '\r' || c == ' ' || c == '\U{A0}' || c == '\U{1680}' || '\U{2000}' <= c <= '\U{200A}'
    || c == '\U{2028}' || c == '\U{2029}' || c == '\U{202F}' || c == '\U{205F}' || c == '\U{3000}' || c == '\U{FEFF}'
  }

  /** The same characters, one by one. */
  const Spaces: seq<char> := [
    '\U{9}', '\U{A}', '\U{B}', '\U{C}', '\U{D}', '\U{20}', '\U{A0}', '\U{1680}', '\U{2000}', '\U{2001}', '\U{2002}',
    '\U{2003}', '\U{2004}', '\U{2005}', '\U{2006}', '\U{2007}', '\U{2008}', '\U{2009}', '\U{200A}', '\U{2028}', '\U{2029}',
    '\U{202F}', '\U{205F}', '\U{3000}', '\U{FEFF}']

  lemma SpacesAreListed(c: char)
    ensures IsSpace(c) <==> c in Spaces
  {
  }

  function WithoutSpaces(s: string): string {
    if s == "" then "" else (if IsSpace(s[0]) then "" else [s[0]]) + WithoutSpaces(s[1..])
  }

  function CommissionAddBack(leg: RealizedLeg, d: Display): real {
    var realized := OrElse(leg.realized, 0.0);
    if d.withClosed || (realized == 0.0 && d.stillOpen(WithoutSpaces(OrElse(leg.symbol, ""))))
    then Abs(OrElse(leg.commission, 0.0)) else 0.0
  }

  function LegAdjustment(leg: RealizedLeg, d: Display): real {
    (if d.withClosed then OrElse(leg.realized, 0.0) else 0.0) +
    (if d.withCommissions then 0.0 else CommissionAddBack(leg, d))
  }

  function RealizedGroupKey(lens: RiskLenses.Lens, leg: RealizedLeg): string {
    match lens
    case Asset => OrElse(leg.currency, "Unknown") + ":" + OrElse(leg.underlying, OrElse(leg.symbol, ""))
    case Expiry => if leg.expiry.Some? && leg.expiry.value != "" then leg.expiry.value else "STK"
    case Account => leg.account
  }

  function KeyOf(lens: RiskLenses.Lens): RealizedLeg -> string {
    leg => RealizedGroupKey(lens, leg)
  }

  function AmountOf(d: Display): RealizedLeg -> real {
    leg => LegAdjustment(leg, d)
  }

  /** Whatever the lens and the display, the groups' adjustments are each what their legs add up to, and add up to
      the adjustments of all legs. */
  method RealizedByGroup(lens: RiskLenses.Lens, legs: seq<RealizedLeg>, d: Display)
    returns (groups: map<string, real>)
    ensures IsBreakdown(legs, KeyOf(lens), AmountOf(d), groups)
  {
    hide IsBreakdown;
    ghost var key, amount := KeyOf(lens), AmountOf(d);
    groups := map[];
    BreakdownStart(key, amount);
    for i := 0 to |legs|
      invariant IsBreakdown(legs[..i], key, amount, groups)
    {
      var adjustment := LegAdjustment(legs[i], d);
      if adjustment == 0.0 {
        BreakdownSkip(legs, i, key, amount, groups);
        continue;
      }
      BreakdownAdd(legs, i, key, amount, groups);
      var k := RealizedGroupKey(lens, legs[i]);
      groups := groups[k := (if k in groups then groups[k] else 0.0) + adjustment];
    }
    assert legs[..|legs|] == legs;
  }

  /** What a leg adds, by how it is shown: closed legs bring what they realised, and commissions not charged are
      added back, to open legs only while they have realised nothing and their contract is still held. */
  lemma AdjustmentByDisplay(leg: RealizedLeg, d: Display)
    ensures
      var realized, fee := OrElse(leg.realized, 0.0), OrElse(leg.commission, 0.0);
      var size := if fee < 0.0 then -fee else fee;
      LegAdjustment(leg, d) ==
        match (d.withClosed, d.withCommissions)
        case (true, true) => realized
        case (true, false) => realized + size
        case (false, true) => 0.0
        case (false, false) =>
          if realized == 0.0 && d.stillOpen(WithoutSpaces(OrElse(leg.symbol, ""))) then size else 0.0
  {
  }

  /** Charging commissions or not shifts a closed leg by its commission, whichever sign that was recorded with. */
  lemma CommissionShiftsClosed(leg: RealizedLeg, d: Display)
    requires d.withClosed && leg.commission.Some?
    ensures LegAdjustment(leg, d.(withCommissions := false)) - LegAdjustment(leg, d.(withCommissions := true)) ==
      if leg.commission.value < 0.0 then -leg.commission.value else leg.commission.value
  {
  }

  /** A contract's key is its symbol without the white space, all else in its order. */
  lemma {:induction false} KeyOfParts(s: string, t: string)
    ensures WithoutSpaces(s + t) == WithoutSpaces(s) + WithoutSpaces(t)
  {
    hide IsSpace;
    if s == "" {
      assert s + t == t;
    } else {
      KeyOfParts(s[1..], t);
      assert (s + t)[1..] == s[1..] + t;
    }
  }

  lemma {:induction false} KeyDropsOnlySpaces(s: string)
    ensures (forall i :: 0 <= i < |s| ==> !IsSpace(s[i])) ==> WithoutSpaces(s) == s
    ensures (forall i :: 0 <= i < |s| ==> IsSpace(s[i])) ==> WithoutSpaces(s) == ""
  {
    hide IsSpace;
    if s != "" {
      KeyDropsOnlySpaces(s[1..]);
      assert s == [s[0]] + s[1..];
      assert forall i :: 0 <= i < |s| - 1 ==> s[1..][i] == s[i + 1];
    }
  }

  /** Two legs count to the same group exactly when they agree in the field of the lens. */
  lemma GroupsAreByField(lens: RiskLenses.Lens, leg: RealizedLeg, other: RealizedLeg)
    ensures lens.Account? ==> (RealizedGroupKey(lens, leg) == RealizedGroupKey(lens, other) <==> leg.account == other.account)
    ensures lens.Expiry? && leg.expiry.Some? && leg.expiry.value != "" ==> RealizedGroupKey(lens, leg) == leg.expiry.value
    ensures lens.Expiry? && (leg.expiry.None? || leg.expiry.value == "") ==> RealizedGroupKey(lens, leg) == "STK"
    ensures lens.Asset? && leg.currency.Some? && leg.underlying.Some? ==>
      RealizedGroupKey(lens, leg) == leg.currency.value + ":" + leg.underlying.value
    ensures lens.Asset? && leg.currency.None? ==>
      RealizedGroupKey(lens, leg) == RealizedGroupKey(lens, leg.(currency := Some("Unknown")))
    ensures lens.Asset? && leg.underlying.None? ==>
      RealizedGroupKey(lens, leg) == RealizedGroupKey(lens, leg.(underlying := Some(OrElse(leg.symbol, ""))))
  {
  }

  /** A leg counts to a group here by the same id as its row has in the table of open legs. */
  lemma SameIdAsRow(lens: RiskLenses.Lens, leg: RealizedLeg, open: Payoff.RiskLeg)
    requires leg.account == open.account && leg.currency == Some(open.currency) && leg.underlying == Some(open.symbol)
    requires open.contract.Opt? ==> leg.expiry == Some(open.contract.expiry)
    requires open.contract.Stock? ==> leg.expiry.None?
    ensures RealizedGroupKey(lens, leg) == RiskLenses.GroupKey(lens, open)
  {
  }

  // ---- Daily closes ----

  /** One recorded close; rows come in the order they were taken. */
  datatype Close = Close(account: string, date: string, fromStatement: bool, details: string)

  function CloseKey(row: Close): (string, string) {
    (row.account, row.date)
  }

  /** Row `i` is the close to show for its account and date: the last one from a statement, or without any the last one. */
  ghost predicate IsChosen(rows: seq<Close>, i: nat)
    requires i < |rows|
  {
    forall j :: 0 <= j < |rows| && rows[j].account == rows[i].account && rows[j].date == rows[i].date && j != i ==>
      if rows[i].fromStatement then j < i || !rows[j].fromStatement else j < i && !rows[j].fromStatement
  }

  ghost predicate ShowsChosen(rows: seq<Close>, key: (string, string), row: Close) {
    exists i :: 0 <= i < |rows| && CloseKey(rows[i]) == key && rows[i] == row && IsChosen(rows, i)
  }

  ghost predicate IsShown(rows: seq<Close>, row: Close) {
    exists i :: 0 <= i < |rows| && rows[i] == row && IsChosen(rows, i)
  }

  ghost predicate HasClose(shown: seq<Close>, account: string, date: string) {
    exists j :: 0 <= j < |shown| && shown[j].account == account && shown[j].date == date
  }

  /** The closes to show, by account and then by date. */
  method HistoryRows(rows: seq<Close>) returns (shown: seq<Close>)
    ensures forall i, j :: 0 <= i < j < |shown| ==>
      Less(shown[i].account, shown[j].account)
        || (shown[i].account == shown[j].account && Less(shown[i].date, shown[j].date))
    ensures forall i :: 0 <= i < |shown| ==> IsShown(rows, shown[i])
    ensures forall i :: 0 <= i < |rows| ==> HasClose(shown, rows[i].account, rows[i].date)
  {
    var closes := ChooseCloses(rows);
    PairsAreOrdered();
    hide Less, IsChosen;
    var list := Listing(closes, LessPair);
    shown := [];
    for n := 0 to |list|
      invariant |shown| == n && forall k :: 0 <= k < n ==>
        shown[k] == list[k].1 && CloseKey(shown[k]) == list[k].0 && IsShown(rows, shown[k])
    {
      assert ShowsChosen(rows, list[n].0, list[n].1);
      shown := shown + [list[n].1];
    }
    forall i | 0 <= i < |rows|
      ensures HasClose(shown, rows[i].account, rows[i].date)
    {
      var j :| 0 <= j < |list| && list[j].0 == CloseKey(rows[i]);
      assert CloseKey(shown[j]) == CloseKey(rows[i]);
    }
  }

  method ChooseCloses(rows: seq<Close>) returns (closes: map<(string, string), Close>)
    ensures forall i :: 0 <= i < |rows| ==> CloseKey(rows[i]) in closes
    ensures forall key :: key in closes ==> ShowsChosen(rows, key, closes[key])
  {
    closes := map[];
    for n := 0 to |rows|
      invariant forall i :: 0 <= i < n ==> CloseKey(rows[i]) in closes
      invariant forall key :: key in closes ==> ShowsChosen(rows[..n], key, closes[key])
    {
      var key := CloseKey(rows[n]);
      ghost var before := closes;
      if rows[n].fromStatement || key !in closes || !closes[key].fromStatement {
        closes := closes[key := rows[n]];
      }
      forall k | k in closes
        ensures ShowsChosen(rows[..n + 1], k, closes[k])
      {
        ChosenStep(rows, n, k, before, closes[k]);
      }
    }
    assert rows[..|rows|] == rows;
  }

  lemma ChosenStep(rows: seq<Close>, n: nat, key: (string, string), closes: map<(string, string), Close>, row: Close)
    requires n < |rows|
    requires forall i :: 0 <= i < n ==> CloseKey(rows[i]) in closes
    requires key in closes ==> ShowsChosen(rows[..n], key, closes[key])
    requires key == CloseKey(rows[n]) || key in closes
    requires
      if key == CloseKey(rows[n]) && (rows[n].fromStatement || key !in closes || !closes[key].fromStatement)
      then row == rows[n] else row == closes[key]
    ensures ShowsChosen(rows[..n + 1], key, row)
  {
    var more := rows[..n + 1];
    if key in closes {
      var i :| 0 <= i < n && CloseKey(rows[..n][i]) == key && rows[..n][i] == closes[key] && IsChosen(rows[..n], i);
      assert forall j :: 0 <= j < n ==> more[j] == rows[..n][j];
      if row == closes[key] && !(key == CloseKey(rows[n]) && (rows[n].fromStatement || !closes[key].fromStatement)) {
        assert IsChosen(more, i);
      } else {
        assert more[n] == rows[n] && IsChosen(more, n);
      }
    } else {
      assert more[n] == rows[n] && IsChosen(more, n);
    }
  }
}
