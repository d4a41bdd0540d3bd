# Risk, history and supervision of the trading platform: a verified model

The platform shows and alerts on the risk of option books held at a broker, keeps a durable order and fill history, and
supervises the broker sessions. This project models the parts where a wrong step would be costly and hard to see, and
proves what they promise.

- **Expiry payoff.** `PiecewiseLinear` is the theory of sums of straight pieces; `Payoff`, `Curves`, `RiskLenses`,
  `PriceCurve`, `Breakevens` and `UpsideRisks` are the dashboard's engine, `WorstTerminal` the alerts' own one and
  `AlertedRisk` the bridge between the two. The results say that finitely many samples decide a whole range of real
  prices or shocks. Numbers are exact reals; the pricing formula before expiry is a parameter. `ImpliedVolatility`
  needs only that it rises with volatility.
  The price-chart results are about charts of one underlying with a positive or unset beta.
- **History.** `History` breaks the handling of one event into single writes, `DurableConsumer` runs the at-least-once
  consumer over them with a fault possible between any two, and `Reducers` relates the three places where the same
  events are folded: live hash, database and browser.
- **Alerts.** `GatewayAlerts` is the debounced, de-duplicated alert state of each gateway over runs with restarts.
- **Supervision.** `Supervisor` reconciles sessions with the wanted connections, `Lease` keeps two workers off one
  connection.
- **Small reports.** `Intraday`, `Summaries` and `HostConfig`.

Operations that update state in the program are methods of classes, or methods with loops, proved against functions;
what the program promises is proved about those functions. `Numbers`, `Sorting` and `Orders` hold shared definitions. Each
module's head names the files it models.

Some promises are not kept by the code as it stands. Splitting a book can hide risk when a beta is negative, because
strikes of such legs are not sampled (the editor accepts betas from -5 to 5): `RiskLenses.NegativeBetaCanHideRisk`
gives a book for every negative beta, `RiskLenses.SplittingNeverHidesRisk` covers all others. The shock shown beside a
price is only right for a positive beta: `PriceCurve.PriceAxis` gives the exact condition. The browser keeps a row too
many when an order is live under both its keys, and keeps finished orders of a reconciliation:
`Reducers.OrdersStayEqualExactly` and `Reducers.ReconciledEqualExactly` give the exact conditions. An alert that waited
out the grace period can name an older status than the latest one (`GatewayAlerts.SweptStatusIsStaleExactly`), an upside
warning can be a false alarm (`UpsideRisks.FalseAlarmsExactly`), and a price below the value at zero volatility is still
given a volatility (`ImpliedVolatility.UnreachablePriceGivesFloor`). A price chart can end just outside its range, where
a strike may go unsampled; it is exact, and its break-evens right, exactly when such strikes cancel out
(`PriceCurve.ChartExactly`, `Breakevens.BreakevensExactly`, with a failing book in `PriceCurve.ChartCanCutCorner`). The
alerts count some rows that the dashboard drops, and `AlertedRisk.TotalsDifferByDropped` says exactly what they add.

## Model

| member | source | states |
|---|---|---|
| Curves.BuildCurves | ibkr-platform/frontend/lib/payoff.ts:276-310 | one point per sampled shock in ascending order, each with the terminal and modelled totals and the account lines of all legs at that shock |
| Curves.SampleShocks | ibkr-platform/frontend/lib/payoff.ts:280-294 | the sampled shocks are exactly the grid of 81, zero, the levels above -100 and the in-range strikes of options whose beta is positive |
| Curves.SamplePoint | ibkr-platform/frontend/lib/payoff.ts:299-308 | one pass over the legs gives the terminal, modelled and per-account totals of that shock |
| Curves.GridIsEven | ibkr-platform/frontend/lib/payoff.ts:280-280 | the grid runs in 80 equal steps from minus the range, but not below -100, up to the range |
| Curves.StrikeShockHitsStrike | ibkr-platform/frontend/lib/payoff.ts:286-293 | an option brings a shock exactly when its beta is positive and the shock, inside the range, takes its own underlying to the strike |
| Payoff.SettleIsPiecewise | ibkr-platform/frontend/lib/payoff.ts:254-261 | settlement of a book is a sum of straight pieces that bend only at its strikes, at every price |
| Payoff.TerminalIsPiecewise | ibkr-platform/frontend/lib/payoff.ts:254-261 | with no negative beta, the terminal total as a function of the shock is a sum of pieces that bend only at the shocks of the strikes |
| Curves.StrikesAreSampled | ibkr-platform/frontend/lib/payoff.ts:286-294 | every in-range bend of the terminal total is one of the sampled shocks |
| Curves.CurveBoundsEveryShock | ibkr-platform/frontend/lib/payoff.ts:276-310 | between the ends of the range, the finite samples hold one point at or below and one at or above the terminal total of every real shock |
| Curves.AccountsSumToTerminal | ibkr-platform/frontend/lib/payoff.ts:301-307 | at every shock the account lines add up to the terminal total |
| Curves.AccountLineIsItsOwnBook | ibkr-platform/frontend/lib/payoff.ts:301-307 | each account line is the terminal total of that account's own legs, and exactly the accounts with legs have a line |
| Curves.LegShowsMark | ibkr-platform/frontend/lib/payoff.ts:242-264 | unshocked and at horizon zero a marked leg shows its broker mark plus exactly the value of moving the underlying from the anchor to the assumed price |
| Curves.UnmarkedLegIsFormula | ibkr-platform/frontend/lib/payoff.ts:254-263 | an unmarked leg shows the pricing formula at its own shocked price and the years left at the horizon, its intrinsic value from expiry on, or a share's shocked price |
| Curves.MarkFadesWithDays | ibkr-platform/frontend/lib/payoff.ts:242-264 | at every shock and horizon a marked option shows the share of its gap to the mark that the days left bear to all its days, none from expiry on, and a marked share the whole gap |
| Curves.CurveStartsAtMarks | ibkr-platform/frontend/lib/payoff.ts:242-264 | at shock 0 and horizon 0 the modelled total is the sum of the marks, when all legs are marked, anchored at the assumed spot and unexpired |
| Curves.EstimateEndsAtSettlement | ibkr-platform/frontend/lib/payoff.ts:248-263 | once the horizon reaches every expiry of an options-only book, the modelled total is the terminal one at every shock |
| RiskLenses.BuildRows | ibkr-platform/frontend/lib/risk-lenses.ts:147-189 | exactly one row per group of legs, and each row's worst, spark line, values at zero and level columns, present exactly where a sample is near, are those of that group's own curve plus its adjustment |
| RiskLenses.BuildRow | ibkr-platform/frontend/lib/risk-lenses.ts:154-187 | one group's row: lowest terminal value, spark line, value at zero and exactly the level columns with a sample near, each shifted by the adjustment |
| RiskLenses.LevelsHaveColumns | ibkr-platform/frontend/lib/risk-lenses.ts:160-166 | every level above -100 has a column, and it shows a sample within 1e-9 of it |
| RiskLenses.GroupLegs | ibkr-platform/frontend/lib/risk-lenses.ts:147-151 | the groups are the legs of each key in their original order, and the keys are distinct, complete and in the order of their first legs |
| RiskLenses.RowsHoldTheirField | ibkr-platform/frontend/lib/risk-lenses.ts:39-43 | in every set of rows a leg's row carries as id its account, its expiry or STK where it has none, or its currency and symbol, as the lens says, and the adjustment filed under that id |
| RiskLenses.RowsAreByField | ibkr-platform/frontend/lib/risk-lenses.ts:39-43 | two legs share a row exactly when they agree in that field, and every leg has a row |
| RiskLenses.GroupsPartitionTheBook | ibkr-platform/frontend/lib/risk-lenses.ts:147-151 | at every shock the groups' terminal totals add up to the whole book's |
| RiskLenses.RowWorstBoundsBookSamples | ibkr-platform/frontend/lib/risk-lenses.ts:154-183 | a row's worst, less its adjustment, bounds its legs at every shock that the whole book samples, strikes of other rows included |
| RiskLenses.SplittingNeverHidesRisk | ibkr-platform/frontend/lib/risk-lenses.ts:147-186 | with no negative beta, the rows' worst cases less adjustments add up to at most the worst case of the whole book |
| RiskLenses.NegativeBetaCanHideRisk | ibkr-platform/frontend/lib/payoff.ts:288-293 | for every negative beta there is a book on which the law fails whatever rows and curve are built: the rows' worst cases less adjustments add up to strictly more than the whole book's |
| PriceCurve.BuildPriceCurve | ibkr-platform/frontend/lib/payoff.ts:330-365 | no points without a positive spot; otherwise one point per sampled price in ascending order with its shock and totals |
| PriceCurve.SamplePrices | ibkr-platform/frontend/lib/payoff.ts:336-346 | the sampled prices are exactly the grid, the spot, and each in-range strike with its two neighbours a millionth away |
| PriceCurve.RangeInPercent | ibkr-platform/frontend/lib/payoff.ts:336-336 | the chart runs from the range in percent below spot, but not below 5 per cent of it, to the range above |
| PriceCurve.GridIsEven | ibkr-platform/frontend/lib/payoff.ts:338-338 | the grid runs from end to end in equal steps |
| PriceCurve.StrikesBringNeighbours | ibkr-platform/frontend/lib/payoff.ts:339-346 | spot is a sample, and so are each strike of the range and the prices a millionth of it to either side |
| PriceCurve.PriceAxis | ibkr-platform/frontend/lib/payoff.ts:348-354 | the shock beside a price leads back to that price exactly when the beta is positive or the price is the spot |
| PriceCurve.TerminalIsSettle | ibkr-platform/frontend/lib/payoff.ts:353-361 | with a positive beta a point's terminal value is the settlement of the book at that very price |
| PriceCurve.StrikesAreSampled | ibkr-platform/frontend/lib/payoff.ts:340-346 | for every book, every strike of the range is a sample |
| PriceCurve.StepInRangeIsExact | ibkr-platform/frontend/lib/payoff.ts:338-346 | for every book, between neighbouring samples of the range the drawn line is the settlement at every real price |
| PriceCurve.ChartExactly | ibkr-platform/frontend/lib/payoff.ts:330-365 | the drawn line is the settlement at every real price between the outermost samples exactly when, at each price in between that is not a sample, the options struck there cancel out |
| PriceCurve.StrikesInRangeHideNothing | ibkr-platform/frontend/lib/payoff.ts:340-346 | strikes all in range leave nothing to cancel |
| PriceCurve.ChartCanCutCorner | ibkr-platform/frontend/lib/payoff.ts:340-346 | a book whose chart is not exact, for any number of samples: two strikes less than a millionth apart at the lower edge of the range |
| PriceCurve.Stats | ibkr-platform/frontend/lib/payoff.ts:401-428 | net credit is minus the cost of the legs; the two extremes bound all sampled values and the extrapolated one, and are attained by them |
| PriceCurve.WorthlessBookKeepsCredit | ibkr-platform/frontend/lib/payoff.ts:405-405 | the net credit is the settlement wherever every option is out of the money and any shares are at zero |
| PriceCurve.ZeroExtrapolationError | ibkr-platform/frontend/lib/payoff.ts:408-411 | for every book, the value extrapolated to price zero is off by exactly quantity times multiplier times strike of the options struck at or below the first sample, plus a share of it for those struck before the second |
| PriceCurve.StatsBoundEveryPrice | ibkr-platform/frontend/lib/payoff.ts:401-428 | with every strike in range, maxLoss and maxProfit bound settlement plus offset at every real price from zero to the top sample, and the extrapolated value is the settlement at zero |
| Breakevens.FindBreakevens | ibkr-platform/frontend/lib/payoff.ts:367-378 | the result is exactly the set of rounded crossings and zeros of the steps, without repeats, ascending on a chart |
| Breakevens.RoundingIsToTheCent | ibkr-platform/frontend/lib/payoff.ts:377-377 | rounding moves a price by at most half a cent, up on a tie, to whole cents |
| Breakevens.ReportedInRangeIsZero | ibkr-platform/frontend/lib/payoff.ts:369-376 | for every book, what a step inside the range reports is a true zero of the continuous settlement in that step |
| Breakevens.BreakevensAreZeros | ibkr-platform/frontend/lib/payoff.ts:367-378 | where hidden strikes cancel out, every break-even of the whole chart is the cent rounding of a true zero inside the chart |
| Breakevens.EveryZeroIsReported | ibkr-platform/frontend/lib/payoff.ts:369-376 | every zero below the last sample is reported by its own step unless that step is flat at zero, and then the step's start is |
| Breakevens.SignChangeHasBreakeven | ibkr-platform/frontend/lib/payoff.ts:367-378 | for every book, between any two prices of the range of strictly opposite sign a true zero is reported and its rounding is a break-even |
| Breakevens.BreakevensExactly | ibkr-platform/frontend/lib/payoff.ts:367-378 | over all offsets, the scan of the whole chart reports only true zeros and one inside every change of sign exactly when the hidden strikes cancel out |
| UpsideRisks.FindUpsideRisks | ibkr-platform/frontend/lib/payoff.ts:312-326 | exactly the underlyings whose shares plus counted call exposure are negative, each once, in the order of their first legs |
| UpsideRisks.FlagsCountShorts | ibkr-platform/frontend/lib/payoff.ts:312-326 | in terms of the legs: flagged exactly when net shares plus net calls are short, calls counting in full where they have one expiry in all and only short expiries counting otherwise |
| UpsideRisks.FlagsAreSound | ibkr-platform/frontend/lib/payoff.ts:312-326 | an underlying not flagged has a capped loss over all prices from zero up, for any mix of expiries; with at most one call expiry it is flagged exactly when its loss is not capped |
| UpsideRisks.FalseAlarmsExactly | ibkr-platform/frontend/lib/payoff.ts:322-324 | a flag is a false alarm exactly when the shares plus the unfloored call exposure are not negative |
| ImpliedVolatility.Solve | ibkr-platform/frontend/lib/payoff.ts:139-151 | an answer exactly when the inputs are positive, the price is at least intrinsic and reachable at volatility 5; it is the midpoint of a bracket of width 5/2^60 that still holds the price |
| ImpliedVolatility.ValueIsFormula | ibkr-platform/frontend/lib/payoff.ts:130-136 | the value searched is the pricing formula at the quote's own terms, and the payoff at expiry |
| ImpliedVolatility.WidthIsFiveOverPow2 | ibkr-platform/frontend/lib/payoff.ts:143-149 | after n halvings the bracket is 5/2^n wide |
| ImpliedVolatility.AnswerSeparatesVolatilities | ibkr-platform/frontend/lib/payoff.ts:143-150 | for any pricing monotone in volatility, volatilities pricing strictly below (above) the target are below (above) the answer to within 5/2^61 |
| ImpliedVolatility.AnswerIsNearTheRoot | ibkr-platform/frontend/lib/payoff.ts:143-150 | where one volatility alone reproduces the price, the answer is within 5/2^61 of it |
| ImpliedVolatility.UnreachablePriceGivesFloor | ibkr-platform/frontend/lib/payoff.ts:143-150 | a price below the value at zero volatility is answered with 5/2^61, though no volatility reproduces it |
| ImpliedVolatility.UnreachablePricePasses | ibkr-platform/frontend/lib/payoff.ts:140-144 | the guards admit such a price exactly when it is positive and at least the undiscounted intrinsic value |
| ImpliedVolatility.DiscountedCallBelowFloor | ibkr-platform/frontend/lib/payoff.ts:139-151 | a discounted call at the money quoted at 1 and worth 4 without volatility is such a case |
| WorstTerminal.TerminalPnl | ibkr-platform/backend/app/alerts.py:48-68 | the loop adds what each row settles at, rows of zero quantity, other kinds or missing terms counting as nothing |
| WorstTerminal.SamplePrices | ibkr-platform/backend/app/alerts.py:79-88 | the sampled prices are exactly the 5 per cent grid of the spot, and each positive strike held with its two neighbours |
| WorstTerminal.WorstTerminalAt | ibkr-platform/backend/app/alerts.py:74-93 | none exactly without a positive spot; otherwise the lowest sampled value, at the sample nearest to spot, the lower price on a tie |
| WorstTerminal.WorstIsNearest | ibkr-platform/backend/app/alerts.py:91-92 | the answer is attained at a sample, no sample loses more, none that loses as much is nearer to spot, and of two as near it is the lower |
| WorstTerminal.MissingCountsAsZero | ibkr-platform/backend/app/alerts.py:51-57 | a missing quantity counts for nothing and a missing cost as zero |
| WorstTerminal.WorstIsTrueMinimum | ibkr-platform/backend/app/alerts.py:74-93 | the reported value bounds the terminal P&L at every real price between the lowest and the highest sample |
| WorstTerminal.WorstCoversUsualRange | ibkr-platform/backend/app/alerts.py:79-84 | in particular at every price from 5 to 295 per cent of spot |
| AlertedRisk.PrepareLegs | ibkr-platform/frontend/lib/payoff.ts:93-120 | the legs are those of the rows not dropped and the excluded rows the dropped ones with a position, both in row order |
| AlertedRisk.LegKeepsRow | ibkr-platform/frontend/lib/payoff.ts:114-117 | a leg carries its row's currency, name, account, expiry, strike, multiplier and right |
| AlertedRisk.MarksOfRow | ibkr-platform/frontend/lib/payoff.ts:111-113 | a leg is marked by the broker's own figure, else at its price, where a share is then worth what it settles at; shares are anchored at their price, options at their underlying's |
| AlertedRisk.TotalsDifferByDropped | ibkr-platform/backend/app/alerts.py:48-68 | for all stored rows and every price, the alerts' terminal P&L is the dashboard's settlement plus exactly what the dropped rows are worth to the alerts |
| AlertedRisk.DroppedCounts | ibkr-platform/backend/app/alerts.py:48-68 | a dropped row counts nothing in the alerts unless it is a share or priceable option dropped for its currency, name, cost, sign of strike or multiplier, or expiry |
| AlertedRisk.AlertOnlyMatters | ibkr-platform/backend/app/alerts.py:52-67 | such a row, if a share or with a multiplier, does change the alerts' total at some price |
| AlertedRisk.AlertMatchesChart | ibkr-platform/backend/app/alerts.py:74-93 | without such rows an alert never reports less loss than the chart's lowest point in its span, and exactly that loss when its price lies in the chart's range |
| History.PlanInOrder | ibkr-platform/backend/app/db.py:93-134 | any two writes of one entry follow each other in one of the ways the next row covers |
| History.LaterWriteKeepsDone | ibkr-platform/backend/app/db.py:93-134 | a later write of an entry never undoes an earlier one: issuing the earlier one again still changes nothing |
| History.WritesStayDone | ibkr-platform/backend/app/db.py:76-134 | after k writes, issuing any of the first k again changes nothing |
| History.OrdersAfter | ibkr-platform/backend/app/db.py:93-107 | the order collection after any number of writes of an order update |
| History.ReplayPlan | ibkr-platform/backend/app/db.py:93-107 | what a replay decides to write over a partial handling: the same writes, less a deletion already made |
| History.ReplayResumes | ibkr-platform/backend/app/db.py:76-134 | replaying an entry over any partial handling of it only moves forward, and a finished replay is one finished handling |
| DurableConsumer.Mongo.Persist | ibkr-platform/backend/app/db.py:76-134 | performs the planned writes one at a time; with a fault after k writes the database is the partial application of exactly k |
| History.FillIsStored | ibkr-platform/backend/app/db.py:129-134 | a fill is stored once with its connection and details, each of its two figures is the one given last, and nothing else changes |
| History.FillHoldsLastFigures | ibkr-platform/backend/app/db.py:129-134 | after any run exactly the reported fills are stored, each with the last commission and last realised P&L that any of its reports gave |
| History.GatewayStateIsStored | ibkr-platform/backend/app/db.py:79-83 | a gateway state changes the last state of a known connection and nothing else |
| History.AccountIsStored | ibkr-platform/backend/app/db.py:84-92 | an account update records its connection and time, for known and new accounts, and nothing else |
| History.AlertIsStored | ibkr-platform/backend/app/db.py:119-128 | an alert is stored once under its event's id and nothing else changes |
| History.OrderEventIsLogged | ibkr-platform/backend/app/db.py:108-118 | an order update is logged once under its event's id and touches only the orders besides |
| History.OthersStoreNothing | ibkr-platform/backend/app/db.py:76-134 | reconciliations, positions and all other events leave the history as it was |
| DurableConsumer.Mongo.PersistOrder | ibkr-platform/backend/app/db.py:93-118 | the order branch: keeps the first-seen time, replaces, retires the provisional document, logs once |
| DurableConsumer.HandlingKeepsExactlyOnce | ibkr-platform/backend/app/worker.py:66-76 | handling the next entry again, to the end or to a fault, keeps the database one clean pass plus part of that entry |
| DurableConsumer.Consumer.Read | ibkr-platform/backend/app/worker.py:60-65 | reads the consumer's own unacknowledged entries, or the new ones, in order and up to exactly 100 |
| DurableConsumer.Consumer.HandleOne | ibkr-platform/backend/app/worker.py:67-76 | an entry is acknowledged only after all its writes; a fault leaves it unacknowledged |
| DurableConsumer.Consumer.Handle | ibkr-platform/backend/app/worker.py:66-76 | a batch without fault acknowledges all of it, a faulted one a prefix |
| DurableConsumer.Consumer.Step | ibkr-platform/backend/app/worker.py:58-81 | one round keeps all that, and a calm one acknowledges something, finds nothing of its own left, or finds nothing left at all |
| DurableConsumer.Consumer.Run | ibkr-platform/backend/app/worker.py:57-81 | over any rounds of arrivals, lost replies, faults and restarts the acknowledged entries are a prefix, the database is one clean pass over them plus part of the next, and exactly one clean pass once all are acknowledged, which one calm round more than entries left brings about |
| Reducers.Redis.Publish | ibkr-platform/backend/app/state.py:51-77 | live orders, positions and the stream change together: the hash of the account by the event, every other account untouched |
| Reducers.Redis.UpdateOrder | ibkr-platform/backend/app/state.py:63-71 | an order update retires the provisional key and then removes or sets the order's own |
| Reducers.Redis.ReconcileOrders | ibkr-platform/backend/app/state.py:51-56 | a reconciliation leaves exactly the working orders listed, later rows winning |
| Reducers.UpdateEndsFinished | ibkr-platform/backend/app/state.py:63-71 | after an update the hash holds the order as sent exactly when its status is none of Filled, Cancelled, ApiCancelled and Inactive; a permanent update ends the provisional entry; no other entry changes |
| Reducers.ReconciledHoldsWorking | ibkr-platform/backend/app/state.py:51-56 | a reconciliation leaves exactly the listed orders with none of those statuses |
| Reducers.SameEndings | ibkr-platform/frontend/lib/live.ts:97-101 | the browser ends an order on the same statuses as the server |
| Reducers.MirrorsStep | ibkr-platform/backend/app/state.py:63-71 | one update, of this or another account, keeps the live hash and the documents together |
| Reducers.LiveMirrorsHistory | ibkr-platform/backend/app/state.py:63-71 | after any sequence of individual events every account's live hash has exactly the keys of its documents that are not terminal, with the same data apart from the first-seen time |
| Reducers.CaughtUpHistoryMirrorsLive | ibkr-platform/backend/app/worker.py:49-81 | the same for the database the consumer really wrote, once it has acknowledged the whole stream, whatever faults it met |
| Reducers.OrdersPersisted | ibkr-platform/backend/app/db.py:93-107 | what one handled entry does to the order documents |
| Reducers.FirstSeenStep | ibkr-platform/backend/app/db.py:99-107 | a surviving document keeps its first-seen time; a retired one hands it to the permanent document unless that had its own; a permanent one is never retired |
| Reducers.FirstSeenNeverChanges | ibkr-platform/backend/app/db.py:95-107 | through any run a permanent document, and a provisional one while it lives, keeps its first-seen time |
| Reducers.Cache.ApplyEvent | ibkr-platform/frontend/lib/live.ts:80-135 | an event changes the loaded lists of its own account as specified, and no list of another or one not loaded; a refresh is asked for exactly by an order or position event of this account whose list was not loaded or changes its length |
| Reducers.Cache.ApplyOrder | ibkr-platform/frontend/lib/live.ts:97-135 | the first matching row is removed or replaced and a working order goes to the front; an unloaded list stays unloaded; a refresh is asked for exactly when the length changed or nothing was loaded |
| Reducers.Cache.ApplyPosition | ibkr-platform/frontend/lib/live.ts:97-135 | the matching row is removed, replaced in place or appended, with the same rule for the refresh |
| Reducers.Cache.ApplyReconciled | ibkr-platform/frontend/lib/live.ts:105-106 | a loaded list becomes the list sent, unfiltered |
| Reducers.IdentityIsKey | ibkr-platform/frontend/lib/live.ts:89-96 | within one account the browser's identities tell orders apart exactly as the durable keys do |
| Reducers.PositionsStayEqual | ibkr-platform/frontend/lib/live.ts:107-127 | every position event keeps a loaded list, as a map with distinct keys, equal to the position hash |
| Reducers.OrdersStayEqualExactly | ibkr-platform/frontend/lib/live.ts:107-129 | an order update keeps a loaded list equal to the order hash exactly when the hash does not hold the order in both forms, nor a provisional row with a nonzero broker id |
| Reducers.ReconciledEqualExactly | ibkr-platform/frontend/lib/live.ts:105-106 | a reconciliation makes list and hash equal exactly when the list sent has distinct keys and only working orders |
| Reducers.PublishAndDeliver | ibkr-platform/frontend/lib/live.ts:80-135 | an event published to the live state and delivered to a browser keeps loaded positions equal to their hash always, and loaded orders unless the event finds the hash ambiguous |
| Reducers.CacheFollowsRedis | ibkr-platform/frontend/lib/live.ts:88-130 | lists that once equalled the live hashes equal them after every later entry of the published stream: positions over any run, orders over any run without an ambiguous event |
| Reducers.BothFormsReachable | ibkr-platform/backend/app/state.py:63-71 | a late provisional update after a permanent one leaves the order in both forms, and the next update parts browser and hash |
| GatewayAlerts.AlertDispatcher.GatewayChanged | ibkr-platform/backend/app/worker.py:353-411 | the gateway's whole new state and the alert sent, as specified; no other gateway changes; every kept property still holds |
| GatewayAlerts.AlertDispatcher.WentUp | ibkr-platform/backend/app/worker.py:372-387 | an up status drops what is held and delivers a recovery exactly when something else had been reported |
| GatewayAlerts.AlertDispatcher.RaiseNow | ibkr-platform/backend/app/worker.py:395-406 | an urgent status is remembered and delivered at once, and drops what is held |
| GatewayAlerts.AlertDispatcher.RememberGateway | ibkr-platform/backend/app/worker.py:442-445 | memory and the persisted mirror are set together |
| GatewayAlerts.AlertDispatcher.SweepPending | ibkr-platform/backend/app/worker.py:447-466 | every gateway with a held status past the grace period is reported unless its class was already reported; nothing else changes |
| GatewayAlerts.AlertDispatcher.SweepOne | ibkr-platform/backend/app/worker.py:450-466 | the sweep of one gateway |
| GatewayAlerts.AlertDispatcher.Restart | ibkr-platform/backend/app/alerts.py:26-46 | a restart forgets everything but the mirror and keeps every property |
| GatewayAlerts.HeldClass | ibkr-platform/backend/app/alerts.py:386-405 | a status held under some login phase has the same class without it, as the sweep recomputes it |
| GatewayAlerts.EveryStatusIsAnswered | ibkr-platform/backend/app/alerts.py:386-405 | after any run, status by status and login phase by login phase: which make an attention or down alert the last one at once, which are held or already reported, which end the outage, and that any other status changes nothing |
| GatewayAlerts.SweptNamesTheStatus | ibkr-platform/backend/app/worker.py:447-466 | after any run, an outage alone on a gateway last seen up is swept, once the grace period has passed, as degraded if it was degraded and as down if it dropped or is connecting |
| GatewayAlerts.NoAlertRepeats | ibkr-platform/backend/app/worker.py:353-466 | over any run with restarts no two consecutive alerts of a gateway have the same class, and the first is not a recovery, so a recovery always follows an outage alert |
| GatewayAlerts.DeliveredAlertsAreDue | ibkr-platform/backend/app/worker.py:372-466 | a swept alert waited out the grace period for a status that no up status or restart cleared meanwhile; a recovery reports the time since the first alert of its spell |
| GatewayAlerts.NoOutageIsLost | ibkr-platform/backend/app/worker.py:372-466 | between restarts a non-up status that nothing cleared is held or reported, and a sweep once the grace period has passed since the first such status, however often it was repeated, leaves the outage reported |
| GatewayAlerts.OutageHasFirst | ibkr-platform/backend/app/worker.py:408-411 | every outage that nothing cleared has a first status |
| GatewayAlerts.SweptStatusIsStaleExactly | ibkr-platform/backend/app/worker.py:389-411 | the alert delivered by a sweep names another class than the latest status exactly when that status found its own class reported, or found another class held |
| GatewayAlerts.SweptStatusCanBeStale | ibkr-platform/backend/app/worker.py:389-393 | for every grace period there is a run whose swept alert names an older class than the latest status seen |
| GatewayAlerts.SoundStep | ibkr-platform/backend/app/worker.py:353-466 | every step keeps the properties the theorems follow from |
| Supervisor.Supervisor.Reconcile | ibkr-platform/backend/app/worker.py:1815-1878 | every connection ends as specified; consumers and dispatchers are exactly those of the wanted tenants, the ones already there untouched and the others started now |
| Supervisor.Supervisor.Cull | ibkr-platform/backend/app/worker.py:1818-1841 | the first pass drops exactly the unwanted, outdated and finished sessions, and records a backoff for the finished |
| Supervisor.Supervisor.Fill | ibkr-platform/backend/app/worker.py:1843-1855 | the second pass starts exactly the wanted connections without a session that are out of backoff and can be built |
| Supervisor.Matched | ibkr-platform/backend/app/worker.py:1857-1878 | the tasks end as one per tenant, those of remaining tenants being the same tasks as before |
| Supervisor.SessionsAreWanted | ibkr-platform/backend/app/worker.py:1815-1855 | after a reconciliation sessions are wanted and match, unchanged ones are the same session, and a wanted connection without one is in backoff or cannot be built |
| Supervisor.SessionsAreBuiltForTheirConnection | ibkr-platform/backend/app/worker.py:1773-1784 | a session was built for its connection's own provider and settings; a wanted connection outside backoff gets one exactly if it is a gateway, or an aggregator account while that is configured; a changed gateway connection restarts in the same round |
| Supervisor.TenantsAreWanted | ibkr-platform/backend/app/worker.py:1857-1857 | a tenant has tasks exactly while one of its connections is wanted |
| Supervisor.NoEarlyRestart | ibkr-platform/backend/app/worker.py:1823-1850 | over any run no connection found finished is started again within 60 seconds of the finding |
| Lease.Session.Acquire | ibkr-platform/backend/app/worker.py:718-723 | sets the lease exactly when none is live, and touches no other connection |
| Lease.Session.Renew | ibkr-platform/backend/app/worker.py:31-31 | extends the lease exactly when it is live and carries this session's token |
| Lease.Session.Release | ibkr-platform/backend/app/worker.py:32-32 | deletes the lease exactly when it is live and carries this session's token |
| Lease.OthersAreUntouched | ibkr-platform/backend/app/worker.py:31-32 | no operation of a session changes a live lease that carries another token |
| Lease.RunsAreBacked | ibkr-platform/backend/app/worker.py:1607-1635 | in every reachable state a running session's token is on the lease, for 20 seconds from its last success |
| Lease.OneSessionAtATime | ibkr-platform/backend/app/worker.py:1607-1635 | for any number of workers with distinct tokens that renew within a lease of their last success or stop, no two sessions of one connection run at once, lost replies included |
| Lease.TakeoverExactly | ibkr-platform/backend/app/worker.py:710-723 | while a session runs another can take over exactly from the moment its last success is a lease old |
| Intraday.Combine | ibkr-platform/backend/app/main.py:1058-1085 | the loop computes the specified points, walking the stamps in ascending order |
| Intraday.LastIsKnown | ibkr-platform/backend/app/main.py:1064-1070 | after each stamp the carried values are the latest known values at or before it, of exactly the accounts that have one |
| Intraday.PointMeans | ibkr-platform/backend/app/main.py:1073-1085 | a stamp gives one right point or none, according to whether it is one to emit |
| Intraday.CombinedLine | ibkr-platform/backend/app/main.py:1058-1085 | points exactly at the stamps where every account present has a row and every reporting one a value by then; each is the sum over all reporting accounts of their latest values, with those not of this stamp counted as carried |
| Intraday.CombinedLineIsComplete | ibkr-platform/backend/app/main.py:1058-1085 | the same for the whole line and every stamp |
| Intraday.LineByRows | ibkr-platform/backend/app/main.py:1058-1085 | the same in terms of the rows alone: which stamps get a point, what it sums, how many accounts it counts and how many of them were carried |
| Summaries.CommissionSummary | ibkr-platform/backend/app/main.py:1105-1134 | the total is the sum of the rows and of each breakdown, every entry is the sum of its own rows, the entries come in key order and the fills in row order |
| Summaries.DayIsDate | ibkr-platform/backend/app/main.py:1112-1114 | fills are filed under the first ten characters of their time |
| Summaries.RealizedSummaryOf | ibkr-platform/backend/app/main.py:1191-1215 | the same for realised P&L by account; entries exist exactly for accounts with a nonzero row, rows of zero still count for commission and legs |
| Summaries.RealizedByGroup | ibkr-platform/frontend/lib/risk-lenses.ts:116-131 | for every lens and display the group adjustments are the sums of their legs and add up to the sum over all legs |
| Summaries.AdjustmentByDisplay | ibkr-platform/frontend/lib/risk-lenses.ts:93-108 | what a leg adds in each of the four displays |
| Summaries.CommissionShiftsClosed | ibkr-platform/frontend/lib/risk-lenses.ts:93-108 | not charging commissions raises a closed leg by its commission, whichever sign it was recorded with |
| Summaries.SpacesAreListed | ibkr-platform/frontend/lib/risk-lenses.ts:91-91 | the white space a contract's key leaves out, one by one |
| Summaries.KeyDropsOnlySpaces | ibkr-platform/frontend/lib/risk-lenses.ts:91-91 | a contract's key is its symbol without its white space |
| Summaries.GroupsAreByField | ibkr-platform/frontend/lib/risk-lenses.ts:110-114 | a realised leg's group is its account, its expiry or STK, or its currency and underlying with their stand-ins |
| Summaries.SameIdAsRow | ibkr-platform/frontend/lib/risk-lenses.ts:110-114 | a realised leg counts to the id under which its open leg has its row, for every lens |
| Summaries.HistoryRows | ibkr-platform/backend/app/main.py:867-872 | one close per account and date, in that order: the last statement row if there is any, else the last row |
| HostConfig.ApplySettings | ibkr-platform/backend/app/hostctl.py:15-18 | the loop applies the assignments in order |
| HostConfig.AssignedLines | ibkr-platform/backend/app/hostctl.py:10-13 | an assignment replaces the first line of its key and keeps all others, or appends one line and an empty one |
| HostConfig.OtherKeysReadAsBefore | ibkr-platform/backend/app/hostctl.py:10-13 | an assignment leaves what every other key reads as |
| HostConfig.EditReadsBack | ibkr-platform/backend/app/hostctl.py:10-18 | after an edit every key written reads as written and every other key as before |
| HostConfig.EditRoundTrip | ibkr-platform/backend/app/hostctl.py:10-29 | reading a setting after an edit gives the trimmed value written, none if blank, and for other keys what it gave before |
| HostConfig.EditTwiceIsOnce | ibkr-platform/backend/app/hostctl.py:15-18 | applying the same settings twice gives the same text as once |
| HostConfig.TrimMeans | ibkr-platform/backend/app/hostctl.py:28-29 | trimming keeps the stretch between the outer spaces and drops only spaces |
| HostConfig.SpacesAreListed | ibkr-platform/backend/app/hostctl.py:28-28 | the characters that trimming drops, one by one |
| HostConfig.WrittenValueReads | ibkr-platform/backend/app/hostctl.py:10-29 | a value of spaces alone reads as none, and one without outer spaces reads as written |

## Left out

- PriceCurve.Stats: `uncappedUpside`, `uncappedDownside` and `chanceOfProfit` are not modelled, being a step tolerance and a distribution, not exact statements; the break-evens it passes on are those of `Breakevens.FindBreakevens`.
- UpsideRisks.FlagsAreSound: takes shares to have multiplier 1, which is how the legs are prepared (`AlertedRisk.LegsArePlain`).
- Reducers.LiveMirrorsHistory: covers individual events; a reconciliation rewrites the live hash but is not written to the database, so after one the two need not agree.
- DurableConsumer.Consumer.Run: does not model entries that can never be handled (malformed events), trimming of the stream, or two processes sharing the consumer name.
- GatewayAlerts.NoAlertRepeats: takes deliveries and reads and writes of the mirror to succeed and the mirror not to expire.
- Supervisor.NoEarlyRestart: is about one life of the supervisor; its backoff table is not persisted.
- RiskLenses.BuildRows: rows carry no label, key, account and expiry lists, expiry bucket, reference price or net liquidation value, and their display order is not modelled.
- RiskLenses.BuildRow: the same parts of a row.
- Reducers.Redis.Publish: gateway states, account sets and states and the diagnostics stamps that the same transaction writes are not modelled.
- Reducers.Cache.ApplyOrder: the browser's executions list, its diagnostics and its gateway and account caches are not modelled.
- The content of the option pricing formula, floating-point and decimal rounding except the rounding to cents, NaN and infinities.
- AlertedRisk.PrepareLegs: expiry dates and time zones are not modelled, days to expiry are part of a row; the wording of the exclusions is left out.
- Text layout of keys: order keys, fingerprints and document ids are values, taken to be distinct when their parts are. A supervised connection is its tenant, its provider and its other fingerprint fields.
- Wording of alerts, choice of recipients, fills, risk-change and event-day alerts.
- `asyncio` scheduling: each modelled operation runs without another one on the same object between its steps, except the single writes of the history consumer.
- HTTP, sessions, the broker and market-data clients, accounts as a union over connections, closed-day carry of P&L, authentication and migration.
