# Verified models of the trading platform's cores

This project models five parts of the platform in Dafny and proves what each promises over all inputs,
all runs or all reachable states:

- **Backtesting** (`Backtest`, `BacktestFacts`, `BacktestLaws`, `CostLaws`, `DrawdownLaws`, `WalkForward`,
  `SelectionLaws`, `WalkForwardLaws`, `TailRisk`, `QuantileLaws`, on the calendar of `Timestamps`): the bar loop with its cost
  models, the drawdown, the walk-forward loop, and bootstrap value at risk.
- **Sessions** (`TokenStore`, `Security`, `TokenLaws`, `SessionProtocol`, `SessionLaws`): refresh-token rotation over an
  expiring key store, with per-token, per-family and per-user revocation.
- **Trading** (`Orders`, `RiskGate`, `RiskFacts`, `Connector`, `ConnectorFacts`, `TradingSystem`, `TradingLaws`,
  `SoloLaws`, `RefusalLaws`, `DealLaws`, `GateLaws`, `ThrottleLaws`): the order table and its status
  graph, the risk gate, the deduplicating broker connector, and the interleaving of submissions (under a lock) with
  cancellations (without it).
- **Rate limiting** (`RateLimiter`): one pruned, expiring sorted set per key against the whole attempt history.
- **Model registry and economic calendar** (`ModelRegistry`, `RegistryFacts`, `RegistryLaws`, `EconomicCalendar`,
  `CalendarFacts`, `CalendarLaws`, `CalendarOrder`).

`Sequences` holds sums, filters, and the stable sort they share.

Code that updates state step by step is a class or a loop here too. Each such method is proved equal to a
function of its inputs or of the old state, and the laws are proved about that function, over every sequence
of calls. The strategy, the score by which parameters are chosen, `log1p`, the fingerprint digest and all
random draws are arbitrary functions; clock readings, uuids and the answers of the broker terminal are
parameters. Floats are `real`. A ratio the original would report as infinite or not-a-number is `Infinite` or
`Undefined`. The profit factor is `Undefined` when every losing trade has a pnl of zero: there the original divides by
zero, which raises for plain floats, and then it reports nothing at all.

## What turned out false, and exactly when the code meets it

- Costs move no trade exactly when they change no answer of the margin check (`SamePositionsIff`). Then they are
  accounted for exactly (`CostsAreExact`) and, for a positive size and non-negative prices and rates, never help
  (`CostsNeverHelp`). Otherwise the first answer such costs change is a refusal (`FirstDifferenceIsARefusal`). Over
  all strategies and series, settings let costs help exactly when the margin check is on, the capital is not
  negative and a round trip costs anything (`CostsCanHelpIff`).
- The out-of-sample windows of a run tile its span exactly when each starts where the one before it ends
  (`TilesIffAllMeet`), which the month lengths on the way decide (`AllMeetIff`). It holds for all window sizes
  exactly when the first bar falls on day 28 of its month or earlier (`WindowsMeetIffDayAtMost28`); the default
  sizes can test one day twice (`DefaultStepCanOverlap`).
- The reported drawdown is always one of the falls along the curve. It is the largest exactly when no negative
  point lies deeper below the lowest positive point before it (`MaxDrawdownIsQuadraticIff`). It bounds the loss
  of the run exactly when the run ends at or above zero, never rose above its capital, or at an earlier negative bar
  stood as low against its peak as the end stands against the capital (`TotalReturnAtLeastMinusDrawdownIff`).
  Both hold for every curve that never goes negative, and both fail on a run of two round trips (`RiseAndRuinBreaksBothBounds`).
- Rotation writes a revocation marker that lives as long as the used-marker. So the replay alarm, and with it
  family revocation, cannot happen unless somebody calls `revoke_token` (`ReplayAlarmNeedsSingleRevocation`,
  `ShortRevocationExposesTheReplay`).
- Global revocation is permanent exactly when both token lifetimes are at most 90 days. The configuration only
  asks them to be positive (`GlobalRevocationIsPermanentIff`).
- A rotation keeps the token's fingerprint exactly when it is given one or there was none to keep
  (`RotationKeepsBindingIff`).
- The limiter counts attempts exactly when no two of them in the window share a clock reading, because a member
  is named by its own time (`CountIsExactIff`).
- A rule table keeps approvals a given gap apart in every run exactly when no soft loss rule can be violated
  first and an enabled hard rule asks for at least the gap, or a negative loss limit lets nothing through
  (`ThrottlesIff`). A soft rule that is violated first approves with a warning, without looking at the rules after
  it and without recording the time, so two orders can be approved at one instant (`WarnedApprovalsCanCrowd`).
- An order the broker dealt is stored as filled exactly when no cancellation of it took effect while its row was
  validated or submitted (`DealtIsFilledIff`); otherwise it is stored as canceled. A cancellation takes no lock,
  so it can come between the deal and its record (`DealtCanEndCanceled`). It needs a connector whose
  `cancel_order` succeeds. That of `trading_service/src/connectors/mt5.py` reads the order id as an integer, which
  raises for the uuids that `trading_service/src/app.py` hands out; in the model such a cancellation just ends.
- A refused order keeps the reason it was refused for only until it is submitted again, because a rejected order
  may be rejected once more (`RefusalIsRecorded`, `ResubmissionOverwritesReason`).
- A repeated submission is reported as a success even if the first answer was a refusal with a broker id
  (`DuplicateRepeatsOutcomeIff`).
- A rollback leaves one model in production exactly when no version older than the two newest approved ones is
  there (`RollbackIsSafeIff`); six ordinary operations and a rollback lead to two (`RollbackCanLeaveTwoLive`).
- The set of calendar events is free of provider order exactly when no id has two different champions, a
  champion being an event that wins its own batch and is outranked in none (`ProviderOrderDoesNotMatterIff`). The
  sorted list is, exactly when, besides, no two champions of one time are offered in opposite orders by two
  batches (`ListOrderDoesNotMatterIff`). Two providers of equal priority are enough to break either
  (`TiesGoToTheFirst`, `EqualTimesFollowProviders`).

## Model

| member | source | states |
|---|---|---|
| `Backtest.Simulate` | backtest_service/src/engine/backtester.py:87-117 | the bar loop computes the curve and the trades of the state machine, for every strategy and every series |
| `Backtest.Run` | backtest_service/src/engine/backtester.py:84-168 | data are sorted by time first; the result reports capital, return, drawdown, profit factor and trade counts of that run |
| `Backtest.Peak` | backtest_service/src/engine/backtester.py:121 | the running peak is one of the points so far and none of them is larger |
| `BacktestFacts.SameAnswersSameRun` | backtest_service/src/engine/backtester.py:93 | two strategies that answer alike on every prefix of the data, given the parameters of the run, make the same run |
| `BacktestFacts.ParametersReachTheStrategy` | backtest_service/src/engine/backtester.py:93 | fixing the parameters of a run inside the strategy beforehand changes nothing |
| `BacktestFacts.AParameterDecides` | backtest_service/src/engine/backtester.py:93 | one strategy on the same two bars makes one trade with a parameter and none without it |
| `BacktestFacts.FeeGrowsWithSize` | backtest_service/src/engine/backtester.py:18-19 | the fee is proportional to the absolute size above the minimum, and never below it |
| `BacktestFacts.SlippageGrowsWithPriceAndVolatility` | backtest_service/src/engine/backtester.py:27-29 | slippage is proportional to price and rate and grows by the factor 1 + |volatility|, if asked to |
| `BacktestFacts.SlippageUsesTheBar` | backtest_service/src/engine/backtester.py:104-110 | what a bar costs scales with its own close and volatility |
| `BacktestFacts.MarginIsRateTimesAmount` | backtest_service/src/engine/backtester.py:36-38 | the margin asked for is the rate times the absolute amount traded |
| `BacktestFacts.SizeIsTheParameter` | backtest_service/src/engine/backtester.py:98 | the size is the parameter of that name, one lot without it |
| `BacktestFacts.ReportIsTrue` | backtest_service/src/engine/backtester.py:128-165 | final capital is the initial plus all pnl; winners are the trades with positive pnl and losers the rest; return and profit factor times their denominators |
| `BacktestFacts.DataAreInTimeOrder` | backtest_service/src/engine/backtester.py:86 | the bars run over are those given, in time order |
| `BacktestLaws.FillsAreOrdered` | backtest_service/src/engine/backtester.py:97-116 | every trade enters on a buy or sell signal and exits at the first close signal after it; trades never overlap |
| `BacktestLaws.OpenPositionIsFromItsBar` | backtest_service/src/engine/backtester.py:97-106 | an open position has the side, size, slipped price and time of the bar that opened it, and no close signal came since |
| `BacktestLaws.TradesAreFills` | backtest_service/src/engine/backtester.py:97-116 | each trade record follows from its two bars alone: slipped entry and exit, fee, and pnl net of the fee |
| `BacktestLaws.TwoBarsPerTrade` | backtest_service/src/engine/backtester.py:97-116 | two bars per closed trade and one for an open position never exceed the bars seen |
| `BacktestLaws.EquityIsConserved` | backtest_service/src/engine/backtester.py:92-117 | one curve point per bar, equal to the initial capital plus the pnl of the trades closed so far |
| `BacktestLaws.CurveStartsAtCapital` | backtest_service/src/engine/backtester.py:87-117 | the first curve point is the initial capital |
| `BacktestLaws.WinsAndLossesPartition` | backtest_service/src/engine/backtester.py:128-131 | wins and losses split the trades and sum to the total pnl |
| `BacktestLaws.ProfitFactorTellsTheOutcome` | backtest_service/src/engine/backtester.py:128-156 | a finite profit factor is above one exactly when the final capital exceeds the initial; the infinite and undefined cases; twice the trades never exceed the bars |
| `BacktestLaws.NoLookAhead` | backtest_service/src/engine/backtester.py:92-117 | running on the first k bars gives the first k points of the full curve and a prefix of its trades |
| `BacktestLaws.SamePositionsIff` | backtest_service/src/engine/backtester.py:97-106 | costs change no position at any bar exactly when both runs' margin checks answer alike at every flat bar that signals an opening |
| `BacktestLaws.CostsMoveNoTrade` | backtest_service/src/engine/backtester.py:92-117 | while the checks agree, costs change neither the bars at which positions open nor those at which they close |
| `BacktestLaws.CostsAreExact` | backtest_service/src/engine/backtester.py:18-29 | while the checks agree, at every bar the cost-free curve is ahead by the sum over closed trades of (entry slip + exit slip) * qty + fee |
| `BacktestLaws.CostGap` | backtest_service/src/engine/backtester.py:92-117 | in every run the cost-free curve is ahead by the costs paid plus the difference in gross profit of the trades |
| `BacktestLaws.CostsNeverHelp` | backtest_service/src/engine/backtester.py:92-117 | with positive size, non-negative prices and rates, the costed curve never exceeds the cost-free one while the checks agree |
| `BacktestLaws.CostsNeverHelpWithoutMargin` | backtest_service/src/engine/backtester.py:99-102 | without the margin check the trades are the same and costs never help |
| `BacktestLaws.FirstDifferenceIsARefusal` | backtest_service/src/engine/backtester.py:99-102 | the first time the checks differ, the costed run is refused an opening that the cost-free one is granted |
| `CostLaws.CostsCanHelpIff` | backtest_service/src/engine/backtester.py:18-38 | for given settings and size, some strategy and series of non-negative prices make costs help exactly when the margin check is on, the capital is not negative, and a round trip costs anything |
| `CostLaws.RoundTripStep` | backtest_service/src/engine/backtester.py:97-116 | a signal to open and a close signal on the next bar are refused, or pay out the gross profit less the cost |
| `BacktestLaws.MarginCheckCanMakeCostsHelp` | backtest_service/src/engine/backtester.py:99-102 | with the margin check a family of runs ends ahead because of its fee |
| `BacktestLaws.FeeBlocksALossHappens` | backtest_service/src/engine/backtester.py:99-102 | that family is not empty |
| `DrawdownLaws.MaxDrawdownIsQuadraticIff` | backtest_service/src/engine/backtester.py:121-122 | the drawdown is one of the falls (eq_i - eq_j) / eq_i with i <= j, and their maximum exactly when no negative point sinks deeper below the lowest positive point before it |
| `DrawdownLaws.MaxDrawdownIsQuadratic` | backtest_service/src/engine/backtester.py:121-122 | for non-negative equities starting positive, the running-peak drawdown is that maximum |
| `DrawdownLaws.DrawdownExceedsOneIffNegative` | backtest_service/src/engine/backtester.py:121-148 | the reported drawdown exceeds one exactly when some equity is negative |
| `DrawdownLaws.TotalReturnAtLeastMinusDrawdownIff` | backtest_service/src/engine/backtester.py:143-148 | total return is at least minus the maximum drawdown exactly when the run ends at or above zero, never rose above its capital, or at an earlier negative bar stood as low against its peak as the end against the capital |
| `DrawdownLaws.RiseAndRuinBreaksBothBounds` | backtest_service/src/engine/backtester.py:92-148 | a run of two round trips on which a fall and the loss both exceed the reported drawdown |
| `Timestamps.KeyIsInjective` | backtest_service/src/engine/backtester.py:173-176 | calendar times compare equal only when they are the same time |
| `Timestamps.LaterMonthIsLater` | backtest_service/src/engine/backtester.py:176-192 | a later month is a later time whatever the days, so cursor steps rise |
| `Timestamps.OffsetsCommuteUpToDay28` | backtest_service/src/engine/backtester.py:177-178 | up to day 28 month and year offsets commute and keep the day |
| `Timestamps.OrderIsLexicographic` | backtest_service/src/engine/backtester.py:176-180 | times are compared by year, month, day and time of day |
| `Timestamps.MonthsAreGregorian` | backtest_service/src/engine/backtester.py:178-192 | the lengths of the months other than February |
| `Timestamps.LeapDaysAreGregorian` | backtest_service/src/engine/backtester.py:177-192 | February has a 29th every fourth year, but in a century year only every fourth century |
| `WalkForward.BestTry` | backtest_service/src/engine/backtester.py:184-190 | the first of the highest in-sample scores, none exactly when no score clears the floor |
| `WalkForward.SelectParams` | backtest_service/src/engine/backtester.py:183-190 | the optimisation loop returns the parameters of that best try |
| `WalkForward.Walk` | backtest_service/src/engine/backtester.py:172-193 | terminates for every integer step; the results are those of the windows before the first that is too short or past the end |
| `WalkForward.RunWalkForward` | backtest_service/src/engine/backtester.py:170-193 | the same for data in any order |
| `WalkForward.NoMonthsNoOutSample` | backtest_service/src/engine/backtester.py:178-182 | a step of zero or fewer months leaves the out-of-sample window empty, so the length guard ends the loop |
| `SelectionLaws.SliceHolds` | backtest_service/src/engine/backtester.py:179-180 | a slice holds exactly the bars of its half-open span, as often as they occur |
| `SelectionLaws.SliceKeepsOrder` | backtest_service/src/engine/backtester.py:179-180 | a slice of bars in time order is in time order |
| `SelectionLaws.ContinuesIff` | backtest_service/src/engine/backtester.py:176-182 | a window counts exactly when it starts before the last bar and has fifty bars before its split and twenty after |
| `SelectionLaws.WindowRunsTheFirstBest` | backtest_service/src/engine/backtester.py:183-191 | a window is run out of sample with the first of the tries that score highest on its in-sample bars, or with no parameters when no score exceeds -1e9 |
| `SelectionLaws.EveryResultIsTestedOutOfSample` | backtest_service/src/engine/backtester.py:183-191 | so is every result of a walk |
| `SelectionLaws.SameInSampleSameChoice` | backtest_service/src/engine/backtester.py:183-191 | two series with the same in-sample slice are tested with the same parameters, whatever follows |
| `WalkForwardLaws.MeetsIff` | backtest_service/src/engine/backtester.py:176-192 | for given years and step, the next out-of-sample window starts where this one ends exactly when the months passed through clamp the day alike |
| `WalkForwardLaws.AllMeetIff` | backtest_service/src/engine/backtester.py:176-192 | the same for all windows of a run, read off the start and the sizes alone |
| `WalkForwardLaws.TilesIffAllMeet` | backtest_service/src/engine/backtester.py:176-192 | every time between the first split and the last end is in exactly one out-of-sample window exactly when all windows meet |
| `WalkForwardLaws.WindowsMeetIffDayAtMost28` | backtest_service/src/engine/backtester.py:176-192 | two windows meet for every choice of years and positive step exactly when the day is at most 28 |
| `WalkForwardLaws.LateDayBreaksSomeStep` | backtest_service/src/engine/backtester.py:176-192 | after the 28th some step within 97 months, at the default three years, tears two windows apart |
| `WalkForwardLaws.DefaultStepCanOverlap` | backtest_service/src/engine/backtester.py:170-192 | from 31 August 2020 with the default sizes, 28 February 2024 lies in two out-of-sample windows |
| `WalkForwardLaws.OutSamplesTile` | backtest_service/src/engine/backtester.py:176-192 | from a start day up to 28 the out-of-sample windows tile their span, whatever the sizes |
| `WalkForwardLaws.OverlapClampsTo28` | backtest_service/src/engine/backtester.py:176-192 | two consecutive windows overlap only when the step clamps the cursor from after the 28th to day 28 |
| `WalkForwardLaws.OneOverlapAtMost` | backtest_service/src/engine/backtester.py:176-192 | at most one pair of consecutive windows of a run overlaps |
| `WalkForwardLaws.ResultsAreBoundedByData` | backtest_service/src/engine/backtester.py:176-193 | 20 * results never exceeds the number of bars, for any start day and any sizes |
| `WalkForwardLaws.SelectionNeverSeesTheFuture` | backtest_service/src/engine/backtester.py:177-191 | every in-sample bar comes before every out-of-sample bar of its window |
| `TailRisk.MonteCarlo` | backtest_service/src/engine/backtester.py:195-206 | one bootstrap sum per iteration; VaR and CVaR per level; fails exactly for a level outside [0, 1] or no outcome at all |
| `TailRisk.QuantileIsMonotone` | backtest_service/src/engine/backtester.py:204 | a larger level never gives a smaller linear-interpolation quantile |
| `TailRisk.QuantileLiesInRange` | backtest_service/src/engine/backtester.py:204 | a quantile has outcomes at or below it and at or above it |
| `TailRisk.TailIsNotEmpty` | backtest_service/src/engine/backtester.py:205 | the set CVaR averages is never empty |
| `TailRisk.CVaRAtMostVaR` | backtest_service/src/engine/backtester.py:204-205 | CVaR never exceeds VaR |
| `TailRisk.RiskFallsWithConfidence` | backtest_service/src/engine/backtester.py:204-205 | a higher confidence never gives a larger VaR or a larger CVaR |
| `TailRisk.BootstrapSumBounds` | backtest_service/src/engine/backtester.py:200-202 | every bootstrap sum lies between n * min(pnl) and n * max(pnl) |
| `QuantileLaws.QuantileIsLinearBetweenRanks` | backtest_service/src/engine/backtester.py:204 | between neighbouring ranks of the sorted outcomes the quantile runs straight from one to the other |
| `QuantileLaws.QuantileAtRank` | backtest_service/src/engine/backtester.py:204 | where the level times n - 1 is a whole number the quantile is the outcome of that rank |
| `QuantileLaws.VaRIsLinearBetweenRanks` | backtest_service/src/engine/backtester.py:204 | VaR at confidence c is the quantile at 1 - c |
| `QuantileLaws.VaROfThree` | backtest_service/src/engine/backtester.py:204 | of -200, 0 and 200 the 95% VaR is -180 |
| `QuantileLaws.CVaRIsTheTailMean` | backtest_service/src/engine/backtester.py:205 | CVaR times the number of outcomes at or below VaR is their sum |
| `QuantileLaws.SampleIsDrawn` | backtest_service/src/engine/backtester.py:201 | a sample is as long as the trade list and holds the trade drawn at each place |
| `Security.VerifyToken` | app/core/security.py:117-133 | accepts or refuses with the first failing check: signature and expiry, id, token marker, user marker, fingerprint |
| `Security.RevokeToken` | app/core/security.py:105-108 | sets the token's marker for the given time, at least one second |
| `Security.RevokeAllUserTokens` | app/core/security.py:111-113 | sets the user's marker to the current second, for ninety days |
| `Security.RotateRefreshToken` | app/core/security.py:136-160 | the new store and the answer of a rotation, in every branch |
| `Security.CreateTokenPair` | app/core/security.py:48-84 | both tokens carry the subject and fingerprint, only the refresh token carries the family |
| `TokenLaws.TokenAcceptedIff` | app/core/security.py:117-133 | a token of either type is accepted exactly when it is signed, unexpired, has an id, no standing revocation of its own or of its user since its issue, and matches a given fingerprint |
| `TokenLaws.RefusalNamesTheFirstFailure` | app/core/security.py:117-133 | a refusal names the first of these that fails |
| `TokenLaws.PairSays` | app/core/security.py:48-84 | subject, whole-second issue time, lifetimes in minutes and days, fingerprint and family of both tokens |
| `TokenLaws.RotationAnswers` | app/core/security.py:137-150 | which answer a rotation gives to a token that verifies, by type, used-marker and family marker |
| `TokenLaws.RotationHandsOn` | app/core/security.py:158-160 | subject, family and the given fingerprint go on to both new tokens, issued now |
| `TokenLaws.RotationMarkersStand` | app/core/security.py:143-156 | the markers of a rotation stand until the token expires, that of a replay for the lifetime of a refresh token |
| `TokenLaws.RevocationStands` | app/core/security.py:105-108 | over any run that does not write it again, a revocation stands for exactly the seconds asked for, one at least |
| `TokenLaws.RevokedTokenIsRefused` | app/core/security.py:105-123 | for that long the token, access or refresh, is refused |
| `SessionProtocol.RotationFacts` | app/core/security.py:136-160 | what a successful rotation has checked and all it writes: its used-marker lives at least until the token expires |
| `SessionProtocol.RefusalFacts` | app/core/security.py:137-150 | a refused rotation writes nothing but, on a replay, the family marker |
| `SessionProtocol.RotationIsFirstUse` | app/core/security.py:141-150 | a token that can rotate has never been rotated and its family has never been revoked |
| `SessionProtocol.StepKeepsInv` | app/core/security.py:80-160 | issuing, rotating, revoking one token, revoking a user and waiting keep: markers outlive what they block, families are chains |
| `SessionLaws.EachTokenRotatesAtMostOnce` | app/core/security.py:141-156 | in every reachable state no token has been rotated twice |
| `SessionLaws.RotatedIsRefusedForEver` | app/core/security.py:141-156 | once rotated, a token is refused after any further run, `revoke_token` with any time included |
| `SessionLaws.FamilyIsOneChain` | app/core/security.py:80-84 | each family has exactly one refresh token never rotated, the newest, and one subject |
| `SessionLaws.RotationKeepsBindingIff` | app/core/security.py:129-159 | the successor carries the fingerprint hash of its token exactly when a fingerprint is given or there was none |
| `SessionLaws.FamilyKeepsItsFingerprint` | app/core/security.py:129-159 | with non-empty fingerprints a family keeps the hash it was issued with |
| `SessionLaws.FamilyRevocationIsPermanent` | app/core/security.py:143-150 | once a replay revoked a family, no rotation in it succeeds and it gains no member |
| `SessionLaws.ReplayIsDetectedIffItVerifies` | app/core/security.py:137-147 | a rotated token raises the replay alarm exactly when it still verifies |
| `SessionLaws.ReplayAlarmNeedsSingleRevocation` | app/core/security.py:144-156 | in runs without `revoke_token` no family is ever revoked |
| `SessionLaws.ShortRevocationExposesTheReplay` | app/core/security.py:105-108 | one second of `revoke_token` and one second of waiting make the next replay revoke the family |
| `SessionLaws.GloballyRevokedIsRefusedForEver` | app/core/security.py:111-127 | with lifetimes of at most 90 days, no token issued up to a global revocation of its user is ever accepted or rotated again |
| `SessionLaws.LongLifetimeOutlivesTheMarker` | app/core/security.py:111-127 | with a longer lifetime a revoked user's token is accepted again after 90 days |
| `SessionLaws.GlobalRevocationIsPermanentIff` | app/core/config.py:86-91 | global revocation is permanent exactly when both configured lifetimes are at most 90 days |
| `Orders.Repository.SaveOrder` | trading_service/src/storage/postgres_repository.py:38-55 | inserts unless the client order id is known and returns the id of the row that has it; a taken primary key fails and changes nothing |
| `Orders.ExecutionEngine.UpdateOrderStatus` | trading_service/src/execution/engine.py:143-158 | writes the updated row, or fails for an unknown order or a forbidden transition and changes nothing |
| `Orders.EdgesGoUp` | trading_service/src/execution/engine.py:73-82 | every transition raises a rank of at most four, and exactly the terminal statuses have the top rank |
| `Orders.UpdateMovesAlongGraph` | trading_service/src/execution/engine.py:143-158 | an update moves rows along the graph or not at all, and keeps their quantities and ids |
| `Orders.SaveNeverOverwrites` | trading_service/src/storage/postgres_repository.py:43-45 | saving a stale copy of a stored order changes nothing |
| `Orders.OverwritingSaveBreaksSubmission` | trading_service/src/execution/engine.py:112-124 | with a store that overwrites, the stale save leaves the graph and the submission is refused; with the real one it goes on |
| `RiskGate.FirstViolation` | trading_service/src/risk/engine.py:83-105 | the first enabled rule that is violated, none exactly when no enabled rule is |
| `RiskGate.RiskEngine.PreTradeCheck` | trading_service/src/risk/engine.py:77-121 | the approval and the new state of the gate, in every branch |
| `RiskGate.RiskEngine.AddRule` | trading_service/src/risk/engine.py:67-68 | afterwards the rule stands for its type, every other type is as before, types stay distinct, and only a new type lengthens the table |
| `RiskGate.RiskEngine.RemoveRule` | trading_service/src/risk/engine.py:70-71 | no rule of the type remains; every other type is as before and in the same order |
| `RiskGate.TableIsDetermined` | trading_service/src/risk/engine.py:58-71 | a table is determined by its types in order and the rule of each |
| `RiskGate.GuardedApprovalIsSpaced` | trading_service/src/risk/engine.py:100-121 | with only hard rules and a minimum gap, an approval is spaced from the last and recorded |
| `RiskGate.CleanApprovalIsSpaced` | trading_service/src/risk/engine.py:100-121 | with a minimum gap in the table, soft rules or not, an approval without a warning is spaced from the last recorded one and recorded |
| `RiskGate.WarnedApprovalIsUnrecorded` | trading_service/src/risk/engine.py:105-118 | an approval carries a warning exactly when the first violated rule is soft; it records nothing, and every other approval is recorded |
| `RiskFacts.CurrencyDoesNotMatter` | trading_service/src/risk/engine.py:83-121 | scaling balance, equity and profit together changes no answer |
| `RiskFacts.DrawdownRule` | trading_service/src/risk/engine.py:88-93 | a funded account breaks it when down by more than the limit, 0.2 by default, times its balance |
| `RiskFacts.DailyLossRule` | trading_service/src/risk/engine.py:94-99 | a funded account breaks it when it lost more than the limit, 0.1 by default, times its balance |
| `RiskFacts.UnfundedAccount` | trading_service/src/risk/engine.py:91-97 | without a balance an account is neither down nor losing |
| `RiskFacts.GapRule` | trading_service/src/risk/engine.py:100-103 | the gap rule is broken until its seconds, one by default, have passed; rules of other types never are |
| `Connector.MT5Connector.ExecuteOrder` | trading_service/src/connectors/mt5.py:186-255 | the answer, the ids remembered afterwards, and whether the order was sent, in every branch |
| `Connector.SentIffTradable` | trading_service/src/connectors/mt5.py:186-222 | an order is sent exactly when its client id is new and symbol, volume, tick, price grid, stops, selection and margin all allow it |
| `ConnectorFacts.MarketOrdersTradeAtTheTouch` | trading_service/src/connectors/mt5.py:205-208 | a market order to buy is treated as one priced at the ask, one to sell as priced at the bid |
| `ConnectorFacts.PricedOrderIsSentIff` | trading_service/src/connectors/mt5.py:186-222 | a priced order is sent exactly when its own price, whatever the market, is within a billionth of the grid and clears its stops, and all else allows it |
| `ConnectorFacts.DistanceFromWhole` | trading_service/src/connectors/mt5.py:165-174 | the deviation tested is the distance from the nearest whole number |
| `ConnectorFacts.AnswerSays` | trading_service/src/connectors/mt5.py:238-255 | the answer to a sent order: order number or deal, success by return code, and what is remembered |
| `ConnectorFacts.UnsentOrders` | trading_service/src/connectors/mt5.py:187-222 | an order that is not sent is not remembered |
| `Connector.DuplicateRepeatsOutcomeIff` | trading_service/src/connectors/mt5.py:187-189 | a resubmission repeats the first outcome exactly when that was a success |
| `TradingLaws.StepMoves` | trading_service/src/execution/engine.py:97-158 | every step of every program leaves each stored order in place or moves it along one edge |
| `TradingLaws.HistoriesFollowTheGraph` | trading_service/src/execution/engine.py:97-158 | under every interleaving the statuses of a stored order form a path in the graph and its quantity stays |
| `TradingLaws.AtMostFourChanges` | trading_service/src/execution/engine.py:73-82 | a stored order changes status at most four times |
| `TradingLaws.TerminalForEver` | trading_service/src/execution/engine.py:73-82 | a terminal status never changes |
| `TradingLaws.StatusTellsTheStory` | trading_service/src/execution/engine.py:97-141 | filled means opened, closed and dealt by the broker for the quantity reported; rejected means there is a reason |
| `TradingLaws.FilledInFull` | trading_service/src/app.py:62-75 | when an order is stored with the quantity submitted, filled means filled_quantity = quantity |
| `SoloLaws.QuantityAlone` | trading_service/src/execution/engine.py:101-103 | alone, an order of no positive quantity is rejected for it and logs nothing |
| `SoloLaws.GateAlone` | trading_service/src/execution/engine.py:105-110 | alone, an order the gate refuses is rejected for the reason of the gate and makes no call |
| `SoloLaws.DuplicateAlone` | trading_service/src/execution/engine.py:112-129 | alone, an order under a known client id is left validated |
| `SoloLaws.RefusedAlone` | trading_service/src/execution/engine.py:112-119 | alone, an order the broker cannot trade or does not take is rejected with its error |
| `SoloLaws.TakenAlone` | trading_service/src/execution/engine.py:112-129 | alone, an order the broker takes is submitted, and filled in full with a deal, with the times of both |
| `SoloLaws.CancellationAlone` | trading_service/src/execution/engine.py:131-141 | alone, a cancellation cancels an open order the broker lets go, and otherwise changes no row |
| `DealLaws.DealtIsFilledOrCanceled` | trading_service/src/execution/engine.py:97-141 | once its submission has ended, an order the broker dealt is stored as filled or canceled, under every interleaving and resubmission |
| `DealLaws.DealtIsFilledIff` | trading_service/src/execution/engine.py:97-141 | once its submission has ended, a dealt order is filled exactly when no cancellation of it took effect while its row was validated or submitted |
| `DealLaws.DealtIsFilledWithoutCancellations` | trading_service/src/execution/engine.py:97-129 | it is filled when no cancellation task ever names it, whatever is done to other orders |
| `DealLaws.CancelOvertakesDeal` | trading_service/src/execution/engine.py:116-141 | every run that awaits the record of a deal can go on to leave the dealt order canceled |
| `DealLaws.DealtCanEndCanceled` | trading_service/src/execution/engine.py:97-141 | such a run exists from the start |
| `RefusalLaws.BrokerRefusalIsStored` | trading_service/src/execution/engine.py:116-119 | once its submission has ended, an order whose call was no success is rejected with the broker's error exactly when no cancellation of it ever took effect, and canceled otherwise |
| `RefusalLaws.GateRefusalIsStored` | trading_service/src/execution/engine.py:105-110 | an open order the gate refused is rejected for its reason exactly when no cancellation of it took effect since, and canceled otherwise |
| `RefusalLaws.QuantityIsRefused` | trading_service/src/execution/engine.py:99-103 | the same for an order of no positive quantity |
| `RefusalLaws.RefusalIsRecorded` | trading_service/src/execution/engine.py:101-119 | the same from any state in which a refusal is due; the reason stays unless the order is submitted again |
| `RefusalLaws.ResubmissionOverwritesReason` | trading_service/src/execution/engine.py:108-110 | a rejected order that is submitted again and refused by the gate is left with the new reason |
| `GateLaws.CallsFollowDistinctApprovals` | trading_service/src/execution/engine.py:105-116 | every broker call follows an approval of its own attempt, and no two calls share an attempt |
| `GateLaws.KilledNeverReachesBroker` | trading_service/src/risk/engine.py:77-79 | a submission checked while the kill switch is set never reaches the broker |
| `GateLaws.CleanApprovalsAreThrottled` | trading_service/src/risk/engine.py:100-121 | with a minimum gap s kept enabled, approvals without a warning are spaced by s and an interval of length L holds at most floor(L / s) + 1, whatever else is in the table |
| `GateLaws.ApprovalsAreThrottledUnlessWarned` | trading_service/src/risk/engine.py:100-121 | all approvals are, in every run in which none came with a warning |
| `GateLaws.ApprovalsAreThrottled` | trading_service/src/risk/engine.py:100-121 | where every enabled rule of an evaluated type is hard, an interval of length L holds at most floor(L / s) + 1 approvals |
| `ThrottleLaws.ThrottlesIff` | trading_service/src/risk/engine.py:83-121 | a rule table keeps approvals a given gap apart in every run that keeps it exactly when no soft loss rule can be violated first and an enabled hard rule asks for at least the gap, or a negative loss limit lets nothing through |
| `ThrottleLaws.HardGapThrottlesIff` | trading_service/src/risk/engine.py:83-121 | with a hard gap rule and no negative loss limit, exactly when every enabled drawdown and daily-loss rule is hard |
| `ThrottleLaws.WarningNeedsLossRule` | trading_service/src/risk/engine.py:88-118 | a table that ever warns, other than by a soft gap rule, can warn on its first check |
| `ThrottleLaws.TwoApprovalsRun` | trading_service/src/risk/engine.py:77-121 | a run from the start in which an account the gate approves twice is approved twice |
| `ThrottleLaws.WarnedApprovalsCanCrowd` | trading_service/src/risk/engine.py:83-118 | a run from the start with a hard one-second gap enabled throughout and two approvals at one instant |
| `GateLaws.PlacedOnce` | trading_service/src/connectors/mt5.py:186-246 | once a send under a client id returned a broker id, no later call under it sends, and each returns that id |
| `RateLimiter.WebSocketRateLimiter.CheckConnectionLimit` | api_gateway/src/middleware/rate_limit.py:17-26 | accepts exactly when the pruned and extended set is within the limit, and stores that set |
| `RateLimiter.WebSocketRateLimiter.CheckMessageRate` | api_gateway/src/middleware/rate_limit.py:28-37 | the same for messages |
| `RateLimiter.StoreIsWindowed` | api_gateway/src/middleware/rate_limit.py:28-37 | the stored set is the attempts of its last window over the whole history |
| `RateLimiter.CountIsRecent` | api_gateway/src/middleware/rate_limit.py:28-37 | the count is that of the distinct attempt times in (now - W, now]; expiry of the key never changes it |
| `RateLimiter.CountIsExactIff` | api_gateway/src/middleware/rate_limit.py:33-34 | attempts are counted exactly when no two in the window share an instant, otherwise too few |
| `RateLimiter.AcceptedWithinAWindow` | api_gateway/src/middleware/rate_limit.py:28-37 | for strictly increasing times, accepted attempts within one window length of each other never outnumber the limit |
| `RateLimiter.AcceptedInAnyHalfOpenWindow` | api_gateway/src/middleware/rate_limit.py:28-37 | every half-open window of length W holds at most the limit of accepted messages |
| `RateLimiter.RepeatAtSameInstantIsFree` | api_gateway/src/middleware/rate_limit.py:33-34 | repeating an attempt at the same instant changes neither the count nor the store |
| `RateLimiter.NonPositiveWindowForgets` | api_gateway/src/middleware/rate_limit.py:32-35 | with a non-positive window every attempt is the first |
| `ModelRegistry.Registry.Register` | ml_service/src/registry/manager.py:45-76 | appends a model in development with the next version of its name |
| `ModelRegistry.Registry.GetProductionModel` | ml_service/src/registry/manager.py:84-86 | the newest approved production model of the name |
| `ModelRegistry.Registry.PromoteToStaging` | ml_service/src/registry/manager.py:88-96 | false, changing nothing, exactly when the model is unknown or fails a gate; else staged and approved |
| `ModelRegistry.Registry.PromoteToProduction` | ml_service/src/registry/manager.py:98-111 | the same, archiving what was in production under the name |
| `ModelRegistry.Registry.RollbackModel` | ml_service/src/registry/manager.py:113-123 | swaps the two newest approved versions between production and archive; fails, changing nothing, with fewer than two |
| `ModelRegistry.Registry.RejectModel` | ml_service/src/registry/manager.py:125-132 | rejects the model with a reason, or fails for an unknown one |
| `RegistryLaws.OpKeepsInv` | ml_service/src/registry/manager.py:45-132 | every operation keeps versions counted per name, ids distinct, and status, stage and gates consistent |
| `RegistryFacts.GatesAreThresholds` | ml_service/src/registry/manager.py:160-186 | with all metrics given, a model can be promoted exactly when it clears the five thresholds |
| `RegistryFacts.MissingMetricRefuses` | ml_service/src/registry/manager.py:171-186 | without any one of the six metrics it cannot |
| `RegistryFacts.StagingRecords` | ml_service/src/registry/manager.py:92-96 | staging records stage, status, time and author, and touches no other model |
| `RegistryFacts.PromotionRecords` | ml_service/src/registry/manager.py:102-111 | promotion records deployment and approval and archives what was live under the name |
| `RegistryFacts.RollbackRecords` | ml_service/src/registry/manager.py:117-123 | a rollback changes two stages and one deployment time |
| `RegistryFacts.RejectionRecords` | ml_service/src/registry/manager.py:129-132 | a rejection records status, stage, time, author and reason |
| `RegistryFacts.RegistrationRecords` | ml_service/src/registry/manager.py:46-76 | a new model is in development, one version above those of its name |
| `RegistryLaws.RegistryHolds` | ml_service/src/registry/manager.py:45-132 | after any operations the versions of a name are exactly 1..n, status is approved iff the stage is staging, production or archived, and approved models pass all gates |
| `RegistryLaws.PromotionLeavesOneLive` | ml_service/src/registry/manager.py:98-111 | after a promotion exactly the promoted model of its name is in production |
| `RegistryLaws.RollbackIsSafeIff` | ml_service/src/registry/manager.py:113-123 | a rollback leaves at most one model of the name in production exactly when no older approved version is there |
| `RegistryLaws.RollbackCanLeaveTwoLive` | ml_service/src/registry/manager.py:45-123 | three registrations, three promotions and a rollback leave two models of a name in production |
| `RegistryLaws.OneLiveModelPerName` | ml_service/src/registry/manager.py:98-123 | with such rollbacks only, no operation sequence puts two models of a name in production |
| `RegistryLaws.ProductionModelIsTheLiveOne` | ml_service/src/registry/manager.py:84-86 | then the production model returned is the one in production, and none exactly when there is none |
| `RegistryLaws.CurrentAndPreviousDiffer` | ml_service/src/registry/manager.py:117-119 | rollback picks two different models, the two highest approved versions |
| `RegistryLaws.SecondRollbackChangesNoStage` | ml_service/src/registry/manager.py:113-123 | a second rollback in a row changes no stage and no status |
| `EconomicCalendar.MergeBatch` | news_service/src/calendar/engine.py:55-62 | one batch extends the merge of everything offered before it |
| `EconomicCalendar.FetchEvents` | news_service/src/calendar/engine.py:46-63 | filters, merges and sorts all batches, skipping failed ones |
| `EconomicCalendar.MergeHoldsWinners` | news_service/src/calendar/engine.py:60-62 | the merged dictionary holds one event per offered id: the earliest of those with the highest priority |
| `EconomicCalendar.WinsConcat` | news_service/src/calendar/engine.py:51-62 | who wins over two lists is decided by the winners of each and the priorities of the other |
| `CalendarFacts.HigherProviderWins` | news_service/src/calendar/engine.py:50-62 | Bloomberg outranks Reuters, Reuters Forex Factory, and these all others, whoever is asked first |
| `CalendarFacts.FetchedIsWanted` | news_service/src/calendar/engine.py:51-62 | what is fetched passes the filters and was offered; no wanted id of a provider that answered is lost |
| `CalendarLaws.FetchedIsTheMerge` | news_service/src/calendar/engine.py:46-63 | the result is sorted by time and has exactly one event per surviving id, the winner |
| `CalendarLaws.WinnerIsChampion` | news_service/src/calendar/engine.py:60-62 | in any order of batches, a fetched event wins its own batch and is outranked in none |
| `CalendarLaws.WinsIffChampion` | news_service/src/calendar/engine.py:60-62 | with one champion per id, the fetched events are the champions |
| `CalendarLaws.ProviderOrderDoesNotMatterIff` | news_service/src/calendar/engine.py:46-63 | every permutation of the provider batches fetches the same set exactly when no id has two different champions |
| `CalendarLaws.WithoutTiesOrderDoesNotMatter` | news_service/src/calendar/engine.py:46-63 | in particular when no two batches offer one id at equal priority |
| `CalendarOrder.TiesFollowFirstOffers` | news_service/src/calendar/engine.py:60-63 | fetched events of one time stand in the order in which their ids were first offered |
| `CalendarOrder.ListOrderDoesNotMatterIff` | news_service/src/calendar/engine.py:46-63 | every permutation fetches the same list exactly when, besides, no two champions of one time are offered in opposite orders by two batches |
| `CalendarLaws.TwoChampionsMakeOrderMatter` | news_service/src/calendar/engine.py:60-62 | of two champions of one id, the one whose batch is asked first can be made the only one fetched, either way |
| `CalendarLaws.TiesGoToTheFirst` | news_service/src/calendar/engine.py:60-62 | two providers that offer one id at equal priority fetch the event of whichever is asked first |
| `CalendarLaws.EqualTimesFollowProviders` | news_service/src/calendar/engine.py:60-63 | two providers that offer different events of one time fetch them in the order of asking |
| `CalendarLaws.FailureIsAbsence` | news_service/src/calendar/engine.py:52-54 | a failing provider acts like an absent one |

## Left out

- Backtest.Run: Sharpe, Sortino, Calmar, annualised and monthly figures and the averages over trades are left out,
  as library numerics. The score that selects parameters is an arbitrary function of the modelled result instead.
- Float rounding and not-a-number prices, volumes or pnl.
- A strategy that raises, parameter names that collide with the arguments of `run`, and tuples of equal
  timestamps under an unstable index sort (the model's sort is stable).
- Dates outside the range of the calendar library: years are unbounded here.
- The drawdown of a run whose initial capital is zero or negative is `Undefined`.
- TailRisk.MonteCarlo: the mean and standard deviation in the report are left out, and the draws are arbitrary.
- `stress_test`, drift detection, `monitor_positions`, and what the kill switch does besides being set (it calls
  an operation the execution engine does not define).
- Signing and decoding of tokens, password hashing and the issuer, audience and not-before claims: a token is
  either signed claims or forged. It is refused from the second of its expiry on, as section 4.1.4 of RFC 7519
  says; a decoder that still accepts during that second is not covered.
- Security.RevokeAllUserTokens: does not model the audit list, which no decision reads.
- Interleaving inside one public session call, and inside one status update of an order: each is one step.
- Clock skew: the clock never runs backwards, and the store's clock is the service's.
- `app/services/auth_service.py` is not part of this model.
- Orders.Repository.UpdateOrder: `PostgresRepository` does not define `update_order`, which the engine calls. The
  model takes it as a write of the full row, as in `tests/trading/test_execution_engine.py`. The save of that test's store
  overwrites, unlike the real one; `OverwritingSaveBreaksSubmission` shows the difference.
- The `Order` that `submit_order` returns: it is the caller's copy, which no status update touches. Laws are about
  the stored row.
- Order callbacks, conversions to and from dictionaries, order kinds, commission, swap and profit fields, retries
  and versions of rows.
- Rules other than drawdown, daily loss and minimum gap: the original never evaluates them either.
- Connecting, heartbeats and market data of the broker connector, the other request fields, and the text of
  terminal errors.
- The subscription limit, which only reads a set's size.
- ModelRegistry.Registry: models are values, so a caller that edits a returned model or its metrics in place is
  not captured; descriptive fields of a model are omitted.
- `predict_bias`, `calculate_impact`, live updates and storage of calendar events.
