# FiboManualTradingPanel — order-parameter engine in Dafny

FiboManualTradingPanel is a cTrader robot that shows a small on-chart panel.
The trader picks Buy or Sell and types three Fibonacci levels: entry, stop
loss and take profit. The levels are measured on the previous bar's swing.
The panel turns them into a pending limit order. The levels become prices,
the stop-loss and take-profit distances become pips, and the size comes
from a fixed-ratio money-management search. The order expires after one bar
of the chart's timeframe.

This project models that engine and proves what it computes:

- `wrappers.dfy` (`Wrappers`): `Option`. It stands for C#'s `double?` and
  for a text box whose text does not parse.
- `fibo_levels.dfy` (`FiboLevels`) covers three pieces.
  - The ordering check `VerifyInput`.
  - The level-to-price map `FiboLevelToPrice`.
  - The direction-dependent reference prices (Buy: low to high; Sell:
    high to low) and pip distances.
- `position_sizer.dfy` (`PositionSizer`) holds the fixed-ratio sizer
  `GetFixedRatioLots`.
  - It is a method with the source's bounded loop.
  - It is proved equal to the declarative `FixedRatioLots`: 0 below the
    minimum balance, otherwise the least n in 1..10000 with
    `min + delta * n(n+1)/2 > balance`, and None (null) when there is no
    such n.
  - Sizes are integer hundredths of a lot.
- `time_frames.dfy` (`TimeFrameConverter`): `TimeFrame2Minutes`. It is proved
  against `NamedLength`, the bar length each timeframe's name states. The
  exception is `Monthly`, whose name states no count of days: `NamedLength`
  takes the code's 30 days.
- `trading_panel.dfy` (`TradingPanel`): the click handler `PlaceOrder`.
  - The host's reads are parameters: previous bar, pip size, balance, server
    time and timeframe.
  - It returns the order request, or the reason it stopped, instead of
    submitting it.
  - It is proved equal to the ghost function `OrderOutcome`. The lemmas
    about the whole click are stated on that function.

Prices, balances and levels are `real`. The one non-finite value the model
represents is `maxDrawdown / riskPercentage` when the risk percentage is
zero. Other non-finite values the doubles can take are listed under "Left
out". The zero-risk quotient is modelled explicitly as +inf, -inf or NaN
(`PositionSizer.Threshold`), with the IEEE comparison rules. So the source's
behaviour there is kept: a positive drawdown always sizes 0, and any other
drawdown loops 10000 times and returns null.

## Behaviour worth noting

- Unparseable text reads as 0, because the handler passes `0` as the default
  (FiboManualTradingPanel.cs:178-180). The panel's configured default levels
  only seed the boxes' starting text (:79, :119-126). The entry is written
  with 2 decimals and the stop loss and take profit with 1, so an unedited
  panel reads a default take profit of 1.618 back as 1.6. They are not the
  fallback for text that does not parse.
- A zero size prints the insufficient-balance warning. The order is still
  built and submitted with that size (:217-225). `Outcome.Placed` carries
  the warning flag.
- The warning is printed before the timeframe lookup (:219, :223). So a zero
  size on an unknown timeframe prints the warning and then throws.
  `Outcome.InvalidTimeframe` carries the same flag.
- A balance exactly equal to `maxDrawdown / riskPercentage` enters the
  search (`<` at :245). It never gets size 0.

## Model

| member | source | states |
|---|---|---|
| `FiboLevels.VerifyInput` | FiboManualTradingPanel/FiboManualTradingPanel.cs:228-234 | valid iff stopLoss < entry < takeProfit; also iff neither stopLoss >= entry nor entry >= takeProfit, so over reals (no NaN) the stopLoss >= takeProfit test never decides on its own |
| `FiboLevels.FiboLevelToPrice` | FiboManualTradingPanel/FiboManualTradingPanel.cs:236-239 | level 0 gives the zero-level price, level 1 the hundred-level price |
| `FiboLevels.ZeroLevelPrice` | FiboManualTradingPanel/FiboManualTradingPanel.cs:189-202 | the level-0 price is the bar's low for a Buy and its high for a Sell |
| `FiboLevels.HundredLevelPrice` | FiboManualTradingPanel/FiboManualTradingPanel.cs:189-202 | the level-1 price is the other extreme of the bar from the level-0 price, and equals the level-0 price of the opposite direction |
| `FiboLevels.LevelPrice` | FiboManualTradingPanel/FiboManualTradingPanel.cs:189-206 | a level's price for a direction: level 0 and level 1 give that direction's reference prices, and on a bar with low ≤ high a level in [0, 1] gives a price within the bar |
| `FiboLevels.FiboLevelToPriceInterpolates` | FiboManualTradingPanel/FiboManualTradingPanel.cs:236-239 | for a level in [0, 1] the price lies between the two reference prices |
| `FiboLevels.FiboLevelToPriceDifference` | FiboManualTradingPanel/FiboManualTradingPanel.cs:236-239 | the map is affine: two levels' prices differ by (hundred − zero) times the levels' difference |
| `FiboLevels.FiboLevelToPriceMonotone` | FiboManualTradingPanel/FiboManualTradingPanel.cs:236-239 | for a < b the price rises with the level when the hundred-level price is above the zero-level price, and falls when it is below |
| `FiboLevels.SellMirrorsBuy` | FiboManualTradingPanel/FiboManualTradingPanel.cs:192-206 | a Sell at level r is priced like a Buy at level 1 − r; Buy maps 0/1 to low/high, Sell to high/low |
| `FiboLevels.LevelPriceOrder` | FiboManualTradingPanel/FiboManualTradingPanel.cs:192-206 | when high > low, a higher level is a higher price for a Buy and a lower price for a Sell |
| `FiboLevels.LevelPriceDistance` | FiboManualTradingPanel/FiboManualTradingPanel.cs:204-209 | the distance of two levels' prices is abs(high − low) · abs(a − b), whatever the direction |
| `FiboLevels.PipDistance` | FiboManualTradingPanel/FiboManualTradingPanel.cs:208-209 | for a positive pip size the pips are non-negative, times the pip size give the absolute price difference, and are 0 only for equal prices |
| `FiboLevels.PipDistanceIndependentOfDirection` | FiboManualTradingPanel/FiboManualTradingPanel.cs:208-209 | Buy and Sell pip distances both equal abs(high − low) · abs(a − b) / pipSize |
| `PositionSizer.MinRequiredBalance` | FiboManualTradingPanel/FiboManualTradingPanel.cs:244 | finite iff riskPercentage ≠ 0, and then the quotient times riskPercentage is maxDrawdown; +inf iff riskPercentage is 0 and maxDrawdown > 0; -inf iff riskPercentage is 0 and maxDrawdown < 0 |
| `PositionSizer.TriangleClosedForm` | FiboManualTradingPanel/FiboManualTradingPanel.cs:248-256 | 1 + 2 + … + n = n(n+1)/2, the sum the running balance grows by |
| `PositionSizer.CumulativeClosedForm` | FiboManualTradingPanel/FiboManualTradingPanel.cs:248-256 | after n steps the running balance is min + delta · n(n+1)/2 |
| `PositionSizer.CumulativeStep` | FiboManualTradingPanel/FiboManualTradingPanel.cs:253-256 | one loop step adds lots · 100 · delta for the size reached, which moves the running balance from step n to step n + 1 |
| `PositionSizer.GetFixedRatioLots` | FiboManualTradingPanel/FiboManualTradingPanel.cs:241-259 | the bounded search returns exactly `FixedRatioLots`: 0 below the minimum, the least qualifying size, or null after 10000 steps |
| `PositionSizer.ZeroLotsIffBelowMinimum` | FiboManualTradingPanel/FiboManualTradingPanel.cs:243-246 | the result is 0 iff balance < maxDrawdown / riskPercentage (for a zero risk percentage: iff maxDrawdown > 0); a balance equal to the minimum never gets 0 |
| `PositionSizer.LotsWithinBounds` | FiboManualTradingPanel/FiboManualTradingPanel.cs:248-258 | a non-null size is at most 10000 hundredths; a non-zero one lies in [0.01, 100.00] lots |
| `PositionSizer.LeastLotsClosedForm` | FiboManualTradingPanel/FiboManualTradingPanel.cs:248-256 | from the minimum up, the result is n iff 1 ≤ n ≤ 10000, min + delta·n(n+1)/2 > balance, and no smaller n ≥ 1 satisfies this |
| `PositionSizer.LotsMonotoneInBalance` | FiboManualTradingPanel/FiboManualTradingPanel.cs:243-258 | for b1 ≤ b2 with both results non-null, size(b1) ≤ size(b2), for every delta |
| `PositionSizer.FailureUpwardClosed` | FiboManualTradingPanel/FiboManualTradingPanel.cs:243-258 | if the search returns null for a balance, it returns null for every larger balance |
| `PositionSizer.NonPositiveDeltaFails` | FiboManualTradingPanel/FiboManualTradingPanel.cs:250-258 | delta ≤ 0 with balance ≥ the minimum always returns null |
| `PositionSizer.ZeroRiskPercentage` | FiboManualTradingPanel/FiboManualTradingPanel.cs:244-258 | riskPercentage = 0 gives 0 when maxDrawdown > 0 and null otherwise |
| `PositionSizer.RunningBalanceMonotone` | FiboManualTradingPanel/FiboManualTradingPanel.cs:253 | with delta > 0 the running balance grows with the step count |
| `PositionSizer.PositiveDeltaSucceedsIff` | FiboManualTradingPanel/FiboManualTradingPanel.cs:250-258 | with delta > 0 and balance ≥ min, the result is non-null iff balance < min + delta · 50005000 |
| `PositionSizer.DefaultParametersExample` | FiboManualTradingPanel/FiboManualTradingPanel.cs:241-259 | with the default parameters (delta 50, risk 0.02, drawdown 10) a balance of 1000 sizes 0.05 lots and a balance of 499 sizes 0 |
| `TimeFrameConverter.TimeFrame2Minutes` | FiboManualTradingPanel/FiboManualTradingPanel.cs:347-401 | a minute timeframe gives its minutes, an hour timeframe 60·h, Daily/Day2/Day3 1440·d, Monthly 43200; any other timeframe is the ArgumentException case; every defined result is positive |
| `TradingPanel.GetValueFromInput` | FiboManualTradingPanel/FiboManualTradingPanel.cs:261-266 | a parsed box gives its number, an unparsed one the default |
| `TradingPanel.LevelPips` | FiboManualTradingPanel/FiboManualTradingPanel.cs:208-209 | the pip distance between two levels' prices is non-negative and equals abs(high − low) · abs(a − b) / pipSize |
| `TradingPanel.OrderOutcome` | FiboManualTradingPanel/FiboManualTradingPanel.cs:175-226 | aborts as invalid iff the parsed-or-0 levels are not stopLoss < entry < takeProfit. A sizing failure means the sizer returned null, a timeframe failure means the lookup failed. A timeframe failure carries the warning flag iff the size was 0. A placed order carries the direction, the label, the sizer's size (≤ 10000 hundredths), the warning flag iff the size is 0, the entry level's price, the stop-loss and take-profit pip distances between the levels' prices, and an expiry of exactly the server time plus the timeframe's minutes, which lies after the server time |
| `TradingPanel.PlaceOrder` | FiboManualTradingPanel/FiboManualTradingPanel.cs:175-226 | the straight-line handler, with its early returns, computes exactly `OrderOutcome` |
| `TradingPanel.UnparseableInputsRejected` | FiboManualTradingPanel/FiboManualTradingPanel.cs:178-187 | when no box parses, the levels read 0, 0, 0 and the click is rejected as invalid input |
| `TradingPanel.PlacedIffAllStepsSucceed` | FiboManualTradingPanel/FiboManualTradingPanel.cs:211-225 | an order is placed iff the levels pass, the sizer is non-null and the timeframe is known, so a zero size is still placed; sizing fails iff the levels pass and the sizer is null |
| `TradingPanel.DirectionChangesOnlyEntry` | FiboManualTradingPanel/FiboManualTradingPanel.cs:192-225 | Buy and Sell on the same inputs are placed together, with equal size, stop-loss pips, take-profit pips, expiry and warning flag |
| `TradingPanel.PlacedOrderBracketsEntry` | FiboManualTradingPanel/FiboManualTradingPanel.cs:183-209 | on a bar with high > low, a placed Buy has stop-loss price < entry < take-profit price, and a Sell the reverse; both pip distances are positive |
| `TradingPanel.ScenarioLevelPrices` | FiboManualTradingPanel/FiboManualTradingPanel.cs:189-209 | on a 100–110 bar, whatever the balance or timeframe: Buy maps 0/1 to 100/110 and Sell to 110/100; level 0.5 is 105 in both directions; both distances are 5/pipSize in both directions |
| `TradingPanel.BuyScenario` | FiboManualTradingPanel/FiboManualTradingPanel.cs:192-209 | Buy on a 100–110 bar with levels 0.5/0/1: entry 105, both distances 5/pipSize |
| `TradingPanel.SellScenario` | FiboManualTradingPanel/FiboManualTradingPanel.cs:192-209 | Sell on the same bar: level 0 is 110 and level 1 is 100, entry 105, both distances 5/pipSize |

## Left out

- Panel construction and styling are left out, including the 2- and 1-decimal formatting of the default levels into the boxes' text: `OnStart`, `CreateTradingPanel`, `CreateHeader`, `CreateContentPanel`, `CreateTradeButton`, `CreateInputWithLabel`, the `_inputMap` registration and the `Styles` class. They are widget layout and display formatting, outside the order computation.
- Host calls are not modelled, because they go into the trading platform.
  - `PlaceLimitOrderAsync` is replaced by returning the `OrderRequest`.
  - The volume conversion (`QuantityToVolumeInUnits`, `NormalizeVolumeInUnits`) is not modelled. The request carries the size in hundredths of a lot instead of the host's volume units.
  - The reads of `Bars`, `Symbol.PipSize`, `Account.Balance`, `Server.Time` and `TimeFrame` are the fields of `Market`.
  - The instrument `Symbol.Name`, passed through unchanged to `PlaceLimitOrderAsync`, is not part of `Market` or `OrderRequest`. The handler computes nothing from it.
  - `Print` messages are the `Outcome` constructors and the warning flag. The message texts are not modelled.
- `double.TryParse` is library parsing. Each box is given as the `Option<real>` it parses to.
- IEEE-754 doubles are modelled as reals, with these consequences:
  - No drift from repeated `lots += 0.01`.
  - No rounding in `FiboLevelToPrice`, the pip division or `TimeSpan.TotalMinutes`.
  - No NaN or infinite levels. `double.TryParse` accepts "NaN" and "Infinity". A NaN level can pass `VerifyInput`: a NaN entry passes whenever stopLoss < takeProfit. For a NaN entry the stopLoss >= takeProfit test is the one that decides, so that test is redundant only without NaN.
  - No overflow: a tiny non-zero risk percentage can make `maxDrawdown / riskPercentage` infinite in the source. The model's quotient is exact.
  - No infinite balance or bar prices, and no signed zero: a zero risk percentage is taken as +0.0.
- `TradingPanel.PlaceOrder`, `TradingPanel.OrderOutcome`, `TradingPanel.LevelPips` and `FiboLevels.PipDistance` require a positive pip size. The source divides by the host's pip size without a check. The infinite or NaN pips of a zero pip size are not modelled.
- `TimeFrameConverter.TimeFrame2Minutes` returns None where the source throws `ArgumentException`. The exception's message text is not modelled. The host's timeframe list is reduced to the 25 timeframes the converter knows, plus `Weekly` and `Other` for the rest.
- Server time is a real count of minutes. `DateTime` range limits and `AddMinutes` rounding are not modelled.
- The fire-and-forget submission (`PlaceOrderAsync` naming) is not modelled. The core itself has no concurrency.
