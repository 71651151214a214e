/** The order assembler behind the panel's Buy and Sell buttons: it reads the
    three level inputs, checks their order, turns them into prices on the
    previous bar, sizes the trade and builds the pending limit order. The
    host's reads (previous bar, pip size, balance, server time, timeframe) are
    parameters, and the order request is returned instead of submitted. */
module TradingPanel {
  import opened Wrappers
  import opened FiboLevels
  import opened PositionSizer
  import opened TimeFrameConverter

  /** The label every order carries. */
  const OrderLabel: string := "FiboManualTradingPanel"

  /** The three text boxes, each as the number it parses to, or None when its
      text is not a number. */
  datatype PanelInputs = PanelInputs(entryLevel: Option<real>, stopLossLevel: Option<real>, takeProfitLevel: Option<real>)

  /** What the host reports at the moment of the click. Times are counted in
      minutes. */
  datatype Market = Market(previousBar: Bar, pipSize: real, balance: real, serverTime: real, timeFrame: TimeFrame)

  /** The pending limit order handed to the host; `lots` in hundredths. */
  datatype OrderRequest = OrderRequest(
    tradeType: TradeType,
    lots: nat,
    entryPrice: real,
    orderLabel: string,
    stopLossPips: real,
    takeProfitPips: real,
    expiry: real)

  /** How one click ends: the three aborts (each with its own message or
      exception) or an order. The flag records the "insufficient balance"
      warning printed for a zero size; it is printed before the timeframe
      lookup, so an unknown timeframe can follow it. */
  datatype Outcome =
    | InvalidInput
    | SizingFailed
    | InvalidTimeframe(insufficientBalance: bool)
    | Placed(order: OrderRequest, insufficientBalance: bool)

  /** A text box's number, or the default when it does not parse. */
  function GetValueFromInput(input: Option<real>, defaultValue: real): (value: real)
    ensures input.None? ==> value == defaultValue
    ensures input.Some? ==> value == input.value
  {
    input.GetOr(defaultValue)
  }

  /** The pips between the prices of two levels; the same for both
      directions. */
  function LevelPips(tradeType: TradeType, bar: Bar, fromLevel: real, toLevel: real, pipSize: real): (pips: real)
    requires pipSize > 0.0
    ensures pips >= 0.0
    ensures pips == Abs(bar.high - bar.low) * Abs(fromLevel - toLevel) / pipSize
  {
    PipDistanceIndependentOfDirection(bar, fromLevel, toLevel, pipSize);
    PipDistance(LevelPrice(tradeType, bar, fromLevel), LevelPrice(tradeType, bar, toLevel), pipSize)
  }

  /** The outcome of one click. Every input that does not parse reads as 0.
      An ordering failure stops before any price or size work, a failed
      search stops before the order, a zero size only raises the warning, and
      an unknown timeframe stops after sizing. */
  ghost function OrderOutcome(tradeType: TradeType, inputs: PanelInputs, config: RiskConfig, market: Market): (r: Outcome)
    requires market.pipSize > 0.0
    ensures r.InvalidInput? <==>
      !(GetValueFromInput(inputs.stopLossLevel, 0.0) < GetValueFromInput(inputs.entryLevel, 0.0) < GetValueFromInput(inputs.takeProfitLevel, 0.0))
    ensures r.SizingFailed? ==> FixedRatioLots(market.balance, config) == None
    ensures r.InvalidTimeframe? ==>
      && TimeFrame2Minutes(market.timeFrame) == None
      && (r.insufficientBalance <==> FixedRatioLots(market.balance, config) == Some(0))
    ensures r.Placed? ==>
      && r.order.tradeType == tradeType
      && r.order.orderLabel == OrderLabel
      && Some(r.order.lots) == FixedRatioLots(market.balance, config)
      && r.order.lots <= MaxIterations
      && (r.insufficientBalance <==> r.order.lots == 0)
      && TimeFrame2Minutes(market.timeFrame).Some?
      && r.order.expiry == market.serverTime + TimeFrame2Minutes(market.timeFrame).value as real
      && r.order.expiry > market.serverTime
    ensures r.Placed? ==>
      var bar := market.previousBar;
      var entryLevel := GetValueFromInput(inputs.entryLevel, 0.0);
      var stopLossLevel := GetValueFromInput(inputs.stopLossLevel, 0.0);
      var takeProfitLevel := GetValueFromInput(inputs.takeProfitLevel, 0.0);
      && r.order.entryPrice == LevelPrice(tradeType, bar, entryLevel)
      && r.order.stopLossPips == LevelPips(tradeType, bar, entryLevel, stopLossLevel, market.pipSize)
      && r.order.takeProfitPips == LevelPips(tradeType, bar, takeProfitLevel, entryLevel, market.pipSize)
  {
    var entryLevel := GetValueFromInput(inputs.entryLevel, 0.0);
    var stopLossLevel := GetValueFromInput(inputs.stopLossLevel, 0.0);
    var takeProfitLevel := GetValueFromInput(inputs.takeProfitLevel, 0.0);
    if !VerifyInput(entryLevel, stopLossLevel, takeProfitLevel) then InvalidInput
    else
      var bar := market.previousBar;
      var entryPrice := LevelPrice(tradeType, bar, entryLevel);
      var stopLossPips := LevelPips(tradeType, bar, entryLevel, stopLossLevel, market.pipSize);
      var takeProfitPips := LevelPips(tradeType, bar, takeProfitLevel, entryLevel, market.pipSize);
      match FixedRatioLots(market.balance, config)
      case None => SizingFailed
      case Some(lots) =>
        LotsWithinBounds(market.balance, config);
        match TimeFrame2Minutes(market.timeFrame)
        case None => InvalidTimeframe(lots == 0)
        case Some(minutes) =>
          var expiry := market.serverTime + minutes as real;
          Placed(OrderRequest(tradeType, lots, entryPrice, OrderLabel, stopLossPips, takeProfitPips, expiry), lots == 0)
  }

  /** The click handler: reads the inputs (defaulting to 0), validates them,
      converts the levels to prices on the previous bar, computes the pip
      distances, sizes the trade, computes the expiry and returns the order. */
  method PlaceOrder(tradeType: TradeType, inputs: PanelInputs, config: RiskConfig, market: Market) returns (outcome: Outcome)
    requires market.pipSize > 0.0
    ensures outcome == OrderOutcome(tradeType, inputs, config, market)
  {
    var entryFiboLevel := GetValueFromInput(inputs.entryLevel, 0.0);
    var stopLossFiboLevel := GetValueFromInput(inputs.stopLossLevel, 0.0);
    var takeProfitFiboLevel := GetValueFromInput(inputs.takeProfitLevel, 0.0);

    if !VerifyInput(entryFiboLevel, stopLossFiboLevel, takeProfitFiboLevel) {
      return InvalidInput;
    }

    var bar := market.previousBar;
    var entryLevelPrice := LevelPrice(tradeType, bar, entryFiboLevel);
    var stopLossPips := LevelPips(tradeType, bar, entryFiboLevel, stopLossFiboLevel, market.pipSize);
    var takeProfitPips := LevelPips(tradeType, bar, takeProfitFiboLevel, entryFiboLevel, market.pipSize);

    var lots := GetFixedRatioLots(market.balance, config);
    if lots.None? {
      return SizingFailed;
    }
    var insufficientBalance := lots.value == 0;

    var minutes := TimeFrame2Minutes(market.timeFrame);
    if minutes.None? {
      return InvalidTimeframe(insufficientBalance);
    }
    var expiry := market.serverTime + minutes.value as real;

    return Placed(
      OrderRequest(tradeType, lots.value, entryLevelPrice, OrderLabel, stopLossPips, takeProfitPips, expiry),
      insufficientBalance);
  }

  /** Text that does not parse reads as 0, not as the panel's configured
      default; so when no box parses, the levels are 0, 0, 0 and the click
      is rejected. */
  lemma UnparseableInputsRejected(tradeType: TradeType, config: RiskConfig, market: Market)
    requires market.pipSize > 0.0
    ensures OrderOutcome(tradeType, PanelInputs(None, None, None), config, market) == InvalidInput
  {
  }

  /** The click aborts without an order exactly when the levels are out of
      order, the search fails, or the timeframe is unknown; a zero size is
      still placed. */
  lemma PlacedIffAllStepsSucceed(tradeType: TradeType, inputs: PanelInputs, config: RiskConfig, market: Market)
    requires market.pipSize > 0.0
    ensures OrderOutcome(tradeType, inputs, config, market).Placed? <==>
      && VerifyInput(inputs.entryLevel.GetOr(0.0), inputs.stopLossLevel.GetOr(0.0), inputs.takeProfitLevel.GetOr(0.0))
      && FixedRatioLots(market.balance, config).Some?
      && TimeFrame2Minutes(market.timeFrame).Some?
    ensures OrderOutcome(tradeType, inputs, config, market).SizingFailed? <==>
      && VerifyInput(inputs.entryLevel.GetOr(0.0), inputs.stopLossLevel.GetOr(0.0), inputs.takeProfitLevel.GetOr(0.0))
      && FixedRatioLots(market.balance, config) == None
  {
  }

  /** Buy and Sell on the same bar and inputs succeed or fail together and
      carry the same size, stop-loss and take-profit distances and expiry;
      only the direction and the entry price differ. */
  lemma DirectionChangesOnlyEntry(inputs: PanelInputs, config: RiskConfig, market: Market)
    requires market.pipSize > 0.0
    ensures var buy := OrderOutcome(Buy, inputs, config, market);
            var sell := OrderOutcome(Sell, inputs, config, market);
            && buy.Placed? == sell.Placed?
            && (buy.Placed? ==>
                 && buy.order.lots == sell.order.lots
                 && buy.order.stopLossPips == sell.order.stopLossPips
                 && buy.order.takeProfitPips == sell.order.takeProfitPips
                 && buy.order.expiry == sell.order.expiry
                 && buy.insufficientBalance == sell.insufficientBalance)
  {
  }

  /** On a bar whose high is above its low, a placed Buy has its stop-loss
      price below the entry and its take-profit price above it; a placed
      Sell the other way round. The one ordering check serves both
      directions because the Sell levels are measured from the high. */
  lemma PlacedOrderBracketsEntry(tradeType: TradeType, inputs: PanelInputs, config: RiskConfig, market: Market)
    requires market.pipSize > 0.0
    requires market.previousBar.high > market.previousBar.low
    requires OrderOutcome(tradeType, inputs, config, market).Placed?
    ensures var order := OrderOutcome(tradeType, inputs, config, market).order;
            var stopLossPrice := LevelPrice(tradeType, market.previousBar, inputs.stopLossLevel.GetOr(0.0));
            var takeProfitPrice := LevelPrice(tradeType, market.previousBar, inputs.takeProfitLevel.GetOr(0.0));
            && (tradeType == Buy ==> stopLossPrice < order.entryPrice < takeProfitPrice)
            && (tradeType == Sell ==> takeProfitPrice < order.entryPrice < stopLossPrice)
            && order.stopLossPips > 0.0
            && order.takeProfitPips > 0.0
  {
    var bar := market.previousBar;
    var entryLevel := inputs.entryLevel.GetOr(0.0);
    var stopLossLevel := inputs.stopLossLevel.GetOr(0.0);
    var takeProfitLevel := inputs.takeProfitLevel.GetOr(0.0);
    LevelPriceOrder(tradeType, bar, stopLossLevel, entryLevel);
    LevelPriceOrder(tradeType, bar, entryLevel, takeProfitLevel);
  }

  /** The worked levels 0.5 / 0 / 1 on a bar from 100 to 110, whatever the
      balance and timeframe: both directions put the entry at 105 and both
      distances at 5 price units; only the reference prices swap. */
  lemma ScenarioLevelPrices(pipSize: real)
    requires pipSize > 0.0
    ensures var bar := Bar(110.0, 100.0);
            && LevelPrice(Buy, bar, 0.0) == 100.0 && LevelPrice(Buy, bar, 1.0) == 110.0
            && LevelPrice(Sell, bar, 0.0) == 110.0 && LevelPrice(Sell, bar, 1.0) == 100.0
            && LevelPrice(Buy, bar, 0.5) == 105.0 && LevelPrice(Sell, bar, 0.5) == 105.0
    ensures var bar := Bar(110.0, 100.0);
            && LevelPips(Buy, bar, 0.5, 0.0, pipSize) == 5.0 / pipSize
            && LevelPips(Buy, bar, 1.0, 0.5, pipSize) == 5.0 / pipSize
            && LevelPips(Sell, bar, 0.5, 0.0, pipSize) == 5.0 / pipSize
            && LevelPips(Sell, bar, 1.0, 0.5, pipSize) == 5.0 / pipSize
  {
  }

  /** The Buy scenario: on a bar from 100 to 110, levels 0.5 / 0 / 1 give an
      entry at 105 and 5 price units to either side. */
  lemma BuyScenario(config: RiskConfig, market: Market)
    requires market.pipSize > 0.0
    requires market.previousBar == Bar(110.0, 100.0)
    requires OrderOutcome(Buy, PanelInputs(Some(0.5), Some(0.0), Some(1.0)), config, market).Placed?
    ensures var order := OrderOutcome(Buy, PanelInputs(Some(0.5), Some(0.0), Some(1.0)), config, market).order;
            && order.entryPrice == 105.0
            && order.stopLossPips == 5.0 / market.pipSize
            && order.takeProfitPips == 5.0 / market.pipSize
  {
  }

  /** The Sell scenario on the same bar: level 0 is the high, so the entry is
      again 105, the stop loss at 110 and the take profit at 100. */
  lemma SellScenario(config: RiskConfig, market: Market)
    requires market.pipSize > 0.0
    requires market.previousBar == Bar(110.0, 100.0)
    requires OrderOutcome(Sell, PanelInputs(Some(0.5), Some(0.0), Some(1.0)), config, market).Placed?
    ensures LevelPrice(Sell, market.previousBar, 0.0) == 110.0
    ensures LevelPrice(Sell, market.previousBar, 1.0) == 100.0
    ensures var order := OrderOutcome(Sell, PanelInputs(Some(0.5), Some(0.0), Some(1.0)), config, market).order;
            && order.entryPrice == 105.0
            && order.stopLossPips == 5.0 / market.pipSize
            && order.takeProfitPips == 5.0 / market.pipSize
  {
  }
}
