/** Fibonacci-level arithmetic of the trading panel: the ordering check on the
    three levels the trader types in, the map from a level to a price between
    the previous bar's extremes, and the distance of two prices in pips. */
module FiboLevels {

  /** Direction of the pending limit order. */
  datatype TradeType = Buy | Sell

  /** The most recently closed bar: the swing the levels are measured on. */
  datatype Bar = Bar(high: real, low: real)

  /** `Math.Abs` on the model's reals. */
  function Abs(x: real): (r: real)
    ensures r >= 0.0
    ensures r == x || r == -x
  {
    if x < 0.0 then -x else x
  }

  function Min(x: real, y: real): real { if x <= y then x else y }

  function Max(x: real, y: real): real { if x <= y then y else x }

  /** Rejects unless the stop loss sits strictly below the entry and the
      entry strictly below the take profit, whatever the direction. The
      second test of the three (stop loss against take profit) never decides
      anything on its own. */
  function VerifyInput(entryLevel: real, stopLossLevel: real, takeProfitLevel: real): (valid: bool)
    ensures valid <==> stopLossLevel < entryLevel < takeProfitLevel
    ensures valid <==> !(stopLossLevel >= entryLevel || entryLevel >= takeProfitLevel)
  {
    if stopLossLevel >= entryLevel || stopLossLevel >= takeProfitLevel || entryLevel >= takeProfitLevel then
      false
    else
      true
  }

  /** The price at `fiboLevel` on the line through `zeroLevelPrice` (level 0)
      and `hundredLevelPrice` (level 1); levels outside [0, 1] extrapolate. */
  function FiboLevelToPrice(fiboLevel: real, zeroLevelPrice: real, hundredLevelPrice: real): (price: real)
    ensures fiboLevel == 0.0 ==> price == zeroLevelPrice
    ensures fiboLevel == 1.0 ==> price == hundredLevelPrice
  {
    (hundredLevelPrice - zeroLevelPrice) * fiboLevel + zeroLevelPrice
  }

  /** The price at level 0 for a direction: a Buy measures from the bar's
      low, a Sell from its high. */
  function ZeroLevelPrice(tradeType: TradeType, bar: Bar): (price: real)
    ensures tradeType == Buy ==> price == bar.low
    ensures tradeType == Sell ==> price == bar.high
  {
    if tradeType == Buy then bar.low else bar.high
  }

  /** The price at level 1: the bar's high for a Buy, its low for a Sell.
      It is the other extreme from level 0, and the level-0 price of the
      opposite direction. */
  function HundredLevelPrice(tradeType: TradeType, bar: Bar): (price: real)
    ensures multiset{price, ZeroLevelPrice(tradeType, bar)} == multiset{bar.low, bar.high}
    ensures tradeType == Buy ==> price == ZeroLevelPrice(Sell, bar)
    ensures tradeType == Sell ==> price == ZeroLevelPrice(Buy, bar)
  {
    if tradeType == Buy then bar.high else bar.low
  }

  /** The price of a level for a direction on a bar: level 0 and level 1 are
      the direction's reference prices, and a level between them stays within
      the bar. */
  function LevelPrice(tradeType: TradeType, bar: Bar, fiboLevel: real): (price: real)
    ensures fiboLevel == 0.0 ==> price == ZeroLevelPrice(tradeType, bar)
    ensures fiboLevel == 1.0 ==> price == HundredLevelPrice(tradeType, bar)
    ensures 0.0 <= fiboLevel <= 1.0 && bar.low <= bar.high ==> bar.low <= price <= bar.high
  {
    var zeroPrice, hundredPrice := ZeroLevelPrice(tradeType, bar), HundredLevelPrice(tradeType, bar);
    if 0.0 <= fiboLevel <= 1.0 then
      FiboLevelToPriceInterpolates(fiboLevel, zeroPrice, hundredPrice);
      FiboLevelToPrice(fiboLevel, zeroPrice, hundredPrice)
    else
      FiboLevelToPrice(fiboLevel, zeroPrice, hundredPrice)
  }

  /** Distance between two prices in pips. */
  function PipDistance(fromPrice: real, toPrice: real, pipSize: real): (pips: real)
    requires pipSize > 0.0
    ensures pips >= 0.0
    ensures pips * pipSize == Abs(fromPrice - toPrice)
    ensures pips == 0.0 <==> fromPrice == toPrice
  {
    Abs(fromPrice - toPrice) / pipSize
  }

  /** Between level 0 and level 1 the price lies between the two reference
      prices. */
  lemma FiboLevelToPriceInterpolates(fiboLevel: real, zeroLevelPrice: real, hundredLevelPrice: real)
    requires 0.0 <= fiboLevel <= 1.0
    ensures Min(zeroLevelPrice, hundredLevelPrice) <= FiboLevelToPrice(fiboLevel, zeroLevelPrice, hundredLevelPrice)
    ensures FiboLevelToPrice(fiboLevel, zeroLevelPrice, hundredLevelPrice) <= Max(zeroLevelPrice, hundredLevelPrice)
  {
    var span := hundredLevelPrice - zeroLevelPrice;
    var rest := 1.0 - fiboLevel;
    assert span * fiboLevel + span * rest == span;
    if span >= 0.0 {
      assert span * fiboLevel >= 0.0 && span * rest >= 0.0;
      assert Min(zeroLevelPrice, hundredLevelPrice) == zeroLevelPrice;
      assert Max(zeroLevelPrice, hundredLevelPrice) == hundredLevelPrice;
    } else {
      var drop := -span;
      assert drop * fiboLevel >= 0.0 && drop * rest >= 0.0;
      assert span * fiboLevel == -(drop * fiboLevel) && span * rest == -(drop * rest);
      assert Min(zeroLevelPrice, hundredLevelPrice) == hundredLevelPrice;
      assert Max(zeroLevelPrice, hundredLevelPrice) == zeroLevelPrice;
    }
  }

  /** The map is affine: two levels' prices differ by the span times the
      levels' difference. */
  lemma FiboLevelToPriceDifference(a: real, b: real, zeroLevelPrice: real, hundredLevelPrice: real)
    ensures FiboLevelToPrice(a, zeroLevelPrice, hundredLevelPrice) - FiboLevelToPrice(b, zeroLevelPrice, hundredLevelPrice)
         == (hundredLevelPrice - zeroLevelPrice) * (a - b)
  {
  }

  /** A Sell at level r is priced like a Buy at level 1 - r on the same bar;
      level 0 and level 1 land on the bar's extremes as the direction says. */
  lemma SellMirrorsBuy(bar: Bar, fiboLevel: real)
    ensures LevelPrice(Sell, bar, fiboLevel) == LevelPrice(Buy, bar, 1.0 - fiboLevel)
    ensures LevelPrice(Buy, bar, 0.0) == bar.low && LevelPrice(Buy, bar, 1.0) == bar.high
    ensures LevelPrice(Sell, bar, 0.0) == bar.high && LevelPrice(Sell, bar, 1.0) == bar.low
  {
  }

  /** The price rises with the level when the hundred-level price is above
      the zero-level price, and falls when it is below. */
  lemma FiboLevelToPriceMonotone(a: real, b: real, zeroLevelPrice: real, hundredLevelPrice: real)
    requires a < b
    ensures hundredLevelPrice > zeroLevelPrice ==>
      FiboLevelToPrice(a, zeroLevelPrice, hundredLevelPrice) < FiboLevelToPrice(b, zeroLevelPrice, hundredLevelPrice)
    ensures hundredLevelPrice < zeroLevelPrice ==>
      FiboLevelToPrice(a, zeroLevelPrice, hundredLevelPrice) > FiboLevelToPrice(b, zeroLevelPrice, hundredLevelPrice)
  {
    var span := hundredLevelPrice - zeroLevelPrice;
    var step := b - a;
    assert FiboLevelToPrice(b, zeroLevelPrice, hundredLevelPrice)
        == FiboLevelToPrice(a, zeroLevelPrice, hundredLevelPrice) + span * step by {
      assert span * b == span * a + span * step;
    }
    if span > 0.0 {
      ProductPositive(span, step);
    } else if span < 0.0 {
      ProductPositive(-span, step);
      assert span * step == -((-span) * step);
    }
  }

  /** On a bar whose high is above its low, a higher level is a higher price
      for a Buy and a lower price for a Sell. So a stop loss below the entry
      below the take profit, in levels, is a sensible order in both
      directions. */
  lemma LevelPriceOrder(tradeType: TradeType, bar: Bar, a: real, b: real)
    requires bar.high > bar.low
    requires a < b
    ensures tradeType == Buy ==> LevelPrice(tradeType, bar, a) < LevelPrice(tradeType, bar, b)
    ensures tradeType == Sell ==> LevelPrice(tradeType, bar, a) > LevelPrice(tradeType, bar, b)
  {
    FiboLevelToPriceMonotone(a, b, ZeroLevelPrice(tradeType, bar), HundredLevelPrice(tradeType, bar));
  }

  /** The distance between two levels' prices does not depend on the
      direction: it is the bar's range times the levels' distance. */
  lemma LevelPriceDistance(tradeType: TradeType, bar: Bar, a: real, b: real)
    ensures Abs(LevelPrice(tradeType, bar, a) - LevelPrice(tradeType, bar, b)) == Abs(bar.high - bar.low) * Abs(a - b)
  {
    var zeroPrice, hundredPrice := ZeroLevelPrice(tradeType, bar), HundredLevelPrice(tradeType, bar);
    FiboLevelToPriceDifference(a, b, zeroPrice, hundredPrice);
    AbsOfProduct(hundredPrice - zeroPrice, a - b);
    assert Abs(hundredPrice - zeroPrice) == Abs(bar.high - bar.low);
  }

  lemma ProductPositive(x: real, y: real)
    requires x > 0.0 && y > 0.0
    ensures x * y > 0.0
  {
  }

  lemma AbsOfProduct(x: real, y: real)
    ensures Abs(x * y) == Abs(x) * Abs(y)
  {
    if x < 0.0 && y < 0.0 {
      assert x * y == (-x) * (-y);
    } else if x < 0.0 {
      assert x * y == -((-x) * y);
      assert (-x) * y >= 0.0;
    } else if y < 0.0 {
      assert x * y == -(x * (-y));
      assert x * (-y) >= 0.0;
    } else {
      assert x * y >= 0.0;
    }
  }

  /** Stop-loss and take-profit distances in pips are the same for a Buy and
      a Sell on the same bar and levels. */
  lemma PipDistanceIndependentOfDirection(bar: Bar, a: real, b: real, pipSize: real)
    requires pipSize > 0.0
    ensures PipDistance(LevelPrice(Buy, bar, a), LevelPrice(Buy, bar, b), pipSize)
         == Abs(bar.high - bar.low) * Abs(a - b) / pipSize
    ensures PipDistance(LevelPrice(Sell, bar, a), LevelPrice(Sell, bar, b), pipSize)
         == Abs(bar.high - bar.low) * Abs(a - b) / pipSize
  {
    LevelPriceDistance(Buy, bar, a, b);
    LevelPriceDistance(Sell, bar, a, b);
  }
}
