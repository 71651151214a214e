/** The length, in minutes, of one bar of a chart timeframe. The panel uses it
    to let a pending order expire after one bar. */
module TimeFrameConverter {
  import opened Wrappers

  /** The host's chart timeframes. The ones the converter knows are listed by
      name; `Weekly` and `Other` (tick, range and Renko charts and the like)
      stand for the rest of the host's list. */
  datatype TimeFrame =
    | Minute | Minute2 | Minute3 | Minute4 | Minute5 | Minute6 | Minute7 | Minute8 | Minute9 | Minute10
    | Minute15 | Minute20 | Minute30 | Minute45
    | Hour | Hour2 | Hour3 | Hour4 | Hour6 | Hour8 | Hour12
    | Daily | Day2 | Day3
    | Weekly | Monthly
    | Other(name: string)

  /** What a timeframe's name says one bar lasts. */
  datatype BarLength = Minutes(count: nat) | Hours(count: nat) | Days(count: nat) | NoLength

  function NamedLength(tf: TimeFrame): BarLength
  {
    match tf
    case Minute => Minutes(1)
    case Minute2 => Minutes(2)
    case Minute3 => Minutes(3)
    case Minute4 => Minutes(4)
    case Minute5 => Minutes(5)
    case Minute6 => Minutes(6)
    case Minute7 => Minutes(7)
    case Minute8 => Minutes(8)
    case Minute9 => Minutes(9)
    case Minute10 => Minutes(10)
    case Minute15 => Minutes(15)
    case Minute20 => Minutes(20)
    case Minute30 => Minutes(30)
    case Minute45 => Minutes(45)
    case Hour => Hours(1)
    case Hour2 => Hours(2)
    case Hour3 => Hours(3)
    case Hour4 => Hours(4)
    case Hour6 => Hours(6)
    case Hour8 => Hours(8)
    case Hour12 => Hours(12)
    case Daily => Days(1)
    case Day2 => Days(2)
    case Day3 => Days(3)
    case Monthly => Days(30)
    case Weekly => NoLength
    case Other(_) => NoLength
  }

  /** `TimeSpan.TotalMinutes` of a span of whole days, hours and minutes. */
  function TimeSpanMinutes(days: nat, hours: nat, minutes: nat): nat
  {
    days * 1440 + hours * 60 + minutes
  }

  /** One bar's length in minutes; None where the source throws
      `ArgumentException` ("Invalid Timeframe"). Every known length is
      positive, so an order's expiry always lies after the current time. */
  function TimeFrame2Minutes(timeframe: TimeFrame): (minutes: Option<nat>)
    ensures minutes.None? <==> NamedLength(timeframe) == NoLength
    ensures NamedLength(timeframe).Minutes? ==> minutes == Some(NamedLength(timeframe).count)
    ensures NamedLength(timeframe).Hours? ==> minutes == Some(60 * NamedLength(timeframe).count)
    ensures NamedLength(timeframe).Days? ==> minutes == Some(1440 * NamedLength(timeframe).count)
    ensures minutes.Some? ==> minutes.value > 0
  {
    if timeframe == Daily then Some(TimeSpanMinutes(1, 0, 0))
    else if timeframe == Day2 then Some(TimeSpanMinutes(2, 0, 0))
    else if timeframe == Day3 then Some(TimeSpanMinutes(3, 0, 0))
    else if timeframe == Hour then Some(TimeSpanMinutes(0, 1, 0))
    else if timeframe == Hour12 then Some(TimeSpanMinutes(0, 12, 0))
    else if timeframe == Hour2 then Some(TimeSpanMinutes(0, 2, 0))
    else if timeframe == Hour3 then Some(TimeSpanMinutes(0, 3, 0))
    else if timeframe == Hour4 then Some(TimeSpanMinutes(0, 4, 0))
    else if timeframe == Hour6 then Some(TimeSpanMinutes(0, 6, 0))
    else if timeframe == Hour8 then Some(TimeSpanMinutes(0, 8, 0))
    else if timeframe == Minute then Some(TimeSpanMinutes(0, 0, 1))
    else if timeframe == Minute10 then Some(TimeSpanMinutes(0, 0, 10))
    else if timeframe == Minute15 then Some(TimeSpanMinutes(0, 0, 15))
    else if timeframe == Minute2 then Some(TimeSpanMinutes(0, 0, 2))
    else if timeframe == Minute20 then Some(TimeSpanMinutes(0, 0, 20))
    else if timeframe == Minute3 then Some(TimeSpanMinutes(0, 0, 3))
    else if timeframe == Minute30 then Some(TimeSpanMinutes(0, 0, 30))
    else if timeframe == Minute4 then Some(TimeSpanMinutes(0, 0, 4))
    else if timeframe == Minute45 then Some(TimeSpanMinutes(0, 0, 45))
    else if timeframe == Minute5 then Some(TimeSpanMinutes(0, 0, 5))
    else if timeframe == Minute6 then Some(TimeSpanMinutes(0, 0, 6))
    else if timeframe == Minute7 then Some(TimeSpanMinutes(0, 0, 7))
    else if timeframe == Minute8 then Some(TimeSpanMinutes(0, 0, 8))
    else if timeframe == Minute9 then Some(TimeSpanMinutes(0, 0, 9))
    else if timeframe == Monthly then Some(TimeSpanMinutes(30, 0, 0))
    else None
  }
}
