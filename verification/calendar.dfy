/**
 * Delivery-date arithmetic. The clock is a day ordinal passed in by the
 * caller; the delivery offset comes from the `DELIVERY_DAYS_OFFSET`
 * environment setting, read as an integer with a default of three days.
 */
module Calendar {
  import opened Outcomes
  import opened Records

  /** Ordinal of 0001-01-01, the earliest date a datetime can hold. */
  const MinDay: Day := 1
  /** Ordinal of 9999-12-31, the latest date a datetime can hold. */
  const MaxDay: Day := 3652059
  /** Offset used when the environment does not set one. */
  const DefaultOffsetDays := 3

  predicate Representable(d: Day) {
    MinDay <= d <= MaxDay
  }

  /**
   * The environment setting as integer parsing sees it: absent, a text that
   * parses to `days`, or a text the parser rejects.
   */
  datatype OffsetSetting = Unset | Parsed(days: int) | Unparsable

  /** The configured offset, or the fault raised while parsing it. */
  function OffsetDays(setting: OffsetSetting): Result<int, Fault>
  {
    match setting
    case Unset => Ok(DefaultOffsetDays)
    case Parsed(days) => Ok(days)
    case Unparsable => Err(MalformedOffset)
  }

  /**
   * The delivery date `offset` days after `now`. Adding a day span to a
   * datetime only moves its date part, so the result is exactly `now + offset`
   * days; a result outside the representable calendar raises an overflow.
   * (A span longer than the day-span type allows overflows too, but such a
   * span already takes any representable `now` outside the calendar.)
   */
  function DeliveryDate(now: Day, setting: OffsetSetting): (r: Result<Day, Fault>)
    requires Representable(now)
    ensures setting.Unparsable? ==> r == Err(MalformedOffset)
    ensures r.Ok? ==> Representable(r.value)
    ensures setting.Unset? ==> (r.Ok? <==> now + DefaultOffsetDays <= MaxDay)
    ensures r.Ok? && setting.Unset? ==> r.value - now == DefaultOffsetDays
    ensures r.Ok? && setting.Parsed? ==> r.value - now == setting.days
    ensures setting.Parsed? ==> (r.Ok? <==> Representable(now + setting.days))
    ensures r.Err? && !setting.Unparsable? ==> r.error == DateOutOfRange
  {
    match OffsetDays(setting)
    case Err(fault) => Err(fault)
    case Ok(days) =>
      if Representable(now + days) then Ok(now + days) else Err(DateOutOfRange)
  }
}
