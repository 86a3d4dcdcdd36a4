/** The trip record as it comes out of the columnar reader (the input of the pipeline). */
module Trips {

  /** An hour of the day as Spark's `hour` returns it. */
  type Hour = h: int | 0 <= h < 24

  /** A day of the week as Spark's `dayofweek` returns it: 1 is Sunday, 7 is Saturday. */
  type Weekday = d: int | 1 <= d <= 7 witness 1

  /**
   * One raw trip. Timestamps are epoch seconds (what `unix_timestamp` yields);
   * the hour and weekday of the pickup instant are given, because extracting them
   * from a timestamp depends on the session time zone, which is outside the model.
   * Distances are in miles and amounts in dollars, both exact.
   */
  datatype Trip = Trip(
    pickupSecs: int,
    dropoffSecs: int,
    pickupHour: Hour,
    pickupWeekday: Weekday,
    passengerCount: int,
    tripDistance: real,
    totalAmount: real,
    paymentType: int)

}
