/**
 * The records the deviation engine reads and produces. Numeric quantities are reals;
 * instants are abstract: a millisecond count that orders them, and the calendar
 * year and month (1..12) the platform reads from them.
 */
module EmissionTypes {
  import opened Wrappers

  /** A calendar month as `getMonth() + 1` yields it. */
  type Month = m: int | 1 <= m <= 12 witness 1

  /** An instant: `getTime()` in milliseconds, with its `getFullYear()` and month. */
  datatype Timestamp = Timestamp(millis: int, year: int, month: Month)

  /** One per-voyage-leg emission log entry; only `toUTC` and `totCO2` feed the engine. */
  datatype EmissionRecord = EmissionRecord(
    eid: int,
    logId: string,
    fromUTC: Timestamp,
    toUTC: Timestamp,
    totCO2: real)

  /** A vessel with its emission records, as the store returns them (ordered by `toUTC`). */
  datatype Vessel = Vessel(
    imoNo: string,
    name: string,
    vesselType: int,
    dwt: Option<real>,
    emissions: seq<EmissionRecord>)

  /** A row of the reference-line table: a curve family member with five coefficients. */
  datatype ReferenceLine = ReferenceLine(
    rowId: int,
    category: string,
    vesselTypeId: int,
    size: string,
    traj: string,
    a: real, b: real, c: real, d: real, e: real)

  /** What the baseline calculator returns: the least and greatest curve value. */
  datatype BaselineRange = BaselineRange(min: real, max: real)

  /** One output row: a vessel's deviation from its baseline in one calendar quarter. */
  datatype QuarterlyDeviation = QuarterlyDeviation(
    vesselId: string,
    vesselName: string,
    quarter: string,
    year: int,
    actualEmissions: real,
    baseline: real,
    deviation: real,
    date: Timestamp)
}
