/** Time as integer microseconds since the epoch (UTC), the resolution of
    Python's `datetime`, with the constants and the rounding the extractor
    relies on. */
module Clock {
  import opened Base
  import Text

  type Instant = int

  const Second: int := 1_000_000
  const SecondsPerDay: int := 86_400
  const Day: int := SecondsPerDay * Second
  const Week: int := 7 * Day

  /** A half-open interval `[start, end)` of replication-key values. */
  datatype Window = Window(start: Instant, end: Instant)

  /** `timedelta(seconds=s).seconds`: a timedelta keeps whole days apart,
      so its `seconds` field is the remainder within one day. */
  function TimedeltaSecondsField(totalSeconds: int): (r: int)
    ensures 0 <= r < SecondsPerDay
    ensures (totalSeconds - r) % SecondsPerDay == 0
  {
    totalSeconds % SecondsPerDay
  }

  /** `timedelta(days=1).seconds`, the value the window shrinker compares
      against: one whole day has a seconds field of zero. */
  function OneDaySecondsField(): (r: int)
    ensures r == 0
  {
    TimedeltaSecondsField(SecondsPerDay)
  }

  /** Seconds from 0001-01-01T00:00:00 (the earliest `datetime`) to the
      epoch, and from the epoch to 10000-01-01T00:00:00 (just past the
      latest). */
  const SecondsBeforeEpoch: int := 62_135_596_800
  const SecondsAfterEpoch: int := 253_402_300_800

  /** An instant a `datetime` can hold. */
  predicate IsDatetime(t: Instant)
  {
    -SecondsBeforeEpoch * Second <= t < SecondsAfterEpoch * Second
  }

  /** The instant with its microseconds dropped, as `%S` drops them. */
  function SecondFloor(t: Instant): (r: Instant)
    ensures r <= t < r + Second && r % Second == 0
  {
    (t / Second) * Second
  }

  lemma SecondFloorMonotone(a: Instant, b: Instant)
    requires a <= b
    ensures SecondFloor(a) <= SecondFloor(b)
  {
  }

  /** The timestamp text of a query, `strftime('%Y-%m-%dT%H:%M:%SZ')`: the
      whole seconds since 0001-01-01 in 19 zero-padded digits, then "Z".
      It stands in for the calendar text: like it, it keeps whole seconds
      only and has a fixed width of 20 characters. */
  function QueryTime(t: Instant): string
  {
    Text.PadZeros(Text.IntToString(t / Second + SecondsBeforeEpoch), 19) + "Z"
  }

  /** Every `datetime` renders to exactly 20 characters, as the calendar
      text does for four-digit years. */
  lemma QueryTimeWidth(t: Instant)
    requires IsDatetime(t)
    ensures |QueryTime(t)| == 20
  {
    var n := t / Second + SecondsBeforeEpoch;
    assert 0 <= n < Text.Pow10(12);
    Text.NatToStringShort(n, 12);
  }

  /** Textual form of an instant in the state and in records. Calendar
      formatting (`isoformat`, `strptime`, `fromisoformat`) is replaced by
      the decimal count of microseconds. */
  function Format(t: Instant): string
  {
    Text.IntToString(t)
  }

  /** Inverse of `Format`, standing in for `strptime`/`fromisoformat`. */
  function Parse(s: string): Option<Instant>
  {
    Text.ParseInt(s)
  }

  lemma ParseFormat(t: Instant)
    ensures Parse(Format(t)) == Some(t)
  {
    Text.ParseIntToString(t);
  }

  /** Conversion of a real number of microseconds to whole microseconds, as
      `timedelta(seconds=x)` does: to the nearest integer, ties to even. */
  function RoundHalfEven(x: real): (n: int)
    ensures x - 0.5 <= n as real <= x + 0.5
    ensures (n as real == x - 0.5 || n as real == x + 0.5) ==> n % 2 == 0
  {
    var f := x.Floor;
    var frac := x - f as real;
    if frac < 0.5 then f
    else if frac > 0.5 then f + 1
    else if f % 2 == 0 then f
    else f + 1
  }

  lemma RoundHalfEvenOfInteger(n: int)
    ensures RoundHalfEven(n as real) == n
  {
  }

  lemma RoundHalfEvenMonotone(x: real, y: real)
    requires x <= y
    ensures RoundHalfEven(x) <= RoundHalfEven(y)
  {
  }
}
