/** Instants as integers, and the few facts about Go's time package the
    modelled code relies on: the zero Time, the year thresholds it tests and
    time.Parse("2006-01-02", ...), all in UTC. */
module Times {

  import opened Wrappers

  /** Nanoseconds since 1970-01-01T00:00:00Z. */
  type Time = int

  const Second: int := 1_000_000_000
  const Hour: int := 3600 * Second
  const Day: int := 24 * Hour

  /** Go's time.Time{} (0001-01-01T00:00:00Z), which IsZero reports. */
  const ZeroTime: Time := -62_135_596_800 * Second

  /** 0002-01-01T00:00:00Z: times before it have Year() <= 1. */
  const Year2Start: Time := ZeroTime + 365 * Day

  /** 2001-01-01T00:00:00Z: times before it have Year() <= 2000. */
  const Year2001Start: Time := 978_307_200 * Second

  predicate YearAtMost2000(t: Time) { t < Year2001Start }

  predicate YearAtMost1(t: Time) { t < Year2Start }

  predicate IsLeap(y: nat) {
    y % 4 == 0 && (y % 100 != 0 || y % 400 == 0)
  }

  function DaysIn(m: nat, y: nat): nat {
    if m == 2 then (if IsLeap(y) then 29 else 28)
    else if m == 4 || m == 6 || m == 9 || m == 11 then 30
    else 31
  }

  /** Days in the years 0 .. y-1 of the proleptic Gregorian calendar. */
  function DaysBeforeYear(y: nat): nat {
    365 * y + (y + 3) / 4 - (y + 99) / 100 + (y + 399) / 400
  }

  function DaysBeforeMonth(m: nat, y: nat): nat
    requires 1 <= m <= 12
  {
    [0, 31, 59, 90, 120, 151, 181, 212, 243, 273, 304, 334][m - 1]
    + (if m > 2 && IsLeap(y) then 1 else 0)
  }

  /** Midnight UTC of a calendar date. */
  function Midnight(y: nat, m: nat, d: nat): Time
    requires 1 <= m <= 12
  {
    (DaysBeforeYear(y) - DaysBeforeYear(1970) + DaysBeforeMonth(m, y) + d - 1) * Day
  }

  predicate IsDecimal(s: string) {
    forall i :: 0 <= i < |s| ==> '0' <= s[i] <= '9'
  }

  function DecimalValue(s: string): nat
    requires IsDecimal(s)
    decreases |s|
  {
    if |s| == 0 then 0 else DecimalValue(s[..|s| - 1]) * 10 + (s[|s| - 1] as int - '0' as int)
  }

  /** The year field of a YYYY-MM-DD string. */
  function YearOf(s: string): nat
    requires |s| >= 4 && IsDecimal(s[..4])
  {
    DecimalValue(s[..4])
  }

  /** time.Parse("2006-01-02", s): exactly four year digits, two month digits
      with 1 <= month <= 12 and two day digits within the month; the result is
      midnight UTC of that date. Any other string is a parse error. */
  function ParseDate(s: string): (r: Option<Time>)
    ensures r.Some? ==> |s| == 10 && s[4] == '-' && s[7] == '-' && IsDecimal(s[..4])
  {
    if |s| == 10 && IsDecimal(s[..4]) && s[4] == '-' && IsDecimal(s[5..7]) && s[7] == '-'
       && IsDecimal(s[8..10]) then
      var y, m, d := DecimalValue(s[..4]), DecimalValue(s[5..7]), DecimalValue(s[8..10]);
      if 1 <= m <= 12 && 1 <= d <= DaysIn(m, y) then Some(Midnight(y, m, d)) else None
    else None
  }

  lemma MultipleOfDay(k: int)
    ensures (k * Day) % Day == 0
  {
  }

  /** time.Parse of a bare date yields midnight UTC. */
  lemma ParsedDateIsMidnight(s: string)
    requires ParseDate(s).Some?
    ensures ParseDate(s).value % Day == 0
  {
    var y, m, d := DecimalValue(s[..4]), DecimalValue(s[5..7]), DecimalValue(s[8..10]);
    MultipleOfDay(DaysBeforeYear(y) - DaysBeforeYear(1970) + DaysBeforeMonth(m, y) + d - 1);
  }

  lemma DaysBeforeYearMonotone(y: nat, z: nat)
    requires y <= z
    ensures DaysBeforeYear(y) <= DaysBeforeYear(z)
  {
  }

  /** Midnight of any day of year y is no earlier than the start of y. */
  lemma MidnightAtLeast(y: nat, m: nat, d: nat)
    requires 1 <= m <= 12 && 1 <= d
    ensures Midnight(y, m, d) >= (DaysBeforeYear(y) - DaysBeforeYear(1970)) * Day
  {
    DaysAtLeast(DaysBeforeYear(y) - DaysBeforeYear(1970) + DaysBeforeMonth(m, y) + d - 1,
                DaysBeforeYear(y) - DaysBeforeYear(1970));
  }

  lemma DaysAtLeast(a: int, b: int)
    requires a >= b
    ensures a * Day >= b * Day
  {
  }

  /** The value a successful ParseDate gives, in terms of the fields. */
  lemma ParsedMidnight(s: string)
    requires ParseDate(s).Some?
    ensures var y, m, d := DecimalValue(s[..4]), DecimalValue(s[5..7]), DecimalValue(s[8..10]);
      1 <= m <= 12 && 1 <= d && ParseDate(s).value == Midnight(y, m, d)
  {
  }

  /** A parsed date in a year after 2000 is not a Year() <= 2000 placeholder. */
  lemma ParsedDateAfter2000(s: string)
    requires ParseDate(s).Some? && YearOf(s) >= 2001
    ensures !YearAtMost2000(ParseDate(s).value)
  {
    var y, m, d := YearOf(s), DecimalValue(s[5..7]), DecimalValue(s[8..10]);
    ParsedMidnight(s);
    MidnightAtLeast(y, m, d);
    DaysBeforeYearMonotone(2001, y);
    assert DaysBeforeYear(2001) - DaysBeforeYear(1970) == 11323;
    DaysAtLeast(DaysBeforeYear(y) - DaysBeforeYear(1970), 11323);
  }

  /** A parsed date in a year after 1 is not a Year() <= 1 time. */
  lemma ParsedDateAfterYear1(s: string)
    requires ParseDate(s).Some? && YearOf(s) >= 2
    ensures !YearAtMost1(ParseDate(s).value)
  {
    var y, m, d := YearOf(s), DecimalValue(s[5..7]), DecimalValue(s[8..10]);
    ParsedMidnight(s);
    MidnightAtLeast(y, m, d);
    DaysBeforeYearMonotone(2, y);
    assert DaysBeforeYear(2) - DaysBeforeYear(1970) == -718797;
    DaysAtLeast(DaysBeforeYear(y) - DaysBeforeYear(1970), -718797);
  }
}
