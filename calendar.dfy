/** The proleptic Gregorian calendar of Python's `datetime`, and the integer timestamps the model
    uses in place of `datetime` objects. */
module Calendar {

  /** A naive `datetime.datetime`: civil date and wall-clock time, no time zone. */
  datatype DateTime = DateTime(year: int, month: int, day: int, hour: int, minute: int, second: int)

  /** An aware timestamp as the parser produces it: the seconds from 1900-01-01T00:00:00 (the
      origin of the parser's own date arithmetic) to a wall-clock time, localised to
      Europe/Helsinki. The zone is the same for every value, so it is a tag and not a field. */
  datatype Stamp = HelsinkiTime(seconds: int)

  predicate IsLeap(y: int) {
    y % 4 == 0 && (y % 100 != 0 || y % 400 == 0)
  }

  function DaysInYear(y: int): int {
    if IsLeap(y) then 366 else 365
  }

  function DaysInMonth(y: int, m: int): (n: int)
    requires 1 <= m <= 12
    ensures 28 <= n <= 31
  {
    if m == 2 then (if IsLeap(y) then 29 else 28)
    else if m == 4 || m == 6 || m == 9 || m == 11 then 30
    else 31
  }

  /** The days of year `y` before the first of month `m`; `m == 13` gives the whole year. */
  function DaysBeforeMonth(y: int, m: int): int
    requires 1 <= m <= 13
  {
    if m == 1 then 0 else DaysBeforeMonth(y, m - 1) + DaysInMonth(y, m - 1)
  }

  /** The days before month `m` in a year of 365 days (Python keeps the same table). */
  const CommonYearTable: seq<int> := [0, 31, 59, 90, 120, 151, 181, 212, 243, 273, 304, 334, 365]

  /** The dates `datetime` accepts: years 1 to 9999, and a day that exists in its month. */
  predicate ValidDate(y: int, m: int, d: int) {
    1 <= y <= 9999 && 1 <= m <= 12 && 1 <= d <= DaysInMonth(y, m)
  }

  predicate Valid(dt: DateTime) {
    && ValidDate(dt.year, dt.month, dt.day)
    && 0 <= dt.hour < 24 && 0 <= dt.minute < 60 && 0 <= dt.second < 60
  }

  /** `date(y, m, d).toordinal()`: 0001-01-01 is day 1. */
  function Ordinal(y: int, m: int, d: int): int
    requires 1 <= y && 1 <= m <= 12
  {
    var p := y - 1;
    p * 365 + p / 4 - p / 100 + p / 400 + DaysBeforeMonth(y, m) + d
  }

  /** `date(y, m, d) - date(1900, 1, 1)`, in days. */
  function DaysFrom1900(y: int, m: int, d: int): int
    requires 1 <= y && 1 <= m <= 12
  {
    Ordinal(y, m, d) - Ordinal(1900, 1, 1)
  }

  /** `dt - datetime(1900, 1, 1)`, in seconds. */
  function SecondsFrom1900(dt: DateTime): int
    requires 1 <= dt.year && 1 <= dt.month <= 12
  {
    DaysFrom1900(dt.year, dt.month, dt.day) * 86400 + dt.hour * 3600 + dt.minute * 60 + dt.second
  }

  /** `pytz.timezone("Europe/Helsinki").localize(dt)` */
  function Localize(dt: DateTime): Stamp
    requires 1 <= dt.year && 1 <= dt.month <= 12
  {
    HelsinkiTime(SecondsFrom1900(dt))
  }

  /** The first day of year `y`, as a timestamp. */
  function YearStart(y: int): int
    requires 1 <= y
  {
    DaysFrom1900(y, 1, 1) * 86400
  }

  /** The month lengths add up to Python's table, shifted by one day after February in a leap year. */
  lemma {:induction false} DaysBeforeMonthTable(y: int, m: int)
    requires 1 <= m <= 13
    ensures DaysBeforeMonth(y, m) == CommonYearTable[m - 1] + (if IsLeap(y) && m > 2 then 1 else 0)
  {
    if m > 1 {
      DaysBeforeMonthTable(y, m - 1);
    }
  }

  /** The months of a year add up to the year. */
  lemma MonthsFillYear(y: int)
    ensures DaysBeforeMonth(y, 13) == DaysInYear(y)
  {
    DaysBeforeMonthTable(y, 13);
  }

  /** A valid date lies within its year: at most `DaysInYear(y) - 1` days after January 1. */
  lemma DayOfYearBounds(y: int, m: int, d: int)
    requires ValidDate(y, m, d)
    ensures 0 <= DaysFrom1900(y, m, d) - DaysFrom1900(y, 1, 1) < DaysInYear(y)
  {
    DaysBeforeMonthTable(y, m);
    DaysBeforeMonthTable(y, m + 1);
  }

  /** Consecutive years start `DaysInYear` days apart. */
  lemma YearLength(y: int)
    requires 1 <= y
    ensures DaysFrom1900(y + 1, 1, 1) - DaysFrom1900(y, 1, 1) == DaysInYear(y)
  {
    LeapDaysStep(y);
  }

  /** The leap days counted up to year `y` exceed those up to `y - 1` by one exactly when `y` is
      a leap year. */
  lemma LeapDaysStep(y: int)
    ensures (y / 4 - y / 100 + y / 400) - ((y - 1) / 4 - (y - 1) / 100 + (y - 1) / 400)
         == if IsLeap(y) then 1 else 0
  {
    DivStep4(y);
    DivStep100(y);
    DivStep400(y);
  }

  lemma DivStep4(y: int)
    ensures y / 4 == (y - 1) / 4 + (if y % 4 == 0 then 1 else 0)
  {
  }

  lemma DivStep100(y: int)
    ensures y / 100 == (y - 1) / 100 + (if y % 100 == 0 then 1 else 0)
  {
  }

  lemma DivStep400(y: int)
    ensures y / 400 == (y - 1) / 400 + (if y % 400 == 0 then 1 else 0)
  {
  }

  /** Counting the day of year in 1900 (a common year) and adding it to January 1 of year `y`
      lands on the same month and day of `y` when `y` is a common year or the date is in January
      or February, and one day earlier otherwise. */
  lemma DayOf1900InYear(y: int, m: int, d: int)
    requires 1 <= y && 1 <= m <= 12
    ensures DaysFrom1900(y, 1, 1) + DaysFrom1900(1900, m, d)
         == DaysFrom1900(y, m, d) - (if IsLeap(y) && m > 2 then 1 else 0)
  {
    DaysBeforeMonthTable(y, m);
    DaysBeforeMonthTable(1900, m);
  }
}
