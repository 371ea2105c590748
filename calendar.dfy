/**
 * The proleptic Gregorian calendar of Python's `datetime.date`: validity,
 * the one-day step `date + timedelta(days=1)`, comparison, the day ordinal
 * (`date.toordinal()`) and the weekday (`date.weekday()`, Monday = 0).
 */
module Calendar {

  datatype Date = Date(year: int, month: int, day: int)

  /** `datetime.MINYEAR` and `datetime.MAXYEAR`. */
  const MIN_YEAR := 1
  const MAX_YEAR := 9999

  /** `date.max`; adding a day to it raises OverflowError. */
  const MAX_DATE := Date(9999, 12, 31)

  /** `date.weekday()` of a Sunday. */
  const SUNDAY := 6

  predicate IsLeapYear(y: int) {
    y % 4 == 0 && (y % 100 != 0 || y % 400 == 0)
  }

  function DaysInMonth(y: int, m: int): int {
    if m == 2 then (if IsLeapYear(y) then 29 else 28)
    else if m == 4 || m == 6 || m == 9 || m == 11 then 30
    else 31
  }

  function DaysInYear(y: int): int {
    if IsLeapYear(y) then 366 else 365
  }

  /** The dates a `datetime.date` object can hold. */
  predicate IsValid(d: Date) {
    MIN_YEAR <= d.year <= MAX_YEAR && 1 <= d.month <= 12 && 1 <= d.day <= DaysInMonth(d.year, d.month)
  }

  /** Python's `<` on dates: (year, month, day) compared lexicographically. */
  predicate Before(a: Date, b: Date) {
    a.year < b.year
    || (a.year == b.year && a.month < b.month)
    || (a.year == b.year && a.month == b.month && a.day < b.day)
  }

  /** Python's `<=` on dates. */
  predicate NotAfter(a: Date, b: Date) {
    a == b || Before(a, b)
  }

  /**
   * `d + timedelta(days=1)`. On `date.max` this gives a date of year 10000,
   * which is not valid: that is where Python raises OverflowError.
   */
  function NextDay(d: Date): (r: Date)
    ensures IsValid(d) ==> (IsValid(r) <==> d != MAX_DATE)
    ensures IsValid(d) ==> Before(d, r)
  {
    if d.day < DaysInMonth(d.year, d.month) then Date(d.year, d.month, d.day + 1)
    else if d.month < 12 then Date(d.year, d.month + 1, 1)
    else Date(d.year + 1, 1, 1)
  }

  /** Days in the years before `y` (the shape of CPython's `_days_before_year`). */
  function DaysBeforeYear(y: int): int {
    var p := y - 1;
    365 * p + p / 4 - p / 100 + p / 400
  }

  /** Days in the months of year `y` before month `m` (CPython's `_days_before_month`). */
  function DaysBeforeMonth(y: int, m: int): int {
    var common :=
      if m <= 1 then 0 else if m == 2 then 31 else if m == 3 then 59
      else if m == 4 then 90 else if m == 5 then 120 else if m == 6 then 151
      else if m == 7 then 181 else if m == 8 then 212 else if m == 9 then 243
      else if m == 10 then 273 else if m == 11 then 304 else 334;
    common + (if m > 2 && IsLeapYear(y) then 1 else 0)
  }

  /** `date.toordinal()`: 0001-01-01 is day 1. */
  function Ordinal(d: Date): int {
    DaysBeforeYear(d.year) + DaysBeforeMonth(d.year, d.month) + d.day
  }

  /** `date.weekday()`: Monday is 0 and Sunday is 6. */
  function Weekday(d: Date): (w: int)
    ensures 0 <= w < 7
  {
    (Ordinal(d) + 6) % 7
  }

  /** Whole years add 365 days, and one more in a leap year. */
  lemma DaysBeforeNextYear(y: int)
    requires y >= 1
    ensures DaysBeforeYear(y + 1) == DaysBeforeYear(y) + DaysInYear(y)
  {
    LeapCountStep(y - 1);
  }

  /**
   * Going from `p` to `p + 1` raises `p / k` exactly when `k` divides `p + 1`,
   * for the three divisors of the leap-year rule, which nest.
   */
  lemma LeapCountStep(p: int)
    requires p >= 0
    ensures (p + 1) / 4 == p / 4 + (if (p + 1) % 4 == 0 then 1 else 0)
    ensures (p + 1) / 100 == p / 100 + (if (p + 1) % 100 == 0 then 1 else 0)
    ensures (p + 1) / 400 == p / 400 + (if (p + 1) % 400 == 0 then 1 else 0)
    ensures (p + 1) % 400 == 0 ==> (p + 1) % 100 == 0
    ensures (p + 1) % 100 == 0 ==> (p + 1) % 4 == 0
  {
  }

  /** The ordinal counts days: the next day is exactly one further on. */
  lemma OrdinalOfNextDay(d: Date)
    requires IsValid(d)
    ensures Ordinal(NextDay(d)) == Ordinal(d) + 1
  {
    if d.day < DaysInMonth(d.year, d.month) {
      assert NextDay(d) == Date(d.year, d.month, d.day + 1);
    } else if d.month < 12 {
      assert NextDay(d) == Date(d.year, d.month + 1, 1);
      MonthsAddUp(d.year, d.month);
    } else {
      assert NextDay(d) == Date(d.year + 1, 1, 1);
      MonthsAddUp(d.year, 12);
      DaysBeforeNextYear(d.year);
    }
  }

  /** The months before `m + 1` are those before `m` and `m` itself; twelve make a year. */
  lemma MonthsAddUp(y: int, m: int)
    requires 1 <= m <= 12
    ensures m < 12 ==> DaysBeforeMonth(y, m + 1) == DaysBeforeMonth(y, m) + DaysInMonth(y, m)
    ensures m == 12 ==> DaysBeforeMonth(y, m) + DaysInMonth(y, m) == DaysInYear(y)
  {
  }

  /** The weekday advances by one, wrapping from Sunday to Monday. */
  lemma WeekdayOfNextDay(d: Date)
    requires IsValid(d)
    ensures Weekday(NextDay(d)) == (Weekday(d) + 1) % 7
  {
    OrdinalOfNextDay(d);
    ModSevenStep(Ordinal(d) + 6);
  }

  lemma ModSevenStep(n: int)
    ensures (n + 1) % 7 == (n % 7 + 1) % 7
  {
    assert n == 7 * (n / 7) + n % 7;
    if n % 7 == 6 {
      assert n + 1 == 7 * (n / 7 + 1);
    } else {
      assert n + 1 == 7 * (n / 7) + (n % 7 + 1);
    }
  }

  /** No valid date lies strictly between a date and the next day. */
  lemma NextDayIsImmediate(a: Date, b: Date)
    requires IsValid(a) && IsValid(b) && Before(a, b)
    ensures NotAfter(NextDay(a), b)
  {
  }

  /** Adding a day preserves `<=`. */
  lemma NextDayMonotone(a: Date, b: Date)
    requires IsValid(a) && IsValid(b) && NotAfter(a, b)
    ensures NotAfter(NextDay(a), NextDay(b))
  {
    if a != b {
      NextDayIsImmediate(a, b);
    }
  }

  /** `date.max` is a Friday, so a valid Sunday always has a valid next day. */
  lemma MaxDateIsFriday()
    ensures Weekday(MAX_DATE) == 4
  {
  }
}
