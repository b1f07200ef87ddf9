/** Proleptic-Gregorian civil dates.

    The app keys everything by calendar day and walks date ranges
    with JavaScript `Date` objects and date-fns helpers. Here a day is a valid
    `(year, month, day)` triple; `Ordinal` numbers the days consecutively, which
    is what comparing two `Date` objects at midnight amounts to, and `Next`
    is `setDate(getDate() + 1)` / `addDays(d, 1)`. */
module Calendar {

  datatype CivilDate = CivilDate(year: int, month: int, day: int)

  predicate IsLeapYear(y: int) {
    (y % 4 == 0 && y % 100 != 0) || y % 400 == 0
  }

  function DaysInYear(y: int): int {
    if IsLeapYear(y) then 366 else 365
  }

  function DaysInMonth(y: int, m: int): int
    requires 1 <= m <= 12
  {
    if m == 2 then (if IsLeapYear(y) then 29 else 28)
    else if m == 4 || m == 6 || m == 9 || m == 11 then 30
    else 31
  }

  predicate ValidDate(d: CivilDate) {
    1 <= d.month <= 12 && 1 <= d.day <= DaysInMonth(d.year, d.month)
  }

  /** A calendar day. */
  type Date = d: CivilDate | ValidDate(d) witness CivilDate(1970, 1, 1)

  /** Days from 0001-01-01 to the first day of year `y` (negative before it). */
  function DaysBeforeYear(y: int): int {
    365 * (y - 1) + (y - 1) / 4 - (y - 1) / 100 + (y - 1) / 400
  }

  /** Days from the first of January to the first day of month `m`. */
  function DaysBeforeMonth(y: int, m: int): int
    requires 1 <= m <= 12
  {
    var leap := if IsLeapYear(y) then 1 else 0;
    if m == 1 then 0
    else if m == 2 then 31
    else if m == 3 then 59 + leap
    else if m == 4 then 90 + leap
    else if m == 5 then 120 + leap
    else if m == 6 then 151 + leap
    else if m == 7 then 181 + leap
    else if m == 8 then 212 + leap
    else if m == 9 then 243 + leap
    else if m == 10 then 273 + leap
    else if m == 11 then 304 + leap
    else 334 + leap
  }

  /** Consecutive day number; 0001-01-01 is day 0. */
  function Ordinal(d: Date): int {
    DaysBeforeYear(d.year) + DaysBeforeMonth(d.year, d.month) + d.day - 1
  }

  /** Chronological order, as JavaScript compares two `Date` values. */
  predicate Before(a: Date, b: Date) {
    Ordinal(a) < Ordinal(b)
  }

  predicate NotAfter(a: Date, b: Date) {
    Ordinal(a) <= Ordinal(b)
  }

  /** `lo <= d <= hi`: the inclusive range walked by the loops of the program. */
  predicate InRange(d: Date, lo: Date, hi: Date) {
    Ordinal(lo) <= Ordinal(d) <= Ordinal(hi)
  }

  /** Order of the `(year, month, day)` fields, most significant first. */
  predicate FieldsBefore(a: CivilDate, b: CivilDate) {
    a.year < b.year
    || (a.year == b.year && a.month < b.month)
    || (a.year == b.year && a.month == b.month && a.day < b.day)
  }

  /** The following calendar day. */
  function Next(d: Date): (r: Date)
    ensures Ordinal(r) == Ordinal(d) + 1
  {
    if d.day < DaysInMonth(d.year, d.month) then
      CivilDate(d.year, d.month, d.day + 1)
    else if d.month < 12 then
      DaysBeforeMonthStep(d.year, d.month);
      CivilDate(d.year, d.month + 1, 1)
    else
      DaysBeforeYearStep(d.year);
      CivilDate(d.year + 1, 1, 1)
  }

  /** date-fns `addDays(d, n)` for `n >= 0`. */
  function AddDays(d: Date, n: nat): (r: Date)
    ensures Ordinal(r) == Ordinal(d) + n
  {
    if n == 0 then d else Next(AddDays(d, n - 1))
  }

  /** date-fns `differenceInDays(later, earlier)` on two midnights. */
  function DifferenceInDays(later: Date, earlier: Date): int {
    Ordinal(later) - Ordinal(earlier)
  }

  /** JavaScript `getDay()`: 0 is Sunday, 6 is Saturday. 0001-01-01 was a Monday. */
  function Weekday(d: Date): (w: int)
    ensures 0 <= w < 7
  {
    (Ordinal(d) + 1) % 7
  }

  // ---------------------------------------------------------------------------
  // Lemmas

  lemma DaysBeforeYearStep(y: int)
    ensures DaysBeforeYear(y + 1) == DaysBeforeYear(y) + DaysInYear(y)
  {
    assert y / 4 - (y - 1) / 4 == (if y % 4 == 0 then 1 else 0);
    assert y / 100 - (y - 1) / 100 == (if y % 100 == 0 then 1 else 0);
    assert y / 400 - (y - 1) / 400 == (if y % 400 == 0 then 1 else 0);
  }

  lemma DaysBeforeMonthStep(y: int, m: int)
    requires 1 <= m <= 12
    ensures m < 12 ==> DaysBeforeMonth(y, m + 1) == DaysBeforeMonth(y, m) + DaysInMonth(y, m)
    ensures m == 12 ==> DaysBeforeMonth(y, m) + DaysInMonth(y, m) == DaysInYear(y)
  {
  }

  /** The ordinal of a date stays inside its year. */
  lemma WithinYear(d: Date)
    ensures DaysBeforeYear(d.year) <= Ordinal(d) < DaysBeforeYear(d.year + 1)
  {
    DaysBeforeYearStep(d.year);
  }

  lemma {:induction false} DaysBeforeYearMonotone(y1: int, y2: int)
    requires y1 <= y2
    ensures DaysBeforeYear(y1) <= DaysBeforeYear(y2)
    decreases y2 - y1
  {
    if y1 < y2 {
      DaysBeforeYearStep(y1);
      DaysBeforeYearMonotone(y1 + 1, y2);
    }
  }

  /** Chronological order is the order of the date's fields. */
  lemma OrdinalOrder(a: Date, b: Date)
    ensures Before(a, b) <==> FieldsBefore(a, b)
  {
    WithinYear(a);
    WithinYear(b);
    if a.year < b.year {
      DaysBeforeYearMonotone(a.year + 1, b.year);
    } else if b.year < a.year {
      DaysBeforeYearMonotone(b.year + 1, a.year);
    }
  }

  /** Two dates with the same ordinal are the same date. */
  lemma OrdinalInjective(a: Date, b: Date)
    requires Ordinal(a) == Ordinal(b)
    ensures a == b
  {
    OrdinalOrder(a, b);
    OrdinalOrder(b, a);
  }

  /** Each ordinal in a range is reached by `AddDays` from the range's start. */
  lemma AddDaysReaches(start: Date, d: Date)
    requires Ordinal(start) <= Ordinal(d)
    ensures AddDays(start, Ordinal(d) - Ordinal(start)) == d
  {
    OrdinalInjective(AddDays(start, Ordinal(d) - Ordinal(start)), d);
  }

  /** Nothing lies strictly between a date and its successor. */
  lemma NextIsImmediateSuccessor(d: Date, x: Date)
    ensures Before(d, Next(d))
    ensures Before(d, x) ==> NotAfter(Next(d), x)
  {
  }

  /** Consecutive days have consecutive weekdays. */
  lemma WeekdayOfNext(d: Date)
    ensures Weekday(Next(d)) == (Weekday(d) + 1) % 7
  {
    var k := Ordinal(d) + 1;
    assert Ordinal(Next(d)) + 1 == k + 1;
    SuccessorMod7(k);
  }

  lemma SuccessorMod7(k: int)
    ensures (k + 1) % 7 == (k % 7 + 1) % 7
  {
    var q := k / 7;
    assert k == 7 * q + k % 7;
    if k % 7 == 6 {
      assert k + 1 == 7 * (q + 1);
    } else {
      assert k + 1 == 7 * q + (k % 7 + 1);
    }
  }

  /** Reference points: 1970-01-01 was a Thursday and 2024-01-06 a Saturday. */
  lemma KnownWeekdays()
    ensures Weekday(CivilDate(1970, 1, 1)) == 4
    ensures Weekday(CivilDate(2024, 1, 6)) == 6
    ensures Weekday(CivilDate(2024, 1, 7)) == 0
  {
  }
}
