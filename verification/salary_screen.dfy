/** The month cursor of the salary screen (app/salary.tsx): a selected year
    and month, starting at today's month, moved one month back or forward by
    the arrow buttons, and handed to `calculateMonthlySalary`. */
module SalaryScreen {
  import opened Calendar
  import opened ShiftStore
  import opened SalaryStore
  import opened SalaryCalculator

  datatype Cursor = Cursor(year: int, month: int)

  /** A cursor whose month is a calendar month, 1 to 12. */
  predicate ValidCursor(c: Cursor) {
    1 <= c.month <= 12
  }

  /** The cursor as a count of months: January of year 0 is 0. */
  function MonthIndex(c: Cursor): int {
    12 * c.year + c.month - 1
  }

  /** The cursor the screen opens on: the year and month of `today`. */
  function InitialCursor(today: Date): (c: Cursor)
    ensures ValidCursor(c)
    ensures Cursor(today.year, today.month) == c
  {
    Cursor(today.year, today.month)
  }

  /** `handlePrevMonth`. */
  function PrevMonth(c: Cursor): (r: Cursor)
    ensures ValidCursor(c) ==> ValidCursor(r) && MonthIndex(r) == MonthIndex(c) - 1
  {
    if c.month == 1 then Cursor(c.year - 1, 12) else Cursor(c.year, c.month - 1)
  }

  /** `handleNextMonth`. */
  function NextMonth(c: Cursor): (r: Cursor)
    ensures ValidCursor(c) ==> ValidCursor(r) && MonthIndex(r) == MonthIndex(c) + 1
  {
    if c.month == 12 then Cursor(c.year + 1, 1) else Cursor(c.year, c.month + 1)
  }

  /** `n` presses of the forward arrow. */
  function Forward(c: Cursor, n: nat): Cursor
    decreases n
  {
    if n == 0 then c else Forward(NextMonth(c), n - 1)
  }

  /** The summary the screen shows for the cursor's month. */
  method MonthShown(shifts: map<Date, ShiftType>, settings: SalarySettings, c: Cursor) returns (r: MonthlySalary)
    requires settings.weeklyWorkDays > 0
    ensures r == Summarize(MonthCounts(shifts, c.year, c.month), settings)
  {
    r := CalculateMonthlySalary(shifts, settings, c.year, c.month);
  }

  // ---------------------------------------------------------------------------
  // Lemmas

  /** A valid cursor is determined by its month count. */
  lemma MonthIndexInjective(a: Cursor, b: Cursor)
    requires ValidCursor(a) && ValidCursor(b)
    ensures MonthIndex(a) == MonthIndex(b) <==> a == b
  {
  }

  /** Back then forward, or forward then back, returns to the same month. */
  lemma PrevNextInverse(c: Cursor)
    requires ValidCursor(c)
    ensures NextMonth(PrevMonth(c)) == c
    ensures PrevMonth(NextMonth(c)) == c
  {
  }

  /** `n` forward presses advance the month count by `n` and keep the cursor valid. */
  lemma {:induction false} ForwardAdvances(c: Cursor, n: nat)
    requires ValidCursor(c)
    ensures ValidCursor(Forward(c, n))
    ensures MonthIndex(Forward(c, n)) == MonthIndex(c) + n
    decreases n
  {
    if n > 0 {
      ForwardAdvances(NextMonth(c), n - 1);
    }
  }

  /** Twelve forward presses reach the same month of the next year. */
  lemma TwelveMonthsIsAYear(c: Cursor)
    requires ValidCursor(c)
    ensures Forward(c, 12) == Cursor(c.year + 1, c.month)
  {
    ForwardAdvances(c, 12);
    MonthIndexInjective(Forward(c, 12), Cursor(c.year + 1, c.month));
  }
}
