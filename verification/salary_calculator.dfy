/** The salary calculator (src/utils/salaryCalculator.ts): pay for one day
    from its shift type, its weekday and the pay rules, and the monthly
    summary over every shift of a given year and month, including the
    weekly-holiday-pay accrual.

    Amounts are exact reals; the monthly amounts are rounded once, at the
    end, with `Math.round`. */
module SalaryCalculator {
  import opened Calendar
  import opened ShiftStore
  import opened SalaryStore
  import DateKey

  datatype DailySalary = DailySalary(
    date: Date,
    shiftType: ShiftType,
    basePay: real,
    nightAllowance: real,
    weekendAllowance: real,
    holidayAllowance: real,
    totalPay: real)

  datatype MonthlySalary = MonthlySalary(
    totalPay: int,
    basePay: int,
    nightAllowance: int,
    weekendAllowance: int,
    holidayAllowance: int,
    weeklyHolidayPay: int,
    workDays: int,
    dayShiftCount: int,
    nightShiftCount: int,
    eveningShiftCount: int,
    offDays: int)

  /** JavaScript `Math.round`: the nearest integer, halves rounded up. */
  function Round(x: real): (n: int)
    ensures x - 0.5 < n as real <= x + 0.5
  {
    (x + 0.5).Floor
  }

  /** JavaScript `Math.ceil`. */
  function Ceil(x: real): (n: int)
    ensures n as real - 1.0 < x <= n as real
  {
    -((-x).Floor)
  }

  /** `isWeekend`: Saturday or Sunday. */
  predicate IsWeekend(d: Date) {
    Weekday(d) == 0 || Weekday(d) == 6
  }

  /** The paid hours the rules give one shift of type `t`; none for a day off. */
  function ShiftHours(t: ShiftType, s: SalarySettings): real {
    match t
    case Day => s.dayShiftHours
    case Night => s.nightShiftHours
    case Evening => s.eveningShiftHours
    case Off => 0.0
  }

  /** The pay rules for one day of type `r.shiftType`: nothing for a day
      off; otherwise the wage times the type's hours, the night allowance on
      night shifts only, the weekend allowance on weekends only (both as a
      fraction of the base), no holiday allowance, and a total that is the
      sum of the parts. */
  predicate PaidByTheRules(r: DailySalary, s: SalarySettings, weekend: bool) {
    && (r.shiftType == Off ==> r.basePay == 0.0 && r.nightAllowance == 0.0 && r.weekendAllowance == 0.0
                               && r.holidayAllowance == 0.0 && r.totalPay == 0.0)
    && (r.shiftType != Off ==> r.basePay == s.hourlyWage * ShiftHours(r.shiftType, s))
    && r.nightAllowance == (if r.shiftType == Night then r.basePay * s.nightAllowanceRate else 0.0)
    && r.weekendAllowance == (if r.shiftType != Off && weekend then r.basePay * s.weekendAllowanceRate else 0.0)
    && r.holidayAllowance == 0.0
    && r.totalPay == r.basePay + r.nightAllowance + r.weekendAllowance + r.holidayAllowance
  }

  /** The base pay of one shift of type `t`: the wage times the type's hours. */
  function BasePay(t: ShiftType, s: SalarySettings): real {
    match t
    case Day => s.hourlyWage * s.dayShiftHours
    case Night => s.hourlyWage * s.nightShiftHours
    case Evening => s.hourlyWage * s.eveningShiftHours
    case Off => 0.0
  }

  /** `calculateDailySalary(dateStr, shiftType, settings)`. */
  function CalculateDailySalary(date: Date, t: ShiftType, s: SalarySettings): (r: DailySalary)
    ensures r.date == date && r.shiftType == t
    ensures PaidByTheRules(r, s, IsWeekend(date))
  {
    DailySalary(
      date, t, BasePay(t, s),
      if t == Night then BasePay(t, s) * s.nightAllowanceRate else 0.0,
      if t != Off && IsWeekend(date) then BasePay(t, s) * s.weekendAllowanceRate else 0.0,
      0.0,
      BasePay(t, s)
      + (if t == Night then BasePay(t, s) * s.nightAllowanceRate else 0.0)
      + (if t != Off && IsWeekend(date) then BasePay(t, s) * s.weekendAllowanceRate else 0.0)
      + 0.0)
  }

  // ---------------------------------------------------------------------------
  // Reference: the monthly summary as a closed form over counts

  /** How many shifts of a month fall in each (type, weekend) slot. */
  datatype Counts = Counts(
    dayWeekday: nat, dayWeekend: nat,
    nightWeekday: nat, nightWeekend: nat,
    eveningWeekday: nat, eveningWeekend: nat,
    offWeekday: nat, offWeekend: nat)

  /** The number of shifts counted, over all slots. */
  function CountTotal(c: Counts): nat {
    c.dayWeekday + c.dayWeekend + c.nightWeekday + c.nightWeekend
    + c.eveningWeekday + c.eveningWeekend + c.offWeekday + c.offWeekend
  }

  const NoCounts := Counts(0, 0, 0, 0, 0, 0, 0, 0)

  /** One more shift in slot `(t, weekend)`. */
  function Tally(c: Counts, t: ShiftType, weekend: bool): Counts {
    match t
    case Day => if weekend then c.(dayWeekend := c.dayWeekend + 1) else c.(dayWeekday := c.dayWeekday + 1)
    case Night => if weekend then c.(nightWeekend := c.nightWeekend + 1) else c.(nightWeekday := c.nightWeekday + 1)
    case Evening => if weekend then c.(eveningWeekend := c.eveningWeekend + 1) else c.(eveningWeekday := c.eveningWeekday + 1)
    case Off => if weekend then c.(offWeekend := c.offWeekend + 1) else c.(offWeekday := c.offWeekday + 1)
  }

  /** Whether `d` is in the target month. The program tests whether the key
      starts with `${year}-${pad2(month)}`; `String(year)` has no leading
      zeros, so a target year without four digits selects nothing, and
      otherwise the test is `(year, month)` equality (`InMonthIsPrefixTest`). */
  predicate InMonth(d: Date, year: int, month: int) {
    1000 <= year <= 9999 && d.year == year && d.month == month
  }

  /** The month's entries among `keys`. */
  function MonthKeys(shifts: map<Date, ShiftType>, keys: set<Date>, year: int, month: int): set<Date> {
    set d | d in keys && d in shifts && InMonth(d, year, month)
  }

  /** The month's entries among `keys` that lie in slot `(t, weekend)`. */
  function SlotKeys(shifts: map<Date, ShiftType>, keys: set<Date>, year: int, month: int,
                    t: ShiftType, weekend: bool): set<Date> {
    set d | d in keys && d in shifts && InMonth(d, year, month) && shifts[d] == t && IsWeekend(d) == weekend
  }

  function CountsOver(shifts: map<Date, ShiftType>, keys: set<Date>, year: int, month: int): Counts {
    Counts(
      |SlotKeys(shifts, keys, year, month, Day, false)|, |SlotKeys(shifts, keys, year, month, Day, true)|,
      |SlotKeys(shifts, keys, year, month, Night, false)|, |SlotKeys(shifts, keys, year, month, Night, true)|,
      |SlotKeys(shifts, keys, year, month, Evening, false)|, |SlotKeys(shifts, keys, year, month, Evening, true)|,
      |SlotKeys(shifts, keys, year, month, Off, false)|, |SlotKeys(shifts, keys, year, month, Off, true)|)
  }

  /** The slot counts of the whole map for one month. */
  function MonthCounts(shifts: map<Date, ShiftType>, year: int, month: int): Counts {
    CountsOver(shifts, shifts.Keys, year, month)
  }

  /** `n` equal amounts `x` added up. */
  function Times(n: nat, x: real): real {
    n as real * x
  }

  function BasePayOf(c: Counts, s: SalarySettings): real {
    Times(c.dayWeekday + c.dayWeekend, s.hourlyWage * s.dayShiftHours)
    + Times(c.nightWeekday + c.nightWeekend, s.hourlyWage * s.nightShiftHours)
    + Times(c.eveningWeekday + c.eveningWeekend, s.hourlyWage * s.eveningShiftHours)
  }

  function NightAllowanceOf(c: Counts, s: SalarySettings): real {
    Times(c.nightWeekday + c.nightWeekend, s.hourlyWage * s.nightShiftHours * s.nightAllowanceRate)
  }

  function WeekendAllowanceOf(c: Counts, s: SalarySettings): real {
    Times(c.dayWeekend, s.hourlyWage * s.dayShiftHours * s.weekendAllowanceRate)
    + Times(c.nightWeekend, s.hourlyWage * s.nightShiftHours * s.weekendAllowanceRate)
    + Times(c.eveningWeekend, s.hourlyWage * s.eveningShiftHours * s.weekendAllowanceRate)
  }

  /** Hours worked in the month: each shift counted with its type's hours. */
  function TotalWorkHours(dayCount: int, nightCount: int, eveningCount: int, s: SalarySettings): real {
    dayCount as real * s.dayShiftHours + nightCount as real * s.nightShiftHours
    + eveningCount as real * s.eveningShiftHours
  }

  /** The weekly-holiday-pay accrual: with `workDays` worked in the month,
      `ceil(workDays / weeklyWorkDays)` weeks each paid
      `totalWorkHours / weeklyWorkDays` hours, or nothing when the accrual is
      switched off or nothing was worked. */
  function WeeklyHolidayPay(workDays: int, totalWorkHours: real, s: SalarySettings): real
    requires s.weeklyWorkDays > 0
  {
    if s.weeklyHolidayPayEnabled && workDays > 0 then
      (totalWorkHours / s.weeklyWorkDays as real) * s.hourlyWage * Ceil(workDays as real / s.weeklyWorkDays as real) as real
    else
      0.0
  }

  /** The running figures of the monthly pass, before the accrual and before
      rounding. */
  datatype Running = Running(
    totalPay: real,
    basePay: real,
    nightAllowance: real,
    weekendAllowance: real,
    holidayAllowance: real,
    workDays: int,
    dayShiftCount: int,
    nightShiftCount: int,
    eveningShiftCount: int,
    offDays: int)

  /** The running figures that the slot counts determine. */
  function RunningOf(c: Counts, s: SalarySettings): Running {
    Running(BasePayOf(c, s) + NightAllowanceOf(c, s) + WeekendAllowanceOf(c, s) + 0.0,
            BasePayOf(c, s), NightAllowanceOf(c, s), WeekendAllowanceOf(c, s), 0.0,
            c.dayWeekday + c.dayWeekend + c.nightWeekday + c.nightWeekend + c.eveningWeekday + c.eveningWeekend,
            c.dayWeekday + c.dayWeekend, c.nightWeekday + c.nightWeekend, c.eveningWeekday + c.eveningWeekend,
            c.offWeekday + c.offWeekend)
  }

  /** The closing step: add the accrual to the total and round every amount once. */
  function Finish(a: Running, s: SalarySettings): MonthlySalary
    requires s.weeklyWorkDays > 0
  {
    MonthlySalary(
      Round(a.totalPay + AccrualOf(a, s)), Round(a.basePay), Round(a.nightAllowance), Round(a.weekendAllowance),
      Round(a.holidayAllowance), Round(AccrualOf(a, s)),
      a.workDays, a.dayShiftCount, a.nightShiftCount, a.eveningShiftCount, a.offDays)
  }

  /** The weekly-holiday-pay accrual for the running figures. */
  function AccrualOf(a: Running, s: SalarySettings): real
    requires s.weeklyWorkDays > 0
  {
    WeeklyHolidayPay(a.workDays, TotalWorkHours(a.dayShiftCount, a.nightShiftCount, a.eveningShiftCount, s), s)
  }

  /** The monthly summary determined by the slot counts. */
  function Summarize(c: Counts, s: SalarySettings): MonthlySalary
    requires s.weeklyWorkDays > 0
  {
    Finish(RunningOf(c, s), s)
  }

  // ---------------------------------------------------------------------------
  // calculateMonthlySalary

  /** The loop of `calculateMonthlySalary`: one pass over the map's entries,
      in whatever order, adding up the daily figures and the counters of the
      entries in the target month. */
  method AccumulateMonth(shifts: map<Date, ShiftType>, settings: SalarySettings, year: int, month: int)
    returns (a: Running)
    ensures a == RunningOf(MonthCounts(shifts, year, month), settings)
  {
    a := Running(0.0, 0.0, 0.0, 0.0, 0.0, 0, 0, 0, 0, 0);
    var todo := shifts.Keys;
    ghost var done: set<Date> := {};
    NoKeysNoCounts(shifts, year, month);
    NothingCountedNothingRunning(settings);
    while todo != {}
      invariant todo <= shifts.Keys && done == shifts.Keys - todo
      invariant a == RunningOf(CountsOver(shifts, done, year, month), settings)
      decreases todo
    {
      var date :| date in todo;
      MonthStep(shifts, done, date, year, month, settings);
      if InMonth(date, year, month) {
        var daily := CalculateDailySalary(date, shifts[date], settings);
        a := AddDaily(a, daily);
      }
      done := done + {date};
      todo := todo - {date};
    }
    assert done == shifts.Keys;
  }

  /** One loop iteration: adding an entry of the month to the counted keys
      adds that day's pay to the running figures; an entry of another month
      leaves them alone. */
  lemma MonthStep(shifts: map<Date, ShiftType>, done: set<Date>, date: Date, year: int, month: int,
                  s: SalarySettings)
    requires date in shifts && date !in done
    ensures RunningOf(CountsOver(shifts, done + {date}, year, month), s)
            == if InMonth(date, year, month)
               then AddDaily(RunningOf(CountsOver(shifts, done, year, month), s),
                             CalculateDailySalary(date, shifts[date], s))
               else RunningOf(CountsOver(shifts, done, year, month), s)
  {
    CountsOverStep(shifts, done, date, year, month);
    if InMonth(date, year, month) {
      TallyAddsDaily(CountsOver(shifts, done, year, month), CalculateDailySalary(date, shifts[date], s),
                     IsWeekend(date), s);
    }
  }

  /** `calculateMonthlySalary(shifts, settings, year, month)`: the month's
      running figures, plus the weekly-holiday-pay accrual added to the
      total, every amount rounded once at the end. */
  method CalculateMonthlySalary(shifts: map<Date, ShiftType>, settings: SalarySettings, year: int, month: int)
    returns (r: MonthlySalary)
    requires settings.weeklyWorkDays > 0
    ensures r == Summarize(MonthCounts(shifts, year, month), settings)
  {
    var a := AccumulateMonth(shifts, settings, year, month);
    var totalWorkHours := TotalWorkHours(a.dayShiftCount, a.nightShiftCount, a.eveningShiftCount, settings);
    var weeklyHolidayPay := WeeklyHolidayPay(a.workDays, totalWorkHours, settings);
    var totalPay := a.totalPay + weeklyHolidayPay;
    r := MonthlySalary(
      Round(totalPay), Round(a.basePay), Round(a.nightAllowance), Round(a.weekendAllowance),
      Round(a.holidayAllowance), Round(weeklyHolidayPay),
      a.workDays, a.dayShiftCount, a.nightShiftCount, a.eveningShiftCount, a.offDays);
    assert r == Finish(a, settings);
  }

  // ---------------------------------------------------------------------------
  // Counting lemmas

  lemma NoKeysNoCounts(shifts: map<Date, ShiftType>, year: int, month: int)
    ensures CountsOver(shifts, {}, year, month) == NoCounts
  {
    forall t: ShiftType, w: bool
      ensures SlotKeys(shifts, {}, year, month, t, w) == {}
    {
    }
  }

  /** Adding one key to the processed set adds it to its slot, if it is in
      the month, and leaves every other slot alone. */
  lemma SlotStep(shifts: map<Date, ShiftType>, keys: set<Date>, k: Date, year: int, month: int,
                 t: ShiftType, w: bool)
    requires k !in keys
    ensures |SlotKeys(shifts, keys + {k}, year, month, t, w)|
            == |SlotKeys(shifts, keys, year, month, t, w)|
               + if k in shifts && InMonth(k, year, month) && shifts[k] == t && IsWeekend(k) == w then 1 else 0
  {
    SlotKeysStep(shifts, keys, k, year, month, t, w);
  }

  lemma SlotKeysStep(shifts: map<Date, ShiftType>, keys: set<Date>, k: Date, year: int, month: int,
                     t: ShiftType, w: bool)
    ensures SlotKeys(shifts, keys + {k}, year, month, t, w)
            == SlotKeys(shifts, keys, year, month, t, w)
               + if k in shifts && InMonth(k, year, month) && shifts[k] == t && IsWeekend(k) == w then {k} else {}
  {
  }

  lemma CountsOverStep(shifts: map<Date, ShiftType>, keys: set<Date>, k: Date, year: int, month: int)
    requires k !in keys
    ensures CountsOver(shifts, keys + {k}, year, month)
            == if k in shifts && InMonth(k, year, month)
               then Tally(CountsOver(shifts, keys, year, month), shifts[k], IsWeekend(k))
               else CountsOver(shifts, keys, year, month)
  {
    SlotStep(shifts, keys, k, year, month, Day, false);
    SlotStep(shifts, keys, k, year, month, Day, true);
    SlotStep(shifts, keys, k, year, month, Night, false);
    SlotStep(shifts, keys, k, year, month, Night, true);
    SlotStep(shifts, keys, k, year, month, Evening, false);
    SlotStep(shifts, keys, k, year, month, Evening, true);
    SlotStep(shifts, keys, k, year, month, Off, false);
    SlotStep(shifts, keys, k, year, month, Off, true);
  }

  /** One entry of the month added to the running figures, as the loop body
      of `calculateMonthlySalary` does it. */
  function AddDaily(a: Running, daily: DailySalary): Running {
    Running(
      a.totalPay + daily.totalPay,
      a.basePay + daily.basePay,
      a.nightAllowance + daily.nightAllowance,
      a.weekendAllowance + daily.weekendAllowance,
      a.holidayAllowance + daily.holidayAllowance,
      a.workDays + (if daily.shiftType != Off then 1 else 0),
      a.dayShiftCount + (if daily.shiftType == Day then 1 else 0),
      a.nightShiftCount + (if daily.shiftType == Night then 1 else 0),
      a.eveningShiftCount + (if daily.shiftType == Evening then 1 else 0),
      a.offDays + (if daily.shiftType == Off then 1 else 0))
  }

  /** Counting one more shift in its slot changes the closed-form figures
      exactly as adding that day's figures does. */
  lemma TallyAddsDaily(c: Counts, daily: DailySalary, weekend: bool, s: SalarySettings)
    requires PaidByTheRules(daily, s, weekend)
    ensures RunningOf(Tally(c, daily.shiftType, weekend), s) == AddDaily(RunningOf(c, s), daily)
  {
    var c' := Tally(c, daily.shiftType, weekend);
    BaseStep(c, daily, weekend, s);
    NightStep(c, daily, weekend, s);
    WeekendStep(c, daily, weekend, s);
    var a, b := RunningOf(c, s), RunningOf(c', s);
    assert b.basePay == a.basePay + daily.basePay;
    assert b.nightAllowance == a.nightAllowance + daily.nightAllowance;
    assert b.weekendAllowance == a.weekendAllowance + daily.weekendAllowance;
  }

  lemma BaseStep(c: Counts, daily: DailySalary, weekend: bool, s: SalarySettings)
    requires PaidByTheRules(daily, s, weekend)
    ensures BasePayOf(Tally(c, daily.shiftType, weekend), s) == BasePayOf(c, s) + daily.basePay
  {
    match daily.shiftType
    case Day => TimesStep(c.dayWeekday + c.dayWeekend, s.hourlyWage * s.dayShiftHours, daily.basePay);
    case Night => TimesStep(c.nightWeekday + c.nightWeekend, s.hourlyWage * s.nightShiftHours, daily.basePay);
    case Evening => TimesStep(c.eveningWeekday + c.eveningWeekend, s.hourlyWage * s.eveningShiftHours, daily.basePay);
    case Off =>
  }

  lemma NightStep(c: Counts, daily: DailySalary, weekend: bool, s: SalarySettings)
    requires PaidByTheRules(daily, s, weekend)
    ensures NightAllowanceOf(Tally(c, daily.shiftType, weekend), s) == NightAllowanceOf(c, s) + daily.nightAllowance
  {
    if daily.shiftType == Night {
      TimesStep(c.nightWeekday + c.nightWeekend, s.hourlyWage * s.nightShiftHours * s.nightAllowanceRate,
                daily.nightAllowance);
    }
  }

  lemma WeekendStep(c: Counts, daily: DailySalary, weekend: bool, s: SalarySettings)
    requires PaidByTheRules(daily, s, weekend)
    ensures WeekendAllowanceOf(Tally(c, daily.shiftType, weekend), s) == WeekendAllowanceOf(c, s) + daily.weekendAllowance
  {
    if weekend {
      match daily.shiftType
      case Day => TimesStep(c.dayWeekend, s.hourlyWage * s.dayShiftHours * s.weekendAllowanceRate, daily.weekendAllowance);
      case Night => TimesStep(c.nightWeekend, s.hourlyWage * s.nightShiftHours * s.weekendAllowanceRate, daily.weekendAllowance);
      case Evening => TimesStep(c.eveningWeekend, s.hourlyWage * s.eveningShiftHours * s.weekendAllowanceRate, daily.weekendAllowance);
      case Off =>
    }
  }

  /** One more amount `y`, equal to `x`, on a sum of `n` amounts `x`. */
  lemma TimesStep(n: nat, x: real, y: real)
    requires y == x
    ensures Times(n + 1, x) == Times(n, x) + y
  {
  }

  lemma TallyCountsOne(c: Counts, t: ShiftType, w: bool)
    ensures CountTotal(Tally(c, t, w)) == CountTotal(c) + 1
  {
  }

  lemma MonthKeysStep(shifts: map<Date, ShiftType>, rest: set<Date>, k: Date, year: int, month: int)
    requires k !in rest
    ensures |MonthKeys(shifts, rest + {k}, year, month)|
            == |MonthKeys(shifts, rest, year, month)| + if k in shifts && InMonth(k, year, month) then 1 else 0
  {
    if k in shifts && InMonth(k, year, month) {
      assert MonthKeys(shifts, rest + {k}, year, month) == MonthKeys(shifts, rest, year, month) + {k};
    } else {
      assert MonthKeys(shifts, rest + {k}, year, month) == MonthKeys(shifts, rest, year, month);
    }
  }

  /** One more key adds one to the slot total exactly when it is an entry of
      the month. */
  lemma CountTotalStep(shifts: map<Date, ShiftType>, rest: set<Date>, k: Date, year: int, month: int)
    requires k !in rest
    ensures CountTotal(CountsOver(shifts, rest + {k}, year, month))
            == CountTotal(CountsOver(shifts, rest, year, month)) + if k in shifts && InMonth(k, year, month) then 1 else 0
  {
    CountsOverStep(shifts, rest, k, year, month);
    if k in shifts && InMonth(k, year, month) {
      TallyCountsOne(CountsOver(shifts, rest, year, month), shifts[k], IsWeekend(k));
    }
  }

  /** The slots split the month's entries: every entry of the month is in
      exactly one of them. */
  lemma {:induction false} SlotsPartitionMonth(shifts: map<Date, ShiftType>, keys: set<Date>, year: int, month: int)
    ensures CountTotal(CountsOver(shifts, keys, year, month)) == |MonthKeys(shifts, keys, year, month)|
    decreases keys
  {
    if keys == {} {
      NoKeysNoCounts(shifts, year, month);
      assert MonthKeys(shifts, keys, year, month) == {};
    } else {
      var k :| k in keys;
      var rest := keys - {k};
      assert keys == rest + {k};
      SlotsPartitionMonth(shifts, rest, year, month);
      CountTotalStep(shifts, rest, k, year, month);
      MonthKeysStep(shifts, rest, k, year, month);
    }
  }

  // ---------------------------------------------------------------------------
  // Properties of the monthly summary

  /** Only the target month's entries are counted: work days and days off
      together are the month's entries, and the work days are the day, night
      and evening shifts. */
  lemma MonthlyCountsCoverTheMonth(shifts: map<Date, ShiftType>, s: SalarySettings, year: int, month: int)
    requires s.weeklyWorkDays > 0
    ensures var r := Summarize(MonthCounts(shifts, year, month), s);
            && r.workDays + r.offDays == |MonthKeys(shifts, shifts.Keys, year, month)|
            && r.workDays == r.dayShiftCount + r.nightShiftCount + r.eveningShiftCount
  {
    SlotsPartitionMonth(shifts, shifts.Keys, year, month);
  }

  /** For every key the program writes (years 0..9999) and every target,
      `InMonth` is the program's `startsWith(targetMonth)` filter. */
  lemma InMonthIsPrefixTest(d: Date, year: int, month: int)
    requires 0 <= d.year <= 9999
    ensures InMonth(d, year, month) <==> DateKey.StartsWith(DateKey.Format(d), DateKey.TargetMonth(year, month))
  {
    DateKey.MonthPrefixTest(d, year, month);
  }

  /** A target year without four digits gives an all-zero month, whatever
      the shifts: its prefix matches no key. */
  lemma OddYearIsEmpty(shifts: map<Date, ShiftType>, s: SalarySettings, year: int, month: int)
    requires s.weeklyWorkDays > 0
    requires !(1000 <= year <= 9999)
    ensures Summarize(MonthCounts(shifts, year, month), s) == MonthlySalary(0, 0, 0, 0, 0, 0, 0, 0, 0, 0, 0)
  {
    assert MonthKeys(shifts, shifts.Keys, year, month) == {};
    EmptyMonthIsAllZero(shifts, s, year, month);
  }

  /** Entries outside the target month do not affect its summary. */
  lemma OtherMonthsDoNotMatter(a: map<Date, ShiftType>, b: map<Date, ShiftType>, year: int, month: int)
    requires forall d :: InMonth(d, year, month) ==> SameEntry(a, b, d)
    ensures MonthCounts(a, year, month) == MonthCounts(b, year, month)
  {
    forall t: ShiftType, w: bool
      ensures SlotKeys(a, a.Keys, year, month, t, w) == SlotKeys(b, b.Keys, year, month, t, w)
    {
      forall d | d in SlotKeys(a, a.Keys, year, month, t, w)
        ensures d in SlotKeys(b, b.Keys, year, month, t, w)
      {
        assert SameEntry(a, b, d);
      }
      forall d | d in SlotKeys(b, b.Keys, year, month, t, w)
        ensures d in SlotKeys(a, a.Keys, year, month, t, w)
      {
        assert SameEntry(a, b, d);
      }
    }
  }

  /** A month without entries gives all sums and counts zero. */
  lemma EmptyMonthIsAllZero(shifts: map<Date, ShiftType>, s: SalarySettings, year: int, month: int)
    requires s.weeklyWorkDays > 0
    requires MonthKeys(shifts, shifts.Keys, year, month) == {}
    ensures Summarize(MonthCounts(shifts, year, month), s) == MonthlySalary(0, 0, 0, 0, 0, 0, 0, 0, 0, 0, 0)
  {
    SlotsPartitionMonth(shifts, shifts.Keys, year, month);
    assert MonthCounts(shifts, year, month) == NoCounts;
    NothingCountedNothingPaid(s);
  }

  lemma NothingCountedNothingRunning(s: SalarySettings)
    ensures RunningOf(NoCounts, s) == Running(0.0, 0.0, 0.0, 0.0, 0.0, 0, 0, 0, 0, 0)
  {
  }

  lemma NothingCountedNothingPaid(s: SalarySettings)
    requires s.weeklyWorkDays > 0
    ensures Summarize(NoCounts, s) == MonthlySalary(0, 0, 0, 0, 0, 0, 0, 0, 0, 0, 0)
  {
    var a := RunningOf(NoCounts, s);
    assert a == Running(0.0, 0.0, 0.0, 0.0, 0.0, 0, 0, 0, 0, 0);
    assert AccrualOf(a, s) == 0.0;
    assert Round(0.0) == 0;
  }

  /** The pay of one accrued week: the month's hours spread over the
      contractual work days, at the hourly wage. */
  function WeekPay(totalWorkHours: real, s: SalarySettings): real
    requires s.weeklyWorkDays > 0
  {
    (totalWorkHours / s.weeklyWorkDays as real) * s.hourlyWage
  }

  /** The accrual is nothing unless it is switched on and something was
      worked; otherwise `ceil` pays at least the pro-rata share of the worked
      weeks and less than one extra week on top. */
  lemma WeeklyHolidayPayBracket(workDays: int, totalWorkHours: real, s: SalarySettings)
    requires s.weeklyWorkDays > 0
    requires totalWorkHours >= 0.0 && s.hourlyWage >= 0.0
    ensures !(s.weeklyHolidayPayEnabled && workDays > 0) ==> WeeklyHolidayPay(workDays, totalWorkHours, s) == 0.0
    ensures s.weeklyHolidayPayEnabled && workDays > 0 ==>
              ProRata(workDays, totalWorkHours, s) <= WeeklyHolidayPay(workDays, totalWorkHours, s)
    ensures s.weeklyHolidayPayEnabled && workDays > 0 && WeekPay(totalWorkHours, s) > 0.0 ==>
              WeeklyHolidayPay(workDays, totalWorkHours, s) < ProRata(workDays, totalWorkHours, s) + WeekPay(totalWorkHours, s)
  {
    if s.weeklyHolidayPayEnabled && workDays > 0 {
      var weekPay := WeekPay(totalWorkHours, s);
      var exactWeeks := workDays as real / s.weeklyWorkDays as real;
      var weeks := Ceil(exactWeeks);
      assert WeeklyHolidayPay(workDays, totalWorkHours, s) == weekPay * weeks as real;
      assert weekPay >= 0.0;
      MultiplyBracket(weekPay, exactWeeks, weeks as real, ProRata(workDays, totalWorkHours, s),
                      WeeklyHolidayPay(workDays, totalWorkHours, s));
    }
  }

  /** The accrual without rounding the weeks up: the worked fraction of a
      week times a week's pay. */
  function ProRata(workDays: int, totalWorkHours: real, s: SalarySettings): real
    requires s.weeklyWorkDays > 0
  {
    WeekPay(totalWorkHours, s) * (workDays as real / s.weeklyWorkDays as real)
  }

  /** `v = p * n`, with `n` the ceiling of `x`, lies in `[p * x, p * x + p)`. */
  lemma MultiplyBracket(p: real, x: real, n: real, lo: real, v: real)
    requires p >= 0.0 && x <= n < x + 1.0
    requires lo == p * x && v == p * n
    ensures lo <= v
    ensures p > 0.0 ==> v < lo + p
  {
    assert p * (n - x) >= 0.0;
    if p > 0.0 {
      var gap := x + 1.0 - n;
      assert gap > 0.0;
      var pg := p * gap;
      assert pg > 0.0;
      assert pg == lo + p - v;
    }
  }

  /** Each amount is rounded on its own, so the returned total can differ
      from the sum of the returned parts by at most 2. */
  lemma RoundingResidueIsSmall(c: Counts, s: SalarySettings)
    requires s.weeklyWorkDays > 0
    ensures var r := Summarize(c, s);
            var parts := r.basePay + r.nightAllowance + r.weekendAllowance + r.holidayAllowance + r.weeklyHolidayPay;
            -2 <= r.totalPay - parts <= 2
  {
  }

  // ---------------------------------------------------------------------------
  // Worked cases

  /** A Saturday night shift at 10000 an hour for 8 hours, night rate 0.5 and
      weekend rate 0.3: both allowances are paid on top of the base. */
  lemma SaturdayNightStacksAllowances(s: SalarySettings)
    requires s.hourlyWage == 10000.0 && s.nightShiftHours == 8.0
    requires s.nightAllowanceRate == 0.5 && s.weekendAllowanceRate == 0.3
    ensures var r := CalculateDailySalary(CivilDate(2024, 1, 6), Night, s);
            r.basePay == 80000.0 && r.nightAllowance == 40000.0 && r.weekendAllowance == 24000.0
            && r.holidayAllowance == 0.0 && r.totalPay == 144000.0
  {
    KnownWeekdays();
  }

  /** Twenty weekday day shifts and ten days off under the default rules:
      base 1,600,000, four accrued weeks of 32 hours (1,280,000), total
      2,880,000. */
  lemma TwentyDayShiftMonth()
    ensures Summarize(Counts(20, 0, 0, 0, 0, 0, 10, 0), DefaultSettings)
            == MonthlySalary(2880000, 1600000, 0, 0, 0, 1280000, 20, 20, 0, 0, 10)
  {
    var c := Counts(20, 0, 0, 0, 0, 0, 10, 0);
    assert Ceil(20.0 / 5.0) == 4;
    assert WeeklyHolidayPay(20, TotalWorkHours(20, 0, 0, DefaultSettings), DefaultSettings) == 1280000.0;
    assert BasePayOf(c, DefaultSettings) == 1600000.0;
  }
}
