# Pongdang shift planner — a Dafny model of its core

Pongdang is a shift-work planner. A worker applies a repeating cycle of
shift types (day, night, evening, off) to a date range. The cycles and the
single-day edits that follow live in a registry from calendar day to shift
type. A salary calculator turns the registry's month into pay, using a set
of user-editable pay rules. This project models that core as pure Dafny
functions and methods over immutable data, and proves what each operation
promises.

| module | file | models |
|---|---|---|
| `Calendar` | calendar.dfy | proleptic-Gregorian civil dates, `Ordinal` day numbers, `Next`/`AddDays`, `Weekday` |
| `DateKey` | date_key.dfy | the `YYYY-MM-DD` keys (ISO 8601:2004, section 4.1.2.2) and the two string tests applied to them |
| `ShiftStore` | shift_store.dfy | the shift registry: `generateShiftsFromPattern` and the five store actions |
| `ShiftPatterns` | shift_patterns.dfy | the stand-alone `generatePongdangPattern` / `generateCustomPattern` |
| `SalaryStore` | salary_store.dfy | the pay rules: defaults, partial-merge update, reset |
| `DiarySalaryStore` | diary_store.dfy | the diary map and its legacy flat-rate record |
| `SalaryCalculator` | salary_calculator.dfy | `isWeekend`, daily pay, the monthly summary with the weekly-holiday-pay accrual |
| `SalaryScreen` | salary_screen.dfy | the salary screen's year/month cursor |

Design points:

- **Dates and keys.** The program keys its maps by `YYYY-MM-DD` strings. It
  compares them as strings when looking up a pattern group, and it selects a
  month by string prefix. The model keys maps by `Date` and uses
  chronological order and a `(year, month)` test instead. `DateKey` proves
  that these agree for keys with four-digit years:
  - `KeyOrderIsChronological` covers the order;
  - `FormatInjective` shows no two days share a key;
  - `MonthPrefixTest` covers the month filter, for every target year and
    month.
- **Monthly summary.** `calculateMonthlySalary` is a method whose loop
  visits the map's entries. The loop is proved for every visiting order, so
  it covers the insertion order that `Object.entries` uses.
  Its contract equates the result with an independent closed form,
  `Summarize`. The closed form works on the month's entries counted per
  (shift type, weekend) slot, and those counts are set cardinalities. So the
  summary depends only on the month's entries, never on visiting order.
- **Month filter.** The program selects a month by the key prefix
  `${year}-${pad2(month)}`. `String(year)` has no leading zeros, so a target
  year without four digits matches no key. `InMonth` therefore holds when the
  target year has four digits and the day lies in that year and month.
  `InMonthIsPrefixTest` proves this is the prefix test for every target year
  and month and every key of years 0..9999.
- **Money** is `real`. `Math.round` is `Floor(x + 1/2)` and `Math.ceil` is
  `-Floor(-x)`. Amounts accumulate unrounded and are rounded once, at the
  end.
- **Errors.** `generateShiftsFromPattern` raises nothing. A reversed range
  gives the empty map (`ReversedRangeIsEmpty`), and only
  `generateCustomPattern` checks for an empty cycle.
- **Moving a group.** `updatePatternGroupDates` deletes every day of the old
  range, including days inside another group's range
  (`UpdatePatternGroupDates`).

## Model

| member | source | states |
|---|---|---|
| Calendar.Next | src/store/useShiftStore.ts:51 | `setDate(getDate() + 1)` yields the calendar day whose day number is one more |
| Calendar.AddDays | src/utils/shiftPatterns.ts:11 | `addDays(start, i)` is the day `i` day numbers later |
| Calendar.Weekday | src/utils/salaryCalculator.ts:33 | `getDay()` lies in 0..6 |
| Calendar.OrdinalOrder | src/store/useShiftStore.ts:47 | comparing two days as `Date` values is comparing their (year, month, day) fields, most significant first |
| Calendar.OrdinalInjective | src/store/useShiftStore.ts:48 | two days with the same day number are the same day, so the loops write each key at most once |
| Calendar.AddDaysReaches | src/utils/shiftPatterns.ts:10-11 | every day from `start` on is `addDays(start, i)` for exactly its offset `i` |
| Calendar.NextIsImmediateSuccessor | src/store/useShiftStore.ts:47-51 | stepping by one day skips no day of the range |
| Calendar.WeekdayOfNext | src/utils/salaryCalculator.ts:31-35 | consecutive days have consecutive weekdays modulo 7 |
| Calendar.KnownWeekdays | src/utils/salaryCalculator.ts:31-35 | 1970-01-01 is a Thursday, 2024-01-06 a Saturday and 2024-01-07 a Sunday |
| DateKey.KeyOrderIsChronological | src/store/useShiftStore.ts:122 | for years 0..9999, `a < b` on the keys holds exactly when day `a` is before day `b` |
| DateKey.FormatInjective | src/store/useShiftStore.ts:48 | distinct days have distinct keys |
| DateKey.MonthPrefixMatchesYearMonth | src/utils/salaryCalculator.ts:112 | for a four-digit target year and a month of one or two digits, a key starts with `${year}-${pad2(month)}` exactly when the day is in that year and month |
| DateKey.PrefixMissesOtherTargets | src/utils/salaryCalculator.ts:96-112 | a target year that is negative or not four digits long, or a month that is negative or has three or more digits, matches no key |
| DateKey.MonthPrefixTest | src/utils/salaryCalculator.ts:96-112 | for every target, a key starts with the prefix exactly when the target year has four digits and the day lies in that year and month |
| DateKey.TargetMonthShape | src/utils/salaryCalculator.ts:96 | for a four-digit year, the month prefix is the year, a dash and the two-digit month |
| DateKey.PaddedMonth | src/utils/salaryCalculator.ts:96 | `String(month).padStart(2, '0')` is the two-digit month for months 0..99 |
| DateKey.FormatExample | src/store/useShiftStore.ts:48 | the key of 2024-01-06 is "2024-01-06" |
| DateKey.TargetMonthExamples | src/utils/salaryCalculator.ts:96 | the prefixes for January and November 2024 are "2024-01" and "2024-11" |
| ShiftStore.GenerateFrom | src/store/useShiftStore.ts:44-53 | from `currentDate` with counter `patternIndex`, the loop writes exactly the days up to `end`, each holding cycle entry `(patternIndex + offset) mod n` |
| ShiftStore.GenerateStep | src/store/useShiftStore.ts:48-52 | one iteration puts the current day in front of the expansion of the following days |
| ShiftStore.GenerateShiftsFromPattern | src/store/useShiftStore.ts:35-56 | the result has one key per day of `[start, end]` and no other; day offset `i` holds `pattern[i mod n]`; it has `end - start + 1` entries, or none when `end < start` |
| ShiftStore.GenerateFromSize | src/store/useShiftStore.ts:47-53 | the loop writes `end - current + 1` distinct keys, none twice |
| ShiftStore.DeleteRange | src/store/useShiftStore.ts:92-101 | the delete loop removes exactly the days of the old range and keeps every other entry unchanged |
| ShiftStore.GroupWithId | src/store/useShiftStore.ts:88 | `find` returns the first group with the id, or nothing when no group has it |
| ShiftStore.SetShift | src/store/useShiftStore.ts:64-67 | the day holds the new type; every other day and the group list are unchanged |
| ShiftStore.AddPatternGroup | src/store/useShiftStore.ts:69-84 | exactly one group is appended, with the given cycle and dates; every day of the range holds the fresh expansion, overwriting older entries; days outside the range are unchanged |
| ShiftStore.Retime | src/store/useShiftStore.ts:107-111 | groups with the id get the new dates and keep id and cycle; all others are unchanged; the length is kept |
| ShiftStore.UpdatePatternGroupDates | src/store/useShiftStore.ts:86-117 | an unknown id changes nothing; otherwise new-range days hold the expansion, old-range days outside the new range have no entry whoever wrote them, other days are unchanged, and only the matching groups' dates change |
| ShiftStore.FindPatternGroupForDate | src/store/useShiftStore.ts:119-124 | the first group in list order whose range contains the day; none exactly when no group contains it |
| ShiftStore.ClearForgetsEverything | src/store/useShiftStore.ts:126 | after `clearShifts` no day has a shift and no group is found for any day |
| ShiftStore.ActionsPreserveUniqueIds | src/store/useShiftStore.ts:64-126 | every action keeps group ids unique, given that a new group receives an unused id |
| ShiftStore.UpdateRetimesExactlyOneGroup | src/store/useShiftStore.ts:107-111 | with unique ids, moving group `k` changes entry `k` of the list and no other |
| ShiftStore.EditAfterAddRoundTrip | src/store/useShiftStore.ts:69-117 | adding a cycle over range A and then moving it to range B leaves the expansion over B, nothing of A outside B, every other day as before, and the group recorded with B |
| ShiftStore.ContainsMatchesKeyComparison | src/store/useShiftStore.ts:122 | for days of years 0..9999, the key comparison `startDate <= date <= endDate` is the chronological containment test |
| ShiftStore.FourDayAlternation | src/store/useShiftStore.ts:47-53 | any expansion of `[day, off]` over four consecutive days is day, off, day, off |
| ShiftStore.ConsecutiveDays | src/store/useShiftStore.ts:47-53 | the same for four days given by consecutive day numbers |
| ShiftStore.AlternatingFourDays | src/store/useShiftStore.ts:35-56 | `generateShiftsFromPattern` with `[day, off]` over four days gives day, off, day, off |
| ShiftPatterns.OffsetStep | src/utils/shiftPatterns.ts:10-16 | one iteration of an offset loop extends the entries for offsets `i+1..days` to `i..days` |
| ShiftPatterns.PongdangFrom | src/utils/shiftPatterns.ts:10-16 | the loop from offset `i` writes exactly the offsets `i..days`, even ones `day` and odd ones `off` |
| ShiftPatterns.CustomFrom | src/utils/shiftPatterns.ts:33-38 | the loop from offset `i` writes exactly the offsets `i..days`, offset `k` holding `pattern[k mod n]` |
| ShiftPatterns.GeneratePongdangPattern | src/utils/shiftPatterns.ts:4-19 | one key per day of `[start, end]`, even offsets `day` and odd offsets `off` |
| ShiftPatterns.GenerateCustomPattern | src/utils/shiftPatterns.ts:21-41 | an empty cycle gives the empty map; otherwise one key per day of the range, offset `i` holding `pattern[i mod n]` |
| ShiftPatterns.PongdangIsDayOffCycle | src/utils/shiftPatterns.ts:13-15 | `generatePongdangPattern(s, e)` equals `generateCustomPattern(s, e, [day, off])` |
| ShiftPatterns.CustomAgreesWithStore | src/utils/shiftPatterns.ts:21-41 | for a non-empty cycle the utility generator and the store's generator produce the same map |
| ShiftPatterns.CustomSize | src/utils/shiftPatterns.ts:30-38 | a non-empty cycle yields `differenceInDays(end, start) + 1` entries, none for a reversed range |
| ShiftPatterns.CustomOffsets | src/utils/shiftPatterns.ts:33-38 | offset `i` of the range holds `pattern[i mod n]` |
| ShiftPatterns.ReversedRangeIsEmpty | src/utils/shiftPatterns.ts:7-10 | when `end` precedes `start`, all three generators return the empty map and raise nothing |
| SalaryStore.UpdateSettings | src/store/useSalaryStore.ts:48-51 | each field present in the partial is replaced and every absent field keeps its value |
| SalaryStore.DefaultValues | src/store/useSalaryStore.ts:31-42 | the defaults: wage 10000, 8 hours per shift type, rates 0.5 / 0.5 / 1.5 / 0.5, accrual on, 5 work days a week |
| SalaryStore.ResetForgetsUpdates | src/store/useSalaryStore.ts:52 | reset yields the defaults whatever the earlier state and updates |
| SalaryStore.UpdateWithNothingIsIdentity | src/store/useSalaryStore.ts:48-51 | an empty partial changes nothing |
| SalaryStore.UpdateIsIdempotent | src/store/useSalaryStore.ts:48-51 | applying the same partial twice is applying it once |
| SalaryStore.UpdatesCompose | src/store/useSalaryStore.ts:48-51 | two updates are one update with the later fields winning |
| SalaryStore.FullUpdateReplaces | src/store/useSalaryStore.ts:48-51 | a partial carrying every field replaces the settings outright |
| DiarySalaryStore.SetDiary | src/store/useDiarySalaryStore.ts:34-37 | the day's text is the new content; every other day's entry and the rate record are unchanged |
| DiarySalaryStore.SetSalarySettings | src/store/useDiarySalaryStore.ts:38-41 | the given rate fields are merged over the current ones; the diary map is unchanged |
| DiarySalaryStore.InitialDiaryValues | src/store/useDiarySalaryStore.ts:27-33 | a fresh store has no diary entries and the rates 100000 / 150000 / 120000 / 0 |
| DiarySalaryStore.LastDiaryWriteWins | src/store/useDiarySalaryStore.ts:34-37 | writing a day twice keeps only the second text |
| DiarySalaryStore.DiaryWritesCommute | src/store/useDiarySalaryStore.ts:34-37 | writes to different days commute |
| DiarySalaryStore.FullRatesUpdateReplaces | src/store/useDiarySalaryStore.ts:38-41 | a complete rate record replaces the stored one |
| SalaryCalculator.Round | src/utils/salaryCalculator.ts:148-153 | `Math.round(x)` is the integer within half a unit of `x`, halves going up |
| SalaryCalculator.Ceil | src/utils/salaryCalculator.ts:141 | `Math.ceil(x)` is the least integer not below `x` |
| SalaryCalculator.CalculateDailySalary | src/utils/salaryCalculator.ts:40-85 | an off day pays nothing; otherwise base = wage × the type's hours; the night allowance only on night shifts; the weekend allowance exactly on non-off weekend days; the two stack; holiday allowance 0; total = sum of the parts |
| SalaryCalculator.InMonthIsPrefixTest | src/utils/salaryCalculator.ts:96-112 | the model's month filter is the program's `startsWith(targetMonth)` test, for every target and every key of years 0..9999 |
| SalaryCalculator.OddYearIsEmpty | src/utils/salaryCalculator.ts:96-159 | a target year without four digits gives an all-zero summary whatever the shifts |
| SalaryCalculator.AccumulateMonth | src/utils/salaryCalculator.ts:96-131 | the loop's sums and counters, in any visiting order, equal the closed form over the slot counts of the entries the month prefix selects |
| SalaryCalculator.MonthStep | src/utils/salaryCalculator.ts:111-130 | visiting one more entry adds that day's pay and counters when it is in the month, and nothing otherwise |
| SalaryCalculator.CalculateMonthlySalary | src/utils/salaryCalculator.ts:90-160 | the summary is the closed form: month sums and counts, the accrual added to the total, every amount rounded once |
| SalaryCalculator.TallyAddsDaily | src/utils/salaryCalculator.ts:113-129 | counting one more shift in its slot adds exactly that day's pay to the closed-form sums |
| SalaryCalculator.SlotsPartitionMonth | src/utils/salaryCalculator.ts:121-129 | every entry of the month lies in exactly one (type, weekend) slot |
| SalaryCalculator.MonthlyCountsCoverTheMonth | src/utils/salaryCalculator.ts:112-129 | `workDays + offDays` is the number of the month's entries, and `workDays` = day + night + evening counts |
| SalaryCalculator.OtherMonthsDoNotMatter | src/utils/salaryCalculator.ts:112 | entries outside the target month do not affect its summary |
| SalaryCalculator.EmptyMonthIsAllZero | src/utils/salaryCalculator.ts:98-159 | a month without entries gives every sum and count 0 |
| SalaryCalculator.NothingCountedNothingPaid | src/utils/salaryCalculator.ts:98-153 | no counted shifts give every amount and count 0, including the accrual |
| SalaryCalculator.WeeklyHolidayPayBracket | src/utils/salaryCalculator.ts:134-143 | the accrual is 0 unless enabled with work done; otherwise rounding the weeks up pays at least the pro-rata share and less than one extra week |
| SalaryCalculator.RoundingResidueIsSmall | src/utils/salaryCalculator.ts:145-153 | the parts are rounded separately, so the total differs from their sum by at most 2 |
| SalaryCalculator.SaturdayNightStacksAllowances | src/utils/salaryCalculator.ts:53-74 | a Saturday night shift (8 h at 10000, rates 0.5 and 0.3) pays 80000 + 40000 + 24000 = 144000 |
| SalaryCalculator.TwentyDayShiftMonth | src/utils/salaryCalculator.ts:90-160 | 20 weekday day shifts and 10 days off under the defaults give base 1,600,000, accrual 1,280,000, total 2,880,000 |
| SalaryScreen.InitialCursor | app/salary.tsx:135-137 | the screen opens on today's year and month, a month in 1..12 |
| SalaryScreen.PrevMonth | app/salary.tsx:143-150 | from a valid month, the previous arrow gives a valid month one earlier, wrapping January to December of the year before |
| SalaryScreen.NextMonth | app/salary.tsx:152-159 | from a valid month, the next arrow gives a valid month one later, wrapping December to January of the year after |
| SalaryScreen.MonthShown | app/salary.tsx:139-141 | the displayed summary is the monthly calculation for the cursor's year and month |
| SalaryScreen.MonthIndexInjective | app/salary.tsx:143-159 | a valid cursor is determined by its running month count |
| SalaryScreen.PrevNextInverse | app/salary.tsx:143-159 | back then forward, and forward then back, return to the same month |
| SalaryScreen.ForwardAdvances | app/salary.tsx:152-159 | `n` presses of the next arrow advance `n` months and keep the month valid |
| SalaryScreen.TwelveMonthsIsAYear | app/salary.tsx:152-159 | twelve presses reach the same month of the next year |

## Left out

- Persistence: the zustand `persist` wrapper and AsyncStorage are storage I/O.
- Group ids and `createdAt`: `generateId` reads the clock and a random source. The id of a new group is a parameter; `ActionsPreserveUniqueIds` assumes it is unused.
- Time zones: `new Date(str)` parses as UTC while `getDay` and `setDate` work in local time. In some zones this shifts a weekday or a day step. The model uses exact civil-date arithmetic and a Gregorian weekday; DST and offset drift are not modelled.
- date-fns internals (`parseISO`, `addDays`, `differenceInDays`, `format`): taken to be exact civil-date operations.
- Floating point: amounts are exact reals, so IEEE-754 rounding of the intermediate sums is not modelled.
- Parsing of the stored keys: days are `Date` values. Malformed key strings, which the UI never produces, are not modelled.
- The `holidayAllowanceRate` and `overtimeAllowanceRate` fields are stored but never read by the calculator. There is no public-holiday calendar, so the holiday allowance is always 0.
- `undefined` values in a `Partial<SalarySettings>`: a present field is `Some`, an absent one `None`. An explicit `undefined` that would overwrite a field is not modelled.
- ShiftStore.GenerateShiftsFromPattern: requires a non-empty cycle through the `Pattern` type. The store's generator has no guard and an empty cycle would write `pattern[NaN]`. The screens only pass fixed non-empty cycles.
- SalaryCalculator.CalculateMonthlySalary: requires `weeklyWorkDays > 0`, because the accrual divides by it.
- SalaryStore.ResetSettings: its own contract is left empty; `ResetForgetsUpdates` states what reset yields.
- ShiftStore.ClearShifts: its contract only names the empty state; `ClearForgetsEverything` states the observable effect.
- DateKey.KeyOrderIsChronological: stated for years 0..9999, the range where the keys have four digits. Keys of other years (a sign and six digits from `toISOString`) are not modelled as strings.
- ShiftStore.FindPatternGroupForDate: compares days chronologically. The program compares key strings, which agree with that only for years 0..9999 (`ContainsMatchesKeyComparison`). For days outside that range the model does not follow the string order.
- SalaryCalculator.InMonthIsPrefixTest: stated for keys of years 0..9999. For days of other years `InMonth` is false because it needs a four-digit target year equal to the day's year; the program's keys for those days are not modelled as strings.
- The screen's rendering, the settings form (`parseFloat`/`parseInt` with fallbacks, percent-to-fraction conversion) and the pattern screen's `handleApply` (wall clock, alerts) are user-interface glue.
