/** The diary store (src/store/useDiarySalaryStore.ts): free text per day,
    kept apart from the shift map, plus a legacy per-shift rate record that
    the salary screen no longer reads. */
module DiarySalaryStore {
  import opened Options
  import opened Calendar

  /** The legacy flat rates, one amount per shift type. */
  datatype LegacyRates = LegacyRates(dayShiftRate: real, nightShiftRate: real,
                                     eveningShiftRate: real, offShiftRate: real)

  /** The fields handed to `setSalarySettings`, each present or absent. */
  datatype LegacyRatesUpdate = LegacyRatesUpdate(dayShiftRate: Option<real>, nightShiftRate: Option<real>,
                                                 eveningShiftRate: Option<real>, offShiftRate: Option<real>)

  datatype DiaryState = DiaryState(diaries: map<Date, string>, salarySettings: LegacyRates)

  const DefaultLegacyRates: LegacyRates := LegacyRates(100000.0, 150000.0, 120000.0, 0.0)

  const InitialDiaryState: DiaryState := DiaryState(map[], DefaultLegacyRates)

  /** `setDiary(date, content)`. */
  function SetDiary(s: DiaryState, date: Date, content: string): (s': DiaryState)
    ensures date in s'.diaries && s'.diaries[date] == content
    ensures forall d :: d != date ==> (d in s'.diaries <==> d in s.diaries)
    ensures forall d :: d != date && d in s.diaries ==> s'.diaries[d] == s.diaries[d]
    ensures s'.salarySettings == s.salarySettings
  {
    s.(diaries := s.diaries[date := content])
  }

  /** `setSalarySettings(settings)`: `{ ...state.salarySettings, ...settings }`. */
  function SetSalarySettings(s: DiaryState, u: LegacyRatesUpdate): (s': DiaryState)
    ensures s'.diaries == s.diaries
    ensures s'.salarySettings.dayShiftRate == u.dayShiftRate.GetOr(s.salarySettings.dayShiftRate)
    ensures s'.salarySettings.nightShiftRate == u.nightShiftRate.GetOr(s.salarySettings.nightShiftRate)
    ensures s'.salarySettings.eveningShiftRate == u.eveningShiftRate.GetOr(s.salarySettings.eveningShiftRate)
    ensures s'.salarySettings.offShiftRate == u.offShiftRate.GetOr(s.salarySettings.offShiftRate)
  {
    var r := s.salarySettings;
    s.(salarySettings := LegacyRates(
      u.dayShiftRate.GetOr(r.dayShiftRate),
      u.nightShiftRate.GetOr(r.nightShiftRate),
      u.eveningShiftRate.GetOr(r.eveningShiftRate),
      u.offShiftRate.GetOr(r.offShiftRate)))
  }

  // ---------------------------------------------------------------------------
  // Lemmas

  /** A fresh store has no diary entries and the example rates
      100000 / 150000 / 120000 / 0 for day / night / evening / off. */
  lemma InitialDiaryValues(d: Date)
    ensures d !in InitialDiaryState.diaries
    ensures InitialDiaryState.salarySettings.dayShiftRate == 100000.0
    ensures InitialDiaryState.salarySettings.nightShiftRate == 150000.0
    ensures InitialDiaryState.salarySettings.eveningShiftRate == 120000.0
    ensures InitialDiaryState.salarySettings.offShiftRate == 0.0
  {
  }

  /** Writing a day's diary twice keeps only the second text. */
  lemma LastDiaryWriteWins(s: DiaryState, date: Date, first: string, second: string)
    ensures SetDiary(SetDiary(s, date, first), date, second) == SetDiary(s, date, second)
  {
  }

  /** Diary writes to different days commute. */
  lemma DiaryWritesCommute(s: DiaryState, d1: Date, c1: string, d2: Date, c2: string)
    requires d1 != d2
    ensures SetDiary(SetDiary(s, d1, c1), d2, c2) == SetDiary(SetDiary(s, d2, c2), d1, c1)
  {
    assert s.diaries[d1 := c1][d2 := c2] == s.diaries[d2 := c2][d1 := c1];
  }

  /** A rate update with all four fields replaces the record outright, which
      is what the declared parameter type of `setSalarySettings` asks for. */
  lemma FullRatesUpdateReplaces(s: DiaryState, r: LegacyRates)
    ensures SetSalarySettings(s, LegacyRatesUpdate(Some(r.dayShiftRate), Some(r.nightShiftRate),
                                                   Some(r.eveningShiftRate), Some(r.offShiftRate))).salarySettings == r
  {
  }
}
