/** The pay rules (src/store/useSalaryStore.ts): one settings record with
    documented defaults, a partial-merge update and a reset. Allowance rates
    are fractions of base pay (0.5 is 50%). */
module SalaryStore {
  import opened Options

  datatype SalarySettings = SalarySettings(
    hourlyWage: real,
    dayShiftHours: real,
    nightShiftHours: real,
    eveningShiftHours: real,
    nightAllowanceRate: real,
    weekendAllowanceRate: real,
    holidayAllowanceRate: real,
    overtimeAllowanceRate: real,
    weeklyHolidayPayEnabled: bool,
    weeklyWorkDays: int)

  /** `Partial<SalarySettings>`: each field present or absent. */
  datatype PartialSettings = PartialSettings(
    hourlyWage: Option<real>,
    dayShiftHours: Option<real>,
    nightShiftHours: Option<real>,
    eveningShiftHours: Option<real>,
    nightAllowanceRate: Option<real>,
    weekendAllowanceRate: Option<real>,
    holidayAllowanceRate: Option<real>,
    overtimeAllowanceRate: Option<real>,
    weeklyHolidayPayEnabled: Option<bool>,
    weeklyWorkDays: Option<int>)

  const NoChanges: PartialSettings :=
    PartialSettings(None, None, None, None, None, None, None, None, None, None)

  const DefaultSettings: SalarySettings :=
    SalarySettings(10000.0, 8.0, 8.0, 8.0, 0.5, 0.5, 1.5, 0.5, true, 5)

  /** `{ ...state.settings, ...newSettings }`. */
  function UpdateSettings(s: SalarySettings, p: PartialSettings): (r: SalarySettings)
    ensures r.hourlyWage == p.hourlyWage.GetOr(s.hourlyWage)
    ensures r.dayShiftHours == p.dayShiftHours.GetOr(s.dayShiftHours)
    ensures r.nightShiftHours == p.nightShiftHours.GetOr(s.nightShiftHours)
    ensures r.eveningShiftHours == p.eveningShiftHours.GetOr(s.eveningShiftHours)
    ensures r.nightAllowanceRate == p.nightAllowanceRate.GetOr(s.nightAllowanceRate)
    ensures r.weekendAllowanceRate == p.weekendAllowanceRate.GetOr(s.weekendAllowanceRate)
    ensures r.holidayAllowanceRate == p.holidayAllowanceRate.GetOr(s.holidayAllowanceRate)
    ensures r.overtimeAllowanceRate == p.overtimeAllowanceRate.GetOr(s.overtimeAllowanceRate)
    ensures r.weeklyHolidayPayEnabled == p.weeklyHolidayPayEnabled.GetOr(s.weeklyHolidayPayEnabled)
    ensures r.weeklyWorkDays == p.weeklyWorkDays.GetOr(s.weeklyWorkDays)
  {
    SalarySettings(
      p.hourlyWage.GetOr(s.hourlyWage),
      p.dayShiftHours.GetOr(s.dayShiftHours),
      p.nightShiftHours.GetOr(s.nightShiftHours),
      p.eveningShiftHours.GetOr(s.eveningShiftHours),
      p.nightAllowanceRate.GetOr(s.nightAllowanceRate),
      p.weekendAllowanceRate.GetOr(s.weekendAllowanceRate),
      p.holidayAllowanceRate.GetOr(s.holidayAllowanceRate),
      p.overtimeAllowanceRate.GetOr(s.overtimeAllowanceRate),
      p.weeklyHolidayPayEnabled.GetOr(s.weeklyHolidayPayEnabled),
      p.weeklyWorkDays.GetOr(s.weeklyWorkDays))
  }

  /** `resetSettings()`. */
  function ResetSettings(s: SalarySettings): (r: SalarySettings)
  {
    DefaultSettings
  }

  /** A partial record carrying every field of `s`. */
  function AllOf(s: SalarySettings): PartialSettings {
    PartialSettings(
      Some(s.hourlyWage), Some(s.dayShiftHours), Some(s.nightShiftHours), Some(s.eveningShiftHours),
      Some(s.nightAllowanceRate), Some(s.weekendAllowanceRate), Some(s.holidayAllowanceRate),
      Some(s.overtimeAllowanceRate), Some(s.weeklyHolidayPayEnabled), Some(s.weeklyWorkDays))
  }

  /** `q` spread over `p`: the later partial wins field by field. */
  function Combine(p: PartialSettings, q: PartialSettings): PartialSettings {
    PartialSettings(
      if q.hourlyWage.Some? then q.hourlyWage else p.hourlyWage,
      if q.dayShiftHours.Some? then q.dayShiftHours else p.dayShiftHours,
      if q.nightShiftHours.Some? then q.nightShiftHours else p.nightShiftHours,
      if q.eveningShiftHours.Some? then q.eveningShiftHours else p.eveningShiftHours,
      if q.nightAllowanceRate.Some? then q.nightAllowanceRate else p.nightAllowanceRate,
      if q.weekendAllowanceRate.Some? then q.weekendAllowanceRate else p.weekendAllowanceRate,
      if q.holidayAllowanceRate.Some? then q.holidayAllowanceRate else p.holidayAllowanceRate,
      if q.overtimeAllowanceRate.Some? then q.overtimeAllowanceRate else p.overtimeAllowanceRate,
      if q.weeklyHolidayPayEnabled.Some? then q.weeklyHolidayPayEnabled else p.weeklyHolidayPayEnabled,
      if q.weeklyWorkDays.Some? then q.weeklyWorkDays else p.weeklyWorkDays)
  }

  // ---------------------------------------------------------------------------
  // Lemmas

  /** The documented defaults. */
  lemma DefaultValues()
    ensures DefaultSettings.hourlyWage == 10000.0
    ensures DefaultSettings.dayShiftHours == 8.0 && DefaultSettings.nightShiftHours == 8.0
    ensures DefaultSettings.eveningShiftHours == 8.0
    ensures DefaultSettings.nightAllowanceRate == 0.5 && DefaultSettings.weekendAllowanceRate == 0.5
    ensures DefaultSettings.holidayAllowanceRate == 1.5 && DefaultSettings.overtimeAllowanceRate == 0.5
    ensures DefaultSettings.weeklyHolidayPayEnabled && DefaultSettings.weeklyWorkDays == 5
  {
  }

  /** Resetting yields the defaults whatever was set before, and forgets
      every earlier update. */
  lemma ResetForgetsUpdates(s: SalarySettings, t: SalarySettings, p: PartialSettings)
    ensures ResetSettings(s) == DefaultSettings
    ensures ResetSettings(UpdateSettings(s, p)) == ResetSettings(t)
  {
  }

  /** Updating with no fields changes nothing. */
  lemma UpdateWithNothingIsIdentity(s: SalarySettings)
    ensures UpdateSettings(s, NoChanges) == s
  {
  }

  /** Applying the same partial twice is applying it once. */
  lemma UpdateIsIdempotent(s: SalarySettings, p: PartialSettings)
    ensures UpdateSettings(UpdateSettings(s, p), p) == UpdateSettings(s, p)
  {
  }

  /** Two successive updates are one update with the later fields winning. */
  lemma UpdatesCompose(s: SalarySettings, p: PartialSettings, q: PartialSettings)
    ensures UpdateSettings(UpdateSettings(s, p), q) == UpdateSettings(s, Combine(p, q))
  {
  }

  /** A partial carrying every field replaces the settings outright. */
  lemma FullUpdateReplaces(s: SalarySettings, t: SalarySettings)
    ensures UpdateSettings(s, AllOf(t)) == t
  {
  }
}
