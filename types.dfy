/** The engine's records. Timestamps (`startISO`, `windowEndISO`, ...) are
    UTC milliseconds; an activity-factor date key `YYYY-MM-DD` is the UTC day
    number it names; `number | undefined` fields are `Option<real>`. */
module Types {
  import opened Base

  datatype SessionType = Endurance | Tempo | Threshold | VO2 | Race | Rest

  datatype Sex = M | F

  datatype EfficiencyPreset = WorldClass | Elite | Competitive | Enthusiast

  /** A carbohydrate band `[low, high]` in grams per hour. */
  datatype Band = Band(low: real, high: real)

  datatype CarbSplit = CarbSplit(pre: real, during: real, post: real)

  datatype Profile = Profile(
    sex: Sex,
    ageYears: real,
    heightCm: real,
    weightKg: real,
    ftpWatts: Option<real>,
    efficiencyPreset: EfficiencyPreset,
    efficiency: real,
    activityFactorDefault: real,
    activityFactorOverrides: Option<map<int, real>>,
    targetKgPerWeek: real,
    kcalPerKg: real,
    deficitCapPerWindow: real,
    windowPctCap: Option<real>,
    proteinGPerKg: real,
    fatGPerKgMin: real,
    carbBands: map<SessionType, Band>,
    carbSplit: CarbSplit,
    gluFruRatio: real,
    useImperial: bool)

  datatype TargetType = PercentFtp | Watts | Rpe

  datatype Step = Step(
    startS: real,
    durationS: real,
    targetType: TargetType,
    targetLo: Option<real>,
    targetHi: Option<real>)

  datatype WorkoutSource = IntervalsSource | FileSource

  datatype KjSource = IcuStructured | EstimatedSteps | EstimatedIfTss | Description | EstimatedFallback

  datatype PlannedWorkout = PlannedWorkout(
    id: string,
    source: WorkoutSource,
    title: Option<string>,
    sessionType: SessionType,
    start: int,
    end: int,
    durationHr: real,
    plannedKj: Option<real>,
    ftpWattsAtPlan: Option<real>,
    steps: Option<seq<Step>>,
    kjSource: KjSource)

  datatype CarbPlan = CarbPlan(gPerHr: real, preG: real, duringG: real, postG: real, gluFruRatio: real)

  datatype MacroTargets = MacroTargets(proteinG: real, fatG: real, carbG: real)

  datatype WindowPlan = WindowPlan(
    windowStart: int,
    windowEnd: int,
    prevWorkoutId: string,
    nextWorkoutId: string,
    nextWorkoutType: SessionType,
    needKcal: real,
    targetKcal: real,
    activityFactorApplied: real,
    carbs: CarbPlan,
    macros: MacroTargets,
    notes: seq<string>)

  datatype WeeklyPlan = WeeklyPlan(
    weekKey: string,
    weekStart: int,
    weekEnd: int,
    weeklyTargetDeficitKcal: int,
    weeklyAllocatedKcal: int,
    carryOverKcal: Option<int>,
    macros: MacroTargets)

  datatype WeightSource = Manual | FromIntervals

  datatype WeightEntry = WeightEntry(dateKey: string, weightKg: real, source: Option<WeightSource>)

  /** Threshold, VO2 and Race sessions: `isHardSession` and the
      carbohydrate planner's hard list. */
  predicate IsHardSession(t: SessionType)
  {
    t == Threshold || t == VO2 || t == Race
  }

  /** JavaScript truthiness of an optional number (NaN is not modelled). */
  predicate Truthy(x: Option<real>)
  {
    x.Some? && x.value != 0.0
  }

  /** `a ?? b`. */
  function OrElse(x: Option<real>, fallback: real): real
  {
    if x.Some? then x.value else fallback
  }
}
