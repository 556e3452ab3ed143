/** Energy estimation and the fuel-window builder: resting metabolic rate
    (Harris-Benedict), the macro split of a kcal target, workout kilojoules
    from the planned figure, the structured steps, an FTP x intensity table or
    a flat rate, and the contiguous windows that lead up to each workout. */
module Prescribe {
  import opened Base
  import opened Types
  import opened Calendar
  import opened Sorting
  import opened Carb

  /** `harrisBenedictRmr`: kcal per day, with the male coefficients for
      'M' and the female ones otherwise. */
  function HarrisBenedictRmr(profile: Profile): real
  {
    if profile.sex == M then
      88.362 + 13.397 * profile.weightKg + 4.799 * profile.heightCm - 5.677 * profile.ageYears
    else
      447.593 + 9.247 * profile.weightKg + 3.098 * profile.heightCm - 4.33 * profile.ageYears
  }

  /** For either sex, a heavier or taller athlete needs more and an older
      one less. */
  lemma RmrMonotone(p: Profile, q: Profile)
    requires p.sex == q.sex
    requires p.weightKg <= q.weightKg && p.heightCm <= q.heightCm && p.ageYears >= q.ageYears
    ensures HarrisBenedictRmr(p) <= HarrisBenedictRmr(q)
  {
  }

  /** The sample athlete (F, 34 years, 170 cm, 68 kg) has a resting rate of
      1455.829 kcal/day, between 1400 and 1700. */
  lemma SampleRmr(p: Profile)
    requires p.sex == F && p.ageYears == 34.0 && p.heightCm == 170.0 && p.weightKg == 68.0
    ensures HarrisBenedictRmr(p) == 1455.829
    ensures 1400.0 < HarrisBenedictRmr(p) < 1700.0
  {
  }

  // ---------------------------------------------------------------- macros

  /** The unrounded split of `targetKcal`, in closed form: protein is its
      per-kg default capped at a quarter of the target; fat is its default
      capped at the kcal left after protein, over 9; carbohydrate takes
      what remains. */
  function RawMacros(profile: Profile, targetKcal: real): MacroTargets
  {
    var proteinDefault := profile.proteinGPerKg * profile.weightKg;
    var fatDefault := profile.fatGPerKgMin * profile.weightKg;
    var afterProtein := Max(0.0, targetKcal - 4.0 * proteinDefault);
    MacroTargets(Min(proteinDefault, targetKcal / 4.0),
                 Min(fatDefault, afterProtein / 9.0),
                 Max(0.0, afterProtein - 9.0 * fatDefault) / 4.0)
  }

  /** Protein never exceeds its default nor a quarter of the target, fat
      never exceeds its default nor the kcal left after the protein default,
      and carbohydrate is never negative. */
  lemma RawMacrosCaps(profile: Profile, targetKcal: real)
    ensures var m := RawMacros(profile, targetKcal);
      m.proteinG <= targetKcal / 4.0 && m.proteinG <= profile.proteinGPerKg * profile.weightKg
      && m.fatG * 9.0 <= Max(0.0, targetKcal - 4.0 * profile.proteinGPerKg * profile.weightKg)
      && m.fatG <= profile.fatGPerKgMin * profile.weightKg
      && m.carbG >= 0.0
  {
  }

  /** With a non-negative target and non-negative per-kg defaults the split
      accounts for every kcal: 4 per gram of protein and carbohydrate, 9 per
      gram of fat. */
  lemma RawMacrosKcal(profile: Profile, targetKcal: real)
    requires targetKcal >= 0.0 && profile.proteinGPerKg * profile.weightKg >= 0.0
    requires profile.fatGPerKgMin * profile.weightKg >= 0.0
    ensures var m := RawMacros(profile, targetKcal);
      m.proteinG >= 0.0 && m.fatG >= 0.0
      && 4.0 * m.proteinG + 9.0 * m.fatG + 4.0 * m.carbG == targetKcal
  {
  }

  /** When the target covers both defaults, protein and fat are exactly
      their per-kg defaults and carbohydrate takes the rest. */
  lemma RawMacrosDefaults(profile: Profile, targetKcal: real)
    requires profile.fatGPerKgMin * profile.weightKg >= 0.0
    requires targetKcal >= 4.0 * profile.proteinGPerKg * profile.weightKg + 9.0 * profile.fatGPerKgMin * profile.weightKg
    ensures var m := RawMacros(profile, targetKcal);
      m.proteinG == profile.proteinGPerKg * profile.weightKg
      && m.fatG == profile.fatGPerKgMin * profile.weightKg
      && 4.0 * m.carbG == targetKcal - 4.0 * m.proteinG - 9.0 * m.fatG
  {
  }

  /** `computeMacroTargets` as a value: each part clamped at 0 and rounded
      to one decimal. */
  function MacroTargetsFor(profile: Profile, targetKcal: real): MacroTargets
  {
    var raw := RawMacros(profile, targetKcal);
    MacroTargets(Round(Max(0.0, raw.proteinG), 1), Round(Max(0.0, raw.fatG), 1), Round(Max(0.0, raw.carbG), 1))
  }

  /** Every part of the macros is non-negative and has at most one decimal. */
  lemma MacroTargetsRounded(profile: Profile, targetKcal: real)
    ensures var m := MacroTargetsFor(profile, targetKcal);
      m.proteinG >= 0.0 && m.fatG >= 0.0 && m.carbG >= 0.0
      && IsRounded(m.proteinG, 1) && IsRounded(m.fatG, 1) && IsRounded(m.carbG, 1)
  {
    var raw := RawMacros(profile, targetKcal);
    RoundNonNegative(Max(0.0, raw.proteinG), 1);
    RoundNonNegative(Max(0.0, raw.fatG), 1);
    RoundNonNegative(Max(0.0, raw.carbG), 1);
    RoundIdempotent(Max(0.0, raw.proteinG), 1);
    RoundIdempotent(Max(0.0, raw.fatG), 1);
    RoundIdempotent(Max(0.0, raw.carbG), 1);
  }

  /** After rounding, the macros' energy is within 0.85 kcal of the target
      (each of the 17 kcal-weighted grams is off by at most 0.05). */
  lemma MacroTargetsKcal(profile: Profile, targetKcal: real)
    requires targetKcal >= 0.0 && profile.proteinGPerKg * profile.weightKg >= 0.0
    requires profile.fatGPerKgMin * profile.weightKg >= 0.0
    ensures var m := MacroTargetsFor(profile, targetKcal);
      -0.85 < 4.0 * m.proteinG + 9.0 * m.fatG + 4.0 * m.carbG - targetKcal <= 0.85
  {
    var raw := RawMacros(profile, targetKcal);
    RawMacrosKcal(profile, targetKcal);
    RoundError(raw.proteinG, 1);
    RoundError(raw.fatG, 1);
    RoundError(raw.carbG, 1);
    assert Pow10(1) == 10.0;
  }

  /** `computeMacroTargets`: protein, then fat, then carbohydrate out of a
      running kcal budget. */
  method ComputeMacroTargets(profile: Profile, targetKcal: real) returns (m: MacroTargets)
    ensures m == MacroTargetsFor(profile, targetKcal)
  {
    var proteinDefault := profile.proteinGPerKg * profile.weightKg;
    var proteinG := proteinDefault;
    var remainingKcal := Max(0.0, targetKcal - proteinG * 4.0);
    if remainingKcal == 0.0 && proteinG * 4.0 > targetKcal {
      proteinG := targetKcal / 4.0;
      remainingKcal := 0.0;
    }
    var fatDefault := profile.fatGPerKgMin * profile.weightKg;
    var fatG := fatDefault;
    var fatKcal := fatG * 9.0;
    if fatKcal > remainingKcal {
      fatG := remainingKcal / 9.0;
      remainingKcal := 0.0;
    } else {
      remainingKcal := remainingKcal - fatKcal;
    }
    var carbG := if remainingKcal > 0.0 then remainingKcal / 4.0 else 0.0;
    assert MacroTargets(proteinG, fatG, carbG) == RawMacros(profile, targetKcal);
    m := MacroTargets(Round(Max(0.0, proteinG), 1), Round(Max(0.0, fatG), 1), Round(Max(0.0, carbG), 1));
  }

  // ------------------------------------------------------------ kilojoules

  /** `target_lo ?? target_hi ?? 0` and `target_hi ?? target_lo ?? lo`, averaged. */
  function AverageTarget(step: Step): real
  {
    var lo := if step.targetLo.Some? then step.targetLo.value else OrElse(step.targetHi, 0.0);
    var hi := if step.targetHi.Some? then step.targetHi.value else OrElse(step.targetLo, lo);
    (lo + hi) / 2.0
  }

  /** Watt-hours of one step: %FTP targets are scaled by the FTP, watt
      targets taken as they are, RPE steps contribute nothing. */
  function StepWattHours(step: Step, ftp: real): real
  {
    match step.targetType
    case PercentFtp => AverageTarget(step) / 100.0 * ftp * (step.durationS / 3600.0)
    case Watts => AverageTarget(step) * (step.durationS / 3600.0)
    case Rpe => 0.0
  }

  /** Watt-hours of a list of steps, summed in order. */
  function StepsWattHours(steps: seq<Step>, ftp: real): real
  {
    if steps == [] then 0.0 else StepsWattHours(steps[..|steps| - 1], ftp) + StepWattHours(steps[|steps| - 1], ftp)
  }

  /** The steps' watt-hours add up over concatenation. */
  lemma {:induction false} StepsWattHoursAppend(a: seq<Step>, b: seq<Step>, ftp: real)
    ensures StepsWattHours(a + b, ftp) == StepsWattHours(a, ftp) + StepsWattHours(b, ftp)
    decreases |b|
  {
    if b != [] {
      assert (a + b)[..|a + b| - 1] == a + b[..|b| - 1];
      StepsWattHoursAppend(a, b[..|b| - 1], ftp);
    } else {
      assert a + b == a;
    }
  }

  /** RPE-only step lists carry no energy. */
  lemma {:induction false} RpeStepsNoEnergy(steps: seq<Step>, ftp: real)
    requires forall i :: 0 <= i < |steps| ==> steps[i].targetType == Rpe
    ensures StepsWattHours(steps, ftp) == 0.0
  {
    if steps != [] {
      RpeStepsNoEnergy(steps[..|steps| - 1], ftp);
    }
  }

  /** With non-negative targets, durations and FTP, no step list has
      negative energy. */
  lemma {:induction false} StepsWattHoursNonNegative(steps: seq<Step>, ftp: real)
    requires ftp >= 0.0
    requires forall i :: 0 <= i < |steps| ==>
      steps[i].durationS >= 0.0 && OrElse(steps[i].targetLo, 0.0) >= 0.0 && OrElse(steps[i].targetHi, 0.0) >= 0.0
    ensures StepsWattHours(steps, ftp) >= 0.0
  {
    if steps != [] {
      StepsWattHoursNonNegative(steps[..|steps| - 1], ftp);
      var s := steps[|steps| - 1];
      assert AverageTarget(s) >= 0.0;
      assert s.durationS / 3600.0 >= 0.0;
      if s.targetType == PercentFtp {
        assert AverageTarget(s) / 100.0 * ftp >= 0.0;
      }
    }
  }

  /** The intensity-factor table of the FTP fallback. */
  function IntensityFactor(t: SessionType): real
  {
    match t
    case Endurance => 0.65
    case Tempo => 0.8
    case Threshold => 0.92
    case VO2 => 1.05
    case Race => 0.95
    case Rest => 0.0
  }

  predicate HasSteps(workout: PlannedWorkout)
  {
    workout.steps.Some? && |workout.steps.value| > 0
  }

  /** The kilojoule fallback chain: the planned figure whenever there is
      one; otherwise 3.6 kJ per structured watt-hour when there are steps and
      a non-zero FTP; otherwise FTP x intensity factor for the duration; and
      otherwise 500 kJ per hour. */
  function WorkoutKilojoules(workout: PlannedWorkout): real
  {
    if workout.plannedKj.Some? then workout.plannedKj.value
    else if HasSteps(workout) && Truthy(workout.ftpWattsAtPlan) then
      StepsWattHours(workout.steps.value, workout.ftpWattsAtPlan.value) * 3600.0 / 1000.0
    else if Truthy(workout.ftpWattsAtPlan) && workout.durationHr != 0.0 then
      workout.ftpWattsAtPlan.value * IntensityFactor(workout.sessionType) * workout.durationHr * 3600.0 / 1000.0
    else workout.durationHr * 500.0
  }

  /** Rest sessions with a known FTP and no plan or steps cost nothing. */
  lemma RestCostsNothing(workout: PlannedWorkout)
    requires workout.plannedKj.None? && !HasSteps(workout) && Truthy(workout.ftpWattsAtPlan)
    requires workout.durationHr != 0.0 && workout.sessionType == Rest
    ensures WorkoutKilojoules(workout) == 0.0
  {
  }

  /** `estimateWorkoutKilojoules`: the structured branch accumulates the
      steps' watt-hours in a loop. */
  method EstimateWorkoutKilojoules(workout: PlannedWorkout) returns (kj: real)
    ensures kj == WorkoutKilojoules(workout)
  {
    if workout.plannedKj.Some? {
      return workout.plannedKj.value;
    }
    if HasSteps(workout) && Truthy(workout.ftpWattsAtPlan) {
      var steps := workout.steps.value;
      var ftp := workout.ftpWattsAtPlan.value;
      var total := 0.0;
      var i := 0;
      while i < |steps|
        invariant 0 <= i <= |steps|
        invariant total == StepsWattHours(steps[..i], ftp)
      {
        var step := steps[i];
        var durationHours := step.durationS / 3600.0;
        if step.targetType == PercentFtp {
          var avgPct := AverageTarget(step) / 100.0;
          total := total + avgPct * ftp * durationHours;
        } else if step.targetType == Watts {
          total := total + AverageTarget(step) * durationHours;
        }
        assert steps[..i + 1][..i] == steps[..i];
        i := i + 1;
      }
      assert steps[..i] == steps;
      return total * 3600.0 / 1000.0;
    }
    if Truthy(workout.ftpWattsAtPlan) && workout.durationHr != 0.0 {
      var watts := workout.ftpWattsAtPlan.value * IntensityFactor(workout.sessionType);
      return watts * workout.durationHr * 3600.0 / 1000.0;
    }
    return workout.durationHr * 500.0;
  }

  /** A step at `lo`-`hi` % FTP for `seconds`. */
  function PercentStep(start: real, seconds: real, lo: real, hi: real): Step
  {
    Step(start, seconds, PercentFtp, Some(lo), Some(hi))
  }

  /** The sample tempo ride without its planned figure: 15 min at 55-65 %
      and 30 min at 88-92 % of 250 W is 150 Wh, i.e. 540 kJ. */
  lemma SampleTempoEstimate(workout: PlannedWorkout)
    requires workout.plannedKj.None? && workout.ftpWattsAtPlan == Some(250.0)
    requires workout.steps == Some([PercentStep(0.0, 900.0, 55.0, 65.0), PercentStep(900.0, 1800.0, 88.0, 92.0)])
    ensures WorkoutKilojoules(workout) == 540.0
  {
    var steps := workout.steps.value;
    assert steps[..1][..0] == [];
    assert StepsWattHours(steps[..1], 250.0) == 37.5;
    assert steps[..|steps| - 1] == steps[..1];
  }

  /** A VO2 session of 4 x 3 min at 110-120 % of a 250 W FTP with no planned
      figure is priced by its steps: 57.5 Wh, i.e. 207 kJ, rather than by
      the flat 500 kJ per hour. */
  lemma Vo2StepsEstimate(workout: PlannedWorkout)
    requires workout.plannedKj.None? && workout.ftpWattsAtPlan == Some(250.0)
    requires workout.steps == Some([PercentStep(0.0, 180.0, 110.0, 120.0), PercentStep(180.0, 180.0, 110.0, 120.0),
                                    PercentStep(360.0, 180.0, 110.0, 120.0), PercentStep(540.0, 180.0, 110.0, 120.0)])
    ensures WorkoutKilojoules(workout) == 207.0
  {
    var steps := workout.steps.value;
    var one := steps[..1];
    assert one[..0] == [];
    assert StepsWattHours(one, 250.0) == 14.375;
    assert steps[..2][..1] == one;
    assert StepsWattHours(steps[..2], 250.0) == 28.75;
    assert steps[..3][..2] == steps[..2];
    assert StepsWattHours(steps[..3], 250.0) == 43.125;
    assert steps[..|steps| - 1] == steps[..3];
  }

  // --------------------------------------------------------------- windows

  /** `hoursBetween`: the non-negative span between two instants, in hours. */
  function HoursBetween(startMs: int, endMs: int): (h: real)
    ensures h >= 0.0
    ensures endMs >= startMs ==> h * 3600000.0 == (endMs - startMs) as real
    ensures endMs < startMs ==> h == 0.0
  {
    Max(0.0, (endMs - startMs) as real / 3600000.0)
  }

  /** The activity factor of a date key: its override, else the default. */
  function ActivityFactor(profile: Profile, day: int): real
  {
    if profile.activityFactorOverrides.Some? && day in profile.activityFactorOverrides.value
    then profile.activityFactorOverrides.value[day]
    else profile.activityFactorDefault
  }

  /** `mapCarbPlan`: grams to one decimal, the ratio to two. */
  function MapCarbPlan(plan: CarbComputation): CarbPlan
  {
    CarbPlan(Round(plan.gPerHr, 1), Round(plan.preG, 1), Round(plan.duringG, 1), Round(plan.postG, 1),
             Round(plan.gluFruRatio, 2))
  }

  /** The mapped plan has at most one decimal per gram figure and two for
      the ratio, and the rate and the grams during are within 0.05 of the
      computed ones. */
  lemma MapCarbPlanRounded(plan: CarbComputation)
    ensures var c := MapCarbPlan(plan);
      IsRounded(c.gPerHr, 1) && IsRounded(c.preG, 1) && IsRounded(c.duringG, 1) && IsRounded(c.postG, 1)
      && IsRounded(c.gluFruRatio, 2)
      && -0.05 < c.duringG - plan.duringG <= 0.05 && -0.05 < c.gPerHr - plan.gPerHr <= 0.05
  {
    RoundIdempotent(plan.gPerHr, 1);
    RoundIdempotent(plan.preG, 1);
    RoundIdempotent(plan.duringG, 1);
    RoundIdempotent(plan.postG, 1);
    RoundIdempotent(plan.gluFruRatio, 2);
    RoundError(plan.duringG, 1);
    RoundError(plan.gPerHr, 1);
    assert Pow10(1) == 10.0;
  }

  /** A window opens when the previous workout ends, or 24 h before the
      first workout. */
  function WindowStartFor(prev: Option<PlannedWorkout>, next: PlannedWorkout): int
  {
    if prev.Some? then prev.value.end else next.start - 24 * MsPerHour
  }

  /** The date key of the window's reference instant. */
  function DateKeyFor(prev: Option<PlannedWorkout>, next: PlannedWorkout): int
  {
    DayOf(if prev.Some? then prev.value.end else next.start)
  }

  /** Resting kcal over the window, scaled by the activity factor, plus the
      workout's kJ read as kcal through the efficiency. */
  function WindowNeedKcal(profile: Profile, prev: Option<PlannedWorkout>, next: PlannedWorkout): real
    requires profile.efficiency != 0.0
  {
    var hours := HoursBetween(WindowStartFor(prev, next), next.end);
    HarrisBenedictRmr(profile) * (hours / 24.0) * ActivityFactor(profile, DateKeyFor(prev, next))
      + WorkoutKilojoules(next) / profile.efficiency
  }

  /** With a non-negative rate, factor and kilojoules and a positive
      efficiency, no window needs negative energy. */
  lemma WindowNeedNonNegative(profile: Profile, prev: Option<PlannedWorkout>, next: PlannedWorkout)
    requires profile.efficiency > 0.0 && HarrisBenedictRmr(profile) >= 0.0
    requires ActivityFactor(profile, DateKeyFor(prev, next)) >= 0.0 && WorkoutKilojoules(next) >= 0.0
    ensures WindowNeedKcal(profile, prev, next) >= 0.0
  {
    var hours := HoursBetween(WindowStartFor(prev, next), next.end);
    assert HarrisBenedictRmr(profile) * (hours / 24.0) >= 0.0;
  }

  const GuardNote: string := "Over-fuel guard applied"

  /** The window `buildWindows` pushes for `next`, preceded by `prev`:
      its target is its need, rounded to 2 decimals, before any deficit. */
  function WindowFor(profile: Profile, prev: Option<PlannedWorkout>, next: PlannedWorkout): WindowPlan
    requires profile.efficiency != 0.0 && HasBand(profile, next.sessionType)
  {
    var need := WindowNeedKcal(profile, prev, next);
    var carbs := ComputeCarbPlan(profile, next, need);
    var target := Round(need, 2);
    WindowPlan(WindowStartFor(prev, next), next.end, if prev.Some? then prev.value.id else "START",
               next.id, next.sessionType, target, target,
               Round(ActivityFactor(profile, DateKeyFor(prev, next)), 2), MapCarbPlan(carbs),
               MacroTargetsFor(profile, target),
               if carbs.overFuelGuardApplied then [GuardNote] else [])
  }

  function Starts(workouts: seq<PlannedWorkout>): (s: seq<int>)
    ensures |s| == |workouts| && forall i :: 0 <= i < |s| ==> s[i] == workouts[i].start
  {
    seq(|workouts|, i requires 0 <= i < |workouts| => workouts[i].start)
  }

  predicate AllBands(profile: Profile, workouts: seq<PlannedWorkout>)
  {
    forall i :: 0 <= i < |workouts| ==> HasBand(profile, workouts[i].sessionType)
  }

  /** One window of `buildWindows`: the resting need over its span, the
      workout's energy, the carbohydrate plan and the macros of the target. */
  method BuildWindow(profile: Profile, prev: Option<PlannedWorkout>, next: PlannedWorkout) returns (w: WindowPlan)
    requires profile.efficiency != 0.0 && HasBand(profile, next.sessionType)
    ensures w == WindowFor(profile, prev, next)
  {
    var windowStart := if prev.Some? then prev.value.end else next.start - 24 * MsPerHour;
    var windowEnd := next.end;
    var windowHours := HoursBetween(windowStart, windowEnd);
    var dateKey := DayOf(if prev.Some? then prev.value.end else next.start);
    var activityFactor := ActivityFactor(profile, dateKey);
    var restingKcal := HarrisBenedictRmr(profile) * (windowHours / 24.0) * activityFactor;
    var kj := EstimateWorkoutKilojoules(next);
    var needKcal := restingKcal + kj / profile.efficiency;
    assert needKcal == WindowNeedKcal(profile, prev, next);
    var carbPlan := ComputeCarbPlan(profile, next, needKcal);
    var notes: seq<string> := [];
    if carbPlan.overFuelGuardApplied {
      notes := notes + [GuardNote];
    }
    var targetKcal := Round(needKcal, 2);
    var macros := ComputeMacroTargets(profile, targetKcal);
    w := WindowPlan(windowStart, windowEnd, if prev.Some? then prev.value.id else "START",
                    next.id, next.sessionType, targetKcal, targetKcal,
                    Round(activityFactor, 2), MapCarbPlan(carbPlan), macros, notes);
  }

  /** A window runs from the previous workout's end (or 24 h before its
      own workout when it is the first) to its workout's end. */
  lemma WindowSpan(profile: Profile, prev: Option<PlannedWorkout>, next: PlannedWorkout, w: WindowPlan)
    requires profile.efficiency != 0.0 && HasBand(profile, next.sessionType)
    requires w == WindowFor(profile, prev, next)
    ensures w.windowEnd == next.end
    ensures prev.Some? ==> w.windowStart == prev.value.end
    ensures prev.None? ==> w.windowStart == next.start - 24 * MsPerHour && w.prevWorkoutId == "START"
  {
  }

  /** The workouts' positions in start order, ties in input order. */
  method StartOrder(workouts: seq<PlannedWorkout>) returns (order: seq<nat>)
    ensures |order| == |workouts| && InRange(order, |workouts|)
    ensures (forall x: nat :: x in order <==> x < |workouts|) && SortedByKey(Starts(workouts), order)
  {
    var idx: seq<nat> := seq(|workouts|, i => i);
    forall x: nat | x < |workouts|
      ensures x in idx
    {
      assert idx[x] == x;
    }
    order := StableSortByKey(idx, Starts(workouts));
  }

  /** The workout before position `i` of `order`, if any. */
  function PrevInOrder(workouts: seq<PlannedWorkout>, order: seq<nat>, i: nat): Option<PlannedWorkout>
    requires i < |order| && InRange(order, |workouts|)
  {
    if i == 0 then None else Some(workouts[order[i - 1]])
  }

  /** The first `n` windows of `buildWindows`, for the workouts in `order`. */
  function WindowsInOrder(profile: Profile, workouts: seq<PlannedWorkout>, order: seq<nat>, n: nat): (ws: seq<WindowPlan>)
    requires profile.efficiency != 0.0 && AllBands(profile, workouts)
    requires n <= |order| && InRange(order, |workouts|)
    ensures |ws| == n
  {
    if n == 0 then []
    else
      var w := WindowFor(profile, PrevInOrder(workouts, order, n - 1), workouts[order[n - 1]]);
      WindowsInOrder(profile, workouts, order, n - 1) + [w]
  }

  /** Each window of the list is the one for its workout and its predecessor. */
  lemma {:induction false} WindowsInOrderAt(profile: Profile, workouts: seq<PlannedWorkout>, order: seq<nat>, n: nat, i: nat)
    requires profile.efficiency != 0.0 && AllBands(profile, workouts)
    requires n <= |order| && InRange(order, |workouts|) && i < n
    ensures WindowsInOrder(profile, workouts, order, n)[i]
      == WindowFor(profile, PrevInOrder(workouts, order, i), workouts[order[i]])
  {
    if i < n - 1 {
      WindowsInOrderAt(profile, workouts, order, n - 1, i);
    }
  }

  /** Every workout of the order has a band to draw its rate from. */
  lemma AllBandsAt(profile: Profile, workouts: seq<PlannedWorkout>, order: seq<nat>, i: nat)
    requires AllBands(profile, workouts) && InRange(order, |workouts|) && i < |order|
    ensures HasBand(profile, workouts[order[i]].sessionType)
  {
  }

  /** One more window extends the list by the window of the next workout. */
  lemma WindowsInOrderStep(profile: Profile, workouts: seq<PlannedWorkout>, order: seq<nat>, i: nat, w: WindowPlan)
    requires profile.efficiency != 0.0 && AllBands(profile, workouts)
    requires i < |order| && InRange(order, |workouts|)
    requires w == WindowFor(profile, PrevInOrder(workouts, order, i), workouts[order[i]])
    ensures WindowsInOrder(profile, workouts, order, i) + [w] == WindowsInOrder(profile, workouts, order, i + 1)
  {
  }

  /** Each window of the list opens where the one before it closed, and the
      first opens 24 hours before its workout. */
  lemma WindowsChained(profile: Profile, workouts: seq<PlannedWorkout>, order: seq<nat>)
    requires profile.efficiency != 0.0 && AllBands(profile, workouts)
    requires InRange(order, |workouts|)
    ensures var ws := WindowsInOrder(profile, workouts, order, |order|);
      forall i :: 0 < i < |ws| ==> ws[i].windowStart == ws[i - 1].windowEnd
    ensures var ws := WindowsInOrder(profile, workouts, order, |order|);
      |ws| > 0 ==>
        ws[0].prevWorkoutId == "START"
        && ws[0].windowStart == workouts[order[0]].start - 24 * MsPerHour
  {
    var ws := WindowsInOrder(profile, workouts, order, |order|);
    forall i | 0 < i < |ws|
      ensures ws[i].windowStart == ws[i - 1].windowEnd
    {
      WindowsInOrderAt(profile, workouts, order, |order|, i);
      WindowsInOrderAt(profile, workouts, order, |order|, i - 1);
      WindowSpan(profile, PrevInOrder(workouts, order, i), workouts[order[i]], ws[i]);
      WindowSpan(profile, PrevInOrder(workouts, order, i - 1), workouts[order[i - 1]], ws[i - 1]);
    }
    if |ws| > 0 {
      WindowsInOrderAt(profile, workouts, order, |order|, 0);
      WindowSpan(profile, None, workouts[order[0]], ws[0]);
    }
  }

  /** The loop of `buildWindows`: each workout's window, opening at the end
      of the workout before it in `order`. */
  method WindowsFor(profile: Profile, workouts: seq<PlannedWorkout>, order: seq<nat>) returns (windows: seq<WindowPlan>)
    requires profile.efficiency != 0.0 && AllBands(profile, workouts)
    requires InRange(order, |workouts|)
    ensures windows == WindowsInOrder(profile, workouts, order, |order|)
  {
    windows := [];
    for i := 0 to |order|
      invariant windows == WindowsInOrder(profile, workouts, order, i)
    {
      AllBandsAt(profile, workouts, order, i);
      var prev := if i == 0 then None else Some(workouts[order[i - 1]]);
      var w := BuildWindow(profile, prev, workouts[order[i]]);
      WindowsInOrderStep(profile, workouts, order, i, w);
      windows := windows + [w];
    }
  }

  /** `buildWindows`: one window per workout in start order (ties kept in
      input order), each opening where the previous one closed. The ghost
      `order` lists the input positions in that order. */
  method BuildWindows(profile: Profile, workouts: seq<PlannedWorkout>)
      returns (windows: seq<WindowPlan>, ghost order: seq<nat>)
    requires profile.efficiency != 0.0 && AllBands(profile, workouts)
    ensures |order| == |workouts| && InRange(order, |workouts|)
    ensures (forall x: nat :: x in order <==> x < |workouts|) && SortedByKey(Starts(workouts), order)
    ensures windows == WindowsInOrder(profile, workouts, order, |order|)
    ensures forall i :: 0 < i < |windows| ==> windows[i].windowStart == windows[i - 1].windowEnd
    ensures |windows| > 0 ==>
      windows[0].prevWorkoutId == "START"
      && windows[0].windowStart == workouts[order[0]].start - 24 * MsPerHour
  {
    var sorted := StartOrder(workouts);
    order := sorted;
    windows := WindowsFor(profile, workouts, sorted);
    WindowsChained(profile, workouts, order);
  }
}
