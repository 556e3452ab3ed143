# Preburner planning engine in Dafny

Preburner plans an endurance athlete's eating around a calendar of planned
workouts. Each planned workout closes a *window* that starts where the
previous workout ended. The first window starts 24 hours before its workout.

For each window the engine does three things:
- It computes the energy the athlete needs over that span. This is the
  Harris-Benedict resting rate times an activity factor, plus the workout's
  mechanical energy divided by the athlete's efficiency.
- It computes a carbohydrate plan for the workout: grams per hour from the
  session type's band, and grams before, during and after. An over-fuel guard
  scales the grams down when they exceed 60 % of the window's need.
- It splits the window's target into protein, fat and carbohydrate.

A weekly allocator then groups the windows by ISO week and takes the weekly
weight-loss deficit from them in time order. Each window gives up at most its
cap and its share of its need. Windows before hard sessions give nothing, and
flagged windows give less. The allocator then summarises each week.

Around this engine the project models:
- the calendar-platform adapter's pure readers: tags, sex, session-type
  inference, durations, planned kilojoules from the many places a calendar
  event may hold them, steps from ZWO nodes and structured arrays, weight and
  height from athlete records, and the daily weight series;
- the offline fake provider;
- the sample-profile validation;
- the planner store's override merging and updates.

Each source file is a module:

| module | source file | form |
|---|---|---|
| `Carb` | `src/calc/carb.ts` | functions |
| `Prescribe` | `src/calc/prescribe.ts` | functions; methods with loops for `computeMacroTargets`, `estimateWorkoutKilojoules` and `buildWindows` |
| `Calendar` | `src/calc/weekly.ts` (`getIsoWeekInfo`) | functions on day numbers |
| `Weekly` | `src/calc/weekly.ts` | a method over an `array` of cloned windows updated in place, proved against specification functions |
| `Fake` | `src/adapters/fake.ts` | functions |
| `SampleProfile` | `src/samples/profile.ts` | functions over `Result` |
| `PlannerStore` | `src/state/plannerStore.ts` | functions; methods with loops for the merges |
| `Intervals`, `IntervalsSteps`, `IntervalsProfile` | `src/adapters/intervals.ts` | functions; methods with loops where the adapter loops |

`Types` holds the records of `src/types.ts`. `Base`, `Text` and `Sorting`
hold shared helpers:
- `Base`: `Option`, `Result`, `Math.round`, rounding to decimals.
- `Text`: ASCII case mapping, trimming, code-unit string order, number
  formatting.
- `Sorting`: a stable insertion sort of positions by an integer key, and a
  sort of distinct strings.

Units and modelling conventions:
- Energies are `real` kilocalories or kilojoules.
- Instants are `int` milliseconds since the epoch (UTC). Days are `int` day
  numbers.
- A window's date key (`formatDateKey`, `iso.slice(0, 10)`) is the UTC day
  number of the instant. The two agree because every ISO text that reaches
  the window builder comes from `toISOString`, in UTC with a `Z` suffix
  (the normalised provider times, the shifted times, the samples).
- `Math.round(x)` is `Floor(x + 0.5)`.
- The Harris-Benedict figure for the sample athlete (F, 34 years, 170 cm,
  68 kg) is 1455.829 kcal per day (`Prescribe.SampleRmr`).

## Model

| member | source | states |
|---|---|---|
| Carb.SelectBandValue | src/calc/carb.ts:16-28 | Rest gets no carbohydrate; hard sessions get the band's high value, Tempo its midpoint and every other type its low value, so any session but Rest gets a rate inside an ordered band |
| Carb.UnguardedPlan | src/calc/carb.ts:35-55 | the rate is the band value of the session's own band, or of the Endurance band when it has none; grams during are rate times duration, and grams before and after stand to them as the split's parts do (none when the split's during part is 0) |
| Carb.ComputeCarbPlan | src/calc/carb.ts:30-88 | a zero rate or a non-positive duration gives an all-zero plan; the guard fires exactly for an Endurance or Tempo session whose grams' energy exceeds a positive 60 % of the need; then every figure is scaled by one factor strictly between 0 and 1 and the total energy is exactly the limit; otherwise the unguarded plan |
| Carb.GuardScaling | src/calc/carb.ts:57-78 | the code's two-step scaling factor equals limit over energy, lies in (0, 1), and brings the grams' energy to the limit |
| Carb.HardSessionUsesBandHigh | src/calc/carb.ts:16-28 | a hard session with a positive duration is fuelled at its band's high value and is never guarded |
| Prescribe.RmrMonotone | src/calc/prescribe.ts:35-41 | for one sex, the resting rate grows with weight and height and falls with age |
| Prescribe.SampleRmr | src/calc/prescribe.ts:35-41 | the sample athlete's resting rate is 1455.829 kcal, between 1400 and 1700 |
| Prescribe.RawMacrosCaps | src/calc/prescribe.ts:52-79 | protein is capped by its default and a quarter of the target; fat by its default and the kcal left after protein; carbohydrate is never negative |
| Prescribe.RawMacrosKcal | src/calc/prescribe.ts:52-79 | before rounding the split accounts for every kcal of a non-negative target (4/9/4 kcal per gram) |
| Prescribe.RawMacrosDefaults | src/calc/prescribe.ts:52-79 | a target covering both defaults gives exactly the per-kg protein and fat, with carbohydrate taking the rest |
| Prescribe.MacroTargetsRounded | src/calc/prescribe.ts:43-46 | every macro is non-negative with at most one decimal |
| Prescribe.MacroTargetsKcal | src/calc/prescribe.ts:52-79 | after rounding, the macros' energy is within 0.85 kcal of the target |
| Prescribe.ComputeMacroTargets | src/calc/prescribe.ts:52-79 | the step-by-step budget computation equals the macro specification proved above |
| Prescribe.StepsWattHoursAppend | src/calc/prescribe.ts:87-101 | step energy adds up over concatenated step lists |
| Prescribe.RpeStepsNoEnergy | src/calc/prescribe.ts:87-101 | steps targeted by RPE carry no energy |
| Prescribe.StepsWattHoursNonNegative | src/calc/prescribe.ts:87-101 | non-negative targets, durations and FTP give non-negative energy |
| Prescribe.RestCostsNothing | src/calc/prescribe.ts:103-119 | a rest session without a planned figure or steps costs 0 kJ |
| Prescribe.EstimateWorkoutKilojoules | src/calc/prescribe.ts:81-119 | the accumulating loop computes the workout-energy specification (planned figure, steps, or the per-type hourly rate) |
| Prescribe.SampleTempoEstimate | src/calc/prescribe.ts:81-119 | the sample tempo ride's steps at 250 W FTP are 540 kJ |
| Prescribe.Vo2StepsEstimate | src/calc/prescribe.ts:81-119 | 4 x 3 min at 110-120 % of 250 W is priced by its steps at 207 kJ |
| Prescribe.HoursBetween | src/calc/prescribe.ts:20-24 | the span is never negative: for ordered instants it is their distance in hours, for reversed ones exactly 0 |
| Prescribe.MapCarbPlanRounded | src/calc/prescribe.ts:121-129 | gram figures have one decimal and the ratio two, and the rate and grams during stay within 0.05 of the computed ones |
| Prescribe.WindowNeedNonNegative | src/calc/prescribe.ts:147-152 | non-negative rate, activity factor and kilojoules with positive efficiency give a non-negative need |
| Prescribe.BuildWindow | src/calc/prescribe.ts:142-176 | one loop turn builds exactly the window specification for the workout and its predecessor |
| Prescribe.WindowSpan | src/calc/prescribe.ts:142-146 | a window ends at its workout's end and starts at the previous workout's end, or 24 h before its workout (with previous id "START") when it is the first |
| Prescribe.StartOrder | src/calc/prescribe.ts:136-138 | the workouts' positions, each once, in stable start order |
| Prescribe.WindowsInOrderAt | src/calc/prescribe.ts:142-176 | the i-th window is the one for the i-th workout in start order and its predecessor |
| Prescribe.WindowsFor | src/calc/prescribe.ts:142-176 | the loop yields, in order, the window of each workout and the one before it |
| Prescribe.WindowsChained | src/calc/prescribe.ts:142-176 | each window opens where the previous one closed, and the first opens 24 h before its workout with START as predecessor |
| Prescribe.BuildWindows | src/calc/prescribe.ts:131-179 | one window per workout in stable start order; each window opens where the previous closed; the first opens 24 h before its workout |
| Sorting.StableSortByKey | src/calc/prescribe.ts:136-138 | the result is a permutation of the positions, sorted by key with ties in position order |
| Sorting.SortStrings | src/calc/weekly.ts:74 | a permutation of distinct keys in strictly ascending code-unit order |
| Calendar.YearOf | src/calc/weekly.ts:20 | the UTC year of a day is the year whose span holds it |
| Calendar.YearOfUnique | src/calc/weekly.ts:20 | that year is the only one |
| Calendar.IsoWeekday | src/calc/weekly.ts:21 | the weekday is 1 (Monday) to 7 (Sunday) |
| Calendar.IsoWeekNumber | src/calc/weekly.ts:23-24 | the week number lies in 1..53 and names the seven-day block of its year that holds the week's Thursday |
| Calendar.ThursdayFacts | src/calc/weekly.ts:21-22 | every day is within three days of its week's Thursday, which is a Thursday; the Monday three days before it is a Monday |
| Calendar.SameWeekSameStart | src/calc/weekly.ts:18-38 | days sharing a Thursday share key and Monday |
| Calendar.WeekKeyIff | src/calc/weekly.ts:31-34 | two days have the same week key if and only if they lie in the same Monday-to-Sunday week |
| Calendar.KeyTextInjective | src/calc/weekly.ts:31-34 | a week key names one year and one week number |
| Calendar.WeekKeyOrder | src/calc/weekly.ts:74 | for four-digit years, sorting keys as strings sorts weeks chronologically (both directions) |
| Calendar.WeekOrder | src/calc/weekly.ts:22-24 | Thursdays compare as their (year, week) pairs |
| Calendar.DayOfBounds | src/calc/weekly.ts:19 | an instant lies between the midnights of its day and the next |
| Calendar.ExampleMondayWeek | src/calc/weekly.ts:18-38 | 2024-06-10 is a Monday in ISO week 24 of 2024 and starts its own week |
| Calendar.IsoWeekInfoSpan | src/calc/weekly.ts:18-38 | corrected: the Monday-started week of an instant contains it, spans seven days less 1 ms, and begins at midnight on a Monday |
| Calendar.IsoWeekInfoAsWritten | src/calc/weekly.ts:26-29 | the start and end as the code computes them are still seven days less 1 ms apart |
| Calendar.WeekStartAsWrittenIsThursdayOfMonday | src/calc/weekly.ts:26-27 | as written, the week of Monday 2024-06-10 starts on Thursday 2024-06-13 |
| Calendar.WeekStartAsWrittenIff | src/calc/weekly.ts:26-27 | the start as written is the week's Monday if and only if the date is a Thursday |
| Calendar.AsWrittenSpan | src/calc/weekly.ts:26-29 | as written, the span starts at the date + 5 - 2 x its weekday, holds the instant if and only if the date is a Wednesday to Friday, and equals the Monday-to-Sunday span if and only if the date is a Thursday |
| Weekly.WorkoutIndexLast | src/calc/weekly.ts:57 | an id is indexed iff some workout has it, and maps to the last workout with that id |
| Weekly.IndexWorkouts | src/calc/weekly.ts:57 | the map built entry by entry is that index |
| Weekly.AllowanceBounds | src/calc/weekly.ts:86-96 | before a hard session or under recovery a window offers nothing; otherwise at most the per-window cap and at most its share of its need |
| Weekly.FlagEffects | src/calc/weekly.ts:92-96 | the empty flag halves the offer and the under-recovery flag zeroes it, whatever the other flags |
| Weekly.GreedyTotal | src/calc/weekly.ts:98-107 | the windows take the smaller of budget and total allowance, each between 0 and its allowance |
| Weekly.GreedyPrefix | src/calc/weekly.ts:98-107 | the first k deficits depend only on the first k allowances |
| Weekly.GreedyExhausted | src/calc/weekly.ts:98-107 | once a window is served short every later window gets nothing |
| Weekly.GreedySpentAt | src/calc/weekly.ts:98-107 | a window served short leaves the budget fully spent |
| Weekly.GreedyLast | src/calc/weekly.ts:98 | each deficit is the smaller of its allowance and what is left |
| Weekly.GreedyAtMost | src/calc/weekly.ts:98 | no window takes more than its allowance |
| Weekly.SettleFacts | src/calc/weekly.ts:99-103 | settling keeps span, workout, need and carbs; a positive deficit lowers the target to need minus deficit (never below 0) and adds the note; otherwise only macros refresh |
| Weekly.SettleRestartsFromNeed | src/calc/weekly.ts:100 | deficits do not compound: the target restarts from the need |
| Weekly.SettleKeepsAllowance | src/calc/weekly.ts:92-101 | the deficit note is not a flag, so settling does not change what a window offers |
| Weekly.SettledAt | src/calc/weekly.ts:85-108 | each settled window is its window settled with its own deficit |
| Weekly.WeekBudget | src/calc/weekly.ts:110-117 | a week allocates the smaller of target and allowances, and carries over the rest exactly when the allowances fall short |
| Weekly.WeekAllowancesNonNegative | src/calc/weekly.ts:90 | non-negative cap, share and needs give non-negative offers |
| Weekly.HardDayUntouched | src/calc/weekly.ts:88-102 | a window before a hard session keeps its target and gains no note |
| Weekly.WeekSpanCovers | src/calc/weekly.ts:26-29 | the corrected span (the Monday-to-Sunday week of the first window) holds every window of the week |
| Weekly.WeekSpanAsWritten | src/calc/weekly.ts:79 | the summary's span starts at the first window's day + 5 - 2 x its weekday; it holds that window if and only if the window ends Wednesday to Friday, and when the window ends on a Thursday it holds every window of the week |
| Weekly.SettleClone | src/calc/weekly.ts:58-62 | settling a clone is settling the window |
| Weekly.AllowanceClone | src/calc/weekly.ts:58-62 | a clone offers what the window offers |
| Weekly.CloneWindows | src/calc/weekly.ts:58-62 | a fresh array holding a copy of every window with macros for its target |
| Weekly.GroupByKey | src/calc/weekly.ts:63-71 | distinct keys; every window's position in its key's group, ascending, and only there |
| Weekly.SettleWindow | src/calc/weekly.ts:86-103 | one window's deficit is the smaller of its allowance and what is left, and the window is settled with it |
| Weekly.ServeWindows | src/calc/weekly.ts:81-108 | the week's clones are settled in place, what remains is the target minus the greedy deficits, and the macro sums are those of the settled windows |
| Weekly.SettleWeek | src/calc/weekly.ts:76-123 | one week: its clones are overwritten by their settled values and nothing else changes; the summary is the week's specification |
| Weekly.SettleKey | src/calc/weekly.ts:76-123 | one turn over the sorted keys keeps earlier weeks placed and later keys' windows untouched |
| Weekly.SettleWeeks | src/calc/weekly.ts:73-124 | the loop over sorted keys yields one summary per key and places every week's settled windows |
| Weekly.SettleClones | src/calc/weekly.ts:63-126 | grouping then settling yields summaries in ascending key order, each the specification of its week, with every window settled in its own week |
| Weekly.AllocateWeeklyDeficits | src/calc/weekly.ts:48-127 | windows stay in input order, each settled as its week's greedy allocation decides; one summary per ISO week in ascending key order, with the start and end the program computes from its first window; every window is in its week |
| Fake.ToTimestamp | src/adapters/fake.ts:12-18 | a parsed instant, or the error naming the text |
| Fake.CloneSteps | src/adapters/fake.ts:28-30 | the copy equals the steps (or their absence) |
| Fake.CloneWorkout | src/adapters/fake.ts:32-37 | the copy equals the workout |
| Fake.NewFakeProvider | src/adapters/fake.ts:42-44 | planned kilojoules are omitted exactly when the option is true |
| Fake.PresentAll | src/adapters/fake.ts:49-56 | each kept workout is handed out as its copy, without planned kilojoules and marked as estimated from steps when omitting |
| Fake.KeptIndicesExact | src/adapters/fake.ts:20-26 | the kept positions ascend and are exactly those whose workout overlaps the range |
| Fake.FilterIsKept | src/adapters/fake.ts:47 | filtering keeps the workouts at the kept positions, in order |
| Fake.GetPlannedWorkoutsSpec | src/adapters/fake.ts:46-57 | an unparsable bound is an error naming it, but only when there is a sample; otherwise the copies of the overlapping samples in order, without planned figures when omitting |
| SampleProfile.FindByName | src/samples/profile.ts:12-31 | a listed value is found iff some value has the name |
| SampleProfile.EnsureSex | src/samples/profile.ts:12-17 | accepted iff the text names a sex, else the invalid-sex error |
| SampleProfile.EnsureEfficiencyPreset | src/samples/profile.ts:19-24 | accepted iff the text names a preset, else its error |
| SampleProfile.EnsureSessionType | src/samples/profile.ts:26-31 | accepted iff the text names a session type, else its error |
| SampleProfile.AllListed | src/samples/profile.ts:8-10 | the value lists hold every sex, preset and session type |
| SampleProfile.NamesRoundTrip | src/samples/profile.ts:8-31 | validating the name of a value gives back that value |
| SampleProfile.EnsureBandTuple | src/samples/profile.ts:33-38 | accepted iff exactly two numbers, as (low, high) |
| SampleProfile.AddEntry | src/samples/profile.ts:40-47 | a good entry adds its band under its session type, a bad one fails with its error |
| SampleProfile.CarbBandsFromOk | src/samples/profile.ts:40-47 | the bands parse iff every entry is good; otherwise the first bad entry's error |
| SampleProfile.CarbBandsFromKeys | src/samples/profile.ts:40-47 | a session type has a band iff some entry names it |
| SampleProfile.CarbBandsFromValues | src/samples/profile.ts:40-47 | the last entry for a type gives its band |
| SampleProfile.SampleProfileSpec | src/samples/profile.ts:49-69 | the profile is valid iff bands, sex and preset are; it then carries every raw field, with the checked sex, preset and bands; the error is the first failing check's: the band entry's, InvalidSex, then InvalidEfficiencyPreset |
| PlannerStore.CloneCarbBands | src/state/plannerStore.ts:36-41 | the copy equals the bands |
| PlannerStore.ApplyThenRead | src/state/plannerStore.ts:47-60 | reading the overrides back from a profile they were applied to gives them back |
| PlannerStore.ApplyDefaultsIdentity | src/state/plannerStore.ts:90-104 | applying a profile's own overrides changes nothing |
| PlannerStore.ApplyKeepsOtherFields | src/state/plannerStore.ts:90-104 | fields that are not overridable are kept, and applying twice is applying once |
| PlannerStore.MergeBands | src/state/plannerStore.ts:74-81 | the merged bands have the base's types, each taken from the stored bands when present there |
| PlannerStore.MergeOverrides | src/state/plannerStore.ts:62-88 | no stored overrides gives the base; otherwise the stored values, with bands merged over the base's types |
| PlannerStore.GetDetermines | src/state/plannerStore.ts:163-169 | overrides agreeing on every key are equal |
| PlannerStore.UpdateOverride | src/state/plannerStore.ts:163-169 | the key reads back the new value and every other key is unchanged |
| PlannerStore.UpdateOverrideLaws | src/state/plannerStore.ts:163-169 | writing a key's own value changes nothing, and the last write wins |
| PlannerStore.UpdateCarbBand | src/state/plannerStore.ts:170-187 | only the type's band changes; the edited end takes the value and the band stays ordered |
| PlannerStore.UpdateCarbSplit | src/state/plannerStore.ts:188-195 | the part reads back the value, other parts and overrides are unchanged |
| PlannerStore.SplitGetDetermines | src/state/plannerStore.ts:188-195 | splits agreeing on every part are equal |
| PlannerStore.RecomputePlan | src/state/plannerStore.ts:106-119 | the plan is built for the overridden profile: windows in start order, then weekly allocation as specified; nothing without workouts |
| Intervals.ParseSex | src/adapters/intervals.ts:173-180 | M or F exactly when the trimmed text starts with that letter in either case |
| Intervals.ParseSexLeadingLetter | src/adapters/intervals.ts:173-180 | surrounding spaces do not matter; the first letter decides |
| Intervals.MapTagsByRank | src/adapters/intervals.ts:554-562 | no known tag gives the default; otherwise the known tag of highest rank |
| Intervals.FoldMaxIsMax | src/adapters/intervals.ts:457-522 | the peak fold is an upper bound and is 0 or attained |
| Intervals.KeywordsDecide | src/adapters/intervals.ts:457-522 | a keyword in the text decides the type whatever the steps and intensities |
| Intervals.RestWordsFirst | src/adapters/intervals.ts:457-522 | rest words win over every other rule |
| Intervals.StepsSilenceIntensity | src/adapters/intervals.ts:457-522 | with steps present the intensity hints are not used |
| Intervals.HardStepMeansVo2 | src/adapters/intervals.ts:457-522 | without keywords, a step peaking at 115 % or more makes the session VO2 |
| Intervals.InferFallsBack | src/adapters/intervals.ts:457-522 | without keywords, hard steps, high intensity or recovery wording the default type stands |
| Intervals.Truncate | src/adapters/intervals.ts:564-567 | short text is kept; long text is cut to the limit ending in an ellipsis |
| Intervals.TruncateBounds | src/adapters/intervals.ts:564-567 | the result is never longer than the limit and keeps the text's prefix |
| Intervals.StripLeadingSlashes | src/adapters/intervals.ts:589-597 | the result is the path with all leading slashes removed |
| Intervals.NormaliseApiPathSpec | src/adapters/intervals.ts:589-597 | the trimmed, unslashed path loses the API prefix when it has it, and is kept otherwise |
| Intervals.NormalisePrefixed | src/adapters/intervals.ts:589-597 | slashes then the prefix then a path give back the path |
| Intervals.EnsureDurationHours | src/adapters/intervals.ts:524-534 | positive iff positive seconds or an ordered start and end are given, never negative |
| Intervals.DurationRoundTrip | src/adapters/intervals.ts:524-534 | hours turned to seconds come back unchanged |
| Intervals.EstimateFromIf | src/adapters/intervals.ts:599-607 | an estimate exists iff FTP, a positive IF and a positive duration are there |
| Intervals.EstimateFromIfMatchesFallback | src/adapters/intervals.ts:599-607 | the IF estimate with the session type's IF is the engine's hourly estimate |
| Intervals.EstimateFromTss | src/adapters/intervals.ts:609-618 | an estimate exists iff FTP, positive TSS and duration are there, and it is the IF estimate for an IF with IF² x hours x 100 = TSS |
| Intervals.StepJoulesWattHours | src/adapters/intervals.ts:620-640 | a step's joules are 3600 times its watt-hours |
| Intervals.SumStepKilojoules | src/adapters/intervals.ts:620-640 | no figure for no steps, missing FTP for %FTP steps, or no energy; otherwise the steps' energy in kJ |
| Intervals.TotalStepDurationSeconds | src/adapters/intervals.ts:642-654 | the sum of the positive durations when positive, none otherwise |
| Intervals.PositiveDurationsBound | src/adapters/intervals.ts:642-654 | each positive step duration is at most the total |
| Intervals.FirstPositive | src/adapters/intervals.ts:869-875 | the first positive candidate, if any |
| Intervals.StepsKjMatchesWorkoutEstimate | src/adapters/intervals.ts:891-896 | the adapter's step estimate agrees with the engine's step estimate |
| Intervals.FirstTss | src/adapters/intervals.ts:915-928 | the loop returns the estimate of the first usable TSS candidate |
| Intervals.EstimatePlannedKj | src/adapters/intervals.ts:883-931 | the estimate chain: description, steps, IF, TSS, then the fallback |
| Intervals.ExtractPlannedKilojoules | src/adapters/intervals.ts:863-932 | the loop over direct figures and the chain give the planned-kJ specification |
| Intervals.StepsKjPositive | src/adapters/intervals.ts:891-896 | a step estimate is positive |
| Intervals.IfEstimatePositive | src/adapters/intervals.ts:902-913 | an IF estimate with positive FTP is positive |
| Intervals.TssEstimatePositive | src/adapters/intervals.ts:915-928 | a TSS estimate with positive FTP is positive |
| Intervals.PlannedKjSources | src/adapters/intervals.ts:863-932 | no figure iff the fallback source; structured and step figures are positive, and IF/TSS ones are with positive FTP |
| Intervals.DirectFigureWins | src/adapters/intervals.ts:869-875 | a positive planned-work figure is taken as the structured figure |
| IntervalsSteps.PlaceSpec | src/adapters/intervals.ts:678-689 | each placed step carries its piece and starts at the total of those before |
| IntervalsSteps.Contiguous | src/adapters/intervals.ts:678-689 | the steps start at 0 and each starts where the previous ends |
| IntervalsSteps.PlacedDurations | src/adapters/intervals.ts:642-654 | the placed steps' positive durations add up to the pieces' total |
| IntervalsSteps.PlaceAppend | src/adapters/intervals.ts:678-689 | appending a piece adds one step at the old total |
| IntervalsSteps.ParsePower | src/adapters/intervals.ts:691-696 | no power is 0, a fraction up to 1 becomes a percentage, a larger figure stays |
| IntervalsSteps.AppendStep | src/adapters/intervals.ts:678-689 | one more step at the cursor exactly when its duration is kept |
| IntervalsSteps.AppendIntervals | src/adapters/intervals.ts:711-722 | the on/off pair is appended Repeat times |
| IntervalsSteps.AppendNode | src/adapters/intervals.ts:698-733 | one node's steps are appended at the cursor |
| IntervalsSteps.BuildStepsFromZwoNodes | src/adapters/intervals.ts:672-736 | no steps iff no node gives one; otherwise every node's steps in order laid end to end |
| IntervalsSteps.ZwoDurationsWhole | src/adapters/intervals.ts:678-689 | every ZWO step lasts a whole number of seconds, at least one |
| IntervalsSteps.ZwoTotalIsEnd | src/adapters/intervals.ts:642-654 | the total duration of ZWO steps is the last step's end |
| IntervalsSteps.IntervalsRepeat | src/adapters/intervals.ts:711-722 | an interval set has Repeat (rounded, else 1) times its present halves |
| IntervalsSteps.FreeRideTarget | src/adapters/intervals.ts:723-731 | a free ride is a watts step at a positive flat-road speed, else 55-65 % FTP, present iff its duration is positive |
| IntervalsSteps.UnknownTagsIgnored | src/adapters/intervals.ts:698-733 | other tags give no steps |
| IntervalsSteps.Coalesce | src/adapters/intervals.ts:748-781 | the first field that is neither null nor undefined decides; when every field is, the last operand does |
| IntervalsSteps.NullDurationSkipsItem | src/adapters/intervals.ts:746-747 | a `duration` key holding null decides the duration as 0, so the item is skipped even with a usable `Duration` |
| IntervalsSteps.NullPowerIsZero | src/adapters/intervals.ts:759-780 | a null at the end of a %FTP chain is read as 0 %, and the high target then takes the low |
| IntervalsSteps.ParseStructuredArray | src/adapters/intervals.ts:741-787 | no steps iff no item gives one; otherwise the items' steps laid end to end |
| IntervalsSteps.ShortItemKeepsZeroStep | src/adapters/intervals.ts:741-747 | an item under half a second gives a zero-second step |
| IntervalsSteps.ArrayDurationsWhole | src/adapters/intervals.ts:741-747 | array step durations are whole non-negative seconds |
| IntervalsSteps.PercentTargets | src/adapters/intervals.ts:757-781 | %FTP targets read fractions as percentages and a missing high target takes the low |
| IntervalsProfile.RecordWeight | src/adapters/intervals.ts:275-292 | a record has a weight iff some weight key holds a positive reading, and it is positive |
| IntervalsProfile.ExtractWeightKg | src/adapters/intervals.ts:275-292 | a weight exists iff some record has one, and it is positive |
| IntervalsProfile.ExtractWeightFirst | src/adapters/intervals.ts:275-292 | the first record with a weight decides |
| IntervalsProfile.WeightUnits | src/adapters/intervals.ts:275-292 | a kilogram reading is taken as is; pounds are converted only when no kilogram key is there |
| IntervalsProfile.RecordHeight | src/adapters/intervals.ts:294-320 | a record's height is positive when there |
| IntervalsProfile.ExtractHeightCm | src/adapters/intervals.ts:294-320 | a height exists iff some record has one, and it is positive |
| IntervalsProfile.HeightScale | src/adapters/intervals.ts:294-320 | a bare height up to 3 is metres, above 3 centimetres |
| IntervalsProfile.HeightFromFeet | src/adapters/intervals.ts:294-320 | feet and inches are used only when nothing else is there, a missing inch figure counting as 0 |
| IntervalsProfile.WeightMapLastWins | src/adapters/intervals.ts:373-380 | a date is kept iff a positive reading names it, with the weight of its last such reading |
| IntervalsProfile.CollectWeights | src/adapters/intervals.ts:373-380 | adding readings one by one builds that map |
| IntervalsProfile.ParseWeightSeries | src/adapters/intervals.ts:370-455 | one entry per date with its last weight and source "intervals", in ascending date order |

## Left out

- HTTP: the provider class, requests, authentication headers, error-body summaries, file downloads and retries. They are I/O.
- ZWO text: parsing it with `DOMParser` is not modelled. `IntervalsSteps` starts from the nodes' tags and numeric attributes.
- Text parsing: the regular-expression reading of kilojoules from a description is not modelled. That figure is an input of `Intervals.ExtractPlannedKilojoules`.
- Number and date parsing: `toFiniteNumber`, `Number(...)` and `Date.parse` are taken as already applied. Inputs are `Option` values: `None` means not finite or absent.
- `parseWeightSeries`: reading the JSON, CSV or object body into readings is not modelled. The model starts from the readings.
- `computeAgeYears` reads the clock and is left out.
- Gathering athlete records from several endpoints is I/O and is left out.
- Floating point: all arithmetic is exact real arithmetic. IEEE rounding is not modelled.
- `Math.sqrt` is a parameter that is assumed to return the non-negative root.
- Text case: `toLowerCase` and `toUpperCase` map ASCII letters only.
- The store's framework state, persistence, initialisation and subscriptions are not modelled. Only the plan is modelled.
- UI components, pages, the service worker and storage are not modelled.
- The sample workouts' data is not modelled: lemmas take such workouts as parameters.
- Aliasing: windows and profiles are values. The only in-place update is on the weekly allocator's array of clones.
- Intervals.ExtractTags: a tag list is already a list of strings, so the `String(tag)` conversion of other values is not modelled.
- Text.Less and Intervals.Truncate: they count Dafny characters, whereas `<` and `.length` in the program count UTF-16 code units. The two differ only for characters outside the Basic Multilingual Plane.
- IntervalsSteps.Item: a field other than `null` or `undefined` is given only by what `Number` makes of it, so `Number`'s own conversions of strings and booleans are not modelled.
- Prescribe.BuildWindows: it requires a non-zero efficiency and a band for every workout. With a zero efficiency the source divides by zero. Without a band for the session type or for Endurance, it reads a field of `undefined`.
- Carb.ComputeCarbPlan: it requires a band for the session type or for Endurance, for the same reason.
- PlannerStore.RecomputePlan: it requires the same conditions as `Prescribe.BuildWindows`.
- PlannerStore.MergeOverrides: stored overrides are complete records. Fields missing from a partial stored object are not modelled.
- Fake.Filter: its own contract only bounds the length. `Fake.FilterIsKept` and `Fake.KeptIndicesExact` state what it keeps.
- IntervalsSteps.ParseStructuredArray: an item shorter than half a second gives a zero-second step, because the array branch rounds without the one-second floor of the ZWO path. The model keeps this behaviour (`IntervalsSteps.ShortItemKeepsZeroStep`).

## Findings

| source | as written | input that shows it | evidently intended | confidence | as-written member | corrected member |
|---|---|---|---|---|---|---|
| src/calc/weekly.ts:26-27 | the week start is the week's Thursday minus (weekday - 1), i.e. date + 5 - 2 x weekday | 2024-06-10 (a Monday, day 19884): the week "starts" on Thursday 2024-06-13, after the date itself | the Monday of the ISO week, Thursday minus 3, which holds the date | not executed | Calendar.WeekStartAsWrittenIsThursdayOfMonday | Calendar.IsoWeekInfoSpan |
