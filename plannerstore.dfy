/** The planner store's rules for the user's overrides: the ten profile
    fields the user may change, how overrides saved earlier are merged over
    the defaults, how they are laid over the base profile, how each control
    edits them, and how the plan is recomputed from them. The store itself
    (its state container, persistence and loading) is not modelled: every
    rule here takes the current values and returns the new ones, so the
    previous overrides are never mutated. */
module PlannerStore {
  import opened Base
  import opened Types
  import opened Sorting
  import opened Text
  import opened Carb
  import opened Prescribe
  import opened Weekly

  /** `PlannerOverrides`: the profile fields the user can change. */
  datatype Overrides = Overrides(
    efficiencyPreset: EfficiencyPreset,
    efficiency: real,
    activityFactorDefault: real,
    targetKgPerWeek: real,
    deficitCapPerWindow: real,
    proteinGPerKg: real,
    fatGPerKgMin: real,
    carbBands: map<SessionType, Band>,
    carbSplit: CarbSplit,
    gluFruRatio: real)

  /** `cloneCarbBands`: a fresh `[low, high]` pair per session type, which
      as a value is the same map. */
  function CloneCarbBands(bands: map<SessionType, Band>): (r: map<SessionType, Band>)
    ensures r == bands
  {
    var copy := map t | t in bands :: Band(bands[t].low, bands[t].high);
    assert copy == bands;
    copy
  }

  /** `createDefaultOverrides`: the profile's own values of the ten fields. */
  function DefaultOverrides(profile: Profile): Overrides
  {
    Overrides(profile.efficiencyPreset, profile.efficiency, profile.activityFactorDefault,
              profile.targetKgPerWeek, profile.deficitCapPerWindow, profile.proteinGPerKg,
              profile.fatGPerKgMin, CloneCarbBands(profile.carbBands), profile.carbSplit,
              profile.gluFruRatio)
  }

  /** `applyOverrides`: the base profile with the ten fields taken from the
      overrides. */
  function ApplyOverrides(base: Profile, o: Overrides): Profile
  {
    base.(efficiencyPreset := o.efficiencyPreset, efficiency := o.efficiency,
          activityFactorDefault := o.activityFactorDefault, targetKgPerWeek := o.targetKgPerWeek,
          deficitCapPerWindow := o.deficitCapPerWindow, proteinGPerKg := o.proteinGPerKg,
          fatGPerKgMin := o.fatGPerKgMin, carbBands := CloneCarbBands(o.carbBands),
          carbSplit := o.carbSplit, gluFruRatio := o.gluFruRatio)
  }

  /** Applying overrides and reading them back gives the overrides: all ten
      fields are carried over, none is lost or mixed up. */
  lemma ApplyThenRead(base: Profile, o: Overrides)
    ensures DefaultOverrides(ApplyOverrides(base, o)) == o
  {
  }

  /** A profile's own defaults change nothing when applied to it, which is
      why the store's initial profile is its base profile. */
  lemma ApplyDefaultsIdentity(profile: Profile)
    ensures ApplyOverrides(profile, DefaultOverrides(profile)) == profile
  {
  }

  /** Applying overrides leaves every field outside the ten as the base
      has it, and what it produces depends on the base through those
      fields only. */
  lemma ApplyKeepsOtherFields(base: Profile, o: Overrides)
    ensures var p := ApplyOverrides(base, o);
      p.sex == base.sex && p.ageYears == base.ageYears && p.heightCm == base.heightCm
      && p.weightKg == base.weightKg && p.ftpWatts == base.ftpWatts
      && p.activityFactorOverrides == base.activityFactorOverrides && p.kcalPerKg == base.kcalPerKg
      && p.windowPctCap == base.windowPctCap && p.useImperial == base.useImperial
    ensures ApplyOverrides(ApplyOverrides(base, o), o) == ApplyOverrides(base, o)
  {
  }

  /** The loop of `mergeOverrides` over the stored bands: a stored band
      replaces the base's band of the same type, and a stored type the base
      has no band for is ignored. */
  method MergeBands(base: map<SessionType, Band>, stored: map<SessionType, Band>)
      returns (r: map<SessionType, Band>)
    ensures r.Keys == base.Keys
    ensures forall t :: t in r ==> r[t] == if t in stored then stored[t] else base[t]
  {
    r := CloneCarbBands(base);
    var rest := stored.Keys;
    while rest != {}
      invariant rest <= stored.Keys
      invariant r.Keys == base.Keys
      invariant forall t :: t in r ==> r[t] == if t in stored && t !in rest then stored[t] else base[t]
      decreases rest
    {
      var t :| t in rest;
      if t in r {
        r := r[t := Band(stored[t].low, stored[t].high)];
      }
      rest := rest - {t};
    }
  }

  /** `mergeOverrides`: without stored overrides the base ones; otherwise
      the stored scalar fields and split, and the base's bands with the
      stored ones laid over them. */
  method MergeOverrides(base: Overrides, stored: Option<Overrides>) returns (r: Overrides)
    ensures stored.None? ==> r == base
    ensures stored.Some? ==> r.(carbBands := stored.value.carbBands) == stored.value
    ensures stored.Some? ==> r.carbBands.Keys == base.carbBands.Keys
    ensures stored.Some? ==> forall t :: t in r.carbBands ==>
      r.carbBands[t] == if t in stored.value.carbBands then stored.value.carbBands[t] else base.carbBands[t]
  {
    if stored.None? {
      return base;
    }
    var s := stored.value;
    var bands := MergeBands(base.carbBands, s.carbBands);
    r := s.(carbBands := bands, carbSplit := s.carbSplit);
  }

  /** The fields `updateOverride` can be called with. */
  datatype OverrideKey =
    | EfficiencyPresetKey | EfficiencyKey | ActivityFactorDefaultKey | TargetKgPerWeekKey
    | DeficitCapPerWindowKey | ProteinGPerKgKey | FatGPerKgMinKey | CarbBandsKey
    | CarbSplitKey | GluFruRatioKey

  /** A value of one of those fields. */
  datatype OverrideValue =
    | PresetValue(preset: EfficiencyPreset)
    | NumberValue(number: real)
    | BandsValue(bands: map<SessionType, Band>)
    | SplitValue(split: CarbSplit)

  /** The field `key` of the overrides. */
  function Get(o: Overrides, key: OverrideKey): OverrideValue
  {
    match key
    case EfficiencyPresetKey => PresetValue(o.efficiencyPreset)
    case EfficiencyKey => NumberValue(o.efficiency)
    case ActivityFactorDefaultKey => NumberValue(o.activityFactorDefault)
    case TargetKgPerWeekKey => NumberValue(o.targetKgPerWeek)
    case DeficitCapPerWindowKey => NumberValue(o.deficitCapPerWindow)
    case ProteinGPerKgKey => NumberValue(o.proteinGPerKg)
    case FatGPerKgMinKey => NumberValue(o.fatGPerKgMin)
    case CarbBandsKey => BandsValue(o.carbBands)
    case CarbSplitKey => SplitValue(o.carbSplit)
    case GluFruRatioKey => NumberValue(o.gluFruRatio)
  }

  /** The value has the type of the field (what the source's generic
      signature demands). */
  predicate Fits(key: OverrideKey, value: OverrideValue)
  {
    match key
    case EfficiencyPresetKey => value.PresetValue?
    case CarbBandsKey => value.BandsValue?
    case CarbSplitKey => value.SplitValue?
    case _ => value.NumberValue?
  }

  /** Overrides agreeing on every field are the same overrides. */
  lemma GetDetermines(a: Overrides, b: Overrides)
    requires forall key :: Get(a, key) == Get(b, key)
    ensures a == b
  {
    assert Get(a, EfficiencyPresetKey) == Get(b, EfficiencyPresetKey);
    assert Get(a, EfficiencyKey) == Get(b, EfficiencyKey);
    assert Get(a, ActivityFactorDefaultKey) == Get(b, ActivityFactorDefaultKey);
    assert Get(a, TargetKgPerWeekKey) == Get(b, TargetKgPerWeekKey);
    assert Get(a, DeficitCapPerWindowKey) == Get(b, DeficitCapPerWindowKey);
    assert Get(a, ProteinGPerKgKey) == Get(b, ProteinGPerKgKey);
    assert Get(a, FatGPerKgMinKey) == Get(b, FatGPerKgMinKey);
    assert Get(a, CarbBandsKey) == Get(b, CarbBandsKey);
    assert Get(a, CarbSplitKey) == Get(b, CarbSplitKey);
    assert Get(a, GluFruRatioKey) == Get(b, GluFruRatioKey);
  }

  /** `{ ...state.overrides, [key]: value }`. */
  function UpdateOverride(o: Overrides, key: OverrideKey, value: OverrideValue): (r: Overrides)
    requires Fits(key, value)
    ensures Get(r, key) == value
    ensures forall other :: other != key ==> Get(r, other) == Get(o, other)
  {
    match key
    case EfficiencyPresetKey => o.(efficiencyPreset := value.preset)
    case EfficiencyKey => o.(efficiency := value.number)
    case ActivityFactorDefaultKey => o.(activityFactorDefault := value.number)
    case TargetKgPerWeekKey => o.(targetKgPerWeek := value.number)
    case DeficitCapPerWindowKey => o.(deficitCapPerWindow := value.number)
    case ProteinGPerKgKey => o.(proteinGPerKg := value.number)
    case FatGPerKgMinKey => o.(fatGPerKgMin := value.number)
    case CarbBandsKey => o.(carbBands := value.bands)
    case CarbSplitKey => o.(carbSplit := value.split)
    case GluFruRatioKey => o.(gluFruRatio := value.number)
  }

  /** Writing a field back with the value it already has changes nothing,
      and a second write to the same field replaces the first. */
  lemma UpdateOverrideLaws(o: Overrides, key: OverrideKey, v: OverrideValue, w: OverrideValue)
    requires Fits(key, v) && Fits(key, w)
    ensures UpdateOverride(o, key, Get(o, key)) == o
    ensures UpdateOverride(UpdateOverride(o, key, v), key, w) == UpdateOverride(o, key, w)
  {
    var a := UpdateOverride(o, key, Get(o, key));
    assert forall k :: Get(a, k) == Get(o, k);
    GetDetermines(a, o);
    var b := UpdateOverride(UpdateOverride(o, key, v), key, w);
    var c := UpdateOverride(o, key, w);
    assert forall k :: Get(b, k) == Get(c, k);
    GetDetermines(b, c);
  }

  /** Which end of a band `updateCarbBand` moves: index 0 or index 1. */
  datatype BandEnd = LowEnd | HighEnd

  /** `updateCarbBand`: the band of `t` (or `[0, 0]` when there is none) gets
      the new low, raising the high to it when needed, or the new high, never
      below the low. */
  method UpdateCarbBand(o: Overrides, t: SessionType, end: BandEnd, value: real) returns (r: Overrides)
    ensures r.(carbBands := o.carbBands) == o
    ensures r.carbBands.Keys == o.carbBands.Keys + {t}
    ensures forall u :: u in o.carbBands && u != t ==> r.carbBands[u] == o.carbBands[u]
    ensures var before := if t in o.carbBands then o.carbBands[t] else Band(0.0, 0.0);
      var after := r.carbBands[t];
      && after.low <= after.high
      && (end == LowEnd ==> after.low == value && after.high == Max(before.high, value))
      && (end == HighEnd ==> after.low == before.low && after.high == Max(value, before.low))
  {
    var bands := CloneCarbBands(o.carbBands);
    var low, high := 0.0, 0.0;
    if t in bands {
      low, high := bands[t].low, bands[t].high;
    }
    if end == LowEnd {
      low := value;
      if high < value {
        high := value;
      }
    } else {
      high := Max(value, low);
    }
    bands := bands[t := Band(low, high)];
    r := o.(carbBands := bands);
  }

  /** The part of the split `updateCarbSplit` sets. */
  datatype SplitPart = Pre | During | Post

  function SplitGet(s: CarbSplit, part: SplitPart): real
  {
    match part
    case Pre => s.pre
    case During => s.during
    case Post => s.post
  }

  /** `updateCarbSplit`: one part of the split replaced. */
  function UpdateCarbSplit(o: Overrides, part: SplitPart, value: real): (r: Overrides)
    ensures SplitGet(r.carbSplit, part) == value
    ensures forall other :: other != part ==> SplitGet(r.carbSplit, other) == SplitGet(o.carbSplit, other)
    ensures forall key :: key != CarbSplitKey ==> Get(r, key) == Get(o, key)
  {
    var split := match part
      case Pre => o.carbSplit.(pre := value)
      case During => o.carbSplit.(during := value)
      case Post => o.carbSplit.(post := value);
    o.(carbSplit := split)
  }

  /** Splits agreeing on every part are the same split, so the contract of
      `UpdateCarbSplit` pins its result down. */
  lemma SplitGetDetermines(a: CarbSplit, b: CarbSplit)
    requires forall part :: SplitGet(a, part) == SplitGet(b, part)
    ensures a == b
  {
    assert SplitGet(a, Pre) == SplitGet(b, Pre);
    assert SplitGet(a, During) == SplitGet(b, During);
    assert SplitGet(a, Post) == SplitGet(b, Post);
  }

  /** `recomputePlan`: the overridden profile, and no windows and no weeks
      without workouts; otherwise the windows built for the workouts, each
      week of them settled by the weekly allocator, weeks in key order. */
  method RecomputePlan(base: Profile, o: Overrides, workouts: seq<PlannedWorkout>)
      returns (profile: Profile, windows: seq<WindowPlan>, weekly: seq<WeeklyPlan>,
               ghost built: seq<WindowPlan>, ghost order: seq<nat>, ghost weeks: seq<seq<nat>>)
    requires o.efficiency != 0.0
    requires forall i :: 0 <= i < |workouts| ==> workouts[i].sessionType in o.carbBands || Endurance in o.carbBands
    ensures profile == ApplyOverrides(base, o)
    ensures workouts == [] ==> windows == [] && weekly == []
    ensures workouts != [] ==>
      && |order| == |workouts| && (forall x: nat :: x in order <==> x < |workouts|)
      && SortedByKey(Starts(workouts), order)
      && built == WindowsInOrder(profile, workouts, order, |order|)
    ensures workouts != [] ==> |windows| == |built| && |weekly| == |weeks|
    ensures workouts != [] ==> forall g :: 0 <= g < |weeks| ==>
      WeekOf(built, weekly[g].weekKey, weeks[g]) && weekly[g] == WeekPlanFor(profile, WorkoutIndex(workouts), built, weeks[g])
    ensures workouts != [] ==> forall g :: 0 <= g < |weeks| ==>
      InRange(weeks[g], |built|)
      && forall j :: 0 <= j < |weeks[g]| ==> windows[weeks[g][j]] == SettledWeek(profile, WorkoutIndex(workouts), built, weeks[g])[j]
    ensures workouts != [] ==> forall p, q :: 0 <= p < q < |weekly| ==> Less(weekly[p].weekKey, weekly[q].weekKey)
    ensures workouts != [] ==> forall i :: 0 <= i < |built| ==> InItsWeek(built, weekly, weeks, i)
  {
    profile := ApplyOverrides(base, o);
    if |workouts| == 0 {
      return profile, [], [], [], [], [];
    }
    assert AllBands(profile, workouts);
    var w;
    w, order := BuildWindows(profile, workouts);
    built := w;
    windows, weekly, weeks := AllocateWeeklyDeficits(profile, w, workouts);
  }
}
