/** The carbohydrate planner: a band rate for the session type, grams before,
    during and after the workout in the profile's split, and the over-fuel
    guard that scales easy sessions down to 60 % of the window's energy. */
module Carb {
  import opened Base
  import opened Types

  /** The rate for a session type from its band `[min, max]`. */
  function SelectBandValue(band: Band, t: SessionType): (v: real)
    ensures t == Rest ==> v == 0.0
    ensures t != Rest && band.low <= band.high ==> band.low <= v <= band.high
    ensures IsHardSession(t) ==> v == band.high
    ensures t == Tempo ==> v == (band.low + band.high) / 2.0
    ensures t != Rest && !IsHardSession(t) && t != Tempo ==> v == band.low
  {
    if t == Rest then 0.0
    else if IsHardSession(t) then band.high
    else if t == Tempo then (band.low + band.high) / 2.0
    else band.low
  }

  /** The band lookup cannot fail: the session's own band or the Endurance band. */
  predicate HasBand(profile: Profile, t: SessionType)
  {
    t in profile.carbBands || Endurance in profile.carbBands
  }

  /** `profile.carbBands[type] ?? profile.carbBands.Endurance`. */
  function BandFor(profile: Profile, t: SessionType): Band
    requires HasBand(profile, t)
  {
    if t in profile.carbBands then profile.carbBands[t] else profile.carbBands[Endurance]
  }

  datatype CarbComputation = CarbComputation(
    gPerHr: real,
    preG: real,
    duringG: real,
    postG: real,
    gluFruRatio: real,
    overFuelGuardApplied: bool)

  function TotalGrams(c: CarbComputation): real
  {
    c.preG + c.duringG + c.postG
  }

  /** `split.x / split.during * during`, or 0 when the split has no during part. */
  function SplitShare(part: real, splitDuring: real, during: real): real
  {
    if splitDuring == 0.0 then 0.0 else part / splitDuring * during
  }

  /** The plan before the guard: the band rate, `rate * duration` grams
      during the workout, and grams before and after in the proportions of
      the split (none when the split's during part is 0). */
  function UnguardedPlan(profile: Profile, workout: PlannedWorkout): (r: CarbComputation)
    requires HasBand(profile, workout.sessionType)
    ensures r.gPerHr == SelectBandValue(BandFor(profile, workout.sessionType), workout.sessionType)
    ensures r.duringG == r.gPerHr * workout.durationHr
    ensures r.gluFruRatio == profile.gluFruRatio && !r.overFuelGuardApplied
    ensures profile.carbSplit.during == 0.0 ==> r.preG == 0.0 && r.postG == 0.0
    ensures profile.carbSplit.during != 0.0 ==>
      r.preG * profile.carbSplit.during == profile.carbSplit.pre * r.duringG
      && r.postG * profile.carbSplit.during == profile.carbSplit.post * r.duringG
  {
    var rate := SelectBandValue(BandFor(profile, workout.sessionType), workout.sessionType);
    var during := rate * workout.durationHr;
    var split := profile.carbSplit;
    CarbComputation(rate, SplitShare(split.pre, split.during, during), during,
                    SplitShare(split.post, split.during, during), profile.gluFruRatio, false)
  }

  /** No carbohydrate is planned when the rate is 0 or the workout has no duration. */
  predicate NoFuel(profile: Profile, workout: PlannedWorkout)
    requires HasBand(profile, workout.sessionType)
  {
    UnguardedPlan(profile, workout).gPerHr == 0.0 || workout.durationHr <= 0.0
  }

  /** The over-fuel guard condition: an easy session whose positive grams
      exceed 60 % of a positive window need. */
  predicate GuardFires(profile: Profile, workout: PlannedWorkout, needKcal: real)
    requires HasBand(profile, workout.sessionType)
  {
    var total := TotalGrams(UnguardedPlan(profile, workout));
    !NoFuel(profile, workout)
    && (workout.sessionType == Endurance || workout.sessionType == Tempo)
    && total > 0.0
    && needKcal * 0.6 > 0.0
    && total * 4.0 > needKcal * 0.6
  }

  /** The factor the guard applies: 60 % of the need over the unguarded
      grams' energy. */
  function GuardFactor(profile: Profile, workout: PlannedWorkout, needKcal: real): real
    requires HasBand(profile, workout.sessionType)
    requires TotalGrams(UnguardedPlan(profile, workout)) > 0.0
  {
    needKcal * 0.6 / (TotalGrams(UnguardedPlan(profile, workout)) * 4.0)
  }

  /** `computeCarbPlan`. */
  function ComputeCarbPlan(profile: Profile, workout: PlannedWorkout, needKcal: real): (r: CarbComputation)
    requires HasBand(profile, workout.sessionType)
    ensures r.gluFruRatio == profile.gluFruRatio
    ensures r.overFuelGuardApplied <==> GuardFires(profile, workout, needKcal)
    ensures NoFuel(profile, workout) ==>
      r == CarbComputation(0.0, 0.0, 0.0, 0.0, profile.gluFruRatio, false)
    ensures !NoFuel(profile, workout) && !r.overFuelGuardApplied ==> r == UnguardedPlan(profile, workout)
    ensures r.overFuelGuardApplied ==> TotalGrams(r) * 4.0 == needKcal * 0.6
    ensures r.overFuelGuardApplied ==>
      var u := UnguardedPlan(profile, workout);
      var k := GuardFactor(profile, workout, needKcal);
      0.0 < k < 1.0
      && r == CarbComputation(u.gPerHr * k, u.preG * k, u.duringG * k, u.postG * k, u.gluFruRatio, true)
  {
    var u := UnguardedPlan(profile, workout);
    if NoFuel(profile, workout) then
      CarbComputation(0.0, 0.0, 0.0, 0.0, profile.gluFruRatio, false)
    else if GuardFires(profile, workout, needKcal) then
      var total := u.preG + u.duringG + u.postG;
      var limit := needKcal * 0.6;
      var scaledTotal := total * (limit / (total * 4.0));
      var scale := scaledTotal / (u.duringG + (u.preG + u.postG));
      GuardScaling(u, limit, scaledTotal, scale);
      CarbComputation(u.gPerHr * scale, u.preG * scale, u.duringG * scale, u.postG * scale,
                      profile.gluFruRatio, true)
    else
      u
  }

  /** The arithmetic of the guard: the code's two-step factor is the guard
      factor, lies strictly between 0 and 1, and brings the grams' energy to
      exactly the limit. */
  lemma GuardScaling(u: CarbComputation, limit: real, scaledTotal: real, scale: real)
    requires TotalGrams(u) > 0.0 && limit > 0.0 && TotalGrams(u) * 4.0 > limit
    requires scaledTotal == TotalGrams(u) * (limit / (TotalGrams(u) * 4.0))
    requires scale == scaledTotal / (u.duringG + (u.preG + u.postG))
    ensures scale == limit / (TotalGrams(u) * 4.0)
    ensures (u.preG * scale + u.duringG * scale + u.postG * scale) * 4.0 == limit
    ensures 0.0 < scale < 1.0
  {
    var t := TotalGrams(u);
    var k := limit / (t * 4.0);
    assert k * (t * 4.0) == limit;
    assert u.duringG + (u.preG + u.postG) == t;
    assert scaledTotal == t * k;
    assert scale == k;
    assert u.preG * k + u.duringG * k + u.postG * k == t * k;
    assert k < 1.0 by {
      assert k * (t * 4.0) < t * 4.0;
    }
  }

  /** Hard sessions are never guarded: with a positive duration they are
      fuelled at the top of their band (the VO2 plan runs at the VO2 band's
      high value). */
  lemma HardSessionUsesBandHigh(profile: Profile, workout: PlannedWorkout, needKcal: real)
    requires HasBand(profile, workout.sessionType)
    requires IsHardSession(workout.sessionType) && workout.durationHr > 0.0
    ensures ComputeCarbPlan(profile, workout, needKcal).gPerHr == BandFor(profile, workout.sessionType).high
    ensures !ComputeCarbPlan(profile, workout, needKcal).overFuelGuardApplied
  {
  }
}
