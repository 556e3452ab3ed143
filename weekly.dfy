/** The weekly deficit allocator. Windows are grouped by the ISO week of
    their end, weeks are taken in key order, and inside a week the windows
    are served in time order from one weekly budget: each easy window gives
    up to its allowance (the per-window cap, or a share of its need),
    hard-session windows and under-recovered windows give nothing, and a
    window flagged as empty gives half. */
module Weekly {
  import opened Base
  import opened Types
  import opened Text
  import opened Calendar
  import opened Sorting
  import opened Prescribe

  const EmptyFlag: string := "EMPTY_FLAG"
  const UnderRecoveryFlag: string := "UNDER_RECOVERY_FLAG"

  // ------------------------------------------------------- workout lookup

  /** `new Map(workouts.map(w => [w.id, w]))`: a later workout replaces an
      earlier one with the same id. */
  function WorkoutIndex(workouts: seq<PlannedWorkout>): map<string, PlannedWorkout>
  {
    if workouts == [] then map[]
    else
      var last := workouts[|workouts| - 1];
      WorkoutIndex(workouts[..|workouts| - 1])[last.id := last]
  }

  /** An id is in the index exactly when some workout has it, and it then
      maps to the last workout with that id. */
  lemma {:induction false} WorkoutIndexLast(workouts: seq<PlannedWorkout>, id: string)
    ensures id in WorkoutIndex(workouts) <==> exists i :: 0 <= i < |workouts| && workouts[i].id == id
    ensures id in WorkoutIndex(workouts) ==>
      exists i :: 0 <= i < |workouts| && workouts[i] == WorkoutIndex(workouts)[id]
        && workouts[i].id == id && forall j :: i < j < |workouts| ==> workouts[j].id != id
  {
    if workouts != [] {
      var n := |workouts| - 1;
      var prefix, last := workouts[..n], workouts[n];
      WorkoutIndexLast(prefix, id);
      assert WorkoutIndex(workouts) == WorkoutIndex(prefix)[last.id := last];
      if last.id == id {
        assert workouts[n] == WorkoutIndex(workouts)[id];
      } else if id in WorkoutIndex(prefix) {
        var i :| 0 <= i < |prefix| && prefix[i] == WorkoutIndex(prefix)[id]
          && prefix[i].id == id && forall j :: i < j < |prefix| ==> prefix[j].id != id;
        assert workouts[i] == prefix[i] && WorkoutIndex(workouts)[id] == WorkoutIndex(prefix)[id];
      } else {
        assert id !in WorkoutIndex(workouts);
        forall i | 0 <= i < |workouts|
          ensures workouts[i].id != id
        {
          if i < n {
            assert workouts[i] == prefix[i];
          }
        }
      }
    }
  }

  /** `new Map(...)` built entry by entry. */
  method IndexWorkouts(workouts: seq<PlannedWorkout>) returns (index: map<string, PlannedWorkout>)
    ensures index == WorkoutIndex(workouts)
  {
    index := map[];
    for i := 0 to |workouts|
      invariant index == WorkoutIndex(workouts[..i])
    {
      assert workouts[..i + 1][..i] == workouts[..i];
      index := index[workouts[i].id := workouts[i]];
    }
    assert workouts[..|workouts|] == workouts;
  }

  // ------------------------------------------------------------ allowance

  /** The type of the window's workout: the looked-up workout's type, else
      the type the window recorded. */
  function NextType(index: map<string, PlannedWorkout>, w: WindowPlan): SessionType
  {
    if w.nextWorkoutId in index then index[w.nextWorkoutId].sessionType else w.nextWorkoutType
  }

  /** `windowPctCap ?? 0.3`. */
  function PctCap(profile: Profile): real
  {
    OrElse(profile.windowPctCap, 0.3)
  }

  /** How much of the weekly deficit a window can take. */
  function Allowance(profile: Profile, index: map<string, PlannedWorkout>, w: WindowPlan): real
  {
    var base := if IsHardSession(NextType(index, w)) then 0.0
      else Min(profile.deficitCapPerWindow, w.needKcal * PctCap(profile));
    if UnderRecoveryFlag in w.notes then 0.0
    else if EmptyFlag in w.notes then base * 0.5
    else base
  }

  /** A window before a hard session or flagged as under-recovered offers
      nothing; otherwise it offers at most the per-window cap and at most its
      share of its need. */
  lemma AllowanceBounds(profile: Profile, index: map<string, PlannedWorkout>, w: WindowPlan)
    ensures var a := Allowance(profile, index, w);
      (IsHardSession(NextType(index, w)) || UnderRecoveryFlag in w.notes ==> a == 0.0)
      && (profile.deficitCapPerWindow >= 0.0 ==> a <= profile.deficitCapPerWindow)
      && (profile.deficitCapPerWindow >= 0.0 && w.needKcal * PctCap(profile) >= 0.0 ==> 0.0 <= a)
      && (w.needKcal * PctCap(profile) >= 0.0 ==> a <= w.needKcal * PctCap(profile))
  {
  }

  /** An empty-flagged easy window offers half of what it would offer
      unflagged, and an under-recovered window offers nothing whatever its
      other flags. */
  lemma FlagEffects(profile: Profile, index: map<string, PlannedWorkout>, w: WindowPlan)
    ensures EmptyFlag in w.notes && UnderRecoveryFlag !in w.notes ==>
      Allowance(profile, index, w) == 0.5 * Allowance(profile, index, w.(notes := []))
    ensures UnderRecoveryFlag in w.notes ==> Allowance(profile, index, w) == 0.0
    ensures EmptyFlag !in w.notes && UnderRecoveryFlag !in w.notes ==>
      Allowance(profile, index, w) == Allowance(profile, index, w.(notes := []))
  {
  }

  // ------------------------------------------------------- greedy budget

  function Sum(xs: seq<real>): real
  {
    if xs == [] then 0.0 else Sum(xs[..|xs| - 1]) + xs[|xs| - 1]
  }

  /** Serving allowances in order from a budget: each takes the smaller of
      its allowance and what is left. */
  function Greedy(allowances: seq<real>, budget: real): (ds: seq<real>)
    ensures |ds| == |allowances|
  {
    if allowances == [] then []
    else
      var prev := Greedy(allowances[..|allowances| - 1], budget);
      prev + [Min(allowances[|allowances| - 1], budget - Sum(prev))]
  }

  predicate NonNegative(xs: seq<real>)
  {
    forall i :: 0 <= i < |xs| ==> xs[i] >= 0.0
  }

  /** With a non-negative budget and allowances, every window takes between
      nothing and its allowance, and together they take the whole budget or,
      when it does not run out, every allowance in full. */
  lemma {:induction false} GreedyTotal(allowances: seq<real>, budget: real)
    requires budget >= 0.0 && NonNegative(allowances)
    ensures var ds := Greedy(allowances, budget);
      Sum(ds) == Min(Sum(allowances), budget)
      && forall i :: 0 <= i < |ds| ==> 0.0 <= ds[i] <= allowances[i]
  {
    if allowances != [] {
      var n := |allowances| - 1;
      var prefix := allowances[..n];
      GreedyTotal(prefix, budget);
      var prev := Greedy(prefix, budget);
      var ds := Greedy(allowances, budget);
      assert ds == prev + [Min(allowances[n], budget - Sum(prev))];
      assert ds[..n] == prev;
      forall i | 0 <= i < |ds|
        ensures 0.0 <= ds[i] <= allowances[i]
      {
        if i < n {
          assert ds[i] == prev[i] && allowances[i] == prefix[i];
        }
      }
    }
  }

  /** Greedy serving is online: the first `k` deficits depend only on the
      first `k` allowances. */
  lemma {:induction false} GreedyPrefix(allowances: seq<real>, budget: real, k: nat)
    requires k <= |allowances|
    ensures Greedy(allowances[..k], budget) == Greedy(allowances, budget)[..k]
    decreases |allowances|
  {
    if k < |allowances| {
      var n := |allowances| - 1;
      assert allowances[..n][..k] == allowances[..k];
      GreedyPrefix(allowances[..n], budget, k);
      assert Greedy(allowances, budget)[..n] == Greedy(allowances[..n], budget);
    } else {
      assert allowances[..k] == allowances;
    }
  }

  /** Earlier windows are served first: once a window gets less than its
      allowance the budget is spent and every later window gets nothing. */
  lemma GreedyExhausted(allowances: seq<real>, budget: real, i: nat, j: nat)
    requires budget >= 0.0 && NonNegative(allowances)
    requires i < j < |allowances|
    requires Greedy(allowances, budget)[i] < allowances[i]
    ensures Greedy(allowances, budget)[j] == 0.0
  {
    var ds := Greedy(allowances[..j], budget);
    NonNegativePrefix(allowances, j);
    ServedWithinBudget(allowances[..j], budget);
    ServedPrefix(allowances, budget, i, j);
    var _ := GreedySpentAt(allowances, budget, i);
    SumPrefixMonotone(ds, i + 1);
    SpentLeavesNothing(allowances, budget, j);
  }

  lemma NonNegativePrefix(xs: seq<real>, j: nat)
    requires NonNegative(xs) && j <= |xs|
    ensures NonNegative(xs[..j])
  {
    assert forall k :: 0 <= k < j ==> xs[..j][k] == xs[k];
  }

  /** Together the windows take at most the budget, each a non-negative
      amount. */
  lemma ServedWithinBudget(allowances: seq<real>, budget: real)
    requires budget >= 0.0 && NonNegative(allowances)
    ensures Sum(Greedy(allowances, budget)) <= budget && NonNegative(Greedy(allowances, budget))
  {
    GreedyTotal(allowances, budget);
  }

  /** The first `i + 1` deficits among the first `j` windows are the first
      `i + 1` deficits. */
  lemma ServedPrefix(allowances: seq<real>, budget: real, i: nat, j: nat)
    requires i < j <= |allowances|
    ensures Greedy(allowances[..j], budget)[..i + 1] == Greedy(allowances[..i + 1], budget)
  {
    GreedyPrefix(allowances[..j], budget, i + 1);
    assert allowances[..j][..i + 1] == allowances[..i + 1];
  }

  /** Once the windows before `j` have spent the budget, window `j` gets
      nothing. */
  lemma SpentLeavesNothing(allowances: seq<real>, budget: real, j: nat)
    requires j < |allowances| && allowances[j] >= 0.0
    requires Sum(Greedy(allowances[..j], budget)) == budget
    ensures Greedy(allowances, budget)[j] == 0.0
  {
    GreedyLast(allowances, budget, j);
  }

  /** A window served short leaves nothing of the budget. */
  lemma GreedySpentAt(allowances: seq<real>, budget: real, i: nat) returns (spent: real)
    requires i < |allowances|
    requires Greedy(allowances, budget)[i] < allowances[i]
    ensures spent == Sum(Greedy(allowances[..i + 1], budget)) && spent == budget
  {
    GreedyLast(allowances, budget, i);
    var prev := Greedy(allowances[..i], budget);
    SumAppend(prev, Min(allowances[i], budget - Sum(prev)));
    spent := Sum(Greedy(allowances[..i + 1], budget));
  }

  /** The `i`-th deficit takes what the `i` before it left. */
  lemma GreedyLast(allowances: seq<real>, budget: real, i: nat)
    requires i < |allowances|
    ensures var prev := Greedy(allowances[..i], budget);
      Greedy(allowances[..i + 1], budget) == prev + [Min(allowances[i], budget - Sum(prev))]
      && Greedy(allowances, budget)[i] == Min(allowances[i], budget - Sum(prev))
  {
    GreedySnoc(allowances, budget, i);
    GreedyPrefix(allowances, budget, i + 1);
    assert Greedy(allowances, budget)[i] == Greedy(allowances, budget)[..i + 1][i];
  }

  /** Deficit `i` is the smaller of its allowance and what the deficits
      before it left of the budget. */
  lemma GreedyAt(allowances: seq<real>, budget: real, i: nat)
    requires i < |allowances|
    ensures Greedy(allowances, budget)[i] == Min(allowances[i], budget - Sum(Greedy(allowances, budget)[..i]))
  {
    GreedyLast(allowances, budget, i);
    GreedyPrefix(allowances, budget, i);
  }

  /** The first `i + 1` deficits are the first `i` and one more. */
  lemma GreedySnoc(allowances: seq<real>, budget: real, i: nat)
    requires i < |allowances|
    ensures var prev := Greedy(allowances[..i], budget);
      Greedy(allowances[..i + 1], budget) == prev + [Min(allowances[i], budget - Sum(prev))]
  {
    var upTo := allowances[..i + 1];
    assert upTo[..|upTo| - 1] == allowances[..i] && upTo[|upTo| - 1] == allowances[i];
  }

  lemma SumAppend(xs: seq<real>, x: real)
    ensures Sum(xs + [x]) == Sum(xs) + x
  {
    assert (xs + [x])[..|xs|] == xs;
  }

  /** Sums of non-negative sequences grow with the prefix. */
  lemma {:induction false} SumPrefixMonotone(xs: seq<real>, k: nat)
    requires NonNegative(xs) && k <= |xs|
    ensures Sum(xs[..k]) <= Sum(xs)
  {
    if k < |xs| {
      var n := |xs| - 1;
      assert xs[..n][..k] == xs[..k];
      SumPrefixMonotone(xs[..n], k);
    } else {
      assert xs[..k] == xs;
    }
  }

  // ----------------------------------------------------------- settlement

  function DeficitNote(d: real): string
  {
    "Deficit applied: " + IntToString(RoundInt(d))
  }

  /** The window once the allocator has given it deficit `d`: a positive
      deficit lowers the target from the need (never below 0) and is noted;
      the macros follow the final target. */
  function Settle(profile: Profile, w: WindowPlan, d: real): WindowPlan
  {
    var target := SettledTarget(w, d);
    var notes := if d > 0.0 then w.notes + [DeficitNote(d)] else w.notes;
    w.(targetKcal := target, notes := notes, macros := MacroTargetsFor(profile, target))
  }

  /** The target a window keeps after deficit `d`. */
  function SettledTarget(w: WindowPlan, d: real): real
  {
    if d > 0.0 then Max(0.0, w.needKcal - d) else w.targetKcal
  }

  /** Settling keeps the window's span, workout, need and carbohydrate plan;
      without a deficit only the macros are refreshed; a positive deficit
      lowers the target by exactly the deficit, but never below 0, and is
      noted. */
  lemma SettleFacts(profile: Profile, w: WindowPlan, d: real)
    ensures var r := Settle(profile, w, d);
      r.needKcal == w.needKcal && r.windowStart == w.windowStart && r.windowEnd == w.windowEnd
      && r.nextWorkoutId == w.nextWorkoutId && r.nextWorkoutType == w.nextWorkoutType && r.carbs == w.carbs
      && r.macros == MacroTargetsFor(profile, r.targetKcal)
      && (d <= 0.0 ==> r == w.(macros := MacroTargetsFor(profile, w.targetKcal)))
      && (d > 0.0 ==> 0.0 <= r.targetKcal <= w.needKcal || w.needKcal < 0.0)
      && (d > 0.0 && w.needKcal >= d ==> r.targetKcal == w.needKcal - d)
      && (d > 0.0 && w.needKcal < d ==> r.targetKcal == 0.0)
      && (d > 0.0 ==> r.notes == w.notes + [DeficitNote(d)])
  {
  }

  /** Deficits do not compound: settling an already settled window starts
      again from the need. */
  lemma SettleRestartsFromNeed(profile: Profile, w: WindowPlan, d1: real, d2: real)
    requires d2 > 0.0
    ensures Settle(profile, Settle(profile, w, d1), d2).targetKcal == Settle(profile, w, d2).targetKcal
  {
  }

  /** The note a deficit leaves is not a flag, so a settled window offers
      what it offered before. */
  lemma SettleKeepsAllowance(profile: Profile, index: map<string, PlannedWorkout>, w: WindowPlan, d: real)
    ensures Allowance(profile, index, Settle(profile, w, d)) == Allowance(profile, index, w)
  {
    var s := Settle(profile, w, d);
    if d > 0.0 {
      var note := DeficitNote(d);
      assert note[0] == 'D' && EmptyFlag[0] == 'E' && UnderRecoveryFlag[0] == 'U';
      assert s.notes == w.notes + [note];
      InAppendOther(w.notes, note, EmptyFlag);
      InAppendOther(w.notes, note, UnderRecoveryFlag);
    }
    AllowanceDependsOn(profile, index, s, w);
  }

  lemma InAppendOther(xs: seq<string>, x: string, f: string)
    requires x != f
    ensures f in xs + [x] <==> f in xs
  {
    assert forall i :: 0 <= i < |xs| ==> (xs + [x])[i] == xs[i];
  }

  /** The allowance reads only the need, the next session and the flags. */
  lemma AllowanceDependsOn(profile: Profile, index: map<string, PlannedWorkout>, a: WindowPlan, b: WindowPlan)
    requires a.needKcal == b.needKcal && NextType(index, a) == NextType(index, b)
    requires (EmptyFlag in a.notes <==> EmptyFlag in b.notes)
    requires (UnderRecoveryFlag in a.notes <==> UnderRecoveryFlag in b.notes)
    ensures Allowance(profile, index, a) == Allowance(profile, index, b)
  {
  }

  // ---------------------------------------------------------------- weeks

  /** The week key of the window's end. */
  function WindowWeekKey(w: WindowPlan): string
  {
    IsoWeekInfo(w.windowEnd).weekKey
  }

  function Ends(windows: seq<WindowPlan>): (s: seq<int>)
    ensures |s| == |windows| && forall i :: 0 <= i < |s| ==> s[i] == windows[i].windowEnd
  {
    seq(|windows|, i requires 0 <= i < |windows| => windows[i].windowEnd)
  }

  /** `|targetKgPerWeek| * kcalPerKg`. */
  function WeeklyTarget(profile: Profile): real
  {
    Abs(profile.targetKgPerWeek) * profile.kcalPerKg
  }

  /** The allowances of a week's windows, in serving order. */
  function WeekAllowances(profile: Profile, index: map<string, PlannedWorkout>, windows: seq<WindowPlan>, week: seq<nat>): (als: seq<real>)
    requires InRange(week, |windows|)
    ensures |als| == |week| && forall j :: 0 <= j < |week| ==> als[j] == Allowance(profile, index, windows[week[j]])
  {
    seq(|week|, j requires 0 <= j < |week| => Allowance(profile, index, windows[week[j]]))
  }

  function WeekDeficits(profile: Profile, index: map<string, PlannedWorkout>, windows: seq<WindowPlan>, week: seq<nat>): (ds: seq<real>)
    requires InRange(week, |windows|)
    ensures |ds| == |week|
  {
    Greedy(WeekAllowances(profile, index, windows, week), WeeklyTarget(profile))
  }

  /** The week's windows after allocation, in serving order. */
  function SettledWeek(profile: Profile, index: map<string, PlannedWorkout>, windows: seq<WindowPlan>, week: seq<nat>): (s: seq<WindowPlan>)
    requires InRange(week, |windows|)
    ensures |s| == |week|
  {
    SettledPrefix(profile, index, windows, week, |week|)
  }

  /** The first `n` settled windows of the week. */
  function SettledPrefix(profile: Profile, index: map<string, PlannedWorkout>, windows: seq<WindowPlan>, week: seq<nat>, n: nat): (s: seq<WindowPlan>)
    requires InRange(week, |windows|) && n <= |week|
    ensures |s| == n
  {
    if n == 0 then []
    else
      var w := Settle(profile, windows[week[n - 1]], WeekDeficits(profile, index, windows, week)[n - 1]);
      SettledPrefix(profile, index, windows, week, n - 1) + [w]
  }

  /** Each settled window is its input window settled with its own deficit. */
  lemma {:induction false} SettledAt(profile: Profile, index: map<string, PlannedWorkout>, windows: seq<WindowPlan>, week: seq<nat>, n: nat, j: nat)
    requires InRange(week, |windows|) && j < n <= |week|
    ensures SettledPrefix(profile, index, windows, week, n)[j]
      == Settle(profile, windows[week[j]], WeekDeficits(profile, index, windows, week)[j])
  {
    if j < n - 1 {
      SettledAt(profile, index, windows, week, n - 1, j);
    }
  }

  /** The macros of the windows summed field by field. */
  function MacroSum(ws: seq<WindowPlan>): MacroTargets
  {
    if ws == [] then MacroTargets(0.0, 0.0, 0.0)
    else
      var m := MacroSum(ws[..|ws| - 1]);
      var last := ws[|ws| - 1].macros;
      MacroTargets(m.proteinG + last.proteinG, m.fatG + last.fatG, m.carbG + last.carbG)
  }

  /** The summary of one week: the target and the allocated kcal rounded to
      integers, the unallocated rest as carry-over when positive, and the
      settled windows' macros summed to one decimal. Its span is the one the
      program computes from its first window, start included as written. */
  function WeekPlanFor(profile: Profile, index: map<string, PlannedWorkout>, windows: seq<WindowPlan>, week: seq<nat>): WeeklyPlan
    requires InRange(week, |windows|) && week != []
  {
    var target := WeeklyTarget(profile);
    var remaining := target - Sum(WeekDeficits(profile, index, windows, week));
    var info := IsoWeekInfoAsWritten(windows[week[0]].windowEnd);
    var m := MacroSum(SettledWeek(profile, index, windows, week));
    WeeklyPlan(WindowWeekKey(windows[week[0]]), info.weekStart, info.weekEnd, RoundInt(target),
               RoundInt(target - remaining), if remaining > 0.0 then Some(RoundInt(remaining)) else None,
               MacroTargets(Round(m.proteinG, 1), Round(m.fatG, 1), Round(m.carbG, 1)))
  }

  /** With a non-negative target, per-window cap and needs, a week
      allocates the smaller of its target and its windows' allowances, and
      carries the rest over exactly when the allowances fall short. */
  lemma WeekBudget(profile: Profile, index: map<string, PlannedWorkout>, windows: seq<WindowPlan>, week: seq<nat>)
    requires InRange(week, |windows|) && week != []
    requires WeeklyTarget(profile) >= 0.0 && profile.deficitCapPerWindow >= 0.0 && PctCap(profile) >= 0.0
    requires forall j :: 0 <= j < |week| ==> windows[week[j]].needKcal >= 0.0
    ensures var als := WeekAllowances(profile, index, windows, week);
      var plan := WeekPlanFor(profile, index, windows, week);
      plan.weeklyAllocatedKcal == RoundInt(Min(Sum(als), WeeklyTarget(profile)))
      && (plan.carryOverKcal.Some? <==> Sum(als) < WeeklyTarget(profile))
      && (plan.carryOverKcal.Some? ==> plan.carryOverKcal.value == RoundInt(WeeklyTarget(profile) - Sum(als)))
  {
    var als := WeekAllowances(profile, index, windows, week);
    WeekAllowancesNonNegative(profile, index, windows, week);
    GreedyTotal(als, WeeklyTarget(profile));
    var target := WeeklyTarget(profile);
    var spent := Sum(WeekDeficits(profile, index, windows, week));
    assert spent == Min(Sum(als), target);
    var plan := WeekPlanFor(profile, index, windows, week);
    assert plan.weeklyAllocatedKcal == RoundInt(target - (target - spent));
    assert plan.carryOverKcal == if target - spent > 0.0 then Some(RoundInt(target - spent)) else None;
  }

  /** With a non-negative cap, share and needs, no window offers less than nothing. */
  lemma WeekAllowancesNonNegative(profile: Profile, index: map<string, PlannedWorkout>, windows: seq<WindowPlan>, week: seq<nat>)
    requires InRange(week, |windows|)
    requires profile.deficitCapPerWindow >= 0.0 && PctCap(profile) >= 0.0
    requires forall j :: 0 <= j < |week| ==> windows[week[j]].needKcal >= 0.0
    ensures NonNegative(WeekAllowances(profile, index, windows, week))
  {
    var als := WeekAllowances(profile, index, windows, week);
    forall j | 0 <= j < |als|
      ensures als[j] >= 0.0
    {
      var w := windows[week[j]];
      assert w.needKcal >= 0.0;
      MulNonNegative(w.needKcal, PctCap(profile));
      AllowanceBounds(profile, index, w);
    }
  }

  lemma MulNonNegative(a: real, b: real)
    requires a >= 0.0 && b >= 0.0
    ensures a * b >= 0.0
  {
  }

  /** A window before a hard session keeps the target it came with and
      gains no deficit note. */
  lemma HardDayUntouched(profile: Profile, index: map<string, PlannedWorkout>, windows: seq<WindowPlan>, week: seq<nat>, j: nat)
    requires InRange(week, |windows|) && j < |week|
    requires IsHardSession(NextType(index, windows[week[j]]))
    ensures SettledWeek(profile, index, windows, week)[j].targetKcal == windows[week[j]].targetKcal
    ensures SettledWeek(profile, index, windows, week)[j].notes == windows[week[j]].notes
  {
    var als := WeekAllowances(profile, index, windows, week);
    SettledAt(profile, index, windows, week, |week|, j);
    GreedyAtMost(als, WeeklyTarget(profile), j);
  }

  /** No window takes more than its allowance. */
  lemma {:induction false} GreedyAtMost(allowances: seq<real>, budget: real, j: nat)
    requires j < |allowances|
    ensures Greedy(allowances, budget)[j] <= allowances[j]
  {
    var n := |allowances| - 1;
    if j < n {
      GreedyAtMost(allowances[..n], budget, j);
    }
  }

  /** All windows of a week share its Monday-to-Sunday span: each ends
      inside the span computed from the first. */
  lemma WeekSpanCovers(windows: seq<WindowPlan>, week: seq<nat>, j: nat)
    requires InRange(week, |windows|) && j < |week|
    requires WindowWeekKey(windows[week[j]]) == WindowWeekKey(windows[week[0]])
    ensures IsoWeekInfo(windows[week[0]].windowEnd).weekStart <= windows[week[j]].windowEnd
      <= IsoWeekInfo(windows[week[0]].windowEnd).weekEnd
  {
    var d0 := DayOf(windows[week[0]].windowEnd);
    var dj := DayOf(windows[week[j]].windowEnd);
    WeekKeyIff(d0, dj);
    SameWeekSameStart(d0, dj);
    IsoWeekInfoSpan(windows[week[j]].windowEnd);
  }

  /** The summary's span as the program computes it starts at the first
      window's day + 5 - 2 x its weekday. It holds that first window only
      when the window ends on a Wednesday, Thursday or Friday, and it is
      the Monday-to-Sunday span, which holds every window of the week, when
      the window ends on a Thursday. */
  lemma WeekSpanAsWritten(profile: Profile, index: map<string, PlannedWorkout>, windows: seq<WindowPlan>, week: seq<nat>)
    requires InRange(week, |windows|) && week != []
    ensures var p := WeekPlanFor(profile, index, windows, week);
      var first := windows[week[0]].windowEnd;
      p.weekStart == StartOfDay(DayOf(first) + 5 - 2 * IsoWeekday(DayOf(first)))
      && (p.weekStart <= first <= p.weekEnd <==> 3 <= IsoWeekday(DayOf(first)) <= 5)
    ensures var p := WeekPlanFor(profile, index, windows, week);
      IsoWeekday(DayOf(windows[week[0]].windowEnd)) == 4 ==>
        forall j :: 0 <= j < |week| && WindowWeekKey(windows[week[j]]) == WindowWeekKey(windows[week[0]]) ==>
          p.weekStart <= windows[week[j]].windowEnd <= p.weekEnd
  {
    var first := windows[week[0]].windowEnd;
    AsWrittenSpan(first);
    if IsoWeekday(DayOf(first)) == 4 {
      forall j | 0 <= j < |week| && WindowWeekKey(windows[week[j]]) == WindowWeekKey(windows[week[0]])
        ensures IsoWeekInfo(first).weekStart <= windows[week[j]].windowEnd <= IsoWeekInfo(first).weekEnd
      {
        WeekSpanCovers(windows, week, j);
      }
    }
  }

  // ------------------------------------------------------------ allocator

  /** A clone of `w`: `cloneWindow` copies every field, and only the macros
      are then recomputed. */
  predicate IsCloneOf(c: WindowPlan, w: WindowPlan)
  {
    c == w.(macros := c.macros)
  }

  /** Settling a clone is settling the window: settling does not read the
      macros. */
  lemma SettleClone(profile: Profile, c: WindowPlan, w: WindowPlan, d: real)
    requires IsCloneOf(c, w)
    ensures Settle(profile, c, d) == Settle(profile, w, d)
  {
    assert c.notes == w.notes && c.needKcal == w.needKcal && c.targetKcal == w.targetKcal;
  }

  /** A clone offers what the window offers. */
  lemma AllowanceClone(profile: Profile, index: map<string, PlannedWorkout>, c: WindowPlan, w: WindowPlan)
    requires IsCloneOf(c, w)
    ensures Allowance(profile, index, c) == Allowance(profile, index, w)
  {
    assert c.notes == w.notes && c.needKcal == w.needKcal;
    assert NextType(index, c) == NextType(index, w);
  }

  /** The week key of every window, in input order. */
  function WeekKeys(windows: seq<WindowPlan>): (keys: seq<string>)
    ensures |keys| == |windows|
  {
    if windows == [] then []
    else WeekKeys(windows[..|windows| - 1]) + [WindowWeekKey(windows[|windows| - 1])]
  }

  /** The `i`-th key is the week key of the `i`-th window. */
  lemma {:induction false} WeekKeysAt(windows: seq<WindowPlan>, i: nat)
    requires i < |windows|
    ensures WeekKeys(windows)[i] == WindowWeekKey(windows[i])
  {
    if i < |windows| - 1 {
      WeekKeysAt(windows[..|windows| - 1], i);
    }
  }

  /** The grouping loop of `allocateWeeklyDeficits` on the windows' keys:
      the distinct keys in order of first appearance, and for each key the
      positions carrying it in input order. */
  method GroupByKey(weekKeys: seq<string>) returns (keys: seq<string>, groups: map<string, seq<nat>>)
    ensures Distinct(keys) && forall k :: k in groups <==> k in keys
    ensures forall k :: k in groups ==> groups[k] != [] && StrictlyIncreasing(groups[k]) && InRange(groups[k], |weekKeys|)
    ensures forall k, j :: k in groups && 0 <= j < |groups[k]| ==> groups[k][j] < |weekKeys| && weekKeys[groups[k][j]] == k
    ensures forall i :: 0 <= i < |weekKeys| ==> weekKeys[i] in groups && i in groups[weekKeys[i]]
  {
    keys := [];
    groups := map[];
    for i := 0 to |weekKeys|
      invariant Distinct(keys) && forall k :: k in groups <==> k in keys
      invariant forall k :: k in groups ==> groups[k] != [] && StrictlyIncreasing(groups[k]) && InRange(groups[k], i)
      invariant forall k, j :: k in groups && 0 <= j < |groups[k]| ==> groups[k][j] < i && weekKeys[groups[k][j]] == k
      invariant forall i' :: 0 <= i' < i ==> weekKeys[i'] in groups && i' in groups[weekKeys[i']]
    {
      var key := weekKeys[i];
      if key !in groups {
        keys := keys + [key];
        groups := groups[key := [i]];
      } else {
        groups := groups[key := groups[key] + [i]];
      }
    }
  }

  /** The week's summary from what the loop accumulates. */
  lemma WeekPlanForUnfold(profile: Profile, index: map<string, PlannedWorkout>, windows: seq<WindowPlan>,
                          week: seq<nat>, remaining: real, m: MacroTargets)
    requires InRange(week, |windows|) && week != []
    requires remaining == WeeklyTarget(profile) - Sum(WeekDeficits(profile, index, windows, week))
    requires m == MacroSum(SettledWeek(profile, index, windows, week))
    ensures var info := IsoWeekInfoAsWritten(windows[week[0]].windowEnd);
      var target := WeeklyTarget(profile);
      WeekPlanFor(profile, index, windows, week)
        == WeeklyPlan(WindowWeekKey(windows[week[0]]), info.weekStart, info.weekEnd, RoundInt(target),
                      RoundInt(target - remaining), if remaining > 0.0 then Some(RoundInt(remaining)) else None,
                      MacroTargets(Round(m.proteinG, 1), Round(m.fatG, 1), Round(m.carbG, 1)))
  {
    var target := WeeklyTarget(profile);
    var ds := WeekDeficits(profile, index, windows, week);
    assert ds == Greedy(WeekAllowances(profile, index, windows, week), target);
    assert remaining == target - Sum(ds);
  }

  /** `a` with `vals[k]` written at position `idx[k]`, for each `k < n` in turn. */
  function Scatter<T>(a: seq<T>, idx: seq<nat>, vals: seq<T>, n: nat): (r: seq<T>)
    requires InRange(idx, |a|) && n <= |idx| && |vals| == |idx|
    ensures |r| == |a|
  {
    if n == 0 then a else Scatter(a, idx, vals, n - 1)[idx[n - 1] := vals[n - 1]]
  }

  /** With distinct positions, each written position holds its value. */
  lemma {:induction false} ScatterAt<T>(a: seq<T>, idx: seq<nat>, vals: seq<T>, n: nat, k: nat)
    requires InRange(idx, |a|) && k < n <= |idx| && |vals| == |idx|
    requires forall p, q :: 0 <= p < q < |idx| ==> idx[p] != idx[q]
    ensures Scatter(a, idx, vals, n)[idx[k]] == vals[k]
  {
    if k < n - 1 {
      ScatterAt(a, idx, vals, n - 1, k);
    }
  }

  /** A position none of the first `n` writes touches keeps its value. */
  lemma {:induction false} ScatterOutside<T>(a: seq<T>, idx: seq<nat>, vals: seq<T>, n: nat, i: nat)
    requires InRange(idx, |a|) && n <= |idx| && |vals| == |idx| && i < |a|
    requires forall k :: 0 <= k < n ==> idx[k] != i
    ensures Scatter(a, idx, vals, n)[i] == a[i]
  {
    if n > 0 {
      ScatterOutside(a, idx, vals, n - 1, i);
    }
  }

  /** One week of `allocateWeeklyDeficits`: its windows served in order from
      the weekly target, each clone updated in place, and the week's summary. */
  method SettleWeek(profile: Profile, index: map<string, PlannedWorkout>, windows: seq<WindowPlan>,
                    weekKey: string, week: seq<nat>, cloned: array<WindowPlan>) returns (plan: WeeklyPlan)
    requires cloned.Length == |windows| && InRange(week, |windows|) && week != []
    requires forall p, q :: 0 <= p < q < |week| ==> week[p] != week[q]
    requires weekKey == WindowWeekKey(windows[week[0]])
    requires forall j :: 0 <= j < |week| ==> IsCloneOf(cloned[week[j]], windows[week[j]])
    modifies cloned
    ensures cloned[..] == Scatter(old(cloned[..]), week, SettledWeek(profile, index, windows, week), |week|)
    ensures plan == WeekPlanFor(profile, index, windows, week)
  {
    var info := IsoWeekInfoAsWritten(cloned[week[0]].windowEnd);
    var weeklyTarget := WeeklyTarget(profile);
    ghost var initial := cloned[..];
    var remaining, macros := ServeWindows(profile, index, windows, week, cloned);
    plan := WeeklyPlan(weekKey, info.weekStart, info.weekEnd, RoundInt(weeklyTarget),
                       RoundInt(weeklyTarget - remaining), if remaining > 0.0 then Some(RoundInt(remaining)) else None,
                       MacroTargets(Round(macros.proteinG, 1), Round(macros.fatG, 1), Round(macros.carbG, 1)));
    WeekPlanForUnfold(profile, index, windows, week, remaining, macros);
  }

  /** The inner loop of a week: serves each window from what is left of
      the weekly target and sums the macros of the settled windows. */
  method ServeWindows(profile: Profile, index: map<string, PlannedWorkout>, windows: seq<WindowPlan>,
                      week: seq<nat>, cloned: array<WindowPlan>) returns (remaining: real, macros: MacroTargets)
    requires cloned.Length == |windows| && InRange(week, |windows|)
    requires forall p, q :: 0 <= p < q < |week| ==> week[p] != week[q]
    requires forall j :: 0 <= j < |week| ==> IsCloneOf(cloned[week[j]], windows[week[j]])
    modifies cloned
    ensures cloned[..] == Scatter(old(cloned[..]), week, SettledWeek(profile, index, windows, week), |week|)
    ensures remaining == WeeklyTarget(profile) - Sum(WeekDeficits(profile, index, windows, week))
    ensures macros == MacroSum(SettledWeek(profile, index, windows, week))
  {
    var weeklyTarget := WeeklyTarget(profile);
    remaining := weeklyTarget;
    var protein, fat, carb := 0.0, 0.0, 0.0;
    ghost var ds := WeekDeficits(profile, index, windows, week);
    ghost var settled := SettledWeek(profile, index, windows, week);
    ghost var initial := cloned[..];
    for j := 0 to |week|
      invariant remaining == weeklyTarget - Sum(ds[..j])
      invariant MacroTargets(protein, fat, carb) == MacroSum(settled[..j])
      invariant cloned[..] == Scatter(initial, week, settled, j)
    {
      ScatterOutside(initial, week, settled, j, week[j]);
      var current := cloned[week[j]];
      assert IsCloneOf(current, windows[week[j]]);
      var w, deficit := SettleWindow(profile, index, current, remaining);
      SettledStep(profile, index, windows, week, j, remaining, current, deficit, w);
      ghost var before := cloned[..];
      cloned[week[j]] := w;
      assert cloned[..] == before[week[j] := w];
      MacroAccumulate(settled, j, protein, fat, carb, w);
      RemainingStep(ds, j, weeklyTarget, remaining);
      protein, fat, carb := protein + w.macros.proteinG, fat + w.macros.fatG, carb + w.macros.carbG;
      remaining := remaining - deficit;
    }
    assert ds[..|week|] == ds && settled[..|week|] == settled;
    macros := MacroTargets(protein, fat, carb);
  }

  /** Adding the macros of the `j`-th window to the sum of the first `j`
      gives the sum of the first `j + 1`. */
  lemma MacroSumStep(ws: seq<WindowPlan>, j: nat)
    requires j < |ws|
    ensures var m := MacroSum(ws[..j]);
      MacroSum(ws[..j + 1]) == MacroTargets(m.proteinG + ws[j].macros.proteinG, m.fatG + ws[j].macros.fatG,
                                            m.carbG + ws[j].macros.carbG)
  {
    assert ws[..j + 1][..j] == ws[..j];
  }

  /** The accumulator step of the loop: adding the `j`-th settled window's
      macros to the sum of the first `j` gives the sum of the first `j + 1`. */
  lemma MacroAccumulate(settled: seq<WindowPlan>, j: nat, protein: real, fat: real, carb: real, w: WindowPlan)
    requires j < |settled| && w == settled[j]
    requires MacroTargets(protein, fat, carb) == MacroSum(settled[..j])
    ensures MacroTargets(protein + w.macros.proteinG, fat + w.macros.fatG, carb + w.macros.carbG)
      == MacroSum(settled[..j + 1])
  {
    MacroSumStep(settled, j);
  }

  /** Serving the `j`-th window's clone from what is left yields the
      settled window and the deficit of the specification. */
  lemma SettledStep(profile: Profile, index: map<string, PlannedWorkout>, windows: seq<WindowPlan>,
                    week: seq<nat>, j: nat, remaining: real, current: WindowPlan, deficit: real, w: WindowPlan)
    requires InRange(week, |windows|) && j < |week|
    requires IsCloneOf(current, windows[week[j]])
    requires remaining == WeeklyTarget(profile) - Sum(WeekDeficits(profile, index, windows, week)[..j])
    requires deficit == Min(Allowance(profile, index, current), remaining)
    requires w == Settle(profile, current, deficit)
    ensures w == SettledWeek(profile, index, windows, week)[j]
    ensures deficit == WeekDeficits(profile, index, windows, week)[j]
  {
    DeficitStep(profile, index, windows, week, j, remaining, current, deficit);
    SettledAt(profile, index, windows, week, |week|, j);
    SettleClone(profile, current, windows[week[j]], deficit);
  }

  /** The deficit the loop takes at step `j` is the `j`-th greedy deficit. */
  lemma DeficitStep(profile: Profile, index: map<string, PlannedWorkout>, windows: seq<WindowPlan>,
                    week: seq<nat>, j: nat, remaining: real, current: WindowPlan, deficit: real)
    requires InRange(week, |windows|) && j < |week|
    requires IsCloneOf(current, windows[week[j]])
    requires remaining == WeeklyTarget(profile) - Sum(WeekDeficits(profile, index, windows, week)[..j])
    requires deficit == Min(Allowance(profile, index, current), remaining)
    ensures deficit == WeekDeficits(profile, index, windows, week)[j]
  {
    var als := WeekAllowances(profile, index, windows, week);
    var ds := WeekDeficits(profile, index, windows, week);
    assert ds == Greedy(als, WeeklyTarget(profile));
    GreedyAt(als, WeeklyTarget(profile), j);
    AllowanceClone(profile, index, current, windows[week[j]]);
    assert als[j] == Allowance(profile, index, current);
  }

  /** What is left after the `j`-th deficit is the budget less the first `j + 1`. */
  lemma RemainingStep(ds: seq<real>, j: nat, budget: real, remaining: real)
    requires j < |ds| && remaining == budget - Sum(ds[..j])
    ensures remaining - ds[j] == budget - Sum(ds[..j + 1])
  {
    assert ds[..j + 1][..j] == ds[..j];
  }

  /** The loop body for one window: its allowance, the deficit it takes
      from what is left, and the window with its new target, note and macros. */
  method SettleWindow(profile: Profile, index: map<string, PlannedWorkout>, w: WindowPlan, remaining: real)
      returns (w': WindowPlan, deficit: real)
    ensures deficit == Min(Allowance(profile, index, w), remaining)
    ensures w' == Settle(profile, w, deficit)
  {
    var nextType := if w.nextWorkoutId in index then index[w.nextWorkoutId].sessionType else w.nextWorkoutType;
    var hardDay := IsHardSession(nextType);
    var pctCap := if profile.windowPctCap.Some? then profile.windowPctCap.value else 0.3;
    var canTake := if hardDay then 0.0 else Min(profile.deficitCapPerWindow, w.needKcal * pctCap);
    if UnderRecoveryFlag in w.notes {
      canTake := 0.0;
    } else if EmptyFlag in w.notes {
      canTake := canTake * 0.5;
    }
    assert canTake == Allowance(profile, index, w);
    deficit := Min(canTake, remaining);
    var target := w.targetKcal;
    var notes := w.notes;
    if deficit > 0.0 {
      target := Max(0.0, w.needKcal - deficit);
      notes := notes + [DeficitNote(deficit)];
    }
    assert target == SettledTarget(w, deficit);
    var macros := ComputeMacroTargets(profile, target);
    w' := w.(targetKcal := target, notes := notes, macros := macros);
  }

  // ------------------------------------------------------------- the driver

  /** A week as the allocator serves it: non-empty, in stable order of the
      windows' ends, and every window in it carrying the week's key. */
  predicate WeekOf(windows: seq<WindowPlan>, key: string, week: seq<nat>)
  {
    week != [] && InRange(week, |windows|) && SortedByKey(Ends(windows), week)
    && forall j :: 0 <= j < |week| ==> week[j] < |windows| && WeekKeys(windows)[week[j]] == key
  }

  /** Position `weeks[h][j]` of `c` holds `vals[h][j]`, for every week `h`. */
  ghost predicate Placed<T>(weeks: seq<seq<nat>>, vals: seq<seq<T>>, c: seq<T>)
  {
    |vals| == |weeks|
    && forall h, j :: 0 <= h < |weeks| && 0 <= j < |weeks[h]| ==>
      j < |vals[h]| && weeks[h][j] < |c| && c[weeks[h][j]] == vals[h][j]
  }

  /** Every window whose key is not among `done` still holds its value in `orig`. */
  predicate Untouched(windows: seq<WindowPlan>, done: seq<string>, c: seq<WindowPlan>, orig: seq<WindowPlan>)
  {
    |c| == |windows| && |orig| == |windows|
    && forall i :: 0 <= i < |windows| && WeekKeys(windows)[i] !in done ==> c[i] == orig[i]
  }

  /** `clonedWindows`: a copy of every window with macros for its target. */
  method CloneWindows(profile: Profile, windows: seq<WindowPlan>) returns (cloned: array<WindowPlan>)
    ensures fresh(cloned) && cloned.Length == |windows|
    ensures forall i :: 0 <= i < |windows| ==>
      IsCloneOf(cloned[i], windows[i]) && cloned[i].macros == MacroTargetsFor(profile, windows[i].targetKcal)
  {
    cloned := new WindowPlan[|windows|](i requires 0 <= i < |windows| => windows[i]);
    for i := 0 to |windows|
      invariant forall k :: 0 <= k < i ==> cloned[k] == windows[k].(macros := MacroTargetsFor(profile, windows[k].targetKcal))
      invariant forall k :: i <= k < |windows| ==> cloned[k] == windows[k]
    {
      var m := ComputeMacroTargets(profile, cloned[i].targetKcal);
      cloned[i] := cloned[i].(macros := m);
    }
  }

  /** The loop over the sorted week keys: each key's windows sorted by end
      and settled in place, one weekly summary per key. */
  method SettleWeeks(profile: Profile, index: map<string, PlannedWorkout>, windows: seq<WindowPlan>,
                     keys: seq<string>, groups: map<string, seq<nat>>, cloned: array<WindowPlan>)
      returns (weekly: seq<WeeklyPlan>, ghost weeks: seq<seq<nat>>)
    requires cloned.Length == |windows| && Distinct(keys)
    requires forall k :: k in keys ==> k in groups
    requires forall k :: k in groups ==> groups[k] != [] && StrictlyIncreasing(groups[k]) && InRange(groups[k], |windows|)
    requires forall k, j :: k in groups && 0 <= j < |groups[k]| ==>
      groups[k][j] < |windows| && WeekKeys(windows)[groups[k][j]] == k
    requires forall i :: 0 <= i < |windows| ==> IsCloneOf(cloned[i], windows[i])
    modifies cloned
    ensures |weeks| == |keys| && forall g :: 0 <= g < |weeks| ==> WeekOf(windows, keys[g], weeks[g])
    ensures weekly == MapSeq(PlanOf(profile, index, windows), weeks)
    ensures forall g, x :: 0 <= g < |keys| ==> (x in weeks[g] <==> x in groups[keys[g]])
    ensures Placed(weeks, MapSeq(SettledOf(profile, index, windows), weeks), cloned[..])
    ensures Untouched(windows, keys, cloned[..], old(cloned[..]))
  {
    weekly, weeks := [], [];
    ghost var initial := cloned[..];
    for g := 0 to |keys|
      invariant |weeks| == g && forall h :: 0 <= h < g ==> WeekOf(windows, keys[h], weeks[h])
      invariant weekly == MapSeq(PlanOf(profile, index, windows), weeks)
      invariant forall h, x :: 0 <= h < g ==> (x in weeks[h] <==> x in groups[keys[h]])
      invariant Placed(weeks, MapSeq(SettledOf(profile, index, windows), weeks), cloned[..])
      invariant Untouched(windows, keys[..g], cloned[..], initial)
    {
      var plan, week := SettleKey(profile, index, windows, keys, g, groups, cloned, weeks, weekly, initial);
      WeeksStep(windows, keys, groups, weeks, week);
      weekly, weeks := weekly + [plan], weeks + [week];
    }
    assert keys[..|keys|] == keys;
  }

  /** One turn of the loop over the keys: the `g`-th key's windows sorted
      by end and settled in place, and that week's summary. */
  method SettleKey(profile: Profile, index: map<string, PlannedWorkout>, windows: seq<WindowPlan>,
                   keys: seq<string>, g: nat, groups: map<string, seq<nat>>, cloned: array<WindowPlan>,
                   ghost weeks: seq<seq<nat>>, ghost plans: seq<WeeklyPlan>, ghost initial: seq<WindowPlan>)
      returns (plan: WeeklyPlan, ghost week: seq<nat>)
    requires cloned.Length == |windows| && Distinct(keys) && g < |keys| && keys[g] in groups
    requires groups[keys[g]] != [] && StrictlyIncreasing(groups[keys[g]]) && InRange(groups[keys[g]], |windows|)
    requires forall j :: 0 <= j < |groups[keys[g]]| ==>
      groups[keys[g]][j] < |windows| && WeekKeys(windows)[groups[keys[g]][j]] == keys[g]
    requires |initial| == |windows| && forall i :: 0 <= i < |windows| ==> IsCloneOf(initial[i], windows[i])
    requires |weeks| == g && forall h :: 0 <= h < g ==> WeekOf(windows, keys[h], weeks[h])
    requires plans == MapSeq(PlanOf(profile, index, windows), weeks)
    requires Placed(weeks, MapSeq(SettledOf(profile, index, windows), weeks), cloned[..])
    requires Untouched(windows, keys[..g], cloned[..], initial)
    modifies cloned
    ensures WeekOf(windows, keys[g], week) && (forall x :: x in week <==> x in groups[keys[g]])
    ensures plans + [plan] == MapSeq(PlanOf(profile, index, windows), weeks + [week])
    ensures Placed(weeks + [week], MapSeq(SettledOf(profile, index, windows), weeks + [week]), cloned[..])
    ensures Untouched(windows, keys[..g + 1], cloned[..], initial)
  {
    var key := keys[g];
    var sorted := StableSortByKey(groups[key], Ends(windows));
    week := sorted;
    NewWeek(windows, key, groups[key], sorted);
    assert key !in keys[..g];
    ghost var before := cloned[..];
    forall j | 0 <= j < |sorted|
      ensures IsCloneOf(cloned[sorted[j]], windows[sorted[j]])
    {
      assert cloned[sorted[j]] == initial[sorted[j]];
    }
    WeekKeysAt(windows, sorted[0]);
    plan := SettleWeek(profile, index, windows, key, sorted, cloned);
    KeyStep(profile, index, windows, keys, g, weeks, sorted, before, cloned[..], initial);
    MapSeqAppend(PlanOf(profile, index, windows), weeks, sorted);
  }

  /** Appending the week of the next key keeps every week a week of its
      key holding exactly its key's group. */
  lemma WeeksStep(windows: seq<WindowPlan>, keys: seq<string>, groups: map<string, seq<nat>>,
                  weeks: seq<seq<nat>>, week: seq<nat>)
    requires |weeks| < |keys| && forall k :: k in keys ==> k in groups
    requires forall h :: 0 <= h < |weeks| ==> WeekOf(windows, keys[h], weeks[h])
    requires forall h, x :: 0 <= h < |weeks| ==> (x in weeks[h] <==> x in groups[keys[h]])
    requires WeekOf(windows, keys[|weeks|], week) && (forall x :: x in week <==> x in groups[keys[|weeks|]])
    ensures forall h :: 0 <= h < |weeks| + 1 ==> WeekOf(windows, keys[h], (weeks + [week])[h])
    ensures forall h, x :: 0 <= h < |weeks| + 1 ==> (x in (weeks + [week])[h] <==> x in groups[keys[h]])
  {
    forall h | 0 <= h < |weeks| + 1
      ensures (weeks + [week])[h] == if h < |weeks| then weeks[h] else week
    {
    }
  }

  /** What settling the `g`-th key's week does to the earlier weeks and to
      the later keys' windows. */
  lemma KeyStep(profile: Profile, index: map<string, PlannedWorkout>, windows: seq<WindowPlan>,
                keys: seq<string>, g: nat, weeks: seq<seq<nat>>, week: seq<nat>,
                before: seq<WindowPlan>, after: seq<WindowPlan>, initial: seq<WindowPlan>)
    requires Distinct(keys) && g < |keys| && |weeks| == g && |before| == |after| == |windows|
    requires forall h :: 0 <= h < g ==> WeekOf(windows, keys[h], weeks[h])
    requires WeekOf(windows, keys[g], week)
    requires Placed(weeks, MapSeq(SettledOf(profile, index, windows), weeks), before)
    requires Untouched(windows, keys[..g], before, initial)
    requires after == Scatter(before, week, SettledWeek(profile, index, windows, week), |week|)
    ensures Placed(weeks + [week], MapSeq(SettledOf(profile, index, windows), weeks + [week]), after)
    ensures Untouched(windows, keys[..g + 1], after, initial)
  {
    var settled := SettledWeek(profile, index, windows, week);
    forall p, q | 0 <= p < q < |week| ensures week[p] != week[q] {
      SortedByKeyDistinct(Ends(windows), week, p, q);
    }
    forall j | 0 <= j < |week|
      ensures after[week[j]] == settled[j]
    {
      ScatterAt(before, week, settled, |week|, j);
    }
    forall i | 0 <= i < |after| && i !in week
      ensures after[i] == before[i]
    {
      ScatterOutside(before, week, settled, |week|, i);
    }
    WeeksDisjoint(windows, keys, weeks, week);
    PlacedStep(weeks, MapSeq(SettledOf(profile, index, windows), weeks), week,
               SettledWeek(profile, index, windows, week), before, after);
    UntouchedStep(windows, keys, g, week, before, after, initial);
    MapSeqAppend(SettledOf(profile, index, windows), weeks, week);
  }

  /** `f` applied to each element of `xs`, in order. */
  ghost function MapSeq<A, B>(f: A -> B, xs: seq<A>): (ys: seq<B>)
    ensures |ys| == |xs|
  {
    if xs == [] then [] else MapSeq(f, xs[..|xs| - 1]) + [f(xs[|xs| - 1])]
  }

  lemma {:induction false} MapSeqAt<A, B>(f: A -> B, xs: seq<A>, i: nat)
    requires i < |xs|
    ensures MapSeq(f, xs)[i] == f(xs[i])
  {
    var n := |xs| - 1;
    if i < n {
      MapSeqAt(f, xs[..n], i);
    }
  }

  lemma MapSeqAppend<A, B>(f: A -> B, xs: seq<A>, x: A)
    ensures MapSeq(f, xs + [x]) == MapSeq(f, xs) + [f(x)]
  {
    assert (xs + [x])[..|xs|] == xs;
  }

  /** The summary a week gets, for every well-formed week. */
  ghost function PlanOf(profile: Profile, index: map<string, PlannedWorkout>, windows: seq<WindowPlan>): seq<nat> -> WeeklyPlan
  {
    week => if week != [] && InRange(week, |windows|) then WeekPlanFor(profile, index, windows, week)
            else WeeklyPlan("", 0, 0, 0, 0, None, MacroTargets(0.0, 0.0, 0.0))
  }

  /** The settled windows a week gets, for every well-formed week. */
  ghost function SettledOf(profile: Profile, index: map<string, PlannedWorkout>, windows: seq<WindowPlan>): seq<nat> -> seq<WindowPlan>
  {
    week => if InRange(week, |windows|) then SettledWeek(profile, index, windows, week) else []
  }

  /** Writing a new week's values at positions no earlier week uses keeps
      the earlier weeks' values in place. */
  lemma PlacedStep<T>(weeks: seq<seq<nat>>, vals: seq<seq<T>>, week: seq<nat>, v: seq<T>,
                      before: seq<T>, after: seq<T>)
    requires Placed(weeks, vals, before) && |v| == |week| && |after| == |before|
    requires forall h, j :: 0 <= h < |weeks| && 0 <= j < |weeks[h]| ==> weeks[h][j] !in week
    requires forall j :: 0 <= j < |week| ==> week[j] < |after| && after[week[j]] == v[j]
    requires forall i :: 0 <= i < |after| && i !in week ==> after[i] == before[i]
    ensures Placed(weeks + [week], vals + [v], after)
  {
    var weeks', vals' := weeks + [week], vals + [v];
    forall h, j | 0 <= h < |weeks'| && 0 <= j < |weeks'[h]|
      ensures j < |vals'[h]| && weeks'[h][j] < |after| && after[weeks'[h][j]] == vals'[h][j]
    {
      if h < |weeks| {
        assert weeks'[h] == weeks[h] && vals'[h] == vals[h];
        assert weeks[h][j] !in week;
      } else {
        assert weeks'[h] == week && vals'[h] == v;
      }
    }
  }

  /** Windows of different keys are in different weeks. */
  lemma WeeksDisjoint(windows: seq<WindowPlan>, keys: seq<string>, weeks: seq<seq<nat>>, week: seq<nat>)
    requires Distinct(keys) && |weeks| < |keys|
    requires forall h :: 0 <= h < |weeks| ==> WeekOf(windows, keys[h], weeks[h])
    requires WeekOf(windows, keys[|weeks|], week)
    ensures forall h, j :: 0 <= h < |weeks| && 0 <= j < |weeks[h]| ==> weeks[h][j] !in week
  {
    forall h, j | 0 <= h < |weeks| && 0 <= j < |weeks[h]|
      ensures weeks[h][j] !in week
    {
      var x := weeks[h][j];
      assert WeekKeys(windows)[x] == keys[h] != keys[|weeks|];
    }
  }

  /** A key missing from the first `g + 1` keys is not the `g`-th and is
      missing from the first `g`. */
  lemma NotInPrefix(keys: seq<string>, g: nat, x: string)
    requires g < |keys| && x !in keys[..g + 1]
    ensures x != keys[g] && x !in keys[..g]
  {
    assert keys[..g + 1] == keys[..g] + [keys[g]];
  }

  /** A window of another key is not in the week. */
  lemma NotInWeek(windows: seq<WindowPlan>, key: string, week: seq<nat>, i: nat)
    requires WeekOf(windows, key, week) && i < |windows| && WeekKeys(windows)[i] != key
    ensures i !in week
  {
  }

  /** Settling the week of `keys[g]` leaves every window of a later key as
      it was. */
  lemma UntouchedStep(windows: seq<WindowPlan>, keys: seq<string>, g: nat, week: seq<nat>,
                      before: seq<WindowPlan>, after: seq<WindowPlan>, initial: seq<WindowPlan>)
    requires g < |keys| && |after| == |windows|
    requires WeekOf(windows, keys[g], week)
    requires Untouched(windows, keys[..g], before, initial)
    requires forall i :: 0 <= i < |after| && i !in week ==> after[i] == before[i]
    ensures Untouched(windows, keys[..g + 1], after, initial)
  {
    forall i | 0 <= i < |windows| && WeekKeys(windows)[i] !in keys[..g + 1]
      ensures after[i] == initial[i]
    {
      NotInPrefix(keys, g, WeekKeys(windows)[i]);
      NotInWeek(windows, keys[g], week, i);
    }
  }

  /** The sorted positions of one key's group form a week of that key. */
  lemma NewWeek(windows: seq<WindowPlan>, key: string, group: seq<nat>, week: seq<nat>)
    requires group != [] && InRange(group, |windows|)
    requires forall j :: 0 <= j < |group| ==> group[j] < |windows| && WeekKeys(windows)[group[j]] == key
    requires |week| == |group| && (forall x :: x in week <==> x in group) && SortedByKey(Ends(windows), week)
    ensures WeekOf(windows, key, week)
    ensures forall p, q :: 0 <= p < q < |week| ==> week[p] != week[q]
  {
    forall j | 0 <= j < |week|
      ensures week[j] < |windows| && WeekKeys(windows)[week[j]] == key
    {
      assert week[j] in group;
    }
    forall p, q | 0 <= p < q < |week|
      ensures week[p] != week[q]
    {
      SortedByKeyDistinct(Ends(windows), week, p, q);
    }
  }

  // ------------------------------------------------------------ allocator

  /** `allocateWeeklyDeficits`. Without windows there is nothing to plan.
      Otherwise every window is cloned with macros for its target, the
      windows are grouped by the key of their ISO week, the weeks are
      taken in key order and each week's windows are served in time order
      from the weekly target. The result lists the windows in input order
      and one summary per week. */
  method AllocateWeeklyDeficits(profile: Profile, windows: seq<WindowPlan>, workouts: seq<PlannedWorkout>)
      returns (settled: seq<WindowPlan>, weekly: seq<WeeklyPlan>, ghost weeks: seq<seq<nat>>)
    ensures |settled| == |windows| && |weekly| == |weeks|
    ensures forall g :: 0 <= g < |weeks| ==>
      WeekOf(windows, weekly[g].weekKey, weeks[g]) && weekly[g] == WeekPlanFor(profile, WorkoutIndex(workouts), windows, weeks[g])
    ensures forall g :: 0 <= g < |weeks| ==>
      InRange(weeks[g], |windows|) && forall j :: 0 <= j < |weeks[g]| ==> settled[weeks[g][j]] == SettledWeek(profile, WorkoutIndex(workouts), windows, weeks[g])[j]
    ensures forall p, q :: 0 <= p < q < |weekly| ==> Less(weekly[p].weekKey, weekly[q].weekKey)
    ensures forall i :: 0 <= i < |windows| ==> InItsWeek(windows, weekly, weeks, i)
  {
    if windows == [] {
      return [], [], [];
    }
    var index := IndexWorkouts(workouts);
    var cloned := CloneWindows(profile, windows);
    settled, weekly, weeks := SettleClones(profile, index, windows, cloned);
  }

  /** Grouping the clones by week key and settling the weeks in key order. */
  method SettleClones(profile: Profile, index: map<string, PlannedWorkout>, windows: seq<WindowPlan>, cloned: array<WindowPlan>)
      returns (settled: seq<WindowPlan>, weekly: seq<WeeklyPlan>, ghost weeks: seq<seq<nat>>)
    requires cloned.Length == |windows| && forall i :: 0 <= i < |windows| ==> IsCloneOf(cloned[i], windows[i])
    modifies cloned
    ensures |settled| == |windows| && |weekly| == |weeks|
    ensures forall g :: 0 <= g < |weeks| ==>
      WeekOf(windows, weekly[g].weekKey, weeks[g]) && weekly[g] == WeekPlanFor(profile, index, windows, weeks[g])
    ensures forall g :: 0 <= g < |weeks| ==>
      InRange(weeks[g], |windows|) && forall j :: 0 <= j < |weeks[g]| ==> settled[weeks[g][j]] == SettledWeek(profile, index, windows, weeks[g])[j]
    ensures forall p, q :: 0 <= p < q < |weekly| ==> Less(weekly[p].weekKey, weekly[q].weekKey)
    ensures forall i :: 0 <= i < |windows| ==> InItsWeek(windows, weekly, weeks, i)
  {
    var keys, groups := GroupByKey(WeekKeys(windows));
    var sortedKeys := SortStrings(keys);
    AscendingDistinct(sortedKeys);
    weekly, weeks := SettleWeeks(profile, index, windows, sortedKeys, groups, cloned);
    settled := cloned[..];
    AllocatedPlans(profile, index, windows, sortedKeys, weekly, weeks);
    AllocatedOrder(sortedKeys, weekly);
    AllocatedCovers(windows, sortedKeys, groups, weekly, weeks);
    AllocatedSettled(profile, index, windows, weeks, settled);
  }

  /** The summaries the loop over the keys collects are the weeks'
      summaries, and carry the keys. */
  lemma AllocatedPlans(profile: Profile, index: map<string, PlannedWorkout>, windows: seq<WindowPlan>,
                       keys: seq<string>, weekly: seq<WeeklyPlan>, weeks: seq<seq<nat>>)
    requires |weeks| == |keys| && forall g :: 0 <= g < |weeks| ==> WeekOf(windows, keys[g], weeks[g])
    requires weekly == MapSeq(PlanOf(profile, index, windows), weeks)
    ensures |weekly| == |weeks| && forall g :: 0 <= g < |weeks| ==> weekly[g].weekKey == keys[g]
    ensures forall g :: 0 <= g < |weeks| ==>
      WeekOf(windows, weekly[g].weekKey, weeks[g]) && weekly[g] == WeekPlanFor(profile, index, windows, weeks[g])
  {
    forall g | 0 <= g < |weeks|
      ensures WeekOf(windows, keys[g], weeks[g]) && weekly[g] == WeekPlanFor(profile, index, windows, weeks[g])
      ensures weekly[g].weekKey == keys[g]
    {
      MapSeqAt(PlanOf(profile, index, windows), weeks, g);
      WeekKeysAt(windows, weeks[g][0]);
    }
  }

  /** Summaries carrying keys in ascending order are in ascending order. */
  lemma AllocatedOrder(keys: seq<string>, weekly: seq<WeeklyPlan>)
    requires StrictlyAscending(keys)
    requires |weekly| == |keys| && forall g :: 0 <= g < |weekly| ==> weekly[g].weekKey == keys[g]
    ensures forall p, q :: 0 <= p < q < |weekly| ==> Less(weekly[p].weekKey, weekly[q].weekKey)
  {
  }

  /** Window `i` lies in a week whose summary carries the window's key. */
  predicate InItsWeek(windows: seq<WindowPlan>, weekly: seq<WeeklyPlan>, weeks: seq<seq<nat>>, i: nat)
    requires i < |windows|
  {
    exists g :: 0 <= g < |weeks| && g < |weekly| && weekly[g].weekKey == WeekKeys(windows)[i] && i in weeks[g]
  }

  /** Every window lies in the week of its key. */
  lemma AllocatedCovers(windows: seq<WindowPlan>, keys: seq<string>, groups: map<string, seq<nat>>,
                         weekly: seq<WeeklyPlan>, weeks: seq<seq<nat>>)
    requires forall k :: k in groups <==> k in keys
    requires forall i :: 0 <= i < |windows| ==> WeekKeys(windows)[i] in groups && i in groups[WeekKeys(windows)[i]]
    requires |weeks| == |keys| && forall g, x :: 0 <= g < |keys| ==> (x in weeks[g] <==> x in groups[keys[g]])
    requires |weekly| == |weeks| && forall g :: 0 <= g < |weeks| ==> weekly[g].weekKey == keys[g]
    ensures forall i :: 0 <= i < |windows| ==> InItsWeek(windows, weekly, weeks, i)
  {
    forall i | 0 <= i < |windows|
      ensures InItsWeek(windows, weekly, weeks, i)
    {
      var g :| 0 <= g < |keys| && keys[g] == WeekKeys(windows)[i];
      assert i in weeks[g];
    }
  }

  /** Each window of a week holds its settled value. */
  lemma AllocatedSettled(profile: Profile, index: map<string, PlannedWorkout>, windows: seq<WindowPlan>,
                         weeks: seq<seq<nat>>, settled: seq<WindowPlan>)
    requires forall g :: 0 <= g < |weeks| ==> InRange(weeks[g], |windows|)
    requires Placed(weeks, MapSeq(SettledOf(profile, index, windows), weeks), settled)
    ensures forall g :: 0 <= g < |weeks| ==>
      InRange(weeks[g], |windows|) && forall j :: 0 <= j < |weeks[g]| ==> weeks[g][j] < |settled| && settled[weeks[g][j]] == SettledWeek(profile, index, windows, weeks[g])[j]
  {
    forall g | 0 <= g < |weeks|
      ensures forall j :: 0 <= j < |weeks[g]| ==> weeks[g][j] < |settled| && settled[weeks[g][j]] == SettledWeek(profile, index, windows, weeks[g])[j]
    {
      MapSeqAt(SettledOf(profile, index, windows), weeks, g);
    }
  }
}
