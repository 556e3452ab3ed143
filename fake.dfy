/** The offline workout provider: the sample workouts whose span meets the
    requested range, copied, and optionally stripped of their planned
    kilojoules to imitate a source that lacks them. A requested bound is
    its ISO text with what `Date.parse` makes of it; `None` stands for a
    string it rejects. The samples' own timestamps are already parsed. */
module Fake {
  import opened Base
  import opened Types
  import opened Sorting

  /** An ISO timestamp argument: its text, and its UTC milliseconds when it
      parses. */
  datatype IsoTime = IsoTime(text: string, ms: Option<int>)

  /** `toTimestamp`: the parsed time, or the error naming the text. */
  function ToTimestamp(t: IsoTime): (r: Result<int, string>)
    ensures r.Ok? <==> t.ms.Some?
    ensures r.Ok? ==> r.value == t.ms.value
    ensures r.Err? ==> r.error == "Invalid ISO timestamp: " + t.text
  {
    if t.ms.None? then Err("Invalid ISO timestamp: " + t.text) else Ok(t.ms.value)
  }

  /** `withinRange` once both bounds have parsed: the workout and the range
      overlap as closed intervals. */
  predicate WithinRange(w: PlannedWorkout, start: int, end: int)
  {
    w.end >= start && w.start <= end
  }

  /** `cloneSteps`: a copy of each step. */
  function CloneSteps(steps: Option<seq<Step>>): (r: Option<seq<Step>>)
    ensures r == steps
  {
    if steps.None? then None
    else
      var copy := seq(|steps.value|, i requires 0 <= i < |steps.value| => steps.value[i]);
      assert copy == steps.value;
      Some(copy)
  }

  /** `cloneWorkout`: as a value the copy equals the original. */
  function CloneWorkout(w: PlannedWorkout): (c: PlannedWorkout)
    ensures c == w
  {
    w.(steps := CloneSteps(w.steps))
  }

  /** `FakeProvider`; `omitPlannedKj` is fixed when it is built. */
  datatype FakeProvider = FakeProvider(omitPlannedKj: bool)

  /** `new FakeProvider(options)`: an absent option means `false`. */
  function NewFakeProvider(omitPlannedKj: Option<bool>): (p: FakeProvider)
    ensures p.omitPlannedKj <==> omitPlannedKj == Some(true)
  {
    FakeProvider(omitPlannedKj.Some? && omitPlannedKj.value)
  }

  /** The copy handed out for one sample. */
  function Present(p: FakeProvider, w: PlannedWorkout): PlannedWorkout
  {
    var copy := CloneWorkout(w);
    if p.omitPlannedKj then copy.(plannedKj := None, kjSource := EstimatedSteps) else copy
  }

  /** `plannedWorkouts.filter(withinRange)`, for parsed bounds. */
  function Filter(samples: seq<PlannedWorkout>, start: int, end: int): (r: seq<PlannedWorkout>)
    ensures |r| <= |samples|
  {
    if samples == [] then []
    else
      var rest := Filter(samples[..|samples| - 1], start, end);
      var last := samples[|samples| - 1];
      if WithinRange(last, start, end) then rest + [last] else rest
  }

  /** `filtered.map(...)`: the copy of each kept sample. */
  function PresentAll(p: FakeProvider, ws: seq<PlannedWorkout>): (r: seq<PlannedWorkout>)
    ensures |r| == |ws| && forall k :: 0 <= k < |ws| ==> r[k] == Present(p, ws[k])
  {
    if ws == [] then [] else PresentAll(p, ws[..|ws| - 1]) + [Present(p, ws[|ws| - 1])]
  }

  /** `getPlannedWorkouts(startISO, endISO)`. Every sample parses both
      bounds, the start first, so a bound that does not parse is an error
      as soon as there is a sample, and goes unnoticed when there is none. */
  function GetPlannedWorkouts(p: FakeProvider, samples: seq<PlannedWorkout>, startIso: IsoTime, endIso: IsoTime)
    : Result<seq<PlannedWorkout>, string>
  {
    if samples == [] then Ok([])
    else if ToTimestamp(startIso).Err? then Err(ToTimestamp(startIso).error)
    else if ToTimestamp(endIso).Err? then Err(ToTimestamp(endIso).error)
    else Ok(PresentAll(p, Filter(samples, startIso.ms.value, endIso.ms.value)))
  }

  /** The positions of the samples within the range, in ascending order. */
  function KeptIndices(samples: seq<PlannedWorkout>, start: int, end: int): (idx: seq<nat>)
    ensures InRange(idx, |samples|)
  {
    if samples == [] then []
    else
      var n := |samples| - 1;
      var rest := KeptIndices(samples[..n], start, end);
      if WithinRange(samples[n], start, end) then rest + [n] else rest
  }

  /** The kept positions ascend and are exactly the positions whose sample
      meets the range. */
  lemma {:induction false} KeptIndicesExact(samples: seq<PlannedWorkout>, start: int, end: int)
    ensures StrictlyIncreasing(KeptIndices(samples, start, end))
    ensures forall i: nat :: i in KeptIndices(samples, start, end) <==> i < |samples| && WithinRange(samples[i], start, end)
  {
    if samples != [] {
      var n := |samples| - 1;
      KeptIndicesExact(samples[..n], start, end);
      var rest := KeptIndices(samples[..n], start, end);
      assert forall i: nat :: i < n ==> samples[..n][i] == samples[i];
      assert forall p :: 0 <= p < |rest| ==> rest[p] < n;
    }
  }

  /** Filtering keeps the samples at the kept positions, in sample order. */
  lemma {:induction false} FilterIsKept(samples: seq<PlannedWorkout>, start: int, end: int)
    ensures var idx := KeptIndices(samples, start, end);
      var r := Filter(samples, start, end);
      |r| == |idx| && forall k :: 0 <= k < |r| ==> r[k] == samples[idx[k]]
  {
    if samples != [] {
      var n := |samples| - 1;
      FilterIsKept(samples[..n], start, end);
      var idx := KeptIndices(samples[..n], start, end);
      assert forall k :: 0 <= k < |idx| ==> samples[..n][idx[k]] == samples[idx[k]];
    }
  }

  /** The provider's answer: an error exactly when there is a sample and a
      bound does not parse (the start's error first); otherwise one copy per
      sample meeting the range, in sample order, each equal to the sample
      unless `omitPlannedKj`, which clears the planned kilojoules and marks
      the figure as estimated from steps. */
  lemma GetPlannedWorkoutsSpec(p: FakeProvider, samples: seq<PlannedWorkout>, startIso: IsoTime, endIso: IsoTime)
    ensures var r := GetPlannedWorkouts(p, samples, startIso, endIso);
      && (r.Err? <==> samples != [] && (startIso.ms.None? || endIso.ms.None?))
      && (r.Err? && startIso.ms.None? ==> r.error == "Invalid ISO timestamp: " + startIso.text)
      && (r.Err? && startIso.ms.Some? ==> r.error == "Invalid ISO timestamp: " + endIso.text)
      && (r.Ok? && samples != [] ==>
            var idx := KeptIndices(samples, startIso.ms.value, endIso.ms.value);
            |r.value| == |idx|
            && forall k :: 0 <= k < |idx| ==>
                 r.value[k].id == samples[idx[k]].id && r.value[k].steps == samples[idx[k]].steps
                 && (p.omitPlannedKj ==> r.value[k] == samples[idx[k]].(plannedKj := None, kjSource := EstimatedSteps))
                 && (!p.omitPlannedKj ==> r.value[k] == samples[idx[k]]))
  {
    if samples != [] && startIso.ms.Some? && endIso.ms.Some? {
      FilterIsKept(samples, startIso.ms.value, endIso.ms.value);
    }
  }
}
