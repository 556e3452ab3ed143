/** The workout-normalisation helpers of the intervals.icu adapter: the
    text rules (sex codes, tag collections, the session-type classifiers,
    truncation, API paths) and the energy estimates (duration, IF and TSS
    estimates, step kilojoules, the planned-kilojoule priority chain).
    Values the adapter reads through `Number()`/`toFiniteNumber` arrive here
    already parsed: `Option<real>`, `None` for a missing or non-finite
    value. */
module Intervals {
  import opened Base
  import opened Types
  import opened Text
  import opened Prescribe

  // ------------------------------------------------------------ text rules

  /** `parseSex`: a string whose trimmed, upper-cased form starts with 'M'
      or 'F'; anything else (including a value that is not a string, `None`)
      has no sex. */
  function ParseSex(value: Option<string>): (r: Option<Sex>)
    ensures r == Some(M) <==> value.Some? && Trim(value.value) != [] && UpperChar(Trim(value.value)[0]) == 'M'
    ensures r == Some(F) <==> value.Some? && Trim(value.value) != [] && UpperChar(Trim(value.value)[0]) == 'F'
  {
    if value.None? then None
    else
      var normalized := Upper(Trim(value.value));
      if normalized == [] then None
      else if StartsWith(normalized, "M") then Some(M)
      else if StartsWith(normalized, "F") then Some(F)
      else None
  }

  /** Whatever blanks surround a sex code, and whatever follows its first
      letter, that letter alone decides: " male", "m", "Female " and "f"
      all parse. */
  lemma ParseSexLeadingLetter(pre: string, c: char, rest: string)
    requires forall i :: 0 <= i < |pre| ==> IsSpace(pre[i])
    requires !IsSpace(c) && (rest == [] || !IsSpace(rest[|rest| - 1]))
    ensures ParseSex(Some(pre + [c] + rest))
         == if UpperChar(c) == 'M' then Some(M) else if UpperChar(c) == 'F' then Some(F) else None
  {
    assert pre + [c] + rest == pre + ([c] + rest);
    TrimAround(pre, [c] + rest);
  }

  /** Leading blanks are dropped by `trim`, and a text that starts and ends
      with a non-blank is kept whole. */
  lemma {:induction false} TrimAround(pre: string, s: string)
    requires forall i :: 0 <= i < |pre| ==> IsSpace(pre[i])
    requires s != [] && !IsSpace(s[0]) && !IsSpace(s[|s| - 1])
    ensures Trim(pre + s) == s
  {
    if pre == [] {
      assert pre + s == s;
    } else {
      assert (pre + s)[1..] == pre[1..] + s;
      TrimAround(pre[1..], s);
    }
  }

  /** A tag collection: absent, a list, or a record whose keys are the
      tags. */
  datatype TagCollection = NoTags | TagList(items: seq<string>) | TagRecord(keys: seq<string>)

  /** `extractTags`. */
  function ExtractTags(collection: TagCollection): (r: seq<string>)
    ensures collection.NoTags? ==> r == []
    ensures collection.TagList? ==> r == collection.items
    ensures collection.TagRecord? ==> r == collection.keys
  {
    match collection
    case NoTags => []
    case TagList(items) => items
    case TagRecord(keys) => keys
  }

  /** Some tag, lower-cased, is exactly `word`. */
  predicate HasTag(tags: seq<string>, word: string)
  {
    exists i :: 0 <= i < |tags| && Lower(tags[i]) == word
  }

  /** The session type a whole tag names, if any. */
  function TagType(tag: string): Option<SessionType>
  {
    var t := Lower(tag);
    if t == "vo2" || t == "vo₂" then Some(VO2)
    else if t == "threshold" then Some(Threshold)
    else if t == "tempo" then Some(Tempo)
    else if t == "race" then Some(Race)
    else if t == "rest" then Some(Rest)
    else None
  }

  /** The tag priority: VO2 over Threshold over Tempo over Race over Rest. */
  function TagRank(t: SessionType): nat
  {
    match t
    case VO2 => 5
    case Threshold => 4
    case Tempo => 3
    case Race => 2
    case Rest => 1
    case Endurance => 0
  }

  /** `mapTagsToDefaultType`. */
  function MapTagsToDefaultType(tags: seq<string>, fallback: SessionType): SessionType
  {
    if HasTag(tags, "vo2") || HasTag(tags, "vo₂") then VO2
    else if HasTag(tags, "threshold") then Threshold
    else if HasTag(tags, "tempo") then Tempo
    else if HasTag(tags, "race") then Race
    else if HasTag(tags, "rest") then Rest
    else fallback
  }

  /** The tags decide by rank: with no recognised tag the fallback stands;
      otherwise the result is the type of some tag, and no tag names a
      type of higher rank. */
  lemma MapTagsByRank(tags: seq<string>, fallback: SessionType)
    ensures var r := MapTagsToDefaultType(tags, fallback);
      && ((forall i :: 0 <= i < |tags| ==> TagType(tags[i]).None?) ==> r == fallback)
      && ((exists i :: 0 <= i < |tags| && TagType(tags[i]).Some?) ==>
            (exists i :: 0 <= i < |tags| && TagType(tags[i]) == Some(r))
            && forall i :: 0 <= i < |tags| && TagType(tags[i]).Some? ==> TagRank(TagType(tags[i]).value) <= TagRank(r))
  {
    var r := MapTagsToDefaultType(tags, fallback);
    forall i | 0 <= i < |tags| && TagType(tags[i]).Some?
      ensures TagRank(TagType(tags[i]).value) <= TagRank(r)
    {
      TagTypeHasTag(tags, i);
    }
    if r != fallback || exists i :: 0 <= i < |tags| && TagType(tags[i]).Some? {
      var i := TagWitness(tags, fallback);
    }
  }

  /** The tag at `i` names a type exactly when it is one of that type's words. */
  lemma TagTypeHasTag(tags: seq<string>, i: nat)
    requires i < |tags|
    ensures TagType(tags[i]) == Some(VO2) ==> HasTag(tags, "vo2") || HasTag(tags, "vo₂")
    ensures TagType(tags[i]) == Some(Threshold) ==> HasTag(tags, "threshold")
    ensures TagType(tags[i]) == Some(Tempo) ==> HasTag(tags, "tempo")
    ensures TagType(tags[i]) == Some(Race) ==> HasTag(tags, "race")
    ensures TagType(tags[i]) == Some(Rest) ==> HasTag(tags, "rest")
  {
  }

  /** When a tag decides, some tag names the type it decides on. */
  lemma TagWitness(tags: seq<string>, fallback: SessionType) returns (i: nat)
    requires (exists i :: 0 <= i < |tags| && TagType(tags[i]).Some?)
    ensures i < |tags| && TagType(tags[i]) == Some(MapTagsToDefaultType(tags, fallback))
  {
    if HasTag(tags, "vo2") {
      i :| 0 <= i < |tags| && Lower(tags[i]) == "vo2";
    } else if HasTag(tags, "vo₂") {
      i :| 0 <= i < |tags| && Lower(tags[i]) == "vo₂";
    } else if HasTag(tags, "threshold") {
      i :| 0 <= i < |tags| && Lower(tags[i]) == "threshold";
    } else if HasTag(tags, "tempo") {
      i :| 0 <= i < |tags| && Lower(tags[i]) == "tempo";
    } else if HasTag(tags, "race") {
      i :| 0 <= i < |tags| && Lower(tags[i]) == "race";
    } else if HasTag(tags, "rest") {
      i :| 0 <= i < |tags| && Lower(tags[i]) == "rest";
    } else {
      assert false;
    }
  }

  /** The keyword groups of `inferSessionType`, in the order they are
      tried. */
  const REST_WORDS: seq<string> := ["rest", "off bike", "recovery day", "day off"]
  const RACE_WORDS: seq<string> := ["race", "crits", "time trial"]
  const VO2_WORDS: seq<string> := ["vo2", "v02", "max aerobic", "anaerobic"]
  const THRESHOLD_WORDS: seq<string> := ["threshold", "sweet spot", "sweetspot", "over under", "over-under"]
  const TEMPO_WORDS: seq<string> := ["tempo", "steady state"]
  const ENDURANCE_WORDS: seq<string> := ["endurance", "aerobic", "z2"]
  const EASY_WORDS: seq<string> := ["recovery ride", "easy spin"]

  /** The text includes one of the words. */
  predicate Mentions(text: string, words: seq<string>)
  {
    exists i :: 0 <= i < |words| && Contains(text, words[i])
  }

  /** The type the keywords of the combined text decide, if any. */
  function KeywordType(text: string): Option<SessionType>
  {
    if Mentions(text, REST_WORDS) then Some(Rest)
    else if Mentions(text, RACE_WORDS) then Some(Race)
    else if Mentions(text, VO2_WORDS) then Some(VO2)
    else if Mentions(text, THRESHOLD_WORDS) then Some(Threshold)
    else if Mentions(text, TEMPO_WORDS) then Some(Tempo)
    else if Mentions(text, ENDURANCE_WORDS) || Mentions(text, EASY_WORDS) then Some(Endurance)
    else None
  }

  /** The present values only, in order. */
  function Somes<T>(hints: seq<Option<T>>): (r: seq<T>)
    ensures |r| <= |hints|
  {
    if hints == [] then []
    else
      var rest := Somes(hints[..|hints| - 1]);
      var last := hints[|hints| - 1];
      if last.Some? then rest + [last.value] else rest
  }

  function LowerAll(xs: seq<string>): (r: seq<string>)
    ensures |r| == |xs| && forall i :: 0 <= i < |xs| ==> r[i] == Lower(xs[i])
  {
    if xs == [] then [] else [Lower(xs[0])] + LowerAll(xs[1..])
  }

  /** Name, tags, labels and string hints, lower-cased and joined by
      spaces. */
  function Combined(name: string, tags: seq<string>, labels: seq<string>, hints: seq<Option<string>>): string
  {
    Join(LowerAll([name] + tags + labels + Somes(hints)), " ")
  }

  /** The largest value seen, starting from 0 (`reduce` with `Math.max`). */
  function FoldMax(xs: seq<real>): (m: real)
    ensures m >= 0.0
  {
    if xs == [] then 0.0 else Max(FoldMax(xs[..|xs| - 1]), xs[|xs| - 1])
  }

  /** `FoldMax` is the maximum of 0 and the values: no value exceeds it,
      and it is 0 or one of them. */
  lemma {:induction false} FoldMaxIsMax(xs: seq<real>)
    ensures forall i :: 0 <= i < |xs| ==> xs[i] <= FoldMax(xs)
    ensures FoldMax(xs) == 0.0 || exists i :: 0 <= i < |xs| && xs[i] == FoldMax(xs)
  {
    if xs != [] {
      var n := |xs| - 1;
      FoldMaxIsMax(xs[..n]);
      assert forall i :: 0 <= i < n ==> xs[..n][i] == xs[i];
      if FoldMax(xs[..n]) != 0.0 && FoldMax(xs) == FoldMax(xs[..n]) {
        var i :| 0 <= i < n && xs[..n][i] == FoldMax(xs[..n]);
        assert xs[i] == FoldMax(xs);
      }
    }
  }

  /** What a step contributes to the step maximum: a %FTP step its high
      target (else its low, else 0), a watt step its high target when that
      is non-zero; any other step leaves the maximum as it is, which from a
      start of 0 is the same as contributing 0. */
  function StepPeak(step: Step): real
  {
    match step.targetType
    case PercentFtp => if step.targetHi.Some? then step.targetHi.value else OrElse(step.targetLo, 0.0)
    case Watts => if Truthy(step.targetHi) then step.targetHi.value else 0.0
    case Rpe => 0.0
  }

  function Peaks(steps: seq<Step>): (r: seq<real>)
    ensures |r| == |steps| && forall i :: 0 <= i < |steps| ==> r[i] == StepPeak(steps[i])
  {
    if steps == [] then [] else [StepPeak(steps[0])] + Peaks(steps[1..])
  }

  /** `maxPct`: 0 when there are no steps. */
  function MaxPct(steps: Option<seq<Step>>): real
  {
    if steps.None? then 0.0 else FoldMax(Peaks(steps.value))
  }

  /** `inferSessionType`: the keywords first, then the step maximum, then
      (only without steps) the largest intensity hint, then a mention of
      recovery, and otherwise the default. */
  function InferSessionType(name: string, tags: seq<string>, labels: seq<string>, typeHints: seq<Option<string>>,
                            steps: Option<seq<Step>>, intensityHints: seq<Option<real>>, defaultType: SessionType)
    : SessionType
  {
    var combined := Combined(name, tags, labels, typeHints);
    var keyword := KeywordType(combined);
    if keyword.Some? then keyword.value
    else
      var maxPct := MaxPct(steps);
      if maxPct >= 115.0 then VO2
      else if maxPct >= 100.0 then Threshold
      else
        var intensity := FoldMax(Somes(intensityHints));
        if (steps.None? || |steps.value| == 0) && intensity > 0.0 && intensity >= 1.15 then VO2
        else if (steps.None? || |steps.value| == 0) && intensity > 0.0 && intensity >= 1.0 then Threshold
        else if (steps.None? || |steps.value| == 0) && intensity > 0.0 && intensity >= 0.85 then Tempo
        else if Contains(combined, "recovery") then Endurance
        else defaultType
  }

  /** A keyword decides alone: neither the steps, nor the intensity hints,
      nor the default can change a type the words name. */
  lemma KeywordsDecide(name: string, tags: seq<string>, labels: seq<string>, typeHints: seq<Option<string>>,
                       steps1: Option<seq<Step>>, hints1: seq<Option<real>>, default1: SessionType,
                       steps2: Option<seq<Step>>, hints2: seq<Option<real>>, default2: SessionType)
    requires KeywordType(Combined(name, tags, labels, typeHints)).Some?
    ensures InferSessionType(name, tags, labels, typeHints, steps1, hints1, default1)
         == InferSessionType(name, tags, labels, typeHints, steps2, hints2, default2)
         == KeywordType(Combined(name, tags, labels, typeHints)).value
  {
  }

  /** Any rest word wins over every other word: a "race recovery day" is a
      rest day. */
  lemma RestWordsFirst(name: string, tags: seq<string>, labels: seq<string>, typeHints: seq<Option<string>>,
                       steps: Option<seq<Step>>, hints: seq<Option<real>>, defaultType: SessionType)
    requires Mentions(Combined(name, tags, labels, typeHints), REST_WORDS)
    ensures InferSessionType(name, tags, labels, typeHints, steps, hints, defaultType) == Rest
  {
  }

  /** With at least one step, the intensity hints are never consulted. */
  lemma StepsSilenceIntensity(name: string, tags: seq<string>, labels: seq<string>, typeHints: seq<Option<string>>,
                              steps: seq<Step>, hints1: seq<Option<real>>, hints2: seq<Option<real>>,
                              defaultType: SessionType)
    requires steps != []
    ensures InferSessionType(name, tags, labels, typeHints, Some(steps), hints1, defaultType)
         == InferSessionType(name, tags, labels, typeHints, Some(steps), hints2, defaultType)
  {
  }

  /** Without keywords, a step at or above 115 % makes the session VO2,
      whatever the intensity hints say. */
  lemma HardStepMeansVo2(name: string, tags: seq<string>, labels: seq<string>, typeHints: seq<Option<string>>,
                         steps: seq<Step>, hints: seq<Option<real>>, defaultType: SessionType, k: nat)
    requires KeywordType(Combined(name, tags, labels, typeHints)).None?
    requires k < |steps| && StepPeak(steps[k]) >= 115.0
    ensures InferSessionType(name, tags, labels, typeHints, Some(steps), hints, defaultType) == VO2
  {
    FoldMaxIsMax(Peaks(steps));
    assert Peaks(steps)[k] == StepPeak(steps[k]);
  }

  /** Nothing to go on leaves the default: no keyword, no step reaching
      100 %, no intensity hint reaching 0.85 and no mention of recovery. */
  lemma InferFallsBack(name: string, tags: seq<string>, labels: seq<string>, typeHints: seq<Option<string>>,
                       steps: Option<seq<Step>>, hints: seq<Option<real>>, defaultType: SessionType)
    requires KeywordType(Combined(name, tags, labels, typeHints)).None?
    requires steps.Some? ==> forall i :: 0 <= i < |steps.value| ==> StepPeak(steps.value[i]) < 100.0
    requires forall i :: 0 <= i < |hints| && hints[i].Some? ==> hints[i].value < 0.85
    requires !Contains(Combined(name, tags, labels, typeHints), "recovery")
    ensures InferSessionType(name, tags, labels, typeHints, steps, hints, defaultType) == defaultType
  {
    if steps.Some? {
      FoldMaxIsMax(Peaks(steps.value));
    }
    SomesBound(hints, 0.85);
    FoldMaxIsMax(Somes(hints));
  }

  /** The kept numbers are among the hints, so a bound on the hints bounds
      them. */
  lemma {:induction false} SomesBound(hints: seq<Option<real>>, bound: real)
    requires forall i :: 0 <= i < |hints| && hints[i].Some? ==> hints[i].value < bound
    ensures forall j :: 0 <= j < |Somes(hints)| ==> Somes(hints)[j] < bound
  {
    if hints != [] {
      var n := |hints| - 1;
      assert forall i :: 0 <= i < n ==> hints[..n][i] == hints[i];
      SomesBound(hints[..n], bound);
    }
  }

  /** `truncate(value, limit)`: the value itself when it fits, otherwise
      `value.slice(0, limit - 1)` and an ellipsis. For a limit of 0 the
      slice end is -1, which `slice` counts from the end. */
  function Truncate(value: string, limit: nat): (r: string)
    ensures |value| <= limit ==> r == value
    ensures |value| > limit >= 1 ==> |r| == limit && r == value[..limit - 1] + "…"
    ensures |value| > limit == 0 ==> r == value[..|value| - 1] + "…"
  {
    if |value| <= limit then value
    else if limit == 0 then value[..|value| - 1] + "…"
    else value[..limit - 1] + "…"
  }

  /** Truncation to a positive limit never yields more than the limit, and
      what it keeps is a prefix of the value. */
  lemma TruncateBounds(value: string, limit: nat)
    requires limit >= 1
    ensures |Truncate(value, limit)| <= limit
    ensures Truncate(value, limit) == value
         || (Truncate(value, limit)[..limit - 1] == value[..limit - 1] && Truncate(value, limit)[limit - 1] == '…')
  {
  }

  const ICU_API_PREFIX: string := "api/v1/"

  /** `path.replace(/^\/+/, '')`. */
  function StripLeadingSlashes(path: string): (r: string)
    ensures r == [] || r[0] != '/'
    ensures |r| <= |path| && r == path[|path| - |r|..]
    ensures forall i :: 0 <= i < |path| - |r| ==> path[i] == '/'
  {
    if path != [] && path[0] == '/' then StripLeadingSlashes(path[1..]) else path
  }

  /** `normaliseApiPath`: trimmed, without leading slashes, and without the
      API prefix. */
  function NormaliseApiPath(path: string): (r: string)
  {
    var trimmed := Trim(path);
    if trimmed == [] then ""
    else
      var withoutSlash := StripLeadingSlashes(trimmed);
      if StartsWith(withoutSlash, ICU_API_PREFIX) then withoutSlash[|ICU_API_PREFIX|..]
      else withoutSlash
  }

  /** The normalised path is the tail of the trimmed path after its leading
      slashes and, when present, the prefix; without the prefix it starts
      with no slash. */
  lemma NormaliseApiPathSpec(path: string)
    ensures var t := Trim(path); var s := StripLeadingSlashes(t); var r := NormaliseApiPath(path);
      && (StartsWith(s, ICU_API_PREFIX) ==> s == ICU_API_PREFIX + r)
      && (!StartsWith(s, ICU_API_PREFIX) ==> r == s && (r == [] || r[0] != '/'))
      && |r| <= |t|
  {
    var t := Trim(path);
    if t != [] {
      var s := StripLeadingSlashes(t);
      if StartsWith(s, ICU_API_PREFIX) {
        assert NormaliseApiPath(path) == s[|ICU_API_PREFIX|..];
        assert s == s[..|ICU_API_PREFIX|] + s[|ICU_API_PREFIX|..];
      } else {
        assert NormaliseApiPath(path) == s;
      }
    }
  }

  /** A relative path given with the prefix, with or without leading
      slashes, comes back as the relative path. */
  lemma NormalisePrefixed(slashes: string, p: string)
    requires forall i :: 0 <= i < |slashes| ==> slashes[i] == '/'
    requires p != [] && !IsSpace(p[|p| - 1])
    ensures NormaliseApiPath(slashes + ICU_API_PREFIX + p) == p
  {
    var s := ICU_API_PREFIX + p;
    var full := slashes + s;
    assert full == slashes + ICU_API_PREFIX + p;
    TrimWhole(full);
    StripSlashes(slashes, s);
    PrefixDropped(p);
  }

  lemma TrimWhole(s: string)
    requires s != [] && !IsSpace(s[0]) && !IsSpace(s[|s| - 1])
    ensures Trim(s) == s
  {
    TrimAround([], s);
    assert [] + s == s;
  }

  lemma PrefixDropped(p: string)
    ensures StartsWith(ICU_API_PREFIX + p, ICU_API_PREFIX)
    ensures (ICU_API_PREFIX + p)[|ICU_API_PREFIX|..] == p
  {
    assert (ICU_API_PREFIX + p)[..|ICU_API_PREFIX|] == ICU_API_PREFIX;
  }

  lemma {:induction false} StripSlashes(slashes: string, s: string)
    requires forall i :: 0 <= i < |slashes| ==> slashes[i] == '/'
    requires s != [] && s[0] != '/'
    ensures StripLeadingSlashes(slashes + s) == s
  {
    if slashes != [] {
      assert (slashes + s)[1..] == slashes[1..] + s;
      StripSlashes(slashes[1..], s);
    } else {
      assert slashes + s == s;
    }
  }
  // ------------------------------------------------------------ energy

  /** `ensureDurationHours`: the seconds when positive, else the span
      between two parsed timestamps when it is positive, else 0. `None`
      stands for a missing value or one that does not parse. */
  function EnsureDurationHours(seconds: Option<real>, startMs: Option<int>, endMs: Option<int>): (h: real)
    ensures h >= 0.0
    ensures h > 0.0 <==> (seconds.Some? && seconds.value > 0.0)
                         || (startMs.Some? && endMs.Some? && endMs.value > startMs.value)
  {
    if seconds.Some? && seconds.value > 0.0 then seconds.value / 3600.0
    else if startMs.Some? && endMs.Some? && endMs.value > startMs.value then
      (endMs.value - startMs.value) as real / 3600000.0
    else 0.0
  }

  /** Seconds and hours convert back and forth; the seconds win over the
      timestamps. */
  lemma DurationRoundTrip(hours: real, startMs: Option<int>, endMs: Option<int>)
    requires hours > 0.0
    ensures EnsureDurationHours(Some(hours * 3600.0), startMs, endMs) == hours
  {
  }

  /** `estimateFromIf`: kilojoules of riding at `ftp x IF` for the
      duration, when FTP and IF are usable and the duration is positive. */
  function EstimateFromIf(ftp: Option<real>, intensityFactor: Option<real>, durationHr: real): (r: Option<real>)
    ensures r.Some? <==> Truthy(ftp) && intensityFactor.Some? && intensityFactor.value > 0.0 && durationHr > 0.0
  {
    if !Truthy(ftp) || intensityFactor.None? || intensityFactor.value <= 0.0 || durationHr <= 0.0 then None
    else
      var avgWatts := ftp.value * intensityFactor.value;
      Some(avgWatts * durationHr * 3600.0 / 1000.0)
  }

  /** The IF estimate is the FTP fallback of the workout kilojoule chain
      with the given intensity in place of the session type's. */
  lemma EstimateFromIfMatchesFallback(w: PlannedWorkout)
    requires w.plannedKj.None? && !HasSteps(w) && Truthy(w.ftpWattsAtPlan) && w.durationHr > 0.0
    requires w.sessionType != Rest
    ensures EstimateFromIf(w.ftpWattsAtPlan, Some(IntensityFactor(w.sessionType)), w.durationHr)
         == Some(WorkoutKilojoules(w))
  {
    assert IntensityFactor(w.sessionType) > 0.0;
    var f := w.ftpWattsAtPlan.value;
    var i := IntensityFactor(w.sessionType);
    assert WorkoutKilojoules(w) == f * i * w.durationHr * 3600.0 / 1000.0;
    var a := f * i;
    assert a * w.durationHr * 3600.0 / 1000.0 == f * i * w.durationHr * 3600.0 / 1000.0;
    assert Truthy(w.ftpWattsAtPlan);
    assert EstimateFromIf(w.ftpWattsAtPlan, Some(i), w.durationHr).Some?;
    var e := EstimateFromIf(w.ftpWattsAtPlan, Some(i), w.durationHr);
    assert e.value == a * w.durationHr * 3600.0 / 1000.0;
    assert e.value == WorkoutKilojoules(w);
    assert e == Some(WorkoutKilojoules(w));
  }

  /** `v` is a square root of `x`. */
  predicate IsRootOf(v: real, x: real)
  {
    v >= 0.0 && v * v == x
  }

  /** `estimateFromTss`, with `Math.sqrt` given as `sqrt`: the intensity
      factor is the root of TSS / (hours x 100). */
  function EstimateFromTss(ftp: Option<real>, plannedTss: Option<real>, durationHr: real, sqrt: real -> real)
    : (r: Option<real>)
    requires forall x :: x >= 0.0 ==> IsRootOf(sqrt(x), x)
    ensures r.Some? <==> Truthy(ftp) && plannedTss.Some? && plannedTss.value > 0.0 && durationHr > 0.0
    ensures r.Some? ==> exists f :: f > 0.0 && f * f * durationHr * 100.0 == plannedTss.value
                                   && r == EstimateFromIf(ftp, Some(f), durationHr)
  {
    if !Truthy(ftp) || plannedTss.None? || plannedTss.value <= 0.0 || durationHr <= 0.0 then None
    else
      var x := plannedTss.value / (durationHr * 100.0);
      // The root of a positive number is positive, so the source's guard
      // against a non-positive or non-finite factor never fires here.
      var ifactor := sqrt(x);
      assert x > 0.0 && IsRootOf(ifactor, x);
      assert ifactor > 0.0;
      assert ifactor * ifactor * (durationHr * 100.0) == plannedTss.value;
      EstimateFromIf(ftp, Some(ifactor), durationHr)
  }

  /** Some step aims at a share of FTP. */
  predicate NeedsFtp(steps: seq<Step>)
  {
    exists i :: 0 <= i < |steps| && steps[i].targetType == PercentFtp
  }

  /** Joules of one step: %FTP steps at their average share of the FTP,
      watt steps at their average watts, RPE steps nothing. */
  function StepJoules(step: Step, ftp: real): real
  {
    match step.targetType
    case PercentFtp => AverageTarget(step) / 100.0 * ftp * step.durationS
    case Watts => AverageTarget(step) * step.durationS
    case Rpe => 0.0
  }

  /** A step's joules are 3600 times its watt-hours. */
  lemma StepJoulesWattHours(step: Step, ftp: real)
    ensures StepJoules(step, ftp) == 3600.0 * StepWattHours(step, ftp)
  {
    var a := AverageTarget(step);
    var d := step.durationS;
    assert a / 100.0 * ftp * (d / 3600.0) * 3600.0 == a / 100.0 * ftp * d;
    assert a * (d / 3600.0) * 3600.0 == a * d;
  }

  /** `sumStepKilojoules`: nothing for no steps, for %FTP steps without an
      FTP, or for a total that is not positive; otherwise the total joules
      over 1000. It is the same figure as the workout estimate's 3.6 kJ per
      watt-hour. */
  method SumStepKilojoules(steps: seq<Step>, ftp: Option<real>) returns (r: Option<real>)
    ensures r.None? <==> steps == [] || (NeedsFtp(steps) && !Truthy(ftp))
                         || StepsWattHours(steps, OrElse(ftp, 0.0)) <= 0.0
    ensures r.Some? ==> r.value == StepsWattHours(steps, OrElse(ftp, 0.0)) * 3600.0 / 1000.0
  {
    if |steps| == 0 {
      return None;
    }
    var requiresFtp := false;
    var k := 0;
    while k < |steps|
      invariant 0 <= k <= |steps|
      invariant requiresFtp <==> exists i :: 0 <= i < k && steps[i].targetType == PercentFtp
    {
      if steps[k].targetType == PercentFtp {
        requiresFtp := true;
      }
      k := k + 1;
    }
    if requiresFtp && !Truthy(ftp) {
      return None;
    }
    var f := OrElse(ftp, 0.0);
    var total := 0.0;
    var i := 0;
    while i < |steps|
      invariant 0 <= i <= |steps|
      invariant total == 3600.0 * StepsWattHours(steps[..i], f)
    {
      var step := steps[i];
      if step.targetType == PercentFtp {
        var lo := if step.targetLo.Some? then step.targetLo.value else OrElse(step.targetHi, 0.0);
        var hi := if step.targetHi.Some? then step.targetHi.value else OrElse(step.targetLo, 0.0);
        var pct := (lo + hi) / 2.0 / 100.0;
        total := total + pct * f * step.durationS;
      } else if step.targetType == Watts {
        var lo := if step.targetLo.Some? then step.targetLo.value else OrElse(step.targetHi, 0.0);
        var hi := if step.targetHi.Some? then step.targetHi.value else OrElse(step.targetLo, 0.0);
        var watts := (lo + hi) / 2.0;
        total := total + watts * step.durationS;
      }
      StepJoulesWattHours(step, f);
      assert steps[..i + 1][..i] == steps[..i];
      i := i + 1;
    }
    assert steps[..|steps|] == steps;
    if total <= 0.0 {
      return None;
    }
    return Some(total / 1000.0);
  }

  /** Positive durations, summed in order. */
  function PositiveDurations(steps: seq<Step>): (t: real)
    ensures t >= 0.0
  {
    if steps == [] then 0.0
    else
      var last := steps[|steps| - 1];
      PositiveDurations(steps[..|steps| - 1]) + (if last.durationS > 0.0 then last.durationS else 0.0)
  }

  /** `totalStepDurationSeconds`: the sum of the positive durations, when
      there are steps and it is positive. */
  method TotalStepDurationSeconds(steps: Option<seq<Step>>) returns (r: Option<real>)
    ensures r.None? <==> steps.None? || PositiveDurations(steps.value) == 0.0
    ensures r.Some? ==> r.value == PositiveDurations(steps.value) && r.value > 0.0
  {
    if steps.None? || |steps.value| == 0 {
      return None;
    }
    var s := steps.value;
    var total := 0.0;
    var i := 0;
    while i < |s|
      invariant 0 <= i <= |s|
      invariant total == PositiveDurations(s[..i])
    {
      if s[i].durationS > 0.0 {
        total := total + s[i].durationS;
      }
      assert s[..i + 1][..i] == s[..i];
      i := i + 1;
    }
    assert s[..|s|] == s;
    return if total > 0.0 then Some(total) else None;
  }

  /** No positive duration is longer than the total. */
  lemma {:induction false} PositiveDurationsBound(steps: seq<Step>, k: nat)
    requires k < |steps| && steps[k].durationS > 0.0
    ensures steps[k].durationS <= PositiveDurations(steps)
  {
    var n := |steps| - 1;
    if k < n {
      assert steps[..n][k] == steps[k];
      PositiveDurationsBound(steps[..n], k);
    }
  }

  /** The figures of a planned event that the kilojoule chain reads, each
      as `toFiniteNumber` leaves it; `descriptionKj` is what the description
      parser found in the text (the regular expression is not modelled). */
  datatype EventEnergy = EventEnergy(
    plannedWorkKj: Option<real>,
    plannedWork: Option<real>,
    plannedWorkCamel: Option<real>,
    joules: Option<real>,
    descriptionKj: Option<real>,
    icuIntensity: Option<real>,
    icuTrainingLoad: Option<real>,
    plannedIntensityFactor: Option<real>,
    plannedTss: Option<real>,
    plannedTssCamel: Option<real>)

  /** `PlannedKilojoulesResult`. */
  datatype PlannedKj = PlannedKj(plannedKj: Option<real>, source: KjSource)

  /** The first candidate that is a positive number. */
  function FirstPositive(xs: seq<Option<real>>): (r: Option<real>)
    ensures r.Some? <==> exists k :: 0 <= k < |xs| && xs[k].Some? && xs[k].value > 0.0
    ensures r.Some? ==> r.value > 0.0
    ensures r.Some? ==> exists k :: 0 <= k < |xs| && xs[k] == r
                         && forall j :: 0 <= j < k ==> xs[j].None? || xs[j].value <= 0.0
  {
    if xs == [] then None
    else if xs[0].Some? && xs[0].value > 0.0 then xs[0]
    else
      var r := FirstPositive(xs[1..]);
      if r.Some? then
        var k :| 0 <= k < |xs[1..]| && xs[1..][k] == r && forall j :: 0 <= j < k ==> xs[1..][j].None? || xs[1..][j].value <= 0.0;
        assert xs[k + 1] == r;
        r
      else r
  }

  /** `sumStepKilojoules` as a value. */
  function StepsKj(steps: seq<Step>, ftp: Option<real>): Option<real>
  {
    if steps == [] || (NeedsFtp(steps) && !Truthy(ftp)) || StepsWattHours(steps, OrElse(ftp, 0.0)) <= 0.0 then None
    else Some(StepsWattHours(steps, OrElse(ftp, 0.0)) * 3600.0 / 1000.0)
  }

  /** The step figure of the adapter is the workout estimate's structured
      branch: for a workout with steps and a non-zero FTP but no planned
      figure, whenever the adapter finds a figure it is the one the window
      builder would have estimated. */
  lemma StepsKjMatchesWorkoutEstimate(w: PlannedWorkout)
    requires w.plannedKj.None? && HasSteps(w) && Truthy(w.ftpWattsAtPlan)
    ensures StepsKj(w.steps.value, w.ftpWattsAtPlan).Some? ==>
      StepsKj(w.steps.value, w.ftpWattsAtPlan) == Some(WorkoutKilojoules(w))
  {
  }

  /** The first TSS candidate that gives an estimate. */
  function FirstTssEstimate(candidates: seq<Option<real>>, ftp: Option<real>, durationHr: real, sqrt: real -> real)
    : (r: Option<real>)
    requires forall x :: x >= 0.0 ==> IsRootOf(sqrt(x), x)
  {
    if candidates == [] then None
    else
      var c := candidates[0];
      var est := if c.None? || c.value <= 0.0 then None else EstimateFromTss(ftp, c, durationHr, sqrt);
      if est.Some? then est else FirstTssEstimate(candidates[1..], ftp, durationHr, sqrt)
  }

  /** The estimates tried once no event figure is positive: the steps,
      then (with an FTP and a positive duration) the IF, then the TSS. */
  function EstimatedKjFor(e: EventEnergy, steps: Option<seq<Step>>, ftp: Option<real>, durationHr: real,
                          sqrt: real -> real): PlannedKj
    requires forall x :: x >= 0.0 ==> IsRootOf(sqrt(x), x)
  {
    var fromSteps := if steps.Some? && |steps.value| > 0 then StepsKj(steps.value, ftp) else None;
    if fromSteps.Some? then PlannedKj(fromSteps, EstimatedSteps)
    else if ftp.None? || durationHr <= 0.0 then PlannedKj(None, EstimatedFallback)
    else
      var fromIf := EstimateFromIf(ftp, IntensityOf(e), durationHr);
      if fromIf.Some? then PlannedKj(fromIf, EstimatedIfTss)
      else
        var fromTss := FirstTssEstimate(TssCandidates(e), ftp, durationHr, sqrt);
        if fromTss.Some? then PlannedKj(fromTss, EstimatedIfTss) else PlannedKj(None, EstimatedFallback)
  }

  /** The intensity factor: the platform's percentage when positive,
      otherwise the planned factor. */
  function IntensityOf(e: EventEnergy): Option<real>
  {
    if e.icuIntensity.Some? && e.icuIntensity.value > 0.0 then Some(e.icuIntensity.value / 100.0)
    else e.plannedIntensityFactor
  }

  function TssCandidates(e: EventEnergy): seq<Option<real>>
  {
    [e.icuTrainingLoad, e.plannedTss, e.plannedTssCamel]
  }

  /** The priority chain as a value. */
  function PlannedKjFor(e: EventEnergy, steps: Option<seq<Step>>, ftp: Option<real>, durationHr: real,
                        sqrt: real -> real): PlannedKj
    requires forall x :: x >= 0.0 ==> IsRootOf(sqrt(x), x)
  {
    var direct := FirstPositive([e.plannedWorkKj, e.plannedWork, e.plannedWorkCamel]);
    if direct.Some? then PlannedKj(direct, IcuStructured)
    else if e.joules.Some? && e.joules.value > 0.0 then PlannedKj(Some(e.joules.value / 1000.0), IcuStructured)
    else if e.descriptionKj.Some? then PlannedKj(e.descriptionKj, Description)
    else EstimatedKjFor(e, steps, ftp, durationHr, sqrt)
  }

  /** The loop over the TSS candidates: the first estimate any of them
      gives. */
  method FirstTss(candidates: seq<Option<real>>, ftp: Option<real>, durationHr: real, sqrt: real -> real)
    returns (r: Option<real>)
    requires forall x :: x >= 0.0 ==> IsRootOf(sqrt(x), x)
    ensures r == FirstTssEstimate(candidates, ftp, durationHr, sqrt)
  {
    var j := 0;
    while j < |candidates|
      invariant 0 <= j <= |candidates|
      invariant FirstTssEstimate(candidates, ftp, durationHr, sqrt) == FirstTssEstimate(candidates[j..], ftp, durationHr, sqrt)
    {
      var candidate := candidates[j];
      assert candidates[j..][1..] == candidates[j + 1..];
      if candidate.Some? && candidate.value > 0.0 {
        var fromTss := EstimateFromTss(ftp, candidate, durationHr, sqrt);
        if fromTss.Some? {
          return fromTss;
        }
      }
      j := j + 1;
    }
    return None;
  }

  /** The estimating half of `extractPlannedKilojoules`. */
  method EstimatePlannedKj(e: EventEnergy, steps: Option<seq<Step>>, ftp: Option<real>, durationHr: real,
                           sqrt: real -> real) returns (r: PlannedKj)
    requires forall x :: x >= 0.0 ==> IsRootOf(sqrt(x), x)
    ensures r == EstimatedKjFor(e, steps, ftp, durationHr, sqrt)
  {
    var fallback: Option<PlannedKj> := None;
    if steps.Some? && |steps.value| > 0 {
      var estimated := SumStepKilojoules(steps.value, ftp);
      if estimated.Some? {
        fallback := Some(PlannedKj(estimated, EstimatedSteps));
      }
    }
    if fallback.None? && ftp.Some? && durationHr > 0.0 {
      var intensity := IntensityOf(e);
      if intensity.Some? && intensity.value > 0.0 {
        var fromIf := EstimateFromIf(ftp, intensity, durationHr);
        if fromIf.Some? {
          fallback := Some(PlannedKj(fromIf, EstimatedIfTss));
        }
      }
      if fallback.None? {
        var fromTss := FirstTss(TssCandidates(e), ftp, durationHr, sqrt);
        if fromTss.Some? {
          fallback := Some(PlannedKj(fromTss, EstimatedIfTss));
        }
      }
    }
    r := if fallback.Some? then fallback.value else PlannedKj(None, EstimatedFallback);
  }

  /** `extractPlannedKilojoules`: the first positive direct figure, else
      the joules in kilojoules, else the description's figure, else the
      step estimate, else (with an FTP and a positive duration) the IF
      estimate and then the first TSS estimate; otherwise no figure. */
  method ExtractPlannedKilojoules(e: EventEnergy, steps: Option<seq<Step>>, ftp: Option<real>, durationHr: real,
                                  sqrt: real -> real) returns (r: PlannedKj)
    requires forall x :: x >= 0.0 ==> IsRootOf(sqrt(x), x)
    ensures r == PlannedKjFor(e, steps, ftp, durationHr, sqrt)
  {
    var directCandidates := [e.plannedWorkKj, e.plannedWork, e.plannedWorkCamel];
    var k := 0;
    while k < |directCandidates|
      invariant 0 <= k <= |directCandidates|
      invariant FirstPositive(directCandidates) == FirstPositive(directCandidates[k..])
    {
      var parsed := directCandidates[k];
      if parsed.Some? && parsed.value > 0.0 {
        return PlannedKj(parsed, IcuStructured);
      }
      assert directCandidates[k..][1..] == directCandidates[k + 1..];
      k := k + 1;
    }
    if e.joules.Some? && e.joules.value > 0.0 {
      return PlannedKj(Some(e.joules.value / 1000.0), IcuStructured);
    }
    if e.descriptionKj.Some? {
      return PlannedKj(e.descriptionKj, Description);
    }
    r := EstimatePlannedKj(e, steps, ftp, durationHr, sqrt);
  }

  /** The step figure is positive whenever there is one. */
  lemma StepsKjPositive(steps: seq<Step>, ftp: Option<real>)
    ensures StepsKj(steps, ftp).Some? ==> StepsKj(steps, ftp).value > 0.0
  {
    var wh := StepsWattHours(steps, OrElse(ftp, 0.0));
    if StepsKj(steps, ftp).Some? {
      assert wh > 0.0;
      assert StepsKj(steps, ftp).value == wh * 3600.0 / 1000.0;
    }
  }

  /** An IF estimate for a positive FTP is positive. */
  lemma IfEstimatePositive(ftp: Option<real>, i: Option<real>, durationHr: real)
    requires ftp.Some? && ftp.value > 0.0
    ensures EstimateFromIf(ftp, i, durationHr).Some? ==> EstimateFromIf(ftp, i, durationHr).value > 0.0
  {
    if EstimateFromIf(ftp, i, durationHr).Some? {
      assert ftp.value * i.value > 0.0;
      assert ftp.value * i.value * durationHr > 0.0;
    }
  }

  /** A TSS estimate for a positive FTP is positive. */
  lemma {:induction false} TssEstimatePositive(candidates: seq<Option<real>>, ftp: Option<real>, durationHr: real,
                                               sqrt: real -> real)
    requires forall x :: x >= 0.0 ==> IsRootOf(sqrt(x), x)
    requires ftp.Some? && ftp.value > 0.0
    ensures var t := FirstTssEstimate(candidates, ftp, durationHr, sqrt); t.Some? ==> t.value > 0.0
  {
    if candidates != [] {
      var c := candidates[0];
      if c.Some? && c.value > 0.0 && EstimateFromTss(ftp, c, durationHr, sqrt).Some? {
        var f :| f > 0.0 && EstimateFromTss(ftp, c, durationHr, sqrt) == EstimateFromIf(ftp, Some(f), durationHr);
        IfEstimatePositive(ftp, Some(f), durationHr);
      } else {
        TssEstimatePositive(candidates[1..], ftp, durationHr, sqrt);
      }
    }
  }

  /** The source tag tells how to read the figure: only the fallback has
      none; the structured figures and the step estimate are positive, as
      is an IF or TSS estimate for a positive FTP. */
  lemma PlannedKjSources(e: EventEnergy, steps: Option<seq<Step>>, ftp: Option<real>, durationHr: real,
                         sqrt: real -> real)
    requires forall x :: x >= 0.0 ==> IsRootOf(sqrt(x), x)
    ensures var r := PlannedKjFor(e, steps, ftp, durationHr, sqrt);
      && (r.plannedKj.None? <==> r.source == EstimatedFallback)
      && (r.source in {IcuStructured, EstimatedSteps} ==> r.plannedKj.value > 0.0)
      && (r.source == EstimatedIfTss && ftp.Some? && ftp.value > 0.0 ==> r.plannedKj.value > 0.0)
  {
    if steps.Some? {
      StepsKjPositive(steps.value, ftp);
    }
    if ftp.Some? && ftp.value > 0.0 {
      IfEstimatePositive(ftp, IntensityOf(e), durationHr);
      TssEstimatePositive(TssCandidates(e), ftp, durationHr, sqrt);
    }
  }

  /** A positive direct figure wins over everything else the event,
      the steps or the FTP could offer. */
  lemma DirectFigureWins(e: EventEnergy, steps: Option<seq<Step>>, ftp: Option<real>, durationHr: real,
                         sqrt: real -> real)
    requires forall x :: x >= 0.0 ==> IsRootOf(sqrt(x), x)
    requires e.plannedWorkKj.Some? && e.plannedWorkKj.value > 0.0
    ensures PlannedKjFor(e, steps, ftp, durationHr, sqrt) == PlannedKj(e.plannedWorkKj, IcuStructured)
  {
  }
}
