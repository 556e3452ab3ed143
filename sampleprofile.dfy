/** The sample athlete: the raw record read from the sample data, checked
    field by field into a `Profile`. Each check returns the value it was
    given when it is one of the allowed names and fails otherwise; the
    carbohydrate bands are folded, entry by entry, into a map. */
module SampleProfile {
  import opened Base
  import opened Types

  /** Why the sample profile is rejected; each carries the offending input. */
  datatype SampleError =
    | InvalidSex(value: string)
    | InvalidEfficiencyPreset(value: string)
    | InvalidSessionType(value: string)
    | InvalidBand(values: seq<real>)

  /** The text the source throws for a rejected name (the band's message
      prints the numbers, which is not modelled). */
  function Message(e: SampleError): string
  {
    match e
    case InvalidSex(v) => "Invalid sex value in sample profile: " + v
    case InvalidEfficiencyPreset(v) => "Invalid efficiency preset in sample profile: " + v
    case InvalidSessionType(v) => "Invalid session type in carb band: " + v
    case InvalidBand(_) => "Carb band must contain exactly two entries. Received: "
  }

  function SexName(s: Sex): string
  {
    match s
    case M => "M"
    case F => "F"
  }

  function PresetName(p: EfficiencyPreset): string
  {
    match p
    case WorldClass => "WorldClass"
    case Elite => "Elite"
    case Competitive => "Competitive"
    case Enthusiast => "Enthusiast"
  }

  function SessionName(t: SessionType): string
  {
    match t
    case Endurance => "Endurance"
    case Tempo => "Tempo"
    case Threshold => "Threshold"
    case VO2 => "VO2"
    case Race => "Race"
    case Rest => "Rest"
  }

  const SEX_VALUES: seq<Sex> := [M, F]
  const EFFICIENCY_VALUES: seq<EfficiencyPreset> := [WorldClass, Elite, Competitive, Enthusiast]
  const SESSION_TYPES: seq<SessionType> := [Endurance, Tempo, Threshold, VO2, Race, Rest]

  /** `values.includes(value)` on the names: the first listed value whose
      name is `value`, if any. */
  function FindByName<T>(values: seq<T>, name: T -> string, value: string): (r: Option<T>)
    ensures r.Some? <==> exists k :: 0 <= k < |values| && name(values[k]) == value
    ensures r.Some? ==> r.value in values && name(r.value) == value
    ensures r.None? ==> forall v :: v in values ==> name(v) != value
  {
    if values == [] then None
    else if name(values[0]) == value then Some(values[0])
    else FindByName(values[1..], name, value)
  }

  /** `ensureSex`: the value when it is a listed sex, else the error naming
      it. */
  function EnsureSex(value: string): (r: Result<Sex, SampleError>)
    ensures r.Ok? <==> exists s :: SexName(s) == value
    ensures r.Ok? ==> SexName(r.value) == value
    ensures r.Err? ==> r.error == InvalidSex(value)
  {
    var found := FindByName(SEX_VALUES, SexName, value);
    if found.None? then
      AllListed();
      Err(InvalidSex(value))
    else Ok(found.value)
  }

  /** `ensureEfficiencyPreset`: the value when it is a listed preset, else
      the error naming it. */
  function EnsureEfficiencyPreset(value: string): (r: Result<EfficiencyPreset, SampleError>)
    ensures r.Ok? <==> exists p :: PresetName(p) == value
    ensures r.Ok? ==> PresetName(r.value) == value
    ensures r.Err? ==> r.error == InvalidEfficiencyPreset(value)
  {
    var found := FindByName(EFFICIENCY_VALUES, PresetName, value);
    if found.None? then
      AllListed();
      Err(InvalidEfficiencyPreset(value))
    else Ok(found.value)
  }

  /** `ensureSessionType`: the value when it is a listed session type, else
      the error naming it. */
  function EnsureSessionType(value: string): (r: Result<SessionType, SampleError>)
    ensures r.Ok? <==> exists t :: SessionName(t) == value
    ensures r.Ok? ==> SessionName(r.value) == value
    ensures r.Err? ==> r.error == InvalidSessionType(value)
  {
    var found := FindByName(SESSION_TYPES, SessionName, value);
    if found.None? then
      AllListed();
      Err(InvalidSessionType(value))
    else Ok(found.value)
  }

  /** Every sex, preset and session type is listed. */
  lemma AllListed()
    ensures forall s: Sex :: s in SEX_VALUES
    ensures forall p: EfficiencyPreset :: p in EFFICIENCY_VALUES
    ensures forall t: SessionType :: t in SESSION_TYPES
  {
    forall s: Sex
      ensures s in SEX_VALUES
    {
      match s
      case M => assert SEX_VALUES[0] == s;
      case F => assert SEX_VALUES[1] == s;
    }
    forall p: EfficiencyPreset
      ensures p in EFFICIENCY_VALUES
    {
      match p
      case WorldClass => assert EFFICIENCY_VALUES[0] == p;
      case Elite => assert EFFICIENCY_VALUES[1] == p;
      case Competitive => assert EFFICIENCY_VALUES[2] == p;
      case Enthusiast => assert EFFICIENCY_VALUES[3] == p;
    }
    forall t: SessionType
      ensures t in SESSION_TYPES
    {
      match t
      case Endurance => assert SESSION_TYPES[0] == t;
      case Tempo => assert SESSION_TYPES[1] == t;
      case Threshold => assert SESSION_TYPES[2] == t;
      case VO2 => assert SESSION_TYPES[3] == t;
      case Race => assert SESSION_TYPES[4] == t;
      case Rest => assert SESSION_TYPES[5] == t;
    }
  }

  /** Distinct values have distinct names, so a name checks back to the
      value it names. */
  lemma NamesRoundTrip(s: Sex, p: EfficiencyPreset, t: SessionType)
    ensures EnsureSex(SexName(s)) == Ok(s)
    ensures EnsureEfficiencyPreset(PresetName(p)) == Ok(p)
    ensures EnsureSessionType(SessionName(t)) == Ok(t)
  {
    var s' := EnsureSex(SexName(s)).value;
    var p' := EnsureEfficiencyPreset(PresetName(p)).value;
    var t' := EnsureSessionType(SessionName(t)).value;
    assert SexName(s') == SexName(s);
    assert PresetName(p') == PresetName(p);
    assert SessionName(t') == SessionName(t);
    assert SexName(s)[0] != SexName(s')[0] ==> s != s';
  }

  /** `ensureBandTuple`: exactly two numbers make a band `[low, high]`. */
  function EnsureBandTuple(values: seq<real>): (r: Result<Band, SampleError>)
    ensures r.Ok? <==> |values| == 2
    ensures r.Ok? ==> r.value == Band(values[0], values[1])
    ensures r.Err? ==> r.error == InvalidBand(values)
  {
    if |values| != 2 then Err(InvalidBand(values)) else Ok(Band(values[0], values[1]))
  }

  /** The `carbBands` fold over the raw entries, left to right: the first
      bad entry's error (its name checked before its numbers), or the map
      from each named session type to its band. */
  function CarbBandsFrom(entries: seq<(string, seq<real>)>): Result<map<SessionType, Band>, SampleError>
  {
    if entries == [] then Ok(map[])
    else
      var acc := CarbBandsFrom(entries[..|entries| - 1]);
      if acc.Err? then acc else AddEntry(acc.value, entries[|entries| - 1])
  }

  /** One step of the fold: check the entry's name, then its numbers, and
      record the band under the named type. */
  function AddEntry(acc: map<SessionType, Band>, e: (string, seq<real>)): (r: Result<map<SessionType, Band>, SampleError>)
    ensures r.Ok? <==> GoodEntry(e)
    ensures r.Err? ==> r.error == EntryError(e)
    ensures r.Ok? ==> r.value == acc[EnsureSessionType(e.0).value := Band(e.1[0], e.1[1])]
  {
    var t := EnsureSessionType(e.0);
    if t.Err? then Err(t.error)
    else
      var band := EnsureBandTuple(e.1);
      if band.Err? then Err(band.error) else Ok(acc[t.value := band.value])
  }

  /** An entry the fold accepts: a session type's name and two numbers. */
  predicate GoodEntry(e: (string, seq<real>))
  {
    EnsureSessionType(e.0).Ok? && |e.1| == 2
  }

  /** The fold succeeds exactly when every entry is good; when it fails,
      the error is that of the first bad entry, its name checked before its
      numbers. */
  lemma {:induction false} CarbBandsFromOk(entries: seq<(string, seq<real>)>)
    ensures CarbBandsFrom(entries).Ok? <==> forall i :: 0 <= i < |entries| ==> GoodEntry(entries[i])
    ensures CarbBandsFrom(entries).Err? ==>
      exists i :: FirstBad(entries, i) && CarbBandsFrom(entries).error == EntryError(entries[i])
  {
    if entries != [] {
      var n := |entries| - 1;
      var prefix := entries[..n];
      var acc := CarbBandsFrom(prefix);
      assert CarbBandsFrom(entries) == if acc.Err? then acc else AddEntry(acc.value, entries[n]);
      CarbBandsFromOk(prefix);
      AllGoodSnoc(entries, n);
      if acc.Err? {
        var i :| FirstBad(prefix, i) && acc.error == EntryError(prefix[i]);
        FirstBadSnoc(entries, n, i);
      } else if !GoodEntry(entries[n]) {
        FirstBadLast(entries, n);
      }
    }
  }

  /** Every entry is good exactly when all but the last are and the last
      is. */
  lemma AllGoodSnoc(entries: seq<(string, seq<real>)>, n: nat)
    requires n == |entries| - 1
    ensures (forall i :: 0 <= i < |entries| ==> GoodEntry(entries[i]))
        <==> (forall i :: 0 <= i < n ==> GoodEntry(entries[..n][i])) && GoodEntry(entries[n])
  {
    assert forall i :: 0 <= i < n ==> entries[..n][i] == entries[i];
  }

  /** The first bad entry of all but the last is the first bad entry. */
  lemma FirstBadSnoc(entries: seq<(string, seq<real>)>, n: nat, i: int)
    requires n == |entries| - 1 && FirstBad(entries[..n], i)
    ensures FirstBad(entries, i) && entries[..n][i] == entries[i]
  {
    assert forall j :: 0 <= j < i ==> entries[..n][j] == entries[j];
  }

  /** A bad last entry after good ones is the first bad entry. */
  lemma FirstBadLast(entries: seq<(string, seq<real>)>, n: nat)
    requires n == |entries| - 1 && !GoodEntry(entries[n])
    requires forall i :: 0 <= i < n ==> GoodEntry(entries[..n][i])
    ensures FirstBad(entries, n)
  {
    assert forall j :: 0 <= j < n ==> entries[..n][j] == entries[j];
  }

  /** Entry `i` is bad and every entry before it is good. */
  predicate FirstBad(entries: seq<(string, seq<real>)>, i: int)
  {
    0 <= i < |entries| && !GoodEntry(entries[i]) && forall j :: 0 <= j < i ==> GoodEntry(entries[j])
  }

  /** The error a bad entry raises: a bad name first, else the band. */
  function EntryError(e: (string, seq<real>)): SampleError
  {
    if EnsureSessionType(e.0).Err? then InvalidSessionType(e.0) else InvalidBand(e.1)
  }

  /** When the fold succeeds, its keys are exactly the session types some
      entry names. */
  lemma {:induction false} CarbBandsFromKeys(entries: seq<(string, seq<real>)>, t: SessionType)
    requires CarbBandsFrom(entries).Ok?
    ensures t in CarbBandsFrom(entries).value <==> exists i :: 0 <= i < |entries| && entries[i].0 == SessionName(t)
  {
    if entries != [] {
      var n := |entries| - 1;
      var prefix, e := entries[..n], entries[n];
      var acc := CarbBandsFrom(prefix);
      assert acc.Ok? && CarbBandsFrom(entries) == AddEntry(acc.value, e);
      var u := EnsureSessionType(e.0).value;
      assert CarbBandsFrom(entries).value.Keys == acc.value.Keys + {u};
      assert u == t <==> e.0 == SessionName(t) by {
        NamesRoundTrip(M, WorldClass, t);
      }
      CarbBandsFromKeys(prefix, t);
      NamedSnoc(entries, n, SessionName(t));
    }
  }

  /** A name is among the entries exactly when it is among all but the
      last or is the last one's. */
  lemma NamedSnoc(entries: seq<(string, seq<real>)>, n: nat, name: string)
    requires n == |entries| - 1
    ensures (exists i :: 0 <= i < |entries| && entries[i].0 == name)
        <==> (exists i :: 0 <= i < n && entries[..n][i].0 == name) || entries[n].0 == name
  {
    if exists i :: 0 <= i < |entries| && entries[i].0 == name {
      var i :| 0 <= i < |entries| && entries[i].0 == name;
      if i < n {
        assert entries[..n][i].0 == name;
      }
    }
    if exists i :: 0 <= i < n && entries[..n][i].0 == name {
      var i :| 0 <= i < n && entries[..n][i].0 == name;
      assert entries[i].0 == name;
    }
  }

  /** When the fold succeeds, an entry that no later entry renames gives
      its type's band: later entries for the same type overwrite earlier
      ones. */
  lemma {:induction false} CarbBandsFromValues(entries: seq<(string, seq<real>)>, i: int)
    requires CarbBandsFrom(entries).Ok?
    requires 0 <= i < |entries| && forall j :: i < j < |entries| ==> entries[j].0 != entries[i].0
    ensures GoodEntry(entries[i]) && EnsureSessionType(entries[i].0).value in CarbBandsFrom(entries).value
      && CarbBandsFrom(entries).value[EnsureSessionType(entries[i].0).value] == Band(entries[i].1[0], entries[i].1[1])
  {
    var n := |entries| - 1;
    var prefix := entries[..n];
    CarbBandsFromOk(entries);
    if i < n {
      assert prefix[i] == entries[i];
      assert forall j :: i < j < n ==> prefix[j] == entries[j];
      CarbBandsFromValues(prefix, i);
    }
  }

  /** The raw sample record: names as strings, bands as raw entries, every
      other field as the profile holds it. */
  datatype RawProfile = RawProfile(
    sex: string,
    ageYears: real,
    heightCm: real,
    weightKg: real,
    ftpWatts: Option<real>,
    efficiencyPreset: string,
    efficiency: real,
    activityFactorDefault: real,
    activityFactorOverrides: Option<map<int, real>>,
    targetKgPerWeek: real,
    kcalPerKg: real,
    deficitCapPerWindow: real,
    windowPctCap: Option<real>,
    proteinGPerKg: real,
    fatGPerKgMin: real,
    carbBands: seq<(string, seq<real>)>,
    carbSplit: CarbSplit,
    gluFruRatio: real,
    useImperial: bool)

  /** `sampleProfile`: the bands are folded first (they are a module-level
      constant computed before the profile), then the sex and the preset are
      checked, in that order; the first failure is the error. */
  function SampleProfileFrom(raw: RawProfile): Result<Profile, SampleError>
  {
    var bands := CarbBandsFrom(raw.carbBands);
    if bands.Err? then Err(bands.error)
    else
      var sex := EnsureSex(raw.sex);
      if sex.Err? then Err(sex.error)
      else
        var preset := EnsureEfficiencyPreset(raw.efficiencyPreset);
        if preset.Err? then Err(preset.error)
        else
          Ok(Profile(sex.value, raw.ageYears, raw.heightCm, raw.weightKg, raw.ftpWatts, preset.value,
                     raw.efficiency, raw.activityFactorDefault, raw.activityFactorOverrides, raw.targetKgPerWeek,
                     raw.kcalPerKg, raw.deficitCapPerWindow, raw.windowPctCap, raw.proteinGPerKg,
                     raw.fatGPerKgMin, bands.value, raw.carbSplit, raw.gluFruRatio, raw.useImperial))
  }

  /** The sample profile is built exactly when the bands, the sex and the
      preset all check out; it then names the same sex and preset and copies
      every other field unchanged; a bad band entry is reported before a
      bad sex, and a bad sex before a bad preset. */
  lemma SampleProfileSpec(raw: RawProfile)
    ensures var r := SampleProfileFrom(raw);
      && (r.Ok? <==> CarbBandsFrom(raw.carbBands).Ok? && EnsureSex(raw.sex).Ok?
                     && EnsureEfficiencyPreset(raw.efficiencyPreset).Ok?)
      && (r.Ok? ==> SexName(r.value.sex) == raw.sex && PresetName(r.value.efficiencyPreset) == raw.efficiencyPreset
                    && r.value == Profile(r.value.sex, raw.ageYears, raw.heightCm, raw.weightKg, raw.ftpWatts,
                                          r.value.efficiencyPreset, raw.efficiency, raw.activityFactorDefault,
                                          raw.activityFactorOverrides, raw.targetKgPerWeek, raw.kcalPerKg,
                                          raw.deficitCapPerWindow, raw.windowPctCap, raw.proteinGPerKg,
                                          raw.fatGPerKgMin, CarbBandsFrom(raw.carbBands).value, raw.carbSplit,
                                          raw.gluFruRatio, raw.useImperial))
      && (CarbBandsFrom(raw.carbBands).Err? ==> r == Err(CarbBandsFrom(raw.carbBands).error))
      && (CarbBandsFrom(raw.carbBands).Ok? && EnsureSex(raw.sex).Err? ==> r == Err(InvalidSex(raw.sex)))
      && (CarbBandsFrom(raw.carbBands).Ok? && EnsureSex(raw.sex).Ok? && EnsureEfficiencyPreset(raw.efficiencyPreset).Err?
          ==> r == Err(InvalidEfficiencyPreset(raw.efficiencyPreset)))
  {
  }
}
