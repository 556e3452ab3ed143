/** Athlete figures read from the calendar platform's records: weight and
    height from the profile records, and the daily weight series from the
    wellness export. A record is its fields as `toFiniteNumber` makes of
    them: a key is present when the field holds a value other than `null`
    or `undefined`, and maps to `None` when that value is not a finite
    number. */
module IntervalsProfile {
  import opened Base
  import opened Text
  import opened Sorting

  type NumRecord = map<string, Option<real>>

  const KG_PER_LB: real := 0.45359237

  /** `toFiniteNumber(record[key])`. */
  function Num(r: NumRecord, key: string): Option<real>
  {
    if key in r then r[key] else None
  }

  /** A positive reading under `key`. */
  predicate PositiveAt(r: NumRecord, key: string)
  {
    Num(r, key).Some? && Num(r, key).value > 0.0
  }

  datatype Unit = Kg | Lb

  const WEIGHT_KEYS: seq<(string, Unit)> :=
    [("weight_kg", Kg), ("weightKg", Kg), ("weight", Kg), ("weight_lb", Lb), ("weightLb", Lb)]

  /** The first weight key of one record with a positive reading, in
      kilograms. */
  function RecordWeight(r: NumRecord, keys: seq<(string, Unit)>): (w: Option<real>)
    ensures w.Some? <==> exists k :: 0 <= k < |keys| && PositiveAt(r, keys[k].0)
    ensures w.Some? ==> w.value > 0.0
  {
    if keys == [] then None
    else if PositiveAt(r, keys[0].0) then
      var v := Num(r, keys[0].0).value;
      Some(if keys[0].1 == Lb then v * KG_PER_LB else v)
    else
      var w := RecordWeight(r, keys[1..]);
      assert forall k :: 1 <= k < |keys| ==> keys[k] == keys[1..][k - 1];
      w
  }

  /** `extractWeightKg`: the records in order, each tried key by key. */
  function ExtractWeightKg(records: seq<NumRecord>): (w: Option<real>)
    ensures w.Some? <==> exists i :: 0 <= i < |records| && RecordWeight(records[i], WEIGHT_KEYS).Some?
    ensures w.Some? ==> w.value > 0.0
  {
    if records == [] then None
    else if RecordWeight(records[0], WEIGHT_KEYS).Some? then RecordWeight(records[0], WEIGHT_KEYS)
    else
      var w := ExtractWeightKg(records[1..]);
      assert forall i :: 1 <= i < |records| ==> records[i] == records[1..][i - 1];
      w
  }

  /** The weight comes from the first record that has one, and a pound
      reading counts only after every kilogram key of that record. */
  lemma {:induction false} ExtractWeightFirst(records: seq<NumRecord>, i: nat)
    requires i < |records| && RecordWeight(records[i], WEIGHT_KEYS).Some?
    requires forall j :: 0 <= j < i ==> RecordWeight(records[j], WEIGHT_KEYS).None?
    ensures ExtractWeightKg(records) == RecordWeight(records[i], WEIGHT_KEYS)
  {
    if i > 0 {
      ExtractWeightFirst(records[1..], i - 1);
    }
  }

  /** Within a record: a kilogram reading is taken as is; only a record
      with no kilogram reading is read in pounds, converted. */
  lemma WeightUnits(r: NumRecord)
    ensures PositiveAt(r, "weight_kg") ==> RecordWeight(r, WEIGHT_KEYS) == Num(r, "weight_kg")
    ensures !PositiveAt(r, "weight_kg") && !PositiveAt(r, "weightKg") && !PositiveAt(r, "weight")
            && PositiveAt(r, "weight_lb") ==>
            RecordWeight(r, WEIGHT_KEYS) == Some(Num(r, "weight_lb").value * KG_PER_LB)
  {
    var ks := WEIGHT_KEYS;
    assert ks[0].0 == "weight_kg";
    if !PositiveAt(r, "weight_kg") && !PositiveAt(r, "weightKg") && !PositiveAt(r, "weight") && PositiveAt(r, "weight_lb") {
      assert RecordWeight(r, ks) == RecordWeight(r, ks[1..]);
      assert ks[1..][0].0 == "weightKg";
      assert RecordWeight(r, ks[1..]) == RecordWeight(r, ks[1..][1..]);
      assert ks[1..][1..][0].0 == "weight";
      assert RecordWeight(r, ks[1..][1..]) == RecordWeight(r, ks[1..][1..][1..]);
      assert ks[1..][1..][1..][0] == ("weight_lb", Lb);
    }
  }

  /** `height_ft ?? heightFt` (and likewise for inches): the first key
      present decides. */
  function Either(r: NumRecord, a: string, b: string): Option<real>
  {
    if a in r then r[a] else Num(r, b)
  }

  /** One record's height in centimetres: a centimetre field, else
      `height` (metres when at most 3, centimetres otherwise), else feet
      and inches. */
  function RecordHeight(r: NumRecord): (h: Option<real>)
    ensures h.Some? ==> h.value > 0.0
  {
    if PositiveAt(r, "height_cm") then Num(r, "height_cm")
    else if PositiveAt(r, "heightCm") then Num(r, "heightCm")
    else if PositiveAt(r, "height") then
      var raw := Num(r, "height").value;
      Some(if raw > 3.0 then raw else raw * 100.0)
    else
      var feet := Either(r, "height_ft", "heightFt");
      var inches := Either(r, "height_in", "heightIn");
      if feet.None? then None
      else
        var totalInches := feet.value * 12.0 + (if inches.Some? then inches.value else 0.0);
        if totalInches > 0.0 then Some(totalInches * 2.54) else None
  }

  /** `extractHeightCm`: the first record with a height. */
  function ExtractHeightCm(records: seq<NumRecord>): (h: Option<real>)
    ensures h.Some? <==> exists i :: 0 <= i < |records| && RecordHeight(records[i]).Some?
    ensures h.Some? ==> h.value > 0.0
  {
    if records == [] then None
    else if RecordHeight(records[0]).Some? then RecordHeight(records[0])
    else
      var h := ExtractHeightCm(records[1..]);
      assert forall i :: 1 <= i < |records| ==> records[i] == records[1..][i - 1];
      h
  }

  /** A bare `height` is read as metres up to 3 and as centimetres above,
      so 1.8 and 180 give the same height. */
  lemma HeightScale(r: NumRecord, raw: real)
    requires !PositiveAt(r, "height_cm") && !PositiveAt(r, "heightCm") && Num(r, "height") == Some(raw) && raw > 0.0
    ensures raw <= 3.0 ==> RecordHeight(r) == Some(raw * 100.0)
    ensures raw > 3.0 ==> RecordHeight(r) == Some(raw)
  {
  }

  /** Feet and inches are used only when no other height is there, and a
      missing inch figure counts as zero. */
  lemma HeightFromFeet(r: NumRecord, feet: real)
    requires !PositiveAt(r, "height_cm") && !PositiveAt(r, "heightCm") && !PositiveAt(r, "height")
    requires Either(r, "height_ft", "heightFt") == Some(feet) && feet > 0.0
    requires Either(r, "height_in", "heightIn").None?
    ensures RecordHeight(r) == Some(feet * 12.0 * 2.54)
  {
  }

  // Weight series

  /** One `addEntry` call: the date key `extractDateParam` made of the date
      (if any) and the weight as `toFiniteNumber` left it. */
  datatype Reading = Reading(dateKey: Option<string>, weight: Option<real>)

  /** `WeightEntry` with its `source` fixed to `'intervals'`. */
  datatype WeightEntry = WeightEntry(dateIso: string, weightKg: real, source: string)

  predicate Kept(x: Reading)
  {
    x.dateKey.Some? && x.dateKey.value != "" && x.weight.Some? && x.weight.value > 0.0
  }

  /** The map the readings leave, a later reading of a date replacing an
      earlier one. */
  function WeightMap(readings: seq<Reading>): (m: map<string, real>)
    ensures forall d :: d in m ==> m[d] > 0.0
  {
    if readings == [] then map[]
    else
      var m := WeightMap(readings[..|readings| - 1]);
      var x := readings[|readings| - 1];
      if Kept(x) then m[x.dateKey.value := x.weight.value] else m
  }

  /** A date is in the map exactly when some kept reading names it, and
      its weight is that of the last such reading. */
  lemma {:induction false} WeightMapLastWins(readings: seq<Reading>, d: string)
    ensures d in WeightMap(readings) <==> exists i :: 0 <= i < |readings| && Kept(readings[i]) && readings[i].dateKey == Some(d)
    ensures d in WeightMap(readings) ==>
      exists i :: 0 <= i < |readings| && Kept(readings[i]) && readings[i].dateKey == Some(d)
                  && WeightMap(readings)[d] == readings[i].weight.value
                  && forall j :: i < j < |readings| ==> !(Kept(readings[j]) && readings[j].dateKey == Some(d))
  {
    if readings != [] {
      var n := |readings| - 1;
      WeightMapLastWins(readings[..n], d);
      assert forall i :: 0 <= i < n ==> readings[..n][i] == readings[i];
    }
  }

  /** `addEntry` applied to each reading. */
  method CollectWeights(readings: seq<Reading>) returns (entries: map<string, real>)
    ensures entries == WeightMap(readings)
  {
    entries := map[];
    var i := 0;
    while i < |readings|
      invariant 0 <= i <= |readings|
      invariant entries == WeightMap(readings[..i])
    {
      assert readings[..i + 1][..i] == readings[..i];
      var x := readings[i];
      if x.dateKey.Some? && x.dateKey.value != "" && x.weight.Some? && x.weight.value > 0.0 {
        entries := entries[x.dateKey.value := x.weight.value];
      }
      i := i + 1;
    }
    assert readings[..|readings|] == readings;
  }

  /** `parseWeightSeries` once the response has been read into readings:
      one entry per date, the last weight given for it, in ascending date
      order. */
  method ParseWeightSeries(readings: seq<Reading>) returns (r: seq<WeightEntry>)
    ensures var m := WeightMap(readings);
      && |r| == |m|
      && (forall k :: 0 <= k < |r| ==> r[k].dateIso in m && r[k].weightKg == m[r[k].dateIso] && r[k].source == "intervals")
      && (forall d :: d in m ==> exists k :: 0 <= k < |r| && r[k].dateIso == d)
      && (forall p, q :: 0 <= p < q < |r| ==> Less(r[p].dateIso, r[q].dateIso))
  {
    var entries := CollectWeights(readings);
    var keys := SetToSeq(entries.Keys);
    var dates := SortStrings(keys);
    r := [];
    var k := 0;
    while k < |dates|
      invariant 0 <= k <= |dates| && |r| == k
      invariant forall j :: 0 <= j < k ==> r[j] == WeightEntry(dates[j], entries[dates[j]], "intervals")
    {
      r := r + [WeightEntry(dates[k], entries[dates[k]], "intervals")];
      k := k + 1;
    }
    AscendingDistinct(dates);
    DistinctCardinality(dates, entries.Keys);
  }

  /** `Array.from(entries.keys())`: each key once (in an order the sort
      makes irrelevant). */
  method SetToSeq(s: set<string>) returns (r: seq<string>)
    ensures Distinct(r) && (forall x :: x in r <==> x in s)
  {
    r := [];
    var rest := s;
    while rest != {}
      invariant rest <= s
      invariant Distinct(r) && (forall x :: x in r <==> x in s && x !in rest)
      decreases |rest|
    {
      var x :| x in rest;
      r := r + [x];
      rest := rest - {x};
    }
  }

  /** A sequence of distinct strings covering a set has its size. */
  lemma {:induction false} DistinctCardinality(r: seq<string>, s: set<string>)
    requires Distinct(r) && (forall x :: x in r <==> x in s)
    ensures |r| == |s|
  {
    if r != [] {
      var n := |r| - 1;
      assert forall x :: x in r[..n] <==> x in s - {r[n]} by {
        forall x
          ensures x in r[..n] <==> x in s - {r[n]}
        {
          if x in r[..n] {
            var p :| 0 <= p < n && r[..n][p] == x;
            assert r[p] == x;
          }
          if x in r && x != r[n] {
            var p :| 0 <= p < |r| && r[p] == x;
            assert r[..n][p] == x;
          }
        }
      }
      DistinctCardinality(r[..n], s - {r[n]});
    } else {
      assert forall x :: x !in s;
      assert s == {};
    }
  }
}
