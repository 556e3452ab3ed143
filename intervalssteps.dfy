/** Workout steps read from the calendar platform: the `<workout>` children
    of a ZWO file, and the array form of a structured workout. Both lay
    their steps end to end from second zero. A ZWO node is its tag and the
    attributes whose text `Number` turns into a finite number; an attribute
    that is missing, empty-for-a-duration or not numeric is absent from the
    map, which every branch below treats alike. */
module IntervalsSteps {
  import opened Base
  import opened Types
  import opened Text
  import Intervals

  /** A step before it is placed: its whole-second duration and target. */
  datatype Piece = Piece(durationS: real, lo: Option<real>, hi: Option<real>, targetType: TargetType)

  /** The seconds the pieces take, end to end. */
  function Total(ps: seq<Piece>): real
  {
    if ps == [] then 0.0 else Total(ps[..|ps| - 1]) + ps[|ps| - 1].durationS
  }

  /** The pieces laid out from second zero, each starting where the
      previous one ends (the builders' `cursor`). */
  function Place(ps: seq<Piece>): (r: seq<Step>)
    ensures |r| == |ps|
  {
    if ps == [] then []
    else
      var n := |ps| - 1;
      Place(ps[..n]) + [Step(Total(ps[..n]), ps[n].durationS, ps[n].targetType, ps[n].lo, ps[n].hi)]
  }

  /** Each placed step carries its piece and starts after all earlier ones. */
  lemma {:induction false} PlaceSpec(ps: seq<Piece>)
    ensures forall k :: 0 <= k < |ps| ==>
      Place(ps)[k] == Step(Total(ps[..k]), ps[k].durationS, ps[k].targetType, ps[k].lo, ps[k].hi)
  {
    if ps != [] {
      var n := |ps| - 1;
      PlaceSpec(ps[..n]);
      assert forall k :: 0 <= k < n ==> ps[..n][..k] == ps[..k];
    }
  }

  /** The layout is contiguous: the first step starts at zero and every
      later step starts where its predecessor ends. */
  lemma Contiguous(ps: seq<Piece>)
    ensures |ps| > 0 ==> Place(ps)[0].startS == 0.0
    ensures forall k :: 0 <= k < |ps| - 1 ==> Place(ps)[k + 1].startS == Place(ps)[k].startS + Place(ps)[k].durationS
  {
    PlaceSpec(ps);
    forall k | 0 <= k < |ps| - 1
      ensures Total(ps[..k + 1]) == Total(ps[..k]) + ps[k].durationS
    {
      assert ps[..k + 1][..k] == ps[..k];
    }
  }

  /** With no negative durations, the positive durations of the laid-out
      steps add up to the pieces' total. */
  lemma {:induction false} PlacedDurations(ps: seq<Piece>)
    requires forall k :: 0 <= k < |ps| ==> ps[k].durationS >= 0.0
    ensures Intervals.PositiveDurations(Place(ps)) == Total(ps)
  {
    if ps != [] {
      var n := |ps| - 1;
      PlacedDurations(ps[..n]);
      assert Place(ps)[..n] == Place(ps[..n]);
    }
  }

  /** The builders' end-to-end append: one more piece adds one step at the
      old total. */
  lemma PlaceAppend(ps: seq<Piece>, p: Piece)
    ensures Place(ps + [p]) == Place(ps) + [Step(Total(ps), p.durationS, p.targetType, p.lo, p.hi)]
    ensures Total(ps + [p]) == Total(ps) + p.durationS
  {
    assert (ps + [p])[..|ps|] == ps;
  }

  // ZWO nodes

  datatype ZwoNode = ZwoNode(tag: string, attrs: map<string, real>)

  function Attr(n: ZwoNode, name: string): Option<real>
  {
    if name in n.attrs then Some(n.attrs[name]) else None
  }

  /** `parsePower`: a missing power is zero; a fraction of FTP up to one is
      turned into a percentage; a larger figure is already one. */
  function ParsePower(v: Option<real>): (r: real)
    ensures v.None? ==> r == 0.0
    ensures v.Some? && v.value <= 1.0 ==> r == v.value * 100.0
    ensures v.Some? && v.value > 1.0 ==> r == v.value
  {
    if v.None? then 0.0 else if v.value <= 1.0 then v.value * 100.0 else v.value
  }

  /** What `appendStep` keeps: a finite positive duration, rounded to whole
      seconds and at least one second. */
  function Accept(duration: Option<real>, lo: real, hi: real, t: TargetType): (r: seq<Piece>)
  {
    if duration.None? || duration.value <= 0.0 then []
    else [Piece(Max(1.0, RoundInt(duration.value) as real), Some(lo), Some(hi), t)]
  }

  /** `Math.round(repeats)` for a positive count, one otherwise. */
  function RepeatCount(repeat: Option<real>): nat
  {
    if repeat.Some? && repeat.value > 0.0 then
      RoundIntBounds(repeat.value);
      RoundInt(repeat.value)
    else 1
  }

  function Repeat(ps: seq<Piece>, count: nat): (r: seq<Piece>)
    ensures |r| == count * |ps|
  {
    if count == 0 then [] else Repeat(ps, count - 1) + ps
  }

  /** The pieces one node contributes, by its lower-cased tag. */
  function NodePieces(n: ZwoNode): seq<Piece>
  {
    var tag := Lower(n.tag);
    if tag == "steadystate" then
      var power := ParsePower(Attr(n, "Power"));
      Accept(Attr(n, "Duration"), power, power, PercentFtp)
    else if tag == "warmup" || tag == "cooldown" then
      Accept(Attr(n, "Duration"), ParsePower(Attr(n, "PowerLow")), ParsePower(Attr(n, "PowerHigh")), PercentFtp)
    else if tag == "intervalst" then Repeat(IntervalsCycle(n), RepeatCount(Attr(n, "Repeat")))
    else if tag == "freeride" then
      var watts := Attr(n, "FlatRoadSpeed");
      if watts.Some? && watts.value > 0.0 then Accept(Attr(n, "Duration"), watts.value, watts.value, Watts)
      else Accept(Attr(n, "Duration"), 55.0, 65.0, PercentFtp)
    else []
  }

  function ZwoPieces(nodes: seq<ZwoNode>): seq<Piece>
  {
    if nodes == [] then [] else ZwoPieces(nodes[..|nodes| - 1]) + NodePieces(nodes[|nodes| - 1])
  }

  /** `appendStep`: one more step at the cursor, when the duration is kept. */
  method AppendStep(steps: seq<Step>, cursor: real, duration: Option<real>, lo: real, hi: real, t: TargetType,
                    ghost done: seq<Piece>)
    returns (steps': seq<Step>, cursor': real)
    requires steps == Place(done) && cursor == Total(done)
    ensures steps' == Place(done + Accept(duration, lo, hi, t)) && cursor' == Total(done + Accept(duration, lo, hi, t))
  {
    if duration.None? || duration.value <= 0.0 {
      assert done + [] == done;
      return steps, cursor;
    }
    var durationSeconds := Max(1.0, RoundInt(duration.value) as real);
    PlaceAppend(done, Piece(durationSeconds, Some(lo), Some(hi), t));
    steps' := steps + [Step(cursor, durationSeconds, t, Some(lo), Some(hi))];
    cursor' := cursor + durationSeconds;
  }

  /** One on/off pair of an interval set: each half present only when its
      duration is positive (the source tests the off half before appending
      it, which `appendStep` would test anyway). */
  function IntervalsCycle(n: ZwoNode): seq<Piece>
  {
    var on := ParsePower(Attr(n, "OnPower"));
    var off := ParsePower(Attr(n, "OffPower"));
    Accept(Attr(n, "OnDuration"), on, on, PercentFtp) + Accept(Attr(n, "OffDuration"), off, off, PercentFtp)
  }

  /** The `intervalst` branch: the on/off pair, `Repeat` times. */
  method AppendIntervals(steps: seq<Step>, cursor: real, node: ZwoNode, ghost done: seq<Piece>)
    returns (steps': seq<Step>, cursor': real)
    requires steps == Place(done) && cursor == Total(done)
    ensures var ps := Repeat(IntervalsCycle(node), RepeatCount(Attr(node, "Repeat")));
      steps' == Place(done + ps) && cursor' == Total(done + ps)
  {
    steps', cursor' := steps, cursor;
    var onDuration := Attr(node, "OnDuration");
    var offDuration := Attr(node, "OffDuration");
    var onPower := ParsePower(Attr(node, "OnPower"));
    var offPower := ParsePower(Attr(node, "OffPower"));
    var repeatCount := RepeatCount(Attr(node, "Repeat"));
    ghost var onPieces := Accept(onDuration, onPower, onPower, PercentFtp);
    ghost var offPieces := Accept(offDuration, offPower, offPower, PercentFtp);
    ghost var cycle := IntervalsCycle(node);
    assert cycle == onPieces + offPieces;
    assert done + Repeat(cycle, 0) == done;
    for r := 0 to repeatCount
      invariant steps' == Place(done + Repeat(cycle, r)) && cursor' == Total(done + Repeat(cycle, r))
    {
      ghost var before := done + Repeat(cycle, r);
      steps', cursor' := AppendStep(steps', cursor', onDuration, onPower, onPower, PercentFtp, before);
      if offDuration.Some? && offDuration.value > 0.0 {
        steps', cursor' := AppendStep(steps', cursor', offDuration, offPower, offPower, PercentFtp, before + onPieces);
      } else {
        assert offPieces == [];
        assert before + onPieces + offPieces == before + onPieces;
      }
      CycleStep(done, Repeat(cycle, r), onPieces, offPieces);
    }
  }

  lemma CycleStep(done: seq<Piece>, prior: seq<Piece>, on: seq<Piece>, off: seq<Piece>)
    ensures done + (prior + (on + off)) == done + prior + on + off
  {
  }

  /** The steps of one node appended at the cursor. */
  method AppendNode(steps: seq<Step>, cursor: real, node: ZwoNode, ghost done: seq<Piece>)
    returns (steps': seq<Step>, cursor': real)
    requires steps == Place(done) && cursor == Total(done)
    ensures steps' == Place(done + NodePieces(node)) && cursor' == Total(done + NodePieces(node))
  {
    steps', cursor' := steps, cursor;
    var tag := Lower(node.tag);
    if tag == "" {
      assert done + NodePieces(node) == done;
      return;
    }
    if tag == "steadystate" {
      var power := ParsePower(Attr(node, "Power"));
      steps', cursor' := AppendStep(steps, cursor, Attr(node, "Duration"), power, power, PercentFtp, done);
    } else if tag == "warmup" || tag == "cooldown" {
      var low := ParsePower(Attr(node, "PowerLow"));
      var high := ParsePower(Attr(node, "PowerHigh"));
      steps', cursor' := AppendStep(steps, cursor, Attr(node, "Duration"), low, high, PercentFtp, done);
    } else if tag == "intervalst" {
      steps', cursor' := AppendIntervals(steps, cursor, node, done);
    } else if tag == "freeride" {
      var duration := Attr(node, "Duration");
      var watts := Attr(node, "FlatRoadSpeed");
      if watts.Some? && watts.value > 0.0 {
        steps', cursor' := AppendStep(steps, cursor, duration, watts.value, watts.value, Watts, done);
      } else {
        steps', cursor' := AppendStep(steps, cursor, duration, 55.0, 65.0, PercentFtp, done);
      }
    } else {
      assert done + NodePieces(node) == done;
    }
  }

  /** `buildStepsFromZwoNodes`: the steps of every node in order, laid end
      to end, or nothing when no node gave a step. */
  method BuildStepsFromZwoNodes(nodes: seq<ZwoNode>) returns (r: Option<seq<Step>>)
    ensures r.None? <==> ZwoPieces(nodes) == []
    ensures r.Some? ==> r.value == Place(ZwoPieces(nodes))
  {
    if |nodes| == 0 {
      return None;
    }
    var steps: seq<Step> := [];
    var cursor := 0.0;
    var i := 0;
    while i < |nodes|
      invariant 0 <= i <= |nodes|
      invariant steps == Place(ZwoPieces(nodes[..i])) && cursor == Total(ZwoPieces(nodes[..i]))
    {
      assert nodes[..i + 1][..i] == nodes[..i];
      steps, cursor := AppendNode(steps, cursor, nodes[i], ZwoPieces(nodes[..i]));
      i := i + 1;
    }
    assert nodes[..|nodes|] == nodes;
    return if |steps| > 0 then Some(steps) else None;
  }

  /** Every ZWO step lasts a whole number of seconds, at least one. */
  lemma {:induction false} ZwoDurationsWhole(nodes: seq<ZwoNode>)
    ensures forall p :: p in ZwoPieces(nodes) ==> p.durationS >= 1.0 && p.durationS == p.durationS.Floor as real
  {
    if nodes != [] {
      ZwoDurationsWhole(nodes[..|nodes| - 1]);
      var n := nodes[|nodes| - 1];
      forall p | p in NodePieces(n)
        ensures p.durationS >= 1.0 && p.durationS == p.durationS.Floor as real
      {
        NodePiecesWhole(n, p);
      }
    }
  }

  lemma NodePiecesWhole(n: ZwoNode, p: Piece)
    requires p in NodePieces(n)
    ensures p.durationS >= 1.0 && p.durationS == p.durationS.Floor as real
  {
    if Lower(n.tag) == "intervalst" {
      RepeatMembers(IntervalsCycle(n), RepeatCount(Attr(n, "Repeat")), p);
    }
  }

  lemma {:induction false} RepeatMembers(ps: seq<Piece>, count: nat, p: Piece)
    requires p in Repeat(ps, count)
    ensures p in ps
  {
    if count > 0 && p !in ps {
      RepeatMembers(ps, count - 1, p);
    }
  }

  /** The ZWO steps end where their durations add up to: the adapter's
      total duration of the steps is the end of the last one. */
  lemma ZwoTotalIsEnd(nodes: seq<ZwoNode>)
    requires ZwoPieces(nodes) != []
    ensures var ps := ZwoPieces(nodes); var s := Place(ps);
      Intervals.PositiveDurations(s) == s[|s| - 1].startS + s[|s| - 1].durationS
  {
    var ps := ZwoPieces(nodes);
    ZwoDurationsWhole(nodes);
    assert forall k :: 0 <= k < |ps| ==> ps[k] in ps;
    PlacedDurations(ps);
    PlaceSpec(ps);
    assert ps[..|ps| - 1] + [ps[|ps| - 1]] == ps;
  }

  /** An interval set repeats its on/off pair `Repeat` times (rounded; once
      when the count is missing or not positive), each half present only
      when its duration is positive. */
  lemma IntervalsRepeat(n: ZwoNode)
    requires Lower(n.tag) == "intervalst"
    ensures var on := Attr(n, "OnDuration"); var off := Attr(n, "OffDuration");
      |NodePieces(n)| == RepeatCount(Attr(n, "Repeat"))
        * ((if on.Some? && on.value > 0.0 then 1 else 0) + (if off.Some? && off.value > 0.0 then 1 else 0))
  {
  }

  /** A free ride is a watts step at the flat-road speed when that is
      positive, and 55-65 % FTP otherwise; its duration decides whether it
      is there at all. */
  lemma FreeRideTarget(n: ZwoNode)
    requires Lower(n.tag) == "freeride"
    ensures var d := Attr(n, "Duration"); var w := Attr(n, "FlatRoadSpeed");
      && (|NodePieces(n)| == 1 <==> d.Some? && d.value > 0.0)
      && (|NodePieces(n)| == 1 && w.Some? && w.value > 0.0 ==>
            NodePieces(n)[0].targetType == Watts && NodePieces(n)[0].lo == NodePieces(n)[0].hi == Some(w.value))
      && (|NodePieces(n)| == 1 && (w.None? || w.value <= 0.0) ==>
            NodePieces(n)[0] == Piece(Max(1.0, RoundInt(d.value) as real), Some(55.0), Some(65.0), PercentFtp))
  {
  }

  /** Tags other than the five step kinds give no steps. */
  lemma UnknownTagsIgnored(n: ZwoNode)
    requires Lower(n.tag) !in ["steadystate", "warmup", "cooldown", "intervalst", "freeride"]
    ensures NodePieces(n) == []
  {
  }

  // Structured workout arrays

  /** A field of an array item: missing or `undefined`, `null`, or another
      value, given by what `Number` makes of it (`None` when that is not
      finite). */
  datatype Field = Undefined | Null | Value(number: Option<real>)

  /** `Number(v)`: `undefined` is not a number, `null` is 0. */
  function NumberOf(v: Field): Option<real>
  {
    match v
    case Undefined => None
    case Null => Some(0.0)
    case Value(n) => n
  }

  /** The values `??` passes over. */
  predicate Nullish(v: Field)
  {
    v.Undefined? || v.Null?
  }

  /** One array item, if it is an object: its fields, and its
      `target_type ?? TargetType` when that is a string. */
  datatype Item = Item(fields: map<string, Field>, targetType: Option<string>)

  /** `item.key`: a missing key reads as `undefined`. */
  function Get(fields: map<string, Field>, key: string): Field
  {
    if key in fields then fields[key] else Undefined
  }

  /** `a ?? b ?? ... ?? fallback`: the first field that is neither `null`
      nor `undefined` decides; with none, the last operand does. */
  function Coalesce(fields: map<string, Field>, keys: seq<string>, fallback: Field): (r: Field)
    ensures (forall k :: 0 <= k < |keys| ==> Nullish(Get(fields, keys[k]))) ==> r == fallback
    ensures (exists k :: 0 <= k < |keys| && !Nullish(Get(fields, keys[k]))) ==>
      exists k :: 0 <= k < |keys| && !Nullish(Get(fields, keys[k])) && Get(fields, keys[k]) == r
                  && forall j :: 0 <= j < k ==> Nullish(Get(fields, keys[j]))
  {
    if keys == [] then fallback
    else if !Nullish(Get(fields, keys[0])) then Get(fields, keys[0])
    else
      var r := Coalesce(fields, keys[1..], fallback);
      if exists k :: 0 <= k < |keys| && !Nullish(Get(fields, keys[k])) then
        var k :| 1 <= k < |keys| && !Nullish(Get(fields, keys[k]));
        assert !Nullish(Get(fields, keys[1..][k - 1]));
        r
      else r
  }

  /** A percentage from a fraction of FTP up to one, as is otherwise. */
  function Pct(v: real): real
  {
    v * (if v <= 1.0 then 100.0 else 1.0)
  }

  /** `Number('duration' in item ? item.duration : item.Duration)`: a
      `duration` key decides even when it holds `null` or `undefined`. */
  function ItemDuration(f: map<string, Field>): Option<real>
  {
    NumberOf(if "duration" in f then f["duration"] else Get(f, "Duration"))
  }

  /** The low target of a `%FTP` item, before it is read as a percentage. */
  function PercentLo(f: map<string, Field>): Option<real>
  {
    NumberOf(Coalesce(f, ["target_lo", "TargetPower", "Power", "PowerLow"], Get(f, "power_low")))
  }

  /** The high target of a `%FTP` item, before it is read as a percentage. */
  function PercentHi(f: map<string, Field>): Option<real>
  {
    NumberOf(Coalesce(f, ["target_hi", "PowerHigh", "power_high", "Power"], Get(f, "power")))
  }

  /** The piece one item gives: none for a non-object or a duration that is
      not finite and positive; otherwise `Math.round(duration)` seconds,
      with no lower bound of one second, and the target read by type. */
  function ItemPiece(item: Option<Item>): Option<Piece>
  {
    if item.None? then None
    else
      var f := item.value.fields;
      var duration := ItemDuration(f);
      if duration.None? || duration.value <= 0.0 then None
      else
        var seconds := RoundInt(duration.value) as real;
        if item.value.targetType.Some? && Lower(item.value.targetType.value) == "watts" then
          var lo := NumberOf(Coalesce(f, ["target_lo", "TargetPower"], Get(f, "TargetLow")));
          var hi := NumberOf(Coalesce(f, ["target_hi", "TargetPower", "TargetHigh"], Value(lo)));
          Some(Piece(seconds, lo, hi, Watts))
        else
          var lo := PercentLo(f);
          var hi := PercentHi(f);
          var loPct := if lo.Some? then Some(Pct(lo.value)) else None;
          var hiPct := if hi.Some? then Some(Pct(hi.value)) else loPct;
          Some(Piece(seconds, loPct, hiPct, PercentFtp))
  }

  function ArrayPieces(items: seq<Option<Item>>): seq<Piece>
  {
    if items == [] then []
    else
      var rest := ArrayPieces(items[..|items| - 1]);
      var piece := ItemPiece(items[|items| - 1]);
      if piece.Some? then rest + [piece.value] else rest
  }

  /** The array branch of `parseStructuredSteps`: the items' steps laid end
      to end, or nothing when no item gave one. */
  method ParseStructuredArray(items: seq<Option<Item>>) returns (r: Option<seq<Step>>)
    ensures r.None? <==> ArrayPieces(items) == []
    ensures r.Some? ==> r.value == Place(ArrayPieces(items))
  {
    var steps: seq<Step> := [];
    var cursor := 0.0;
    var i := 0;
    while i < |items|
      invariant 0 <= i <= |items|
      invariant steps == Place(ArrayPieces(items[..i])) && cursor == Total(ArrayPieces(items[..i]))
    {
      assert items[..i + 1][..i] == items[..i];
      var piece := ItemPiece(items[i]);
      if piece.Some? {
        PlaceAppend(ArrayPieces(items[..i]), piece.value);
        steps := steps + [Step(cursor, piece.value.durationS, piece.value.targetType, piece.value.lo, piece.value.hi)];
        cursor := cursor + piece.value.durationS;
      }
      i := i + 1;
    }
    assert items[..|items|] == items;
    return if |steps| > 0 then Some(steps) else None;
  }

  /** An item shorter than half a second keeps a step of zero seconds: the
      array branch rounds without the one-second floor of the ZWO path. */
  lemma ShortItemKeepsZeroStep()
    ensures ItemPiece(Some(Item(map["duration" := Value(Some(0.25))], None))) == Some(Piece(0.0, None, None, PercentFtp))
  {
    var f: map<string, Field> := map["duration" := Value(Some(0.25))];
    NoPowerFields(f);
    assert ItemDuration(f) == Some(0.25);
    assert RoundInt(0.25) == 0;
  }

  /** A `duration` key holding `null` decides the duration, as 0, so the
      item is skipped even when `Duration` holds a usable figure. */
  lemma NullDurationSkipsItem()
    ensures ItemPiece(Some(Item(map["duration" := Null, "Duration" := Value(Some(60.0))], None))) == None
  {
    var f: map<string, Field> := map["duration" := Null, "Duration" := Value(Some(60.0))];
    assert ItemDuration(f) == Some(0.0);
  }

  /** A `null` at the end of a `%FTP` chain is read as 0 %, not as a missing
      target. */
  lemma NullPowerIsZero()
    ensures ItemPiece(Some(Item(map["duration" := Value(Some(60.0)), "power_low" := Null], None)))
      == Some(Piece(60.0, Some(0.0), Some(0.0), PercentFtp))
  {
    var f: map<string, Field> := map["duration" := Value(Some(60.0)), "power_low" := Null];
    var los := ["target_lo", "TargetPower", "Power", "PowerLow"];
    var his := ["target_hi", "PowerHigh", "power_high", "Power"];
    assert forall k :: 0 <= k < |los| ==> los[k] != "duration" && los[k] != "power_low";
    assert forall k :: 0 <= k < |his| ==> his[k] != "duration" && his[k] != "power_low";
    assert Get(f, "power") == Undefined;
    assert PercentLo(f) == Some(0.0) && PercentHi(f) == None;
    assert ItemDuration(f) == Some(60.0);
    assert RoundInt(60.0) == 60;
  }

  /** A record holding only a duration has none of the power fields. */
  lemma NoPowerFields(f: map<string, Field>)
    requires f.Keys == {"duration"}
    ensures PercentLo(f) == None && PercentHi(f) == None
  {
    var los := ["target_lo", "TargetPower", "Power", "PowerLow"];
    var his := ["target_hi", "PowerHigh", "power_high", "Power"];
    assert forall k :: 0 <= k < |los| ==> los[k][0] != 'd';
    assert forall k :: 0 <= k < |his| ==> his[k][0] != 'd';
    assert Get(f, "power_low") == Undefined && Get(f, "power") == Undefined;
  }

  /** Array durations are whole non-negative seconds. */
  lemma {:induction false} ArrayDurationsWhole(items: seq<Option<Item>>)
    ensures forall p :: p in ArrayPieces(items) ==> p.durationS >= 0.0 && p.durationS == p.durationS.Floor as real
  {
    if items != [] {
      ArrayDurationsWhole(items[..|items| - 1]);
      var item := items[|items| - 1];
      if item.Some? {
        var duration := ItemDuration(item.value.fields);
        if duration.Some? && duration.value > 0.0 {
          RoundIntBounds(duration.value);
        }
      }
    }
  }

  /** A `%FTP` item reads a fraction of FTP as a percentage, and an
      item without a high target takes its low one. */
  lemma PercentTargets(item: Item)
    requires ItemPiece(Some(item)).Some? && ItemPiece(Some(item)).value.targetType == PercentFtp
    ensures var p := ItemPiece(Some(item)).value;
      var lo := PercentLo(item.fields);
      var hi := PercentHi(item.fields);
      && (lo.Some? && lo.value <= 1.0 ==> p.lo == Some(lo.value * 100.0))
      && (lo.Some? && lo.value > 1.0 ==> p.lo == lo)
      && (lo.None? ==> p.lo.None?)
      && (hi.None? ==> p.hi == p.lo)
  {
  }
}
