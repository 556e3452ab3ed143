/** UTC calendar arithmetic behind the engine's use of `Date`: timestamps are
    milliseconds since 1970-01-01T00:00:00Z, days are numbered from that
    date, years are proleptic Gregorian, and weeks follow the ISO 8601 week
    date (ISO 8601:2004 section 4.1.4): a week runs Monday to Sunday, belongs
    to the year of its Thursday, and week 1 is the week of the year's first
    Thursday. */
module Calendar {
  import opened Text

  const MsPerHour: int := 3600000
  const MsPerDay: int := 86400000

  /** The UTC day of a timestamp, i.e. the day that the first ten characters
      of `toISOString()` name. Dafny's `/` rounds down, as the UTC date does
      for instants before 1970. */
  function DayOf(ms: int): int
  {
    ms / MsPerDay
  }

  /** Midnight UTC at the start of a day. */
  function StartOfDay(day: int): int
  {
    day * MsPerDay
  }

  lemma DayOfBounds(ms: int)
    ensures StartOfDay(DayOf(ms)) <= ms < StartOfDay(DayOf(ms) + 1)
  {
  }

  predicate IsLeapYear(y: int)
  {
    y % 4 == 0 && (y % 100 != 0 || y % 400 == 0)
  }

  function DaysInYear(y: int): int
  {
    if IsLeapYear(y) then 366 else 365
  }

  /** Number of leap years in 1..n (and its continuation below 1). */
  function LeapsThrough(n: int): int
  {
    n / 4 - n / 100 + n / 400
  }

  /** Day number of 1 January of year `y`: `Date.UTC(y, 0, 1)` in days. */
  function Jan1(y: int): int
  {
    365 * (y - 1970) + LeapsThrough(y - 1) - LeapsThrough(1969)
  }

  lemma LeapStep(y: int)
    ensures LeapsThrough(y) - LeapsThrough(y - 1) == if IsLeapYear(y) then 1 else 0
  {
    var a, b, c := y / 4 - (y - 1) / 4, y / 100 - (y - 1) / 100, y / 400 - (y - 1) / 400;
    DivSteps(y);
    ModChain(y);
    assert LeapsThrough(y) - LeapsThrough(y - 1) == a - b + c;
  }

  /** Each of the three counts grows by one exactly at a multiple. */
  lemma DivSteps(y: int)
    ensures y / 4 - (y - 1) / 4 == if y % 4 == 0 then 1 else 0
    ensures y / 100 - (y - 1) / 100 == if y % 100 == 0 then 1 else 0
    ensures y / 400 - (y - 1) / 400 == if y % 400 == 0 then 1 else 0
  {
  }

  /** Multiples of 400 are multiples of 100, which are multiples of 4. */
  lemma ModChain(y: int)
    ensures y % 400 == 0 ==> y % 100 == 0
    ensures y % 100 == 0 ==> y % 4 == 0
  {
    if y % 400 == 0 {
      var k := y / 400;
      assert y == 100 * (4 * k);
    }
    if y % 100 == 0 {
      var k := y / 100;
      assert y == 4 * (25 * k);
    }
  }

  /** A year is as long as the gap between its 1 January and the next. */
  lemma Jan1Next(y: int)
    ensures Jan1(y + 1) == Jan1(y) + DaysInYear(y)
  {
    LeapStep(y);
  }

  /** Later years start later. */
  lemma {:induction false} Jan1Monotone(a: int, b: int)
    requires a < b
    ensures Jan1(a + 1) <= Jan1(b)
    decreases b - a
  {
    if a + 1 < b {
      Jan1Monotone(a, b - 1);
      Jan1Next(b - 1);
    }
  }

  function YearUp(d: int, y: int): (r: int)
    requires Jan1(y) <= d
    ensures Jan1(r) <= d < Jan1(r + 1)
    decreases d - Jan1(y)
  {
    Jan1Next(y);
    if d < Jan1(y + 1) then y else YearUp(d, y + 1)
  }

  function YearDown(d: int, y: int): (r: int)
    requires d < Jan1(y + 1)
    ensures Jan1(r) <= d < Jan1(r + 1)
    decreases Jan1(y + 1) - d
  {
    Jan1Next(y);
    if Jan1(y) <= d then y else YearDown(d, y - 1)
  }

  /** `getUTCFullYear()` of a day: the year whose span holds it. */
  function YearOf(d: int): (y: int)
    ensures Jan1(y) <= d < Jan1(y + 1)
  {
    if d >= 0 then YearUp(d, 1970) else YearDown(d, 1969)
  }

  /** The year of a day is the only year whose span holds it. */
  lemma YearOfUnique(d: int, y: int)
    requires Jan1(y) <= d < Jan1(y + 1)
    ensures YearOf(d) == y
  {
    var z := YearOf(d);
    if z < y {
      Jan1Monotone(z, y);
    } else if y < z {
      Jan1Monotone(y, z);
    }
  }

  /** `getUTCDay()`: 0 is Sunday; day 0, 1970-01-01, was a Thursday. */
  function UtcWeekday(day: int): int
  {
    (day + 4) % 7
  }

  /** ISO weekday: Monday is 1, Sunday is 7. */
  function IsoWeekday(day: int): (w: int)
    ensures 1 <= w <= 7
  {
    if UtcWeekday(day) == 0 then 7 else UtcWeekday(day)
  }

  /** The Thursday of the Monday-to-Sunday week holding `day`. */
  function Thursday(day: int): int
  {
    day + 4 - IsoWeekday(day)
  }

  /** The ISO week-numbering year: the year of the week's Thursday. */
  function IsoWeekYear(day: int): int
  {
    YearOf(Thursday(day))
  }

  /** `Math.ceil(((thursday - yearStart) / 86400000 + 1) / 7)`: the
      Thursday falls in the seven-day block numbered `w` of its year, and a
      year has at most 53 such Thursdays. */
  function IsoWeekNumber(day: int): (w: int)
    ensures 1 <= w <= 53
    ensures Jan1(IsoWeekYear(day)) + 7 * (w - 1) <= Thursday(day) < Jan1(IsoWeekYear(day)) + 7 * w
  {
    var n := Thursday(day) - Jan1(IsoWeekYear(day));
    Jan1Next(IsoWeekYear(day));
    (n + 1 + 6) / 7
  }

  /** The week key `<year>-W<week, two digits>`. */
  function WeekKey(day: int): string
  {
    IntToString(IsoWeekYear(day)) + "-W" + PadStart(NatToString(IsoWeekNumber(day)), 2, '0')
  }

  /** The week's first day. ISO 8601 weeks begin on Monday, three days
      before the Thursday. */
  function WeekStart(day: int): int
  {
    Thursday(day) - 3
  }

  /** The first day as the source computes it: it subtracts `weekday - 1`
      from the already shifted Thursday instead of from the date itself. */
  function WeekStartAsWritten(day: int): int
  {
    Thursday(day) - (IsoWeekday(day) - 1)
  }

  /** `getIsoWeekInfo` on a timestamp: the week key and the first and last
      millisecond of the week (`T00:00:00.000Z` of its first day,
      `T23:59:59.999Z` six days later). */
  datatype WeekInfo = WeekInfo(weekKey: string, weekStart: int, weekEnd: int)

  function WeekInfoFrom(ms: int, startDay: int): WeekInfo
  {
    WeekInfo(WeekKey(DayOf(ms)), StartOfDay(startDay), StartOfDay(startDay + 6) + MsPerDay - 1)
  }

  /** The week information of a timestamp, with the week starting on its
      Monday. */
  function IsoWeekInfo(ms: int): WeekInfo
  {
    WeekInfoFrom(ms, WeekStart(DayOf(ms)))
  }

  /** The week of a timestamp contains it, runs seven days less one
      millisecond, and begins at midnight on a Monday. */
  lemma IsoWeekInfoSpan(ms: int)
    ensures var info := IsoWeekInfo(ms);
      info.weekStart <= ms <= info.weekEnd
      && info.weekEnd - info.weekStart == 7 * MsPerDay - 1
      && IsoWeekday(DayOf(info.weekStart)) == 1
      && info.weekStart % MsPerDay == 0
  {
    ThursdayFacts(DayOf(ms));
  }

  /** The week information as the source computes it. */
  function IsoWeekInfoAsWritten(ms: int): (info: WeekInfo)
    ensures info.weekEnd - info.weekStart == 7 * MsPerDay - 1
  {
    WeekInfoFrom(ms, WeekStartAsWritten(DayOf(ms)))
  }

  /** As written, the week starts at the date + 5 - 2 x its weekday; the
      span holds the instant only from Wednesday to Friday, and it is the
      Monday-to-Sunday span only on Thursdays. */
  lemma AsWrittenSpan(ms: int)
    ensures var d := DayOf(ms);
      var info := IsoWeekInfoAsWritten(ms);
      info.weekStart == StartOfDay(d + 5 - 2 * IsoWeekday(d))
      && (info.weekStart <= ms <= info.weekEnd <==> 3 <= IsoWeekday(d) <= 5)
      && (info == IsoWeekInfo(ms) <==> IsoWeekday(d) == 4)
  {
    var d := DayOf(ms);
    DayOfBounds(ms);
    WeekStartAsWrittenIff(d);
  }

  /** Every day lies within three days of its week's Thursday, which is a
      Thursday; the Monday three days earlier starts the week. */
  lemma ThursdayFacts(day: int)
    ensures IsoWeekday(Thursday(day)) == 4
    ensures Thursday(day) - 3 <= day <= Thursday(day) + 3
    ensures IsoWeekday(WeekStart(day)) == 1
    ensures Thursday(day) % 7 == 0
  {
  }

  /** Two days share a week exactly when they share its Thursday, and then
      they also share its Monday. */
  lemma SameWeekSameStart(d1: int, d2: int)
    requires Thursday(d1) == Thursday(d2)
    ensures WeekKey(d1) == WeekKey(d2)
    ensures WeekStart(d1) == WeekStart(d2)
  {
  }

  /** Two days have the same week key exactly when they lie in the same
      Monday-to-Sunday week. */
  lemma WeekKeyIff(d1: int, d2: int)
    ensures WeekKey(d1) == WeekKey(d2) <==> Thursday(d1) == Thursday(d2)
  {
    var t1, y1, w1 := WeekFacts(d1);
    var t2, y2, w2 := WeekFacts(d2);
    if WeekKey(d1) == WeekKey(d2) {
      KeyTextInjective(y1, w1, y2, w2);
      SameBlock(t1, t2, Jan1(y1) + 7 * (w1 - 1));
    }
  }

  /** Splitting a key at its fixed-width tail. */
  lemma SplitTail(a: string, p: string, b: string, q: string)
    requires |p| == |q| == 2 && a + "-W" + p == b + "-W" + q
    ensures a == b && p == q
  {
    var k := a + "-W" + p;
    assert p == k[|k| - 2..] == q;
    assert a == k[..|k| - 4] == b;
  }

  /** A week key names one year and one week number. */
  lemma KeyTextInjective(y1: int, w1: nat, y2: int, w2: nat)
    requires w1 < 100 && w2 < 100
    requires IntToString(y1) + "-W" + PadStart(NatToString(w1), 2, '0')
          == IntToString(y2) + "-W" + PadStart(NatToString(w2), 2, '0')
    ensures y1 == y2 && w1 == w2
  {
    PadTwoDigits(w1);
    PadTwoDigits(w2);
    SplitTail(IntToString(y1), PadStart(NatToString(w1), 2, '0'),
              IntToString(y2), PadStart(NatToString(w2), 2, '0'));
    PadTwoDigitsOrder(w1, w2);
    IntToStringInjective(y1, y2);
  }

  /** The first half of a week key: four digits for years 1000 to 9999. */
  lemma FourDigitYear(y: int)
    requires 1000 <= y <= 9999
    ensures IntToString(y) == NatToString(y) && |NatToString(y)| == 4
  {
    NatToStringLength(y);
    NatToStringLength(y / 10);
    NatToStringLength(y / 100);
    NatToStringLength(y / 1000);
  }

  /** Week keys of four-digit years sort as the weeks follow each other in
      time, so sorting keys as strings sorts weeks chronologically. */
  lemma WeekKeyOrder(d1: int, d2: int)
    requires 1000 <= IsoWeekYear(d1) <= 9999 && 1000 <= IsoWeekYear(d2) <= 9999
    ensures Less(WeekKey(d1), WeekKey(d2)) <==> Thursday(d1) < Thursday(d2)
  {
    var t1, y1, w1 := WeekFacts(d1);
    var t2, y2, w2 := WeekFacts(d2);
    KeyTextOrder(y1, w1, y2, w2);
    WeekOrder(d1, d2);
  }

  /** The text of a week key compares as its (year, week number) pair. */
  lemma KeyTextOrder(y1: int, w1: nat, y2: int, w2: nat)
    requires 1000 <= y1 <= 9999 && 1000 <= y2 <= 9999 && w1 < 100 && w2 < 100
    ensures Less(IntToString(y1) + "-W" + PadStart(NatToString(w1), 2, '0'),
                 IntToString(y2) + "-W" + PadStart(NatToString(w2), 2, '0'))
        <==> y1 < y2 || (y1 == y2 && w1 < w2)
  {
    var a1, a2 := IntToString(y1), IntToString(y2);
    var p1, p2 := PadStart(NatToString(w1), 2, '0'), PadStart(NatToString(w2), 2, '0');
    FourDigitYear(y1);
    FourDigitYear(y2);
    KeyParts(a1, p1, a2, p2);
    DigitsLess(y1, y2);
    assert a1 == a2 <==> y1 == y2 by {
      if a1 == a2 {
        NatToStringInjective(y1, y2);
      }
    }
    PadTwoDigitsOrder(w1, w2);
  }

  /** Keys with first parts of equal length compare by the first parts,
      then by the parts after "-W". */
  lemma KeyParts(a1: string, p1: string, a2: string, p2: string)
    requires |a1| == |a2|
    ensures Less(a1 + "-W" + p1, a2 + "-W" + p2) <==> Less(a1, a2) || (a1 == a2 && Less(p1, p2))
  {
    assert a1 + "-W" + p1 == a1 + ("-W" + p1);
    assert a2 + "-W" + p2 == a2 + ("-W" + p2);
    LessConcat(a1, a2, "-W" + p1, "-W" + p2);
    LessConcat("-W", "-W", p1, p2);
    LessIrreflexive("-W");
  }

  /** Two multiples of seven less than seven apart are equal. */
  lemma SameBlock(a: int, b: int, base: int)
    requires a % 7 == 0 && b % 7 == 0
    requires base <= a < base + 7 && base <= b < base + 7
    ensures a == b
  {
    assert a == 7 * (a / 7) && b == 7 * (b / 7);
  }

  /** What the rest of this module needs to know of a day's week: its
      Thursday lies in the week-numbered block of its year. */
  lemma WeekFacts(day: int) returns (t: int, y: int, w: int)
    ensures t == Thursday(day) && y == IsoWeekYear(day) && w == IsoWeekNumber(day)
    ensures t % 7 == 0 && 1 <= w <= 53
    ensures Jan1(y) + 7 * (w - 1) <= t < Jan1(y) + 7 * w
    ensures Jan1(y) <= t < Jan1(y + 1)
  {
    t, y, w := Thursday(day), IsoWeekYear(day), IsoWeekNumber(day);
    ThursdayFacts(day);
  }

  /** Thursdays compare as their (year, week number) pairs. */
  lemma WeekOrder(d1: int, d2: int)
    ensures Thursday(d1) < Thursday(d2) <==>
      IsoWeekYear(d1) < IsoWeekYear(d2)
      || (IsoWeekYear(d1) == IsoWeekYear(d2) && IsoWeekNumber(d1) < IsoWeekNumber(d2))
  {
    var t1, y1, w1 := WeekFacts(d1);
    var t2, y2, w2 := WeekFacts(d2);
    if y1 < y2 {
      Jan1Monotone(y1, y2);
    } else if y2 < y1 {
      Jan1Monotone(y2, y1);
    } else if w1 == w2 {
      SameBlock(t1, t2, Jan1(y1) + 7 * (w1 - 1));
    }
  }

  /** 2024-06-10, a Monday, is day 19884 and lies in ISO week 24 of 2024. */
  lemma ExampleMondayWeek()
    ensures IsoWeekday(19884) == 1 && Thursday(19884) == 19887
    ensures IsoWeekYear(19884) == 2024 && IsoWeekNumber(19884) == 24
    ensures WeekStart(19884) == 19884
  {
    assert Jan1(2024) == 19723 && Jan1(2025) == 20089;
    YearOfUnique(19887, 2024);
  }

  /** As written, the week of a Monday "starts" on the Thursday after it:
      the first day is a Monday only for dates that are Thursdays. */
  lemma WeekStartAsWrittenIsThursdayOfMonday()
    ensures WeekStartAsWritten(19884) == 19887
    ensures IsoWeekday(WeekStartAsWritten(19884)) == 4
    ensures WeekStartAsWritten(19884) != WeekStart(19884)
  {
  }

  /** The start as written is the Monday of the week exactly when the date
      is a Thursday. */
  lemma WeekStartAsWrittenIff(day: int)
    ensures WeekStartAsWritten(day) == WeekStart(day) <==> IsoWeekday(day) == 4
    ensures IsoWeekday(WeekStartAsWritten(day)) == 1 <==> IsoWeekday(day) == 4
  {
  }
}
