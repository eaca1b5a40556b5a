/** The date-string validator used to classify JSON strings as dates
    (`isValidDate`). A string is a date when, after trimming, it is
    `yyyy[-/]M[-/]d` or `d/M/yyyy`, optionally followed by a space-separated
    `H:m:s` time, optionally ending with an ISO 8601 style
    `THH:mm:ss[.fff][Z|±HH[:]mm]` suffix, and the components name a real
    calendar date and time of day. */
module DateValidator {
  import opened Common

  // ---------------------------------------------------------------------
  // Gregorian calendar and the part of JavaScript's `Date` the validator uses
  // ---------------------------------------------------------------------

  predicate IsLeapYear(y: int)
  {
    y % 4 == 0 && (y % 100 != 0 || y % 400 == 0)
  }

  /** The number of days of month `m` (1-based) of year `y`. */
  function DaysInMonth(y: int, m: int): (n: nat)
    requires 1 <= m <= 12
    ensures 28 <= n <= 31
    ensures m == 2 ==> (n == 29 <==> IsLeapYear(y))
  {
    if m == 2 then (if IsLeapYear(y) then 29 else 28)
    else if m == 4 || m == 6 || m == 9 || m == 11 then 30
    else 31
  }

  /** The year `new Date(year, ...)` actually uses: years 0 to 99 are taken
      as 1900 to 1999. */
  function JsYear(year: nat): (y: nat)
    ensures y == year <==> year >= 100
  {
    if year <= 99 then 1900 + year else year
  }

  /** The fields of a local `Date` as its getters report them. */
  datatype DateTime = DateTime(fullYear: nat, monthIndex: nat, date: nat,
                               hours: nat, minutes: nat, seconds: nat, millis: nat)

  /** `new Date(year, monthIndex, day, h, mi, s, ms)` for components that are
      already in range, so that no field overflows into the next one. */
  function NewLocalDate(year: nat, monthIndex: nat, day: nat, h: nat, mi: nat, s: nat, ms: nat): (d: DateTime)
    requires monthIndex < 12 && 1 <= day <= DaysInMonth(JsYear(year), monthIndex + 1)
    requires h <= 23 && mi <= 59 && s <= 59 && ms <= 999
    ensures d.fullYear == year <==> year >= 100
    ensures d.monthIndex == monthIndex && d.date == day
    ensures d.hours == h && d.minutes == mi && d.seconds == s && d.millis == ms
  {
    DateTime(JsYear(year), monthIndex, day, h, mi, s, ms)
  }

  // ---------------------------------------------------------------------
  // The ISO time suffix  T(\d{2}):(\d{2}):(\d{2})(?:\.(\d{1,3}))?(Z|[+-]\d{2}:?\d{2})?$
  // ---------------------------------------------------------------------

  datatype Zone = NoZone | Zulu | Offset(sign: char, hours: nat, minutes: nat)

  /** The captures of a matched ISO suffix; `msDigits` is empty when the
      fraction is absent. */
  datatype IsoTime = IsoTime(h: nat, m: nat, s: nat, msDigits: string, zone: Zone)

  predicate TwoDigitsAt(r: string, i: nat)
  {
    i + 2 <= |r| && IsDigit(r[i]) && IsDigit(r[i + 1])
  }

  function TwoDigitValue(r: string, i: nat): (v: nat)
    requires TwoDigitsAt(r, i)
    ensures v <= 99
  {
    DigitValue(r[i]) * 10 + DigitValue(r[i + 1])
  }

  /** The time-zone group `(Z|[+-]\d{2}:?\d{2})?` matched against the whole of `z`. */
  function ParseZone(z: string): (r: Option<Zone>)
    ensures r == Some(NoZone) <==> |z| == 0
    ensures r == Some(Zulu) <==> z == "Z"
    ensures r.Some? && r.value.Offset? ==> (z[0] == '+' || z[0] == '-') && (|z| == 5 || |z| == 6)
  {
    if |z| == 0 then Some(NoZone)
    else if z == "Z" then Some(Zulu)
    else if (z[0] == '+' || z[0] == '-') && |z| == 5 && TwoDigitsAt(z, 1) && TwoDigitsAt(z, 3) then
      Some(Offset(z[0], TwoDigitValue(z, 1), TwoDigitValue(z, 3)))
    else if (z[0] == '+' || z[0] == '-') && |z| == 6 && TwoDigitsAt(z, 1) && z[3] == ':' && TwoDigitsAt(z, 4) then
      Some(Offset(z[0], TwoDigitValue(z, 1), TwoDigitValue(z, 4)))
    else None
  }

  /** The groups `(?:\.(\d{1,3}))?(Z|[+-]\d{2}:?\d{2})?` matched against the
      whole of `rest`: the fraction digits (empty when absent) and the zone. */
  function ParseFractionZone(rest: string): (r: Option<(string, Zone)>)
    ensures r.Some? ==> |r.value.0| <= 3 && AllDigits(r.value.0)
  {
    var hasFraction := |rest| > 0 && rest[0] == '.';
    var k := if hasFraction then DigitRun(rest, 1) else 0;
    if hasFraction && !(1 <= k <= 3) then None
    else
      var ms := if hasFraction then rest[1..1 + k] else "";
      var zoneText := if hasFraction then rest[1 + k..] else rest;
      match ParseZone(zoneText)
      case None => None
      case Some(zone) => Some((ms, zone))
  }

  /** The ISO suffix pattern matched against the whole of `r` (the pattern
      is anchored at the end, and `r` starts where the match starts). */
  function ParseIsoSuffix(r: string): (t: Option<IsoTime>)
    ensures t.Some? ==> |r| >= 9 && r[0] == 'T' && r[3] == ':' && r[6] == ':'
    ensures t.Some? ==> t.value.h <= 99 && t.value.m <= 99 && t.value.s <= 99
    ensures t.Some? ==> |t.value.msDigits| <= 3 && AllDigits(t.value.msDigits)
  {
    if |r| < 9 || r[0] != 'T' || !TwoDigitsAt(r, 1) || r[3] != ':' || !TwoDigitsAt(r, 4)
       || r[6] != ':' || !TwoDigitsAt(r, 7) then None
    else match ParseFractionZone(r[9..])
      case None => None
      case Some((ms, zone)) =>
        Some(IsoTime(TwoDigitValue(r, 1), TwoDigitValue(r, 4), TwoDigitValue(r, 7), ms, zone))
  }

  /** `input.match(isoTimeRegex)`: the leftmost index at or after `p` where the
      ISO suffix matches, with its captures. */
  function FindIso(s: string, p: nat): (r: Option<(nat, IsoTime)>)
    requires p <= |s|
    ensures r.Some? ==> p <= r.value.0 < |s| && ParseIsoSuffix(s[r.value.0..]) == Some(r.value.1)
    decreases |s| - p
  {
    if p == |s| then None
    else
      var here := ParseIsoSuffix(s[p..]);
      if here.Some? then Some((p, here.value)) else FindIso(s, p + 1)
  }

  /** The match `FindIso` reports is the leftmost one, and when it reports
      none the suffix matches nowhere. */
  lemma {:induction false} FindIsoLeftmost(s: string, p: nat)
    requires p <= |s|
    ensures var r := FindIso(s, p);
            && (r.Some? ==> forall q :: p <= q < r.value.0 ==> ParseIsoSuffix(s[q..]).None?)
            && (r.None? ==> forall q :: p <= q <= |s| ==> ParseIsoSuffix(s[q..]).None?)
    decreases |s| - p
  {
    if p == |s| {
      assert |s[p..]| < 9;
    } else if ParseIsoSuffix(s[p..]).None? {
      FindIsoLeftmost(s, p + 1);
      var r := FindIso(s, p + 1);
      assert FindIso(s, p) == r;
      var end := if r.Some? then r.value.0 else |s| + 1;
      forall q | p <= q < end
        ensures ParseIsoSuffix(s[q..]).None?
      {
      }
    } else {
      assert FindIso(s, p).value.0 == p;
    }
  }

  /** `msStr.padEnd(3, '0')` parsed: the fraction as milliseconds, 0 when absent. */
  function Millis(msDigits: string): (ms: nat)
    requires |msDigits| <= 3 && AllDigits(msDigits)
    ensures ms <= 999
  {
    if |msDigits| == 0 then 0
    else
      var padded := msDigits + seq(3 - |msDigits|, _ => '0');
      DigitsValue(padded)
  }

  /** The range checks applied to a matched ISO suffix before the date part
      is looked at. */
  predicate IsoInRange(t: IsoTime)
    requires |t.msDigits| <= 3 && AllDigits(t.msDigits)
  {
    && !(t.h > 23 || t.m > 59 || t.s > 59)
    && !(Millis(t.msDigits) > 999)
    && (t.zone.Offset? ==> !(t.zone.hours > 14 || t.zone.minutes > 59))
  }

  // ---------------------------------------------------------------------
  // The two date patterns
  // ---------------------------------------------------------------------

  datatype Clock = Clock(h: nat, m: nat, s: nat)

  /** What follows the day (or the year): nothing, or `\s+H:m:s`. */
  datatype Tail = Bare | Timed(clock: Clock)

  /** A successful match of one date pattern. */
  datatype DateMatch = DateMatch(year: nat, month: nat, day: nat, tail: Tail)

  predicate IsSeparator(c: char)
  {
    c == '-' || c == '/'
  }

  /** `0?[1-9]|1[0-2]` matched against the whole of `m`. */
  predicate MonthShape(m: string)
  {
    || (|m| == 1 && '1' <= m[0] <= '9')
    || (|m| == 2 && m[0] == '0' && '1' <= m[1] <= '9')
    || (|m| == 2 && m[0] == '1' && '0' <= m[1] <= '2')
  }

  /** `0?[1-9]|[12]\d|3[01]` matched against the whole of `d`. */
  predicate DayShape(d: string)
  {
    || (|d| == 1 && '1' <= d[0] <= '9')
    || (|d| == 2 && d[0] == '0' && '1' <= d[1] <= '9')
    || (|d| == 2 && (d[0] == '1' || d[0] == '2') && IsDigit(d[1]))
    || (|d| == 2 && d[0] == '3' && (d[1] == '0' || d[1] == '1'))
  }

  lemma {:induction false} MonthShapeRange(m: string)
    requires MonthShape(m)
    ensures AllDigits(m) && 1 <= DigitsValue(m) <= 12
  {
    assert |m| == 2 ==> m[..1] == [m[0]];
  }

  lemma {:induction false} DayShapeRange(d: string)
    requires DayShape(d)
    ensures AllDigits(d) && 1 <= DigitsValue(d) <= 31
  {
    assert |d| == 2 ==> d[..1] == [d[0]];
  }

  /** The group `(?:\s+(\d{1,2}):(\d{1,2}):(\d{1,2}))?$` matched against the
      whole of `r`. */
  function ParseTail(r: string): (t: Option<Tail>)
    ensures t == Some(Bare) <==> |r| == 0
    ensures t.Some? && t.value.Timed? ==> |r| > 0 && IsJsWhitespace(r[0])
  {
    if |r| == 0 then Some(Bare)
    else
      var w := SkipSpace(r, 0);
      if w == 0 then None
      else match ParseClock(r, w)
        case None => None
        case Some(c) => Some(Timed(c))
  }

  /** `(\d{1,2}):(\d{1,2}):(\d{1,2})` matched against `r[w..]`. */
  function ParseClock(r: string, w: nat): (c: Option<Clock>)
    requires w <= |r|
  {
    match ClockGroup(r, w)
    case None => None
    case Some((h, i)) => ClockMinutes(r, h, i)
  }

  /** The rest of a clock after its hour group, which ended at index `i`. */
  function ClockMinutes(r: string, h: nat, i: nat): (c: Option<Clock>)
    requires i <= |r|
  {
    if i >= |r| || r[i] != ':' then None
    else match ClockGroup(r, i + 1)
      case None => None
      case Some((m, j)) => ClockSeconds(r, h, m, j)
  }

  /** The rest of a clock after its minute group, which ended at index `j`. */
  function ClockSeconds(r: string, h: nat, m: nat, j: nat): (c: Option<Clock>)
    requires j <= |r|
  {
    if j >= |r| || r[j] != ':' then None
    else match ClockGroup(r, j + 1)
      case None => None
      case Some((s, e)) => if e != |r| then None else Some(Clock(h, m, s))
  }

  /** One group `(\d{1,2})` at index `i`, as greedy as the regular
      expression: its value and the index after it. */
  function ClockGroup(r: string, i: nat): (g: Option<(nat, nat)>)
    requires i <= |r|
    ensures g.Some? ==> i < g.value.1 <= |r|
  {
    var k := DigitRun(r, i);
    if 1 <= k <= 2 then Some((DigitsValue(r[i..i + k]), i + k)) else None
  }

  /** Pattern 1: `^(\d{4})[-/](month)[-/](day)(time)?$`; the two separators
      are chosen independently. */
  function MatchYmd(s: string): (r: Option<DateMatch>)
    ensures r.Some? ==> |s| >= 8 && AllDigits(s[..4]) && IsSeparator(s[4])
    ensures r.Some? ==> 1 <= r.value.month <= 12 && 1 <= r.value.day <= 31
  {
    if |s| < 5 || !AllDigits(s[..4]) || !IsSeparator(s[4]) then None
    else MatchYmdMonth(s)
  }

  /** Pattern 1 after `yyyy` and its separator. */
  function MatchYmdMonth(s: string): (r: Option<DateMatch>)
    requires |s| >= 5 && AllDigits(s[..4]) && IsSeparator(s[4])
    ensures r.Some? ==> |s| >= 8 && 1 <= r.value.month <= 12 && 1 <= r.value.day <= 31
  {
    var mon := DigitGroup(s, 5);
    var me := 5 + |mon|;
    if !MonthShape(mon) || me >= |s| || !IsSeparator(s[me]) then None
    else
      var day := DigitGroup(s, me + 1);
      if !DayShape(day) then None
      else Captures(s[..4], mon, day, s[me + 1 + |day|..])
  }

  /** Pattern 2: `^(day)\/(month)\/(\d{4})(time)?$`, slashes only. */
  function MatchDmy(s: string): (r: Option<DateMatch>)
    ensures r.Some? ==> |s| >= 8 && (s[1] == '/' || s[2] == '/')
    ensures r.Some? ==> 1 <= r.value.month <= 12 && 1 <= r.value.day <= 31
  {
    var day := DigitGroup(s, 0);
    if !DayShape(day) || |day| >= |s| || s[|day|] != '/' then None
    else MatchDmyMonth(s, day)
  }

  /** Pattern 2 after the day group `day` and the slash that follows it. */
  function MatchDmyMonth(s: string, day: string): (r: Option<DateMatch>)
    requires |day| < |s| && DayShape(day) && AllDigits(day) && s[|day|] == '/'
    ensures r.Some? ==> |s| >= |day| + 6 && 1 <= r.value.month <= 12 && 1 <= r.value.day <= 31
  {
    var mon := DigitGroup(s, |day| + 1);
    var ys := |day| + 2 + |mon|;
    if !MonthShape(mon) || ys > |s| || s[ys - 1] != '/' then None
    else
      var y4 := DigitGroup(s, ys);
      if |y4| != 4 then None
      else Captures(y4, mon, day, s[ys + 4..])
  }

  /** The captures of either pattern once its year, month and day groups
      have matched: the values of the groups and what the time group reads
      from the rest of the text. */
  function Captures(year: string, mon: string, day: string, rest: string): (r: Option<DateMatch>)
    requires AllDigits(year) && MonthShape(mon) && AllDigits(mon) && DayShape(day) && AllDigits(day)
    ensures r.Some? <==> ParseTail(rest).Some?
    ensures r.Some? ==> && r.value.year == DigitsValue(year) && r.value.tail == ParseTail(rest).value
                        && 1 <= r.value.month == DigitsValue(mon) <= 12
                        && 1 <= r.value.day == DigitsValue(day) <= 31
  {
    MonthShapeRange(mon);
    DayShapeRange(day);
    match ParseTail(rest)
    case None => None
    case Some(tail) => Some(DateMatch(DigitsValue(year), DigitsValue(mon), DigitsValue(day), tail))
  }

  // Spellings: the texts the two patterns are written to accept.

  /** The fields of pattern 1: four digits, a separator, a month and a day
      of the shapes the groups accept, and the second separator. */
  predicate YmdFields(y4: string, sep1: char, mon: string, sep2: char, day: string)
  {
    && |y4| == 4 && AllDigits(y4) && IsSeparator(sep1) && IsSeparator(sep2)
    && MonthShape(mon) && AllDigits(mon) && DayShape(day) && AllDigits(day)
  }

  /** `yyyy<sep1>M<sep2>d` as written, with one- or two-digit month and day. */
  function YmdSpelled(y4: string, sep1: char, mon: string, sep2: char, day: string): string
  {
    y4 + [sep1] + mon + [sep2] + day
  }

  /** The fields of pattern 2: a day and a month of the shapes the groups
      accept, and four digits. */
  predicate DmyFields(day: string, mon: string, y4: string)
  {
    DayShape(day) && AllDigits(day) && MonthShape(mon) && AllDigits(mon) && |y4| == 4 && AllDigits(y4)
  }

  /** `d/M/yyyy` as written, with one- or two-digit day and month. */
  function DmySpelled(day: string, mon: string, y4: string): string
  {
    day + "/" + mon + "/" + y4
  }

  /** What may follow the last digit group of a date: nothing, or text that
      does not start with a digit. */
  predicate TailStart(r: string)
  {
    |r| == 0 || !IsDigit(r[0])
  }

  /** `dm` holds the captures of pattern 1 on `s`: `s` is a spelled date
      followed by a tail the time group accepts, and the year, month and day
      are the values of its digit groups. */
  predicate YmdCaptured(s: string, dm: DateMatch)
  {
    && |s| >= 5
    && var mon := DigitGroup(s, 5);
       && 5 + |mon| < |s|
       && var day := DigitGroup(s, 6 + |mon|);
          && var rest := s[6 + |mon| + |day|..];
             && YmdFields(s[..4], s[4], mon, s[5 + |mon|], day)
             && s == YmdSpelled(s[..4], s[4], mon, s[5 + |mon|], day) + rest
             && TailStart(rest) && ParseTail(rest) == Some(dm.tail)
             && dm.year == DigitsValue(s[..4]) && dm.month == DigitsValue(mon) && dm.day == DigitsValue(day)
  }

  /** `dm` holds the captures of pattern 2 on `s`. */
  predicate DmyCaptured(s: string, dm: DateMatch)
  {
    var day := DigitGroup(s, 0);
    && |day| < |s|
    && var mon := DigitGroup(s, |day| + 1);
       && var ys := |day| + 2 + |mon|;
          && ys <= |s|
          && var y4 := DigitGroup(s, ys);
             && var rest := s[ys + |y4|..];
                && DmyFields(day, mon, y4)
                && s == DmySpelled(day, mon, y4) + rest
                && TailStart(rest) && ParseTail(rest) == Some(dm.tail)
                && dm.year == DigitsValue(y4) && dm.month == DigitsValue(mon) && dm.day == DigitsValue(day)
  }

  /** Whatever pattern 1 returns is read off the text: the text is a
      spelled date followed by a tail the time group accepts, and the
      captures are the values of its digit groups. */
  lemma {:induction false} MatchYmdCaptures(s: string)
    ensures MatchYmd(s).Some? ==> YmdCaptured(s, MatchYmd(s).value)
  {
    if MatchYmd(s).Some? {
      var mon := DigitGroup(s, 5);
      var day := DigitGroup(s, 6 + |mon|);
      assert MonthShape(mon) && 5 + |mon| < |s| && IsSeparator(s[5 + |mon|]) && DayShape(day);
      MonthShapeRange(mon);
      DayShapeRange(day);
      YmdSplit(s, mon, day);
    }
  }

  lemma {:induction false} YmdSplit(s: string, mon: string, day: string)
    requires 6 + |mon| + |day| <= |s| && s[5..5 + |mon|] == mon && s[6 + |mon|..6 + |mon| + |day|] == day
    ensures s == YmdSpelled(s[..4], s[4], mon, s[5 + |mon|], day) + s[6 + |mon| + |day|..]
  {
    assert s == s[..4] + [s[4]] + s[5..5 + |mon|] + [s[5 + |mon|]] + s[6 + |mon|..6 + |mon| + |day|]
                + s[6 + |mon| + |day|..];
  }

  /** The same for pattern 2. */
  lemma {:induction false} MatchDmyCaptures(s: string)
    ensures MatchDmy(s).Some? ==> DmyCaptured(s, MatchDmy(s).value)
  {
    var day := DigitGroup(s, 0);
    if DayShape(day) && |day| < |s| && s[|day|] == '/' {
      DmyMonthCaptures(s, day);
    }
  }

  lemma {:induction false} DmyMonthCaptures(s: string, day: string)
    requires day == DigitGroup(s, 0) && |day| < |s| && DayShape(day) && s[|day|] == '/'
    ensures MatchDmyMonth(s, day).Some? ==> DmyCaptured(s, MatchDmyMonth(s, day).value)
  {
    var mon := DigitGroup(s, |day| + 1);
    var ys := |day| + 2 + |mon|;
    if !MonthShape(mon) || ys > |s| || s[ys - 1] != '/' {
      assert MatchDmyMonth(s, day) == None;
    } else {
      var y4 := DigitGroup(s, ys);
      if |y4| != 4 {
        assert MatchDmyMonth(s, day) == None;
      } else {
        var rest := s[ys + 4..];
        MatchDmyMonthOf(s, day, mon, y4);
        MonthShapeRange(mon);
        DayShapeRange(day);
        DmySplit(s, day, mon, y4);
        assert DmyFields(day, mon, y4) && TailStart(rest);
      }
    }
  }

  lemma {:induction false} DmySplit(s: string, day: string, mon: string, y4: string)
    requires |day| + 2 + |mon| + |y4| <= |s| && s[|day|] == '/' && s[|day| + 1 + |mon|] == '/'
    requires s[0..|day|] == day && s[|day| + 1..|day| + 1 + |mon|] == mon
    requires s[|day| + 2 + |mon|..|day| + 2 + |mon| + |y4|] == y4
    ensures s == DmySpelled(day, mon, y4) + s[|day| + 2 + |mon| + |y4|..]
  {
    assert s == s[0..|day|] + [s[|day|]] + s[|day| + 1..|day| + 1 + |mon|] + [s[|day| + 1 + |mon|]]
                + s[|day| + 2 + |mon|..|day| + 2 + |mon| + |y4|] + s[|day| + 2 + |mon| + |y4|..];
  }

  // ---------------------------------------------------------------------
  // Deciding one matched pattern, and the validator
  // ---------------------------------------------------------------------

  datatype Time = Time(h: nat, m: nat, s: nat, ms: nat)

  predicate TimeInRange(t: Time)
  {
    t.h <= 23 && t.m <= 59 && t.s <= 59 && t.ms <= 999
  }

  /** What the body of the pattern loop does with one match: return true,
      return false, or go on to the next pattern. */
  datatype Outcome = Accept | Reject | NextPattern

  /** The time of day the validator uses: the ISO time when there is one,
      else the range-checked space-separated time (None when a field is out
      of range), else midnight. */
  function TimeOf(dm: DateMatch, iso: Option<Time>): (t: Option<Time>)
    requires iso.Some? ==> TimeInRange(iso.value)
    ensures t.Some? ==> TimeInRange(t.value)
    ensures iso.Some? ==> t == iso
  {
    if iso.Some? then iso
    else match dm.tail
      case Timed(c) =>
        if c.h > 23 || c.m > 59 || c.s > 59 then None else Some(Time(c.h, c.m, c.s, 0))
      case Bare => Some(Time(0, 0, 0, 0))
  }

  function Decide(dm: DateMatch, iso: Option<Time>): (o: Outcome)
    requires iso.Some? ==> TimeInRange(iso.value)
    ensures o == Accept ==> 100 <= dm.year && 1 <= dm.month <= 12
                            && 1 <= dm.day <= DaysInMonth(dm.year, dm.month)
  {
    match TimeOf(dm, iso)
    case None => Reject
    case Some(t) =>
      if dm.month < 1 || dm.month > 12 then Reject
      else if dm.day < 1 || dm.day > DaysInMonth(JsYear(dm.year), dm.month) then Reject
      else
        var d := NewLocalDate(dm.year, dm.month - 1, dm.day, t.h, t.m, t.s, t.ms);
        if && d.fullYear == dm.year && d.monthIndex == dm.month - 1 && d.date == dm.day
           && d.hours == t.h && d.minutes == t.m && d.seconds == t.s && d.millis == t.ms
        then Accept
        else NextPattern
  }

  /** The loop over the two patterns on the date part. */
  function MatchPatterns(datePart: string, iso: Option<Time>): bool
    requires iso.Some? ==> TimeInRange(iso.value)
  {
    var first := match MatchYmd(datePart)
      case None => NextPattern
      case Some(dm) => Decide(dm, iso);
    if first == Accept then true
    else if first == Reject then false
    else
      match MatchDmy(datePart)
      case None => false
      case Some(dm) => Decide(dm, iso) == Accept
  }

  /** `isValidDate(dateString)`. */
  function IsValidDate(dateString: string): bool
  {
    var input := Trim(dateString);
    if |input| == 0 then false
    else
      match FindIso(input, 0)
      case Some((idx, t)) =>
        if !IsoInRange(t) then false
        else MatchPatterns(input[..idx], Some(Time(t.h, t.m, t.s, Millis(t.msDigits))))
      case None => MatchPatterns(input, None)
  }

  /** The text the date patterns are matched against: the trimmed input
      without its ISO suffix. */
  function DatePart(dateString: string): string
  {
    var input := Trim(dateString);
    match FindIso(input, 0)
    case Some((idx, _)) => input[..idx]
    case None => input
  }

  // ---------------------------------------------------------------------
  // Properties
  // ---------------------------------------------------------------------

  predicate CalendarDate(y: int, m: int, d: int)
  {
    100 <= y && 1 <= m <= 12 && 1 <= d <= DaysInMonth(y, m)
  }

  /** Everything the validator accepts has a date part matching one of the
      two patterns and naming a real day of a year from 100 on. */
  lemma {:induction false} AcceptedIsCalendarDate(s: string)
    requires IsValidDate(s)
    ensures exists dm :: (MatchYmd(DatePart(s)) == Some(dm) || MatchDmy(DatePart(s)) == Some(dm))
                         && CalendarDate(dm.year, dm.month, dm.day)
  {
    var input := Trim(s);
    match FindIso(input, 0)
    case Some((idx, t)) =>
      ValidDateWithIso(input, idx, t);
      TrimNoOp(input);
      PatternsAccepted(input[..idx], Some(Time(t.h, t.m, t.s, Millis(t.msDigits))));
    case None =>
      ValidDateWithoutIso(input);
      TrimNoOp(input);
      PatternsAccepted(input, None);
  }

  /** Whatever the pattern loop accepts was matched by one of the patterns
      and names a real day. */
  lemma {:induction false} PatternsAccepted(part: string, iso: Option<Time>)
    requires iso.Some? ==> TimeInRange(iso.value)
    requires MatchPatterns(part, iso)
    ensures exists dm :: (MatchYmd(part) == Some(dm) || MatchDmy(part) == Some(dm))
                         && CalendarDate(dm.year, dm.month, dm.day)
  {
    if MatchYmd(part).Some? && Decide(MatchYmd(part).value, iso) == Accept {
      var dm := MatchYmd(part).value;
      assert CalendarDate(dm.year, dm.month, dm.day);
    } else {
      var dm := MatchDmy(part).value;
      assert CalendarDate(dm.year, dm.month, dm.day);
    }
  }

  /** Only white space is never a date. */
  lemma {:induction false} BlankIsNotDate(s: string)
    requires AllWhitespace(s)
    ensures !IsValidDate(s)
  {
  }

  /** Surrounding white space never changes the verdict. */
  lemma {:induction false} PaddingIgnored(a: string, s: string, b: string)
    requires AllWhitespace(a) && AllWhitespace(b)
    ensures IsValidDate(a + s + b) == IsValidDate(s)
  {
    TrimPadded(a, s, b);
  }

  /** February has 29 days exactly in the years of the Gregorian leap rule,
      and the year has 366 days exactly then. */
  lemma {:induction false} YearLength(y: int)
    ensures DaysBefore(y, 13) == if IsLeapYear(y) then 366 else 365
  {
    assert DaysBefore(y, 13) == DaysBefore(y, 12) + 31;
    assert DaysBefore(y, 12) == DaysBefore(y, 11) + 30;
    assert DaysBefore(y, 11) == DaysBefore(y, 10) + 31;
    assert DaysBefore(y, 10) == DaysBefore(y, 9) + 30;
    assert DaysBefore(y, 9) == DaysBefore(y, 8) + 31;
    assert DaysBefore(y, 8) == DaysBefore(y, 7) + 31;
    assert DaysBefore(y, 7) == DaysBefore(y, 6) + 30;
    assert DaysBefore(y, 6) == DaysBefore(y, 5) + 31;
    assert DaysBefore(y, 5) == DaysBefore(y, 4) + 30;
    assert DaysBefore(y, 4) == DaysBefore(y, 3) + 31;
    assert DaysBefore(y, 3) == DaysBefore(y, 2) + DaysInMonth(y, 2);
    assert DaysBefore(y, 2) == 31;
  }

  /** The number of days of year `y` before the first of month `m`. */
  function DaysBefore(y: int, m: int): nat
    requires 1 <= m <= 13
  {
    if m == 1 then 0 else DaysBefore(y, m - 1) + DaysInMonth(y, m - 1)
  }

  // Spellings of the accepted forms, used to state what the validator accepts.

  /** A clock field `\d{1,2}`. */
  predicate ClockField(f: string)
  {
    1 <= |f| <= 2 && AllDigits(f)
  }

  /** The parts of `\s+H:m:s`: a non-empty run of white space and three
      clock fields. */
  predicate ClockFields(ws: string, hh: string, mm: string, ss: string)
  {
    |ws| > 0 && AllWhitespace(ws) && ClockField(hh) && ClockField(mm) && ClockField(ss)
  }

  function ClockSpelled(ws: string, hh: string, mm: string, ss: string): string
  {
    ws + hh + ":" + mm + ":" + ss
  }

  function Pad2(n: nat): (s: string)
    requires n < 100
    ensures |s| == 2 && AllDigits(s) && DigitsValue(s) == n
  {
    PadDigits(n, 2)
  }

  /** `HH:mm:ss` with two digits per field, as the ISO suffix writes it. */
  function ClockText(h: nat, mi: nat, s: nat): (r: string)
    requires h < 100 && mi < 100 && s < 100
    ensures |r| == 8
  {
    Pad2(h) + ":" + Pad2(mi) + ":" + Pad2(s)
  }

  predicate ZoneSpellable(z: Zone)
  {
    z.Offset? ==> (z.sign == '+' || z.sign == '-') && z.hours < 100 && z.minutes < 100
  }

  /** The zone group `(Z|[+-]\d{2}:?\d{2})?`: nothing, `Z`, or an offset
      written with or without the colon. */
  function ZoneText(z: Zone, colon: bool): string
    requires ZoneSpellable(z)
  {
    match z
    case NoZone => ""
    case Zulu => "Z"
    case Offset(sign, oh, om) => [sign] + Pad2(oh) + (if colon then ":" else "") + Pad2(om)
  }

  /** `THH:mm:ss[.f]<zone>`. */
  function IsoSuffixText(h: nat, mi: nat, s: nat, ms: string, z: Zone, colon: bool): string
    requires h < 100 && mi < 100 && s < 100
    requires |ms| <= 3 && AllDigits(ms) && ZoneSpellable(z)
  {
    "T" + ClockText(h, mi, s) + (if |ms| > 0 then "." + ms else "") + ZoneText(z, colon)
  }

  // Both patterns read every spelling they are written for.

  /** Pattern 1 matches a spelled `yyyy-M-d` followed by a tail that does not
      start with a digit exactly when the time group accepts the tail, and
      then captures the values of the spelled fields. */
  lemma {:induction false} MatchYmdSpelled(y4: string, sep1: char, mon: string, sep2: char, day: string, r: string)
    requires YmdFields(y4, sep1, mon, sep2, day) && TailStart(r)
    ensures MatchYmd(YmdSpelled(y4, sep1, mon, sep2, day) + r)
            == match ParseTail(r)
               case None => None
               case Some(t) => Some(DateMatch(DigitsValue(y4), DigitsValue(mon), DigitsValue(day), t))
  {
    var s := YmdSpelled(y4, sep1, mon, sep2, day) + r;
    YmdSpelledSlices(y4, sep1, mon, sep2, day, r);
    DigitGroupExact(s, 5, mon);
    DigitGroupExact(s, 5 + |mon| + 1, day);
    MatchYmdMonthOf(s, mon, day);
  }

  /** Where the fields of a spelled `yyyy-M-d` sit in it. */
  lemma {:induction false} YmdSpelledSlices(y4: string, sep1: char, mon: string, sep2: char, day: string, r: string)
    requires |y4| == 4
    ensures var s := YmdSpelled(y4, sep1, mon, sep2, day) + r;
            var ds := 5 + |mon| + 1;
            && |s| == ds + |day| + |r|
            && s[..4] == y4 && s[4] == sep1
            && s[5..5 + |mon|] == mon && s[5 + |mon|] == sep2
            && s[ds..ds + |day|] == day && s[ds + |day|..] == r
  {
    var s := YmdSpelled(y4, sep1, mon, sep2, day) + r;
    assert s == y4 + ([sep1] + (mon + ([sep2] + (day + r))));
    assert s[4..] == [sep1] + (mon + ([sep2] + (day + r)));
    assert s[5..] == mon + ([sep2] + (day + r));
    assert s[5 + |mon|..] == [sep2] + (day + r);
    assert s[5 + |mon| + 1..] == day + r;
  }

  /** Pattern 1 after `yyyy` and its separator, on a text whose month and day
      groups are `mon` and `day`. */
  lemma {:induction false} MatchYmdMonthOf(s: string, mon: string, day: string)
    requires |s| >= 5 && AllDigits(s[..4]) && IsSeparator(s[4])
    requires mon == DigitGroup(s, 5) && MonthShape(mon) && 5 + |mon| < |s| && IsSeparator(s[5 + |mon|])
    requires day == DigitGroup(s, 5 + |mon| + 1) && DayShape(day)
    ensures MatchYmd(s) == Captures(s[..4], mon, day, s[5 + |mon| + 1 + |day|..])
  {
    var m' := DigitGroup(s, 5);
    assert m' == mon;
    var me := 5 + |m'|;
    assert MonthShape(m') && me < |s| && IsSeparator(s[me]);
    var d' := DigitGroup(s, me + 1);
    assert d' == day && DayShape(d');
    assert MatchYmdMonth(s) == Captures(s[..4], m', d', s[me + 1 + |d'|..]);
    assert MatchYmd(s) == MatchYmdMonth(s);
  }

  /** Pattern 2 likewise on a spelled `d/M/yyyy`. */
  lemma {:induction false} MatchDmySpelled(day: string, mon: string, y4: string, r: string)
    requires DmyFields(day, mon, y4) && TailStart(r)
    ensures MatchDmy(DmySpelled(day, mon, y4) + r)
            == match ParseTail(r)
               case None => None
               case Some(t) => Some(DateMatch(DigitsValue(y4), DigitsValue(mon), DigitsValue(day), t))
  {
    var s := DmySpelled(day, mon, y4) + r;
    var ys := |day| + 2 + |mon|;
    DmySpelledSlices(day, mon, y4, r);
    DigitGroupExact(s, 0, day);
    DigitGroupExact(s, |day| + 1, mon);
    DigitGroupExact(s, ys, y4);
    assert MatchDmy(s) == MatchDmyMonth(s, day);
    MatchDmyMonthOf(s, day, mon, y4);
  }

  /** Where the fields of a spelled `d/M/yyyy` sit in it. */
  lemma {:induction false} DmySpelledSlices(day: string, mon: string, y4: string, r: string)
    ensures var s := DmySpelled(day, mon, y4) + r;
            var ys := |day| + 2 + |mon|;
            && |s| == ys + |y4| + |r|
            && s[0..|day|] == day && s[|day|] == '/'
            && s[|day| + 1..|day| + 1 + |mon|] == mon && s[ys - 1] == '/'
            && s[ys..ys + |y4|] == y4 && s[ys + |y4|..] == r
  {
    var s := DmySpelled(day, mon, y4) + r;
    var ys := |day| + 2 + |mon|;
    assert s == day + ("/" + (mon + ("/" + (y4 + r))));
    assert s[|day|..] == "/" + (mon + ("/" + (y4 + r)));
    assert s[|day| + 1..] == mon + ("/" + (y4 + r));
    assert s[|day| + 1 + |mon|..] == "/" + (y4 + r);
    assert s[ys..] == y4 + r;
  }

  /** Pattern 2 after the day group `day` and its slash, on a text whose
      month and year groups are `mon` and `y4`. */
  lemma {:induction false} MatchDmyMonthOf(s: string, day: string, mon: string, y4: string)
    requires |day| < |s| && DayShape(day) && AllDigits(day) && s[|day|] == '/'
    requires mon == DigitGroup(s, |day| + 1) && MonthShape(mon)
    requires |day| + 2 + |mon| <= |s| && s[|day| + 2 + |mon| - 1] == '/'
    requires y4 == DigitGroup(s, |day| + 2 + |mon|) && |y4| == 4
    ensures MatchDmyMonth(s, day) == Captures(y4, mon, day, s[|day| + 2 + |mon| + 4..])
  {
    var m' := DigitGroup(s, |day| + 1);
    assert m' == mon;
    var ys := |day| + 2 + |m'|;
    assert MonthShape(m') && ys <= |s| && s[ys - 1] == '/';
    var y' := DigitGroup(s, ys);
    assert |y'| == 4 && y' == y4;
    assert MatchDmyMonth(s, day) == Captures(y', m', day, s[ys + 4..]);
  }

  /** A digit string written at index `i` and not followed by a digit is the
      group read there. */
  lemma {:induction false} DigitGroupExact(s: string, i: nat, g: string)
    requires AllDigits(g) && i + |g| <= |s| && s[i..i + |g|] == g
    requires i + |g| == |s| || !IsDigit(s[i + |g|])
    ensures DigitGroup(s, i) == g
  {
    DigitRunExact(s, i, |g|);
  }

  /** The time group reads a spelled clock back as the values of its fields. */
  lemma {:induction false} ClockSpelledParses(ws: string, hh: string, mm: string, ss: string)
    requires ClockFields(ws, hh, mm, ss)
    ensures ParseTail(ClockSpelled(ws, hh, mm, ss))
            == Some(Timed(Clock(DigitsValue(hh), DigitsValue(mm), DigitsValue(ss))))
  {
    var c := ClockSpelled(ws, hh, mm, ss);
    var w := |ws|;
    var i := w + |hh|;
    var j := i + 1 + |mm|;
    assert SkipSpace(c, 0) == w by {
      forall k | 0 <= k < w
        ensures IsJsWhitespace(c[k])
      {
        assert c[k] == ws[k];
      }
      assert c[w] == hh[0];
      SkipSpaceStop(c, 0, w);
    }
    assert && |c| == j + 1 + |ss|
           && c[w..i] == hh && c[i] == ':' && c[i + 1..j] == mm && c[j] == ':'
           && c[j + 1..|c|] == ss;
    ClockGroupsAt(c, w, hh, mm, ss);
  }

  /** The three groups of a clock written at index `w`. */
  lemma {:induction false} ClockGroupsAt(c: string, w: nat, hh: string, mm: string, ss: string)
    requires ClockField(hh) && ClockField(mm) && ClockField(ss)
    requires w + |hh| + 1 + |mm| + 1 + |ss| == |c|
    requires c[w..w + |hh|] == hh && c[w + |hh|] == ':'
    requires c[w + |hh| + 1..w + |hh| + 1 + |mm|] == mm && c[w + |hh| + 1 + |mm|] == ':'
    requires c[w + |hh| + 2 + |mm|..|c|] == ss
    ensures ParseClock(c, w) == Some(Clock(DigitsValue(hh), DigitsValue(mm), DigitsValue(ss)))
  {
    var i, j := w + |hh|, w + |hh| + 1 + |mm|;
    ClockGroupSpelled(c, w, hh);
    ClockGroupSpelled(c, i + 1, mm);
    ClockGroupSpelled(c, j + 1, ss);
    ParseClockOf(c, w, i, j, DigitsValue(hh), DigitsValue(mm), DigitsValue(ss));
  }

  /** `ParseClock` in terms of its three groups. */
  lemma {:induction false} ParseClockOf(r: string, w: nat, i: nat, j: nat, h: nat, m: nat, s: nat)
    requires w <= |r| && i < |r| && j < |r| && r[i] == ':' && r[j] == ':'
    requires ClockGroup(r, w) == Some((h, i))
    requires ClockGroup(r, i + 1) == Some((m, j))
    requires ClockGroup(r, j + 1) == Some((s, |r|))
    ensures ParseClock(r, w) == Some(Clock(h, m, s))
  {
    assert ClockSeconds(r, h, m, j) == Some(Clock(h, m, s));
    assert ClockMinutes(r, h, i) == Some(Clock(h, m, s));
  }

  /** A clock field written at index `i` and not followed by a digit is read
      as one group. */
  lemma {:induction false} ClockGroupSpelled(r: string, i: nat, f: string)
    requires ClockField(f) && i + |f| <= |r| && r[i..i + |f|] == f
    requires i + |f| == |r| || !IsDigit(r[i + |f|])
    ensures ClockGroup(r, i) == Some((DigitsValue(f), i + |f|))
  {
    DigitRunExact(r, i, |f|);
  }


  /** A spelled clock starts with white space, ends with a digit and holds
      no `T`. */
  lemma {:induction false} ClockSpelledShape(ws: string, hh: string, mm: string, ss: string)
    requires ClockFields(ws, hh, mm, ss)
    ensures var c := ClockSpelled(ws, hh, mm, ss);
            TailStart(c) && 'T' !in c && IsDigit(c[|c| - 1])
  {
    var c := ClockSpelled(ws, hh, mm, ss);
    assert c[0] == ws[0];
    WhitespaceHasNoT(ws);
    DigitsHaveNoT(hh);
    DigitsHaveNoT(mm);
    DigitsHaveNoT(ss);
    assert c[|c| - 1] == ss[|ss| - 1];
  }

  // What the validator accepts.

  /** Every spelling `yyyy-M-d` of pattern 1 (either separator in either
      place, one- or two-digit month and day) is a date exactly when it names
      a real day of a year from 100 on. */
  lemma {:induction false} YmdIff(y4: string, sep1: char, mon: string, sep2: char, day: string)
    requires YmdFields(y4, sep1, mon, sep2, day)
    ensures IsValidDate(YmdSpelled(y4, sep1, mon, sep2, day))
            <==> CalendarDate(DigitsValue(y4), DigitsValue(mon), DigitsValue(day))
  {
    var s := YmdSpelled(y4, sep1, mon, sep2, day);
    YmdSpelledShape(y4, sep1, mon, sep2, day);
    PlainText(s);
    assert s + "" == s;
    YmdTailIff(y4, sep1, mon, sep2, day, "", Bare);
  }

  /** Every spelling `d/M/yyyy` of pattern 2 is a date exactly when it names
      a real day of a year from 100 on. */
  lemma {:induction false} DmyIff(day: string, mon: string, y4: string)
    requires DmyFields(day, mon, y4)
    ensures IsValidDate(DmySpelled(day, mon, y4))
            <==> CalendarDate(DigitsValue(y4), DigitsValue(mon), DigitsValue(day))
  {
    var s := DmySpelled(day, mon, y4);
    DmySpelledShape(day, mon, y4);
    PlainText(s);
    assert s + "" == s;
    DmyTailIff(day, mon, y4, "", Bare);
  }

  /** A spelled `yyyy-M-d` followed by white space and a time `H:m:s` with
      one- or two-digit fields is accepted exactly when the date is real and
      the time is a time of day. */
  lemma {:induction false} YmdClockIff(y4: string, sep1: char, mon: string, sep2: char, day: string,
                                      ws: string, hh: string, mm: string, ss: string)
    requires YmdFields(y4, sep1, mon, sep2, day) && ClockFields(ws, hh, mm, ss)
    ensures IsValidDate(YmdSpelled(y4, sep1, mon, sep2, day) + ClockSpelled(ws, hh, mm, ss))
            <==> && CalendarDate(DigitsValue(y4), DigitsValue(mon), DigitsValue(day))
                 && DigitsValue(hh) <= 23 && DigitsValue(mm) <= 59 && DigitsValue(ss) <= 59
  {
    var p := YmdSpelled(y4, sep1, mon, sep2, day);
    var c := ClockSpelled(ws, hh, mm, ss);
    YmdSpelledShape(y4, sep1, mon, sep2, day);
    ClockSpelledParses(ws, hh, mm, ss);
    ClockSpelledShape(ws, hh, mm, ss);
    var t := p + c;
    assert t[0] == p[0] && t[|t| - 1] == c[|c| - 1];
    PlainText(t);
    YmdTailIff(y4, sep1, mon, sep2, day, c, Timed(Clock(DigitsValue(hh), DigitsValue(mm), DigitsValue(ss))));
  }

  /** The same for a spelled `d/M/yyyy` followed by a time. */
  lemma {:induction false} DmyClockIff(day: string, mon: string, y4: string,
                                      ws: string, hh: string, mm: string, ss: string)
    requires DmyFields(day, mon, y4) && ClockFields(ws, hh, mm, ss)
    ensures IsValidDate(DmySpelled(day, mon, y4) + ClockSpelled(ws, hh, mm, ss))
            <==> && CalendarDate(DigitsValue(y4), DigitsValue(mon), DigitsValue(day))
                 && DigitsValue(hh) <= 23 && DigitsValue(mm) <= 59 && DigitsValue(ss) <= 59
  {
    var p := DmySpelled(day, mon, y4);
    var c := ClockSpelled(ws, hh, mm, ss);
    DmySpelledShape(day, mon, y4);
    ClockSpelledParses(ws, hh, mm, ss);
    ClockSpelledShape(ws, hh, mm, ss);
    var t := p + c;
    assert t[0] == p[0] && t[|t| - 1] == c[|c| - 1];
    assert t[1] == p[1] && t[2] == p[2];
    PlainText(t);
    DmyTailIff(day, mon, y4, c, Timed(Clock(DigitsValue(hh), DigitsValue(mm), DigitsValue(ss))));
  }

  /** A spelled `yyyy-M-d` with an ISO suffix (a fraction of up to three
      digits; no zone, `Z`, or an offset with or without its colon) is
      accepted exactly when the date is real, the time is a time of day and
      any offset is at most 14:59. */
  lemma {:induction false} IsoIff(y4: string, sep1: char, mon: string, sep2: char, day: string,
                                 h: nat, mi: nat, s: nat, ms: string, z: Zone, colon: bool)
    requires YmdFields(y4, sep1, mon, sep2, day)
    requires h < 100 && mi < 100 && s < 100
    requires |ms| <= 3 && AllDigits(ms) && ZoneSpellable(z)
    ensures IsValidDate(YmdSpelled(y4, sep1, mon, sep2, day) + IsoSuffixText(h, mi, s, ms, z, colon))
            <==> && CalendarDate(DigitsValue(y4), DigitsValue(mon), DigitsValue(day))
                 && h <= 23 && mi <= 59 && s <= 59
                 && (z.Offset? ==> z.hours <= 14 && z.minutes <= 59)
  {
    var p := YmdSpelled(y4, sep1, mon, sep2, day);
    var x := IsoSuffixText(h, mi, s, ms, z, colon);
    YmdSpelledShape(y4, sep1, mon, sep2, day);
    IsoText(p, h, mi, s, ms, z, colon);
    MatchYmdSpelled(y4, sep1, mon, sep2, day, "");
    assert p + "" == p;
    assert (p + x)[..|p|] == p;
    MonthShapeRange(mon);
    DayShapeRange(day);
    DecideIso(p + x, |p|, IsoTime(h, mi, s, ms, z),
              DateMatch(DigitsValue(y4), DigitsValue(mon), DigitsValue(day), Bare));
  }

  /** The same for a spelled `d/M/yyyy` with an ISO suffix. */
  lemma {:induction false} DmyIsoIff(day: string, mon: string, y4: string,
                                    h: nat, mi: nat, s: nat, ms: string, z: Zone, colon: bool)
    requires DmyFields(day, mon, y4)
    requires h < 100 && mi < 100 && s < 100
    requires |ms| <= 3 && AllDigits(ms) && ZoneSpellable(z)
    ensures IsValidDate(DmySpelled(day, mon, y4) + IsoSuffixText(h, mi, s, ms, z, colon))
            <==> && CalendarDate(DigitsValue(y4), DigitsValue(mon), DigitsValue(day))
                 && h <= 23 && mi <= 59 && s <= 59
                 && (z.Offset? ==> z.hours <= 14 && z.minutes <= 59)
  {
    var p := DmySpelled(day, mon, y4);
    var x := IsoSuffixText(h, mi, s, ms, z, colon);
    DmySpelledShape(day, mon, y4);
    IsoText(p, h, mi, s, ms, z, colon);
    MatchDmySpelled(day, mon, y4, "");
    assert p + "" == p;
    assert (p + x)[..|p|] == p;
    SlashEarly(p);
    DecideIsoDmy(p + x, |p|, IsoTime(h, mi, s, ms, z),
                 DateMatch(DigitsValue(y4), DigitsValue(mon), DigitsValue(day), Bare));
  }

  /** When an ISO suffix is present, a time written before it is ignored: it
      is not range checked and does not change the verdict. */
  lemma {:induction false} IsoOverridesClock(y4: string, sep1: char, mon: string, sep2: char, day: string,
                                            ws: string, hh: string, mm: string, ss: string,
                                            h: nat, mi: nat, s: nat, ms: string, z: Zone, colon: bool)
    requires YmdFields(y4, sep1, mon, sep2, day) && ClockFields(ws, hh, mm, ss)
    requires h < 100 && mi < 100 && s < 100
    requires |ms| <= 3 && AllDigits(ms) && ZoneSpellable(z)
    ensures IsValidDate(YmdSpelled(y4, sep1, mon, sep2, day) + ClockSpelled(ws, hh, mm, ss)
                        + IsoSuffixText(h, mi, s, ms, z, colon))
            == IsValidDate(YmdSpelled(y4, sep1, mon, sep2, day) + IsoSuffixText(h, mi, s, ms, z, colon))
  {
    var d := YmdSpelled(y4, sep1, mon, sep2, day);
    var c := ClockSpelled(ws, hh, mm, ss);
    var p := d + c;
    var x := IsoSuffixText(h, mi, s, ms, z, colon);
    YmdSpelledShape(y4, sep1, mon, sep2, day);
    ClockSpelledParses(ws, hh, mm, ss);
    ClockSpelledShape(ws, hh, mm, ss);
    assert p[0] == d[0];
    IsoText(p, h, mi, s, ms, z, colon);
    MatchYmdSpelled(y4, sep1, mon, sep2, day, c);
    assert (p + x)[..|p|] == p;
    MonthShapeRange(mon);
    DayShapeRange(day);
    DecideIso(p + x, |p|, IsoTime(h, mi, s, ms, z),
              DateMatch(DigitsValue(y4), DigitsValue(mon), DigitsValue(day),
                        Timed(Clock(DigitsValue(hh), DigitsValue(mm), DigitsValue(ss)))));
    IsoIff(y4, sep1, mon, sep2, day, h, mi, s, ms, z, colon);
  }

  // Examples; `PadDigits(n, w)` spells `n` with `w` digits. Each example
  // text has a lemma of its own that first states the shapes of its fields
  // and whether it names a real day.

  /** `2024-02-29` is a date. */
  lemma {:induction false} LeapDay2024()
    ensures IsValidDate(YmdSpelled(PadDigits(2024, 4), '-', PadDigits(2, 2), '-', PadDigits(29, 2)))
  {
    assert MonthShape(PadDigits(2, 2));
    assert DayShape(PadDigits(29, 2));
    assert CalendarDate(2024, 2, 29);
    YmdIff(PadDigits(2024, 4), '-', PadDigits(2, 2), '-', PadDigits(29, 2));
  }

  /** `2023-02-29` is not. */
  lemma {:induction false} LeapDay2023()
    ensures !IsValidDate(YmdSpelled(PadDigits(2023, 4), '-', PadDigits(2, 2), '-', PadDigits(29, 2)))
  {
    assert MonthShape(PadDigits(2, 2));
    assert DayShape(PadDigits(29, 2));
    assert !CalendarDate(2023, 2, 29);
    YmdIff(PadDigits(2023, 4), '-', PadDigits(2, 2), '-', PadDigits(29, 2));
  }

  /** Leap days: `2024-02-29` is a date and `2023-02-29` is not. */
  lemma {:induction false} LeapDayExamples()
    ensures IsValidDate(YmdSpelled(PadDigits(2024, 4), '-', PadDigits(2, 2), '-', PadDigits(29, 2)))
    ensures !IsValidDate(YmdSpelled(PadDigits(2023, 4), '-', PadDigits(2, 2), '-', PadDigits(29, 2)))
  {
    LeapDay2024();
    LeapDay2023();
  }

  /** `2000/02/29` is a date. */
  lemma {:induction false} LeapDay2000()
    ensures IsValidDate(YmdSpelled(PadDigits(2000, 4), '/', PadDigits(2, 2), '/', PadDigits(29, 2)))
  {
    assert MonthShape(PadDigits(2, 2));
    assert DayShape(PadDigits(29, 2));
    assert CalendarDate(2000, 2, 29);
    YmdIff(PadDigits(2000, 4), '/', PadDigits(2, 2), '/', PadDigits(29, 2));
  }

  /** `1900-02-29` is not. */
  lemma {:induction false} LeapDay1900()
    ensures !IsValidDate(YmdSpelled(PadDigits(1900, 4), '-', PadDigits(2, 2), '-', PadDigits(29, 2)))
  {
    assert MonthShape(PadDigits(2, 2));
    assert DayShape(PadDigits(29, 2));
    assert !CalendarDate(1900, 2, 29);
    YmdIff(PadDigits(1900, 4), '-', PadDigits(2, 2), '-', PadDigits(29, 2));
  }

  /** Century years: `2000/02/29` is a date and `1900-02-29` is not. */
  lemma {:induction false} CenturyLeapDayExamples()
    ensures IsValidDate(YmdSpelled(PadDigits(2000, 4), '/', PadDigits(2, 2), '/', PadDigits(29, 2)))
    ensures !IsValidDate(YmdSpelled(PadDigits(1900, 4), '-', PadDigits(2, 2), '-', PadDigits(29, 2)))
  {
    LeapDay2000();
    LeapDay1900();
  }

  /** `2024-2/9` is a date. */
  lemma {:induction false} ShortFields2024()
    ensures IsValidDate(YmdSpelled(PadDigits(2024, 4), '-', PadDigits(2, 1), '/', PadDigits(9, 1)))
  {
    assert MonthShape(PadDigits(2, 1));
    assert DayShape(PadDigits(9, 1));
    assert CalendarDate(2024, 2, 9);
    YmdIff(PadDigits(2024, 4), '-', PadDigits(2, 1), '/', PadDigits(9, 1));
  }

  /** `2023-2-29` is not. */
  lemma {:induction false} ShortFields2023()
    ensures !IsValidDate(YmdSpelled(PadDigits(2023, 4), '-', PadDigits(2, 1), '-', PadDigits(29, 2)))
  {
    assert MonthShape(PadDigits(2, 1));
    assert DayShape(PadDigits(29, 2));
    assert !CalendarDate(2023, 2, 29);
    YmdIff(PadDigits(2023, 4), '-', PadDigits(2, 1), '-', PadDigits(29, 2));
  }

  /** One-digit fields and mixed separators: `2024-2/9` is a date and
      `2023-2-29` is not. */
  lemma {:induction false} ShortFieldExamples()
    ensures IsValidDate(YmdSpelled(PadDigits(2024, 4), '-', PadDigits(2, 1), '/', PadDigits(9, 1)))
    ensures !IsValidDate(YmdSpelled(PadDigits(2023, 4), '-', PadDigits(2, 1), '-', PadDigits(29, 2)))
  {
    ShortFields2024();
    ShortFields2023();
  }

  /** `0099-01-01` is rejected: years below 100 never round-trip through the
      Date constructor. */
  lemma {:induction false} ShortYearExample()
    ensures !IsValidDate(YmdSpelled(PadDigits(99, 4), '-', PadDigits(1, 2), '-', PadDigits(1, 2)))
  {
    assert MonthShape(PadDigits(1, 2));
    assert DayShape(PadDigits(1, 2));
    assert !CalendarDate(99, 1, 1);
    YmdIff(PadDigits(99, 4), '-', PadDigits(1, 2), '-', PadDigits(1, 2));
  }

  /** `31/12/2024` is a date. */
  lemma {:induction false} DayFirst31Dec()
    ensures IsValidDate(DmySpelled(PadDigits(31, 2), PadDigits(12, 2), PadDigits(2024, 4)))
  {
    assert DayShape(PadDigits(31, 2));
    assert MonthShape(PadDigits(12, 2));
    assert CalendarDate(2024, 12, 31);
    DmyIff(PadDigits(31, 2), PadDigits(12, 2), PadDigits(2024, 4));
  }

  /** `9/2/2024` is a date. */
  lemma {:induction false} DayFirst9Feb()
    ensures IsValidDate(DmySpelled(PadDigits(9, 1), PadDigits(2, 1), PadDigits(2024, 4)))
  {
    assert DayShape(PadDigits(9, 1));
    assert MonthShape(PadDigits(2, 1));
    assert CalendarDate(2024, 2, 9);
    DmyIff(PadDigits(9, 1), PadDigits(2, 1), PadDigits(2024, 4));
  }

  /** `31/04/2024` is not. */
  lemma {:induction false} DayFirst31Apr()
    ensures !IsValidDate(DmySpelled(PadDigits(31, 2), PadDigits(4, 2), PadDigits(2024, 4)))
  {
    assert DayShape(PadDigits(31, 2));
    assert MonthShape(PadDigits(4, 2));
    assert !CalendarDate(2024, 4, 31);
    DmyIff(PadDigits(31, 2), PadDigits(4, 2), PadDigits(2024, 4));
  }

  /** `31/12/2024` and `9/2/2024` are dates and `31/04/2024` is not. */
  lemma {:induction false} DayFirstExamples()
    ensures IsValidDate(DmySpelled(PadDigits(31, 2), PadDigits(12, 2), PadDigits(2024, 4)))
    ensures IsValidDate(DmySpelled(PadDigits(9, 1), PadDigits(2, 1), PadDigits(2024, 4)))
    ensures !IsValidDate(DmySpelled(PadDigits(31, 2), PadDigits(4, 2), PadDigits(2024, 4)))
  {
    DayFirst31Dec();
    DayFirst9Feb();
    DayFirst31Apr();
  }

  /** `2024-01-05 23:59:59` is a date. */
  lemma {:induction false} ClockLate()
    ensures IsValidDate(YmdSpelled(PadDigits(2024, 4), '-', PadDigits(1, 2), '-', PadDigits(5, 2))
                        + ClockSpelled(" ", PadDigits(23, 2), PadDigits(59, 2), PadDigits(59, 2)))
  {
    YmdClockIff(PadDigits(2024, 4), '-', PadDigits(1, 2), '-', PadDigits(5, 2),
                " ", PadDigits(23, 2), PadDigits(59, 2), PadDigits(59, 2));
  }

  /** `2024-01-05 9:5:7` is a date. */
  lemma {:induction false} ClockShort()
    ensures IsValidDate(YmdSpelled(PadDigits(2024, 4), '-', PadDigits(1, 2), '-', PadDigits(5, 2))
                        + ClockSpelled(" ", PadDigits(9, 1), PadDigits(5, 1), PadDigits(7, 1)))
  {
    assert ClockField(PadDigits(9, 1)) && ClockField(PadDigits(5, 1)) && ClockField(PadDigits(7, 1));
    YmdClockIff(PadDigits(2024, 4), '-', PadDigits(1, 2), '-', PadDigits(5, 2),
                " ", PadDigits(9, 1), PadDigits(5, 1), PadDigits(7, 1));
  }

  /** `2024-01-05 23:59:59` and `2024-01-05 9:5:7` are dates. */
  lemma {:induction false} ClockExamples()
    ensures IsValidDate(YmdSpelled(PadDigits(2024, 4), '-', PadDigits(1, 2), '-', PadDigits(5, 2))
                        + ClockSpelled(" ", PadDigits(23, 2), PadDigits(59, 2), PadDigits(59, 2)))
    ensures IsValidDate(YmdSpelled(PadDigits(2024, 4), '-', PadDigits(1, 2), '-', PadDigits(5, 2))
                        + ClockSpelled(" ", PadDigits(9, 1), PadDigits(5, 1), PadDigits(7, 1)))
  {
    ClockLate();
    ClockShort();
  }

  /** `2024-01-05 24:00:00` is not a date. */
  lemma {:induction false} ClockRangeExample()
    ensures !IsValidDate(YmdSpelled(PadDigits(2024, 4), '-', PadDigits(1, 2), '-', PadDigits(5, 2))
                        + ClockSpelled(" ", PadDigits(24, 2), PadDigits(0, 2), PadDigits(0, 2)))
  {
    YmdClockIff(PadDigits(2024, 4), '-', PadDigits(1, 2), '-', PadDigits(5, 2),
                " ", PadDigits(24, 2), PadDigits(0, 2), PadDigits(0, 2));
  }

  /** `2024-01-05T10:00:00.5+08:00` is a date. */
  lemma {:induction false} OffsetColon()
    ensures IsValidDate(YmdSpelled(PadDigits(2024, 4), '-', PadDigits(1, 2), '-', PadDigits(5, 2))
                        + IsoSuffixText(10, 0, 0, "5", Offset('+', 8, 0), true))
  {
    IsoIff(PadDigits(2024, 4), '-', PadDigits(1, 2), '-', PadDigits(5, 2), 10, 0, 0, "5", Offset('+', 8, 0), true);
  }

  /** `2024-01-05T10:00:00+0800` is a date. */
  lemma {:induction false} OffsetNoColon()
    ensures IsValidDate(YmdSpelled(PadDigits(2024, 4), '-', PadDigits(1, 2), '-', PadDigits(5, 2))
                        + IsoSuffixText(10, 0, 0, "", Offset('+', 8, 0), false))
  {
    IsoIff(PadDigits(2024, 4), '-', PadDigits(1, 2), '-', PadDigits(5, 2), 10, 0, 0, "", Offset('+', 8, 0), false);
  }

  /** `2024-01-05T10:00:00+15:00` is not. */
  lemma {:induction false} OffsetTooFar()
    ensures !IsValidDate(YmdSpelled(PadDigits(2024, 4), '-', PadDigits(1, 2), '-', PadDigits(5, 2))
                        + IsoSuffixText(10, 0, 0, "", Offset('+', 15, 0), true))
  {
    IsoIff(PadDigits(2024, 4), '-', PadDigits(1, 2), '-', PadDigits(5, 2), 10, 0, 0, "", Offset('+', 15, 0), true);
  }

  /** `2024-01-05T10:00:00.5+08:00` and `2024-01-05T10:00:00+0800` are dates
      and `2024-01-05T10:00:00+15:00` is not. */
  lemma {:induction false} OffsetExamples()
    ensures IsValidDate(YmdSpelled(PadDigits(2024, 4), '-', PadDigits(1, 2), '-', PadDigits(5, 2))
                        + IsoSuffixText(10, 0, 0, "5", Offset('+', 8, 0), true))
    ensures IsValidDate(YmdSpelled(PadDigits(2024, 4), '-', PadDigits(1, 2), '-', PadDigits(5, 2))
                        + IsoSuffixText(10, 0, 0, "", Offset('+', 8, 0), false))
    ensures !IsValidDate(YmdSpelled(PadDigits(2024, 4), '-', PadDigits(1, 2), '-', PadDigits(5, 2))
                         + IsoSuffixText(10, 0, 0, "", Offset('+', 15, 0), true))
  {
    OffsetColon();
    OffsetNoColon();
    OffsetTooFar();
  }

  /** `2024-01-05 99:99:99T10:00:00Z` is a date: the out-of-range time is
      ignored because of the ISO suffix. */
  lemma {:induction false} OverrideExample()
    ensures IsValidDate(YmdSpelled(PadDigits(2024, 4), '-', PadDigits(1, 2), '-', PadDigits(5, 2))
                        + ClockSpelled(" ", PadDigits(99, 2), PadDigits(99, 2), PadDigits(99, 2))
                        + IsoSuffixText(10, 0, 0, "", Zulu, true))
  {
    IsoOverridesClock(PadDigits(2024, 4), '-', PadDigits(1, 2), '-', PadDigits(5, 2),
                      " ", PadDigits(99, 2), PadDigits(99, 2), PadDigits(99, 2), 10, 0, 0, "", Zulu, true);
    IsoIff(PadDigits(2024, 4), '-', PadDigits(1, 2), '-', PadDigits(5, 2), 10, 0, 0, "", Zulu, true);
  }

  // Helpers for the properties above.

  lemma {:induction false} PlainText(s: string)
    requires |s| > 0 && IsDigit(s[0]) && IsDigit(s[|s| - 1]) && 'T' !in s
    ensures Trim(s) == s && FindIso(s, 0).None?
  {
    TrimSolid(s);
    NoIsoWithoutT(s, 0);
  }

  lemma {:induction false} DigitsHaveNoT(s: string)
    requires AllDigits(s)
    ensures 'T' !in s
  {
  }

  lemma {:induction false} WhitespaceHasNoT(s: string)
    requires AllWhitespace(s)
    ensures 'T' !in s
  {
  }

  /** The spelled dates start and end with a digit and contain no `T`. */
  lemma {:induction false} YmdSpelledShape(y4: string, sep1: char, mon: string, sep2: char, day: string)
    requires YmdFields(y4, sep1, mon, sep2, day)
    ensures var s := YmdSpelled(y4, sep1, mon, sep2, day);
            |s| > 0 && IsDigit(s[0]) && IsDigit(s[|s| - 1]) && 'T' !in s
  {
    MonthShapeRange(mon);
    DayShapeRange(day);
    DigitsHaveNoT(y4);
    DigitsHaveNoT(mon);
    DigitsHaveNoT(day);
    var s := YmdSpelled(y4, sep1, mon, sep2, day);
    assert s[0] == y4[0] && s[|s| - 1] == day[|day| - 1];
  }

  lemma {:induction false} DmySpelledShape(day: string, mon: string, y4: string)
    requires DmyFields(day, mon, y4)
    ensures var s := DmySpelled(day, mon, y4);
            && |s| > 2 && IsDigit(s[0]) && IsDigit(s[|s| - 1]) && 'T' !in s
            && (s[1] == '/' || s[2] == '/')
  {
    MonthShapeRange(mon);
    DayShapeRange(day);
    DigitsHaveNoT(y4);
    DigitsHaveNoT(mon);
    DigitsHaveNoT(day);
    var s := DmySpelled(day, mon, y4);
    assert s[0] == day[0] && s[|s| - 1] == y4[3] && s[|day|] == '/';
  }

  /** A slash at index 1 or 2 rules out pattern 1. */
  lemma {:induction false} SlashEarly(s: string)
    requires |s| > 2 && (s[1] == '/' || s[2] == '/')
    ensures MatchYmd(s).None?
  {
    if |s| >= 5 {
      assert !IsDigit(s[..4][1]) || !IsDigit(s[..4][2]);
    }
  }

  /** Pattern 1's verdict on a spelled date followed by a tail it accepts. */
  lemma {:induction false} YmdTailIff(y4: string, sep1: char, mon: string, sep2: char, day: string, r: string, tail: Tail)
    requires YmdFields(y4, sep1, mon, sep2, day) && TailStart(r) && ParseTail(r) == Some(tail)
    requires var t := YmdSpelled(y4, sep1, mon, sep2, day) + r; Trim(t) == t && FindIso(t, 0).None?
    ensures IsValidDate(YmdSpelled(y4, sep1, mon, sep2, day) + r)
            <==> && CalendarDate(DigitsValue(y4), DigitsValue(mon), DigitsValue(day))
                 && (tail.Timed? ==> tail.clock.h <= 23 && tail.clock.m <= 59 && tail.clock.s <= 59)
  {
    MatchYmdSpelled(y4, sep1, mon, sep2, day, r);
    MonthShapeRange(mon);
    DayShapeRange(day);
    DecideBare(DateMatch(DigitsValue(y4), DigitsValue(mon), DigitsValue(day), tail),
               YmdSpelled(y4, sep1, mon, sep2, day) + r);
  }

  /** Pattern 2's verdict on a spelled date followed by a tail it accepts. */
  lemma {:induction false} DmyTailIff(day: string, mon: string, y4: string, r: string, tail: Tail)
    requires DmyFields(day, mon, y4) && TailStart(r) && ParseTail(r) == Some(tail)
    requires var t := DmySpelled(day, mon, y4) + r; Trim(t) == t && FindIso(t, 0).None?
    ensures IsValidDate(DmySpelled(day, mon, y4) + r)
            <==> && CalendarDate(DigitsValue(y4), DigitsValue(mon), DigitsValue(day))
                 && (tail.Timed? ==> tail.clock.h <= 23 && tail.clock.m <= 59 && tail.clock.s <= 59)
  {
    var t := DmySpelled(day, mon, y4) + r;
    MatchDmySpelled(day, mon, y4, r);
    DmySpelledShape(day, mon, y4);
    assert t[1] == DmySpelled(day, mon, y4)[1] && t[2] == DmySpelled(day, mon, y4)[2];
    SlashEarly(t);
    DecideBareDmy(DateMatch(DigitsValue(y4), DigitsValue(mon), DigitsValue(day), tail), t);
  }

  lemma {:induction false} NoIsoWithoutT(s: string, p: nat)
    requires p <= |s| && 'T' !in s
    ensures FindIso(s, p).None?
    decreases |s| - p
  {
    if p < |s| {
      assert s[p..][0] == s[p];
      NoIsoWithoutT(s, p + 1);
    }
  }

  lemma {:induction false} FindIsoAfter(s: string, p: nat, k: nat)
    requires p <= k < |s|
    requires forall i :: p <= i < k ==> s[i] != 'T'
    requires ParseIsoSuffix(s[k..]).Some?
    ensures FindIso(s, p) == Some((k, ParseIsoSuffix(s[k..]).value))
    decreases k - p
  {
    if p < k {
      assert s[p..][0] == s[p];
      FindIsoAfter(s, p + 1, k);
    }
  }

  lemma {:induction false} Pad2Chars(n: nat)
    requires n < 100
    ensures Pad2(n) == [DigitChar(n / 10), DigitChar(n % 10)]
  {
    assert PadDigits(n / 10, 1) == PadDigits(n / 10 / 10, 0) + [DigitChar(n / 10 % 10)];
  }

  lemma {:induction false} DigitRunExact(s: string, i: nat, k: nat)
    requires i + k <= |s| && AllDigits(s[i..i + k])
    requires i + k == |s| || !IsDigit(s[i + k])
    ensures DigitRun(s, i) == k
    decreases k
  {
    if k > 0 {
      assert IsDigit(s[i..i + k][0]);
      assert s[i + 1..i + k] == s[i..i + k][1..];
      DigitRunExact(s, i + 1, k - 1);
    }
  }

  /** With the date decided by the plain text alone (no ISO suffix), the
      validator's verdict is whether the first pattern's match is accepted. */
  lemma {:induction false} DecideBare(dm: DateMatch, s: string)
    requires Trim(s) == s && |s| > 0 && FindIso(s, 0).None?
    requires MatchYmd(s) == Some(dm) && 1 <= dm.month <= 12 && 1 <= dm.day <= 31
    ensures IsValidDate(s) <==> CalendarDate(dm.year, dm.month, dm.day)
                                && (dm.tail.Timed? ==> dm.tail.clock.h <= 23 && dm.tail.clock.m <= 59 && dm.tail.clock.s <= 59)
  {
    ValidDateWithoutIso(s);
    DecideCases(dm, None);
    PatternsFirst(s, None, dm);
  }

  /** The same when only the second pattern matches. */
  lemma {:induction false} DecideBareDmy(dm: DateMatch, s: string)
    requires Trim(s) == s && |s| > 0 && FindIso(s, 0).None?
    requires MatchYmd(s).None? && MatchDmy(s) == Some(dm)
    ensures IsValidDate(s) <==> CalendarDate(dm.year, dm.month, dm.day)
                                && (dm.tail.Timed? ==> dm.tail.clock.h <= 23 && dm.tail.clock.m <= 59 && dm.tail.clock.s <= 59)
  {
    ValidDateWithoutIso(s);
    DecideCases(dm, None);
  }

  lemma {:induction false} ValidDateWithoutIso(s: string)
    requires Trim(s) == s && |s| > 0 && FindIso(s, 0).None?
    ensures IsValidDate(s) == MatchPatterns(s, None)
  {
  }

  /** With an ISO suffix after a date part that the first pattern matches,
      the verdict is the suffix's range check together with the calendar
      check; a time before the suffix plays no part. */
  lemma {:induction false} DecideIso(s: string, idx: nat, t: IsoTime, dm: DateMatch)
    requires Trim(s) == s && |s| > 0 && FindIso(s, 0) == Some((idx, t))
    requires idx <= |s| && MatchYmd(s[..idx]) == Some(dm) && 1 <= dm.month <= 12 && 1 <= dm.day <= 31
    ensures |t.msDigits| <= 3 && AllDigits(t.msDigits)
    ensures IsValidDate(s) <==> && t.h <= 23 && t.m <= 59 && t.s <= 59
                                && (t.zone.Offset? ==> t.zone.hours <= 14 && t.zone.minutes <= 59)
                                && CalendarDate(dm.year, dm.month, dm.day)
  {
    ValidDateWithIso(s, idx, t);
    if IsoInRange(t) {
      var iso := Some(Time(t.h, t.m, t.s, Millis(t.msDigits)));
      DecideCases(dm, iso);
      PatternsFirst(s[..idx], iso, dm);
    }
  }

  /** The same when only the second pattern matches the date part. */
  lemma {:induction false} DecideIsoDmy(s: string, idx: nat, t: IsoTime, dm: DateMatch)
    requires Trim(s) == s && |s| > 0 && FindIso(s, 0) == Some((idx, t))
    requires idx <= |s| && MatchYmd(s[..idx]).None? && MatchDmy(s[..idx]) == Some(dm)
    ensures |t.msDigits| <= 3 && AllDigits(t.msDigits)
    ensures IsValidDate(s) <==> && t.h <= 23 && t.m <= 59 && t.s <= 59
                                && (t.zone.Offset? ==> t.zone.hours <= 14 && t.zone.minutes <= 59)
                                && CalendarDate(dm.year, dm.month, dm.day)
  {
    ValidDateWithIso(s, idx, t);
    if IsoInRange(t) {
      DecideCases(dm, Some(Time(t.h, t.m, t.s, Millis(t.msDigits))));
    }
  }

  lemma {:induction false} ValidDateWithIso(s: string, idx: nat, t: IsoTime)
    requires Trim(s) == s && |s| > 0 && FindIso(s, 0) == Some((idx, t))
    ensures |t.msDigits| <= 3 && AllDigits(t.msDigits) && idx <= |s|
    ensures IsValidDate(s) == (IsoInRange(t) && MatchPatterns(s[..idx], Some(Time(t.h, t.m, t.s, Millis(t.msDigits)))))
  {
  }

  /** `Decide` rejects on a bad time of day or a day outside the month, and
      otherwise accepts exactly the years from 100 on. */
  lemma {:induction false} DecideCases(dm: DateMatch, iso: Option<Time>)
    requires iso.Some? ==> TimeInRange(iso.value)
    ensures Decide(dm, iso)
            == if TimeOf(dm, iso).None? || !(1 <= dm.month <= 12)
                  || !(1 <= dm.day <= DaysInMonth(JsYear(dm.year), dm.month)) then Reject
               else if dm.year >= 100 then Accept
               else NextPattern
  {
  }

  /** When the first pattern matches and its outcome is final, the second
      pattern is never consulted; when it is not final, the second pattern,
      which cannot match then, gives false. */
  lemma {:induction false} PatternsFirst(part: string, iso: Option<Time>, dm: DateMatch)
    requires iso.Some? ==> TimeInRange(iso.value)
    requires MatchYmd(part) == Some(dm)
    ensures MatchPatterns(part, iso) == (Decide(dm, iso) == Accept)
  {
    PatternsExclusive(part);
  }

  /** No text matches both date patterns. */
  lemma {:induction false} PatternsExclusive(s: string)
    ensures MatchYmd(s).None? || MatchDmy(s).None?
  {
    if MatchYmd(s).Some? {
      assert s[1] != '/' && s[2] != '/' by {
        assert IsDigit(s[..4][1]) && IsDigit(s[..4][2]);
      }
    }
  }

  lemma {:induction false} IsoText(p: string, h: nat, mi: nat, s: nat, ms: string, z: Zone, colon: bool)
    requires h < 100 && mi < 100 && s < 100
    requires |ms| <= 3 && AllDigits(ms) && ZoneSpellable(z)
    requires |p| > 0 && IsDigit(p[0]) && 'T' !in p
    ensures var t := p + IsoSuffixText(h, mi, s, ms, z, colon);
            Trim(t) == t && FindIso(t, 0) == Some((|p|, IsoTime(h, mi, s, ms, z)))
  {
    var x := IsoSuffixText(h, mi, s, ms, z, colon);
    var t := p + x;
    IsoSuffixParses(h, mi, s, ms, z, colon);
    assert t[|t| - 1] == x[|x| - 1];
    assert t[0] == p[0];
    TrimSolid(t);
    NoTBefore(p, x);
    FindIsoAfter(t, 0, |p|);
  }

  lemma {:induction false} NoTBefore(p: string, x: string)
    requires 'T' !in p
    ensures (p + x)[|p|..] == x
    ensures forall i :: 0 <= i < |p| ==> (p + x)[i] != 'T'
  {
    forall i | 0 <= i < |p| ensures (p + x)[i] != 'T' {
      assert (p + x)[i] == p[i] && p[i] in p;
    }
  }

  lemma {:induction false} TrimSolid(t: string)
    requires |t| > 0 && IsDigit(t[0]) && (IsDigit(t[|t| - 1]) || t[|t| - 1] == 'Z')
    ensures Trim(t) == t
  {
    TrimNoOp(t);
  }

  lemma {:induction false} IsoSuffixParses(h: nat, mi: nat, s: nat, ms: string, z: Zone, colon: bool)
    requires h < 100 && mi < 100 && s < 100
    requires |ms| <= 3 && AllDigits(ms) && ZoneSpellable(z)
    ensures var x := IsoSuffixText(h, mi, s, ms, z, colon);
            ParseIsoSuffix(x) == Some(IsoTime(h, mi, s, ms, z))
            && (IsDigit(x[|x| - 1]) || x[|x| - 1] == 'Z')
  {
    var x := IsoSuffixText(h, mi, s, ms, z, colon);
    var f := if |ms| > 0 then "." + ms else "";
    var zt := ZoneText(z, colon);
    var c := ClockText(h, mi, s);
    SplitAfterClock(x, c, f, zt);
    ClockDigits(h, mi, s, x, 1);
    FractionZoneParses(ms, z, colon);
    ParseIsoSuffixOf(x, h, mi, s, ms, z);
    IsoSuffixLast(x, c, f, zt, ms, z, colon);
  }

  /** `ParseIsoSuffix` in terms of its clock digits and the rest. */
  lemma {:induction false} ParseIsoSuffixOf(x: string, h: nat, mi: nat, s: nat, ms: string, z: Zone)
    requires |x| >= 9 && x[0] == 'T' && x[3] == ':' && x[6] == ':'
    requires TwoDigitsAt(x, 1) && TwoDigitsAt(x, 4) && TwoDigitsAt(x, 7)
    requires TwoDigitValue(x, 1) == h && TwoDigitValue(x, 4) == mi && TwoDigitValue(x, 7) == s
    requires ParseFractionZone(x[9..]) == Some((ms, z))
    ensures ParseIsoSuffix(x) == Some(IsoTime(h, mi, s, ms, z))
  {
  }

  lemma {:induction false} SplitAfterClock(x: string, c: string, f: string, zt: string)
    requires |c| == 8 && x == "T" + c + f + zt
    ensures |x| >= 9 && x[0] == 'T' && x[1..9] == c && x[9..] == f + zt
    ensures x == "T" + c + (f + zt)
  {
  }

  lemma {:induction false} IsoSuffixLast(x: string, c: string, f: string, zt: string, ms: string, z: Zone, colon: bool)
    requires |c| == 8 && IsDigit(c[7]) && AllDigits(ms) && ZoneSpellable(z) && zt == ZoneText(z, colon)
    requires f == if |ms| > 0 then "." + ms else ""
    requires x == "T" + c + (f + zt)
    ensures IsDigit(x[|x| - 1]) || x[|x| - 1] == 'Z'
  {
    ZoneTextParses(z, colon);
    if |zt| == 0 {
      if |ms| == 0 {
        assert x[|x| - 1] == c[7];
      } else {
        assert x[|x| - 1] == ms[|ms| - 1];
      }
    } else {
      assert x[|x| - 1] == zt[|zt| - 1];
    }
  }

  /** The clock `HH:mm:ss` written at index `i` of `x` reads back as its values. */
  lemma {:induction false} ClockDigits(h: nat, mi: nat, s: nat, x: string, i: nat)
    requires h < 100 && mi < 100 && s < 100
    requires i + 8 <= |x| && x[i..i + 8] == ClockText(h, mi, s)
    ensures TwoDigitsAt(x, i) && TwoDigitsAt(x, i + 3) && TwoDigitsAt(x, i + 6)
    ensures x[i + 2] == ':' && x[i + 5] == ':'
    ensures TwoDigitValue(x, i) == h && TwoDigitValue(x, i + 3) == mi && TwoDigitValue(x, i + 6) == s
  {
    Pad2Chars(h);
    Pad2Chars(mi);
    Pad2Chars(s);
    var c := x[i..i + 8];
    assert x[i] == c[0] && x[i + 1] == c[1] && x[i + 2] == c[2];
    assert x[i + 3] == c[3] && x[i + 4] == c[4] && x[i + 5] == c[5];
    assert x[i + 6] == c[6] && x[i + 7] == c[7];
  }

  /** The zone group reads every spelled zone back, with or without the
      offset's colon. */
  lemma {:induction false} ZoneTextParses(z: Zone, colon: bool)
    requires ZoneSpellable(z)
    ensures var zt := ZoneText(z, colon);
            && ParseZone(zt) == Some(z)
            && (|zt| == 0 || (!IsDigit(zt[0]) && zt[0] != '.'))
            && (|zt| > 0 ==> IsDigit(zt[|zt| - 1]) || zt[|zt| - 1] == 'Z')
  {
    if z.Offset? {
      Pad2Chars(z.hours);
      Pad2Chars(z.minutes);
    }
  }

  lemma {:induction false} FractionZoneParses(ms: string, z: Zone, colon: bool)
    requires |ms| <= 3 && AllDigits(ms) && ZoneSpellable(z)
    ensures ParseFractionZone((if |ms| > 0 then "." + ms else "") + ZoneText(z, colon)) == Some((ms, z))
  {
    var zt := ZoneText(z, colon);
    ZoneTextParses(z, colon);
    if |ms| > 0 {
      FractionParses(ms, zt);
    } else {
      assert "" + zt == zt;
      NoFractionParses(zt);
    }
  }

  /** A fraction of one to three digits followed by text that does not
      start with a digit. */
  lemma {:induction false} FractionParses(ms: string, zt: string)
    requires 1 <= |ms| <= 3 && AllDigits(ms) && (|zt| == 0 || !IsDigit(zt[0]))
    ensures ParseFractionZone("." + ms + zt)
            == match ParseZone(zt) case None => None case Some(z) => Some((ms, z))
  {
    var rest := "." + ms + zt;
    assert rest[1..1 + |ms|] == ms;
    DigitRunExact(rest, 1, |ms|);
    assert rest[1 + |ms|..] == zt;
  }

  lemma {:induction false} NoFractionParses(zt: string)
    requires |zt| == 0 || zt[0] != '.'
    ensures ParseFractionZone(zt)
            == match ParseZone(zt) case None => None case Some(z) => Some(("", z))
  {
  }

  // The ISO groups read off the text: every suffix the pattern accepts is a
  // spelling of its captures.

  /** Whether a zone text is written with the offset's colon: `±HH:mm` has
      the colon three characters from its end, `±HHmm` a digit there. */
  predicate ZoneColon(z: string)
  {
    |z| >= 3 && z[|z| - 3] == ':'
  }

  /** The two digits at `i` are the two-digit spelling of their value. */
  lemma {:induction false} TwoDigitsPad(r: string, i: nat)
    requires TwoDigitsAt(r, i)
    ensures Pad2(TwoDigitValue(r, i)) == r[i..i + 2]
  {
    var v := TwoDigitValue(r, i);
    Pad2Chars(v);
    assert v / 10 == DigitValue(r[i]) && v % 10 == DigitValue(r[i + 1]);
  }

  /** A zone the zone group accepts is the spelling of what it captures,
      with the colon exactly when the text has one. */
  lemma {:induction false} ParseZoneCaptures(z: string)
    ensures ParseZone(z).Some? ==> ZoneSpellable(ParseZone(z).value)
                                    && z == ZoneText(ParseZone(z).value, ZoneColon(z))
  {
    if ParseZone(z).Some? && |z| != 0 && z != "Z" {
      TwoDigitsPad(z, 1);
      if |z| == 5 {
        TwoDigitsPad(z, 3);
        assert z == [z[0]] + z[1..3] + "" + z[3..5];
      } else {
        TwoDigitsPad(z, 4);
        assert z == [z[0]] + z[1..3] + ":" + z[4..6];
      }
    }
  }

  /** The fraction and zone groups likewise. */
  lemma {:induction false} ParseFractionZoneCaptures(rest: string)
    ensures ParseFractionZone(rest).Some? ==>
              var ms := ParseFractionZone(rest).value.0;
              var zone := ParseFractionZone(rest).value.1;
              && ZoneSpellable(zone)
              && rest == (if |ms| > 0 then "." + ms else "") + ZoneText(zone, ZoneColon(rest))
  {
    if |rest| > 0 && rest[0] == '.' {
      var k := DigitRun(rest, 1);
      if 1 <= k <= 3 {
        var zoneText := rest[1 + k..];
        FractionSplit(rest, k);
        if ParseZone(zoneText).Some? {
          var zone := ParseZone(zoneText).value;
          ParseZoneCaptures(zoneText);
          ZoneTextSplit(rest, "." + rest[1..1 + k], zoneText, zone);
        }
      }
    } else if ParseZone(rest).Some? {
      var zone := ParseZone(rest).value;
      assert ParseFractionZone(rest) == Some(("", zone));
      ParseZoneCaptures(rest);
      ZoneTextSplit(rest, "", rest, zone);
    }
  }

  /** `ParseFractionZone` on a text with a fraction of `k` digits. */
  lemma {:induction false} FractionSplit(rest: string, k: nat)
    requires |rest| > 0 && rest[0] == '.' && k == DigitRun(rest, 1) && 1 <= k <= 3
    ensures rest == "." + rest[1..1 + k] + rest[1 + k..]
    ensures ParseFractionZone(rest)
            == match ParseZone(rest[1 + k..]) case None => None case Some(z) => Some((rest[1..1 + k], z))
  {
  }

  /** A zone text read back at the end of `rest` keeps its spelling there,
      with the colon seen from the end of `rest`. */
  lemma {:induction false} ZoneTextSplit(rest: string, f: string, zoneText: string, zone: Zone)
    requires rest == f + zoneText && ZoneSpellable(zone)
    requires zoneText == ZoneText(zone, ZoneColon(zoneText))
    ensures rest == f + ZoneText(zone, ZoneColon(rest))
  {
    if zone.Offset? {
      assert |zoneText| >= 5;
      assert rest[|rest| - 3] == zoneText[|zoneText| - 3];
    }
  }

  /** A suffix the ISO pattern accepts is the spelling of its captures: the
      clock fields are the values of its two-digit groups, the fraction its
      digits, and the zone what the zone group captured. */
  lemma {:induction false} ParseIsoSuffixCaptures(r: string)
    ensures ParseIsoSuffix(r).Some? ==>
              var t := ParseIsoSuffix(r).value;
              && ZoneSpellable(t.zone)
              && r == IsoSuffixText(t.h, t.m, t.s, t.msDigits, t.zone, ZoneColon(r))
  {
    if ParseIsoSuffix(r).Some? {
      var t := ParseIsoSuffix(r).value;
      IsoSuffixGroups(r, t);
      ClockTextOf(r);
      ParseFractionZoneCaptures(r[9..]);
      var f := if |t.msDigits| > 0 then "." + t.msDigits else "";
      IsoColon(r, r[9..], t.zone, f);
      IsoSuffixAssemble(r, t.h, t.m, t.s, t.msDigits, t.zone, ZoneColon(r));
    }
  }

  /** The groups of an accepted suffix. */
  lemma {:induction false} IsoSuffixGroups(r: string, t: IsoTime)
    requires ParseIsoSuffix(r) == Some(t)
    ensures |r| >= 9 && r[0] == 'T' && r[3] == ':' && r[6] == ':'
    ensures TwoDigitsAt(r, 1) && TwoDigitsAt(r, 4) && TwoDigitsAt(r, 7)
    ensures t.h == TwoDigitValue(r, 1) && t.m == TwoDigitValue(r, 4) && t.s == TwoDigitValue(r, 7)
    ensures ParseFractionZone(r[9..]) == Some((t.msDigits, t.zone))
  {
  }

  /** Two-digit groups at 1, 4 and 7 separated by colons spell a clock. */
  lemma {:induction false} ClockTextOf(r: string)
    requires |r| >= 9 && r[3] == ':' && r[6] == ':'
    requires TwoDigitsAt(r, 1) && TwoDigitsAt(r, 4) && TwoDigitsAt(r, 7)
    ensures r[1..9] == ClockText(TwoDigitValue(r, 1), TwoDigitValue(r, 4), TwoDigitValue(r, 7))
  {
    TwoDigitsPad(r, 1);
    TwoDigitsPad(r, 4);
    TwoDigitsPad(r, 7);
    assert r[1..9] == r[1..3] + ":" + r[4..6] + ":" + r[7..9];
  }

  lemma {:induction false} IsoSuffixAssemble(r: string, h: nat, mi: nat, s: nat, ms: string, z: Zone, colon: bool)
    requires h < 100 && mi < 100 && s < 100
    requires |ms| <= 3 && AllDigits(ms) && ZoneSpellable(z)
    requires |r| >= 9 && r[0] == 'T' && r[1..9] == ClockText(h, mi, s)
    requires r[9..] == (if |ms| > 0 then "." + ms else "") + ZoneText(z, colon)
    ensures r == IsoSuffixText(h, mi, s, ms, z, colon)
  {
    assert r == [r[0]] + r[1..9] + r[9..];
  }

  lemma {:induction false} IsoColon(r: string, rest: string, zone: Zone, f: string)
    requires |r| >= 9 && rest == r[9..] && ZoneSpellable(zone)
    requires rest == f + ZoneText(zone, ZoneColon(rest))
    ensures rest == f + ZoneText(zone, ZoneColon(r))
  {
    if |rest| >= 3 {
      assert r[|r| - 3] == rest[|rest| - 3];
    }
  }
}
