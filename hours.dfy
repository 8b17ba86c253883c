/**
 * The opening-hours card of a pub page: clock strings to minutes and back,
 * whether "now" falls in a range (ranges may wrap midnight), the open/closed
 * badge with the next change, and the 96-bucket timeline of today.
 * JavaScript numbers are reals; `None` stands for NaN.
 */
module OperatingHours {
  import opened Wrappers
  import opened Text

  /** One opening window, as the schedule stores it ("12:00 PM" to "1:00 AM"). */
  datatype TimeRange = TimeRange(open: string, close: string, servingUntil: Option<string>)

  /** Weekday (0 = Sunday) to that day's windows. */
  type Schedule = map<int, seq<TimeRange>>

  const MinutesPerDay: int := 1440

  // ---------------------------------------------------------------------------
  // Clock strings

  /**
   * `parseTimeToMinutes`: split on a space, read "hh:mm", take the hour
   * modulo 12 (JavaScript's remainder) and add 12 for "PM"; a missing, zero or
   * unreadable minute part counts as 0, an unreadable hour gives NaN.
   */
  function ParseTimeToMinutes(timeStr: string): Option<real> {
    var parts := Split(timeStr, ' ');
    var pm := |parts| > 1 && Upper(Trim(parts[1])) == "PM";
    ClockMinutes(Trim(parts[0]), pm)
  }

  /** The "hh:mm" part of `parseTimeToMinutes`, given whether the meridiem read "PM". */
  function ClockMinutes(time: string, pm: bool): Option<real> {
    ClockValue(Split(time, ':'), pm)
  }

  /** The hour and minute pieces of a clock, read as numbers. */
  function ClockValue(clock: seq<string>, pm: bool): Option<real>
    requires |clock| >= 1
  {
    ClockOfNumbers(JsNumber(clock[0]), if |clock| > 1 then JsNumber(clock[1]) else None, pm)
  }

  /** An unreadable hour gives NaN; a missing, unreadable or zero minute counts as 0. */
  function ClockOfNumbers(hh: Option<real>, mm: Option<real>, pm: bool): Option<real> {
    var minutes := if mm.Some? && mm.value != 0.0 then mm.value else 0.0;
    match hh
    case None => None
    case Some(h) => Some(DialMinutes(h, minutes, pm))
  }

  /** Minutes since midnight of an hour on the 12-hour dial (taken modulo 12) and its minutes. */
  function DialMinutes(h: real, minutes: real, pm: bool): real {
    (JsRem(h, 12.0) + (if pm then 12.0 else 0.0)) * 60.0 + minutes
  }

  /** The hour on a 12-hour dial: 0 and 12 show as 12. */
  function Hour12(hh: int): (h: int)
    requires 0 <= hh < 24
    ensures 1 <= h <= 12
    ensures h % 12 == hh % 12
  {
    (hh + 11) % 12 + 1
  }

  /**
   * `minutesToClock`: the hour of the day modulo 24 on a 12-hour dial, the
   * minutes padded to two digits, and "PM" from hour 12 on.
   */
  function MinutesToClock(minutes: real): string {
    var hh := JsRem((minutes / 60.0).Floor as real, 24.0);
    var mm := JsRem(minutes, 60.0);
    var ampm := if hh >= 12.0 then "PM" else "AM";
    var h12 := JsRem(hh + 11.0, 12.0) + 1.0;
    NumberText(h12) + ":" + PadStart2(NumberText(mm)) + " " + ampm
  }

  /** JavaScript's remainder of two non-negative whole numbers is the integer remainder. */
  lemma JsRemNat(x: nat, d: nat)
    requires d > 0
    ensures JsRem(x as real, d as real) == (x % d) as real
  {
    var q, r := x / d, x % d;
    assert x == q * d + r;
    assert (x as real) == (q as real) * (d as real) + (r as real);
    assert (x as real) / (d as real) == q as real + (r as real) / (d as real);
    assert 0.0 <= (r as real) / (d as real) < 1.0;
    FloorUnique((x as real) / (d as real), q);
  }

  /** A whole non-negative number prints as its digits. */
  lemma NumberTextNat(n: nat)
    ensures NumberText(n as real) == NatToString(n)
  {
    assert (n as real).Floor == n;
  }

  /** The hour, minute and dial hour `minutesToClock` computes for a minute of the day. */
  lemma ClockParts(m: nat)
    requires m < MinutesPerDay
    ensures JsRem((m as real / 60.0).Floor as real, 24.0) == (m / 60) as real
    ensures JsRem(m as real, 60.0) == (m % 60) as real
    ensures JsRem((m / 60) as real + 11.0, 12.0) + 1.0 == Hour12(m / 60) as real
  {
    var hour := m / 60;
    assert (m as real / 60.0).Floor == hour by {
      assert m == hour * 60 + m % 60;
      FloorUnique(m as real / 60.0, hour);
    }
    JsRemNat(hour, 24);
    JsRemNat(m, 60);
    JsRemNat(hour + 11, 12);
    assert (hour + 11) as real == hour as real + 11.0;
  }

  /** The clock string of a minute of the day, spelled out in integers. */
  lemma ClockOfMinute(m: nat)
    requires m < MinutesPerDay
    ensures MinutesToClock(m as real)
         == NatToString(Hour12(m / 60)) + ":" + PadStart2(NatToString(m % 60)) + " "
            + (if m / 60 >= 12 then "PM" else "AM")
  {
    ClockParts(m);
    NumberTextNat(Hour12(m / 60));
    NumberTextNat(m % 60);
  }

  /** `s.split(" ")` of two space-free pieces joined by one space. */
  lemma SplitTwo(a: string, b: string, c: char)
    requires c !in a && c !in b
    ensures Split(a + [c] + b, c) == [a, b]
  {
    var s := a + [c] + b;
    assert IndexOf(s, c) == |a| by {
      assert s[|a|] == c;
      forall j | 0 <= j < |a| ensures s[j] != c { assert s[j] == a[j]; }
      IndexOfFirst(s, c, |a|);
    }
    assert s[..|a|] == a;
    assert s[|a| + 1..] == b;
    IndexOfAbsent(b, c);
    assert b[..|b|] == b;
  }

  lemma IndexOfFirst(s: string, c: char, k: nat)
    requires k < |s| && s[k] == c
    requires forall j :: 0 <= j < k ==> s[j] != c
    ensures IndexOf(s, c) == k
  {
    if k > 0 {
      IndexOfFirst(s[1..], c, k - 1);
    }
  }

  lemma DigitsHaveNo(s: string, c: char)
    requires AllDigits(s) && !IsDigit(c)
    ensures c !in s
  {
  }

  lemma TrimmedWithoutSpaces(s: string)
    requires forall i :: 0 <= i < |s| ==> !IsSpace(s[i])
    ensures Trim(s) == s
  {
    TrimOfTrimmed(s);
  }

  /** "a:b" read as a clock, for an hour text and a minute text that each read as a number. */
  lemma ClockValueOfParts(a: string, b: string, pm: bool)
    ensures ClockValue([a, b], pm) == ClockOfNumbers(JsNumber(a), JsNumber(b), pm)
  {
    var c := [a, b];
    assert c[0] == a && c[1] == b;
  }

  lemma PaddedDigits(m: nat)
    ensures AllDigits(PadStart2(NatToString(m)))
  {
    var t := NatToString(m);
    assert PadStart2(t) == t || PadStart2(t) == "0" + t;
  }

  /** "h:mm" splits at its colon. */
  lemma ClockSplit(h: nat, m: nat)
    ensures Split(NatToString(h) + ":" + PadStart2(NatToString(m)), ':') == [NatToString(h), PadStart2(NatToString(m))]
  {
    var hs, ms := NatToString(h), PadStart2(NatToString(m));
    PaddedDigits(m);
    DigitsHaveNo(hs, ':');
    DigitsHaveNo(ms, ':');
    assert hs + ":" + ms == hs + [':'] + ms;
    SplitTwo(hs, ms, ':');
  }

  /** The digits of a dial hour and padded minutes, read back. */
  lemma ClockMinutesOf(h: nat, m: nat, pm: bool)
    requires 1 <= h <= 12 && m < 60
    ensures ClockMinutes(NatToString(h) + ":" + PadStart2(NatToString(m)), pm)
         == Some(DialMinutes(h as real, m as real, pm))
  {
    ClockSplit(h, m);
    JsNumberOfDigits(h);
    JsNumberOfPadded(m);
    ClockValueOfParts(NatToString(h), PadStart2(NatToString(m)), pm);
  }

  /** A clock string without inner spaces, a space and a meridiem split into those two. */
  lemma MeridiemSplit(time: string, ampm: string)
    requires forall i :: 0 <= i < |time| ==> !IsSpace(time[i])
    requires ampm == "AM" || ampm == "PM"
    ensures ParseTimeToMinutes(time + " " + ampm) == ClockMinutes(time, ampm == "PM")
  {
    assert ' ' !in time by {
      forall i | 0 <= i < |time| ensures time[i] != ' ' { assert !IsSpace(time[i]); }
    }
    assert time + " " + ampm == time + [' '] + ampm;
    SplitTwo(time, ampm, ' ');
    TrimmedWithoutSpaces(time);
    TrimmedWithoutSpaces(ampm);
    assert Upper(ampm) == ampm;
  }

  lemma ClockTextHasNoSpace(h: nat, m: nat)
    requires m < 60
    ensures var t := NatToString(h) + ":" + PadStart2(NatToString(m));
            forall i :: 0 <= i < |t| ==> !IsSpace(t[i])
  {
    var hs, ms := NatToString(h), PadStart2(NatToString(m));
    assert AllDigits(ms) by {
      var t := NatToString(m);
      assert ms == t || ms == "0" + t;
    }
    var t := hs + ":" + ms;
    forall i | 0 <= i < |t| ensures !IsSpace(t[i]) {
      if i < |hs| { assert t[i] == hs[i] && IsDigit(hs[i]); }
      else if i > |hs| { assert t[i] == ms[i - |hs| - 1] && IsDigit(ms[i - |hs| - 1]); }
    }
  }

  /** The dial hour, minutes and meridiem of a minute of the day add back up to it. */
  lemma DialOfMinute(m: nat)
    requires m < MinutesPerDay
    ensures DialMinutes(Hour12(m / 60) as real, (m % 60) as real, m / 60 >= 12) == m as real
  {
    var hour := m / 60;
    JsRemNat(Hour12(hour), 12);
    assert m == hour * 60 + m % 60;
  }

  /** Reading back the clock string of any minute of the day gives that minute. */
  lemma ClockRoundTrip(m: nat)
    requires m < MinutesPerDay
    ensures ParseTimeToMinutes(MinutesToClock(m as real)) == Some(m as real)
  {
    var hour := m / 60;
    var time := NatToString(Hour12(hour)) + ":" + PadStart2(NatToString(m % 60));
    var ampm := if hour >= 12 then "PM" else "AM";
    ClockOfMinute(m);
    ClockTextHasNoSpace(Hour12(hour), m % 60);
    MeridiemSplit(time, ampm);
    ClockMinutesOf(Hour12(hour), m % 60, hour >= 12);
    DialOfMinute(m);
  }

  /** The displayed clock has an hour in 1..12, two-digit minutes, and "AM" exactly before noon. */
  lemma ClockShape(m: nat)
    requires m < MinutesPerDay
    ensures var s := MinutesToClock(m as real);
            exists h: nat, mm: nat ::
              1 <= h <= 12 && mm < 60
              && s == NatToString(h) + ":" + PadStart2(NatToString(mm)) + " " + (if m < 720 then "AM" else "PM")
  {
    ClockOfMinute(m);
    var h: nat, mm: nat := Hour12(m / 60), m % 60;
    assert 1 <= h <= 12 && mm < 60;
  }

  // ---------------------------------------------------------------------------
  // Ranges

  /** `a >= b`, false when either side is NaN. */
  predicate AtLeast(a: real, b: Option<real>) { b.Some? && a >= b.value }

  /** `a < b`, false when either side is NaN. */
  predicate Below(a: real, b: Option<real>) { b.Some? && a < b.value }

  /**
   * `isNowInRange`: the half-open interval from open to close, or, when the
   * range crosses midnight (open after close), everything from open on and
   * everything before close.
   */
  predicate InRange(now: real, openMin: Option<real>, closeMin: Option<real>) {
    if openMin.Some? && closeMin.Some? && openMin.value <= closeMin.value then
      AtLeast(now, openMin) && Below(now, closeMin)
    else
      AtLeast(now, openMin) || Below(now, closeMin)
  }

  /** A range that opens when it closes is never open. */
  lemma EmptyRangeNeverOpen(now: real, t: real)
    ensures !InRange(now, Some(t), Some(t))
  {
  }

  /**
   * Within one day, a range that wraps midnight covers exactly the minutes
   * the range from its close to its open leaves out.
   */
  lemma WrapIsComplement(now: real, openMin: real, closeMin: real)
    requires closeMin < openMin
    ensures InRange(now, Some(openMin), Some(closeMin)) <==> !InRange(now, Some(closeMin), Some(openMin))
  {
  }

  /**
   * The range logic below takes the clock reader as a parameter; the card
   * passes `ParseTimeToMinutes`.
   */
  function OpenMin(parse: string -> Option<real>, r: TimeRange): Option<real> { parse(r.open) }
  function CloseMin(parse: string -> Option<real>, r: TimeRange): Option<real> { parse(r.close) }

  predicate Covers(parse: string -> Option<real>, r: TimeRange, now: real) {
    InRange(now, OpenMin(parse, r), CloseMin(parse, r))
  }

  /** `source[day] ?? []`. */
  function DayRanges(schedule: Schedule, day: int): seq<TimeRange> {
    if day in schedule then schedule[day] else []
  }

  /** The ranges of the day `offset` days after `today`. */
  function DayAhead(schedule: Schedule, today: int, offset: int): seq<TimeRange> {
    DayRanges(schedule, (today + offset) % 7)
  }

  /** The default schedule: every day noon to 1 AM, serving until midnight. */
  function DefaultHours(): (s: Schedule)
    ensures forall d :: 0 <= d < 7 ==> d in s && |s[d]| == 1
  {
    var r := TimeRange("12:00 PM", "1:00 AM", Some("12:00 AM"));
    map[0 := [r], 1 := [r], 2 := [r], 3 := [r], 4 := [r], 5 := [r], 6 := [r]]
  }

  // ---------------------------------------------------------------------------
  // Open / next change

  datatype ChangeKind = Opens | Closes

  datatype NextChange = NextChange(kind: ChangeKind, minutes: Option<real>, range: TimeRange, dayOffset: Option<nat>)

  /** The first of today's ranges that contains now, or their number. */
  function FirstCovering(parse: string -> Option<real>, ranges: seq<TimeRange>, now: real): (i: nat)
    ensures i <= |ranges|
    ensures i < |ranges| ==> Covers(parse, ranges[i], now)
    ensures forall j :: 0 <= j < i ==> !Covers(parse, ranges[j], now)
  {
    if ranges == [] then 0
    else if Covers(parse, ranges[0], now) then 0
    else 1 + FirstCovering(parse, ranges[1..], now)
  }

  /** A range that is not open now and opens later today (up to midnight). */
  predicate OpensLater(parse: string -> Option<real>, r: TimeRange, now: real) {
    !Covers(parse, r, now) && OpenMin(parse, r).Some? && OpenMin(parse, r).value > now && OpenMin(parse, r).value <= MinutesPerDay as real
  }

  /** The first of today's ranges that opens later today, or their number. */
  function FirstLater(parse: string -> Option<real>, ranges: seq<TimeRange>, now: real): (i: nat)
    ensures i <= |ranges|
    ensures i < |ranges| ==> OpensLater(parse, ranges[i], now)
    ensures forall j :: 0 <= j < i ==> !OpensLater(parse, ranges[j], now)
  {
    if ranges == [] then 0
    else if OpensLater(parse, ranges[0], now) then 0
    else 1 + FirstLater(parse, ranges[1..], now)
  }

  /** The nearest day `offset..6` days ahead that has a range, or 7. */
  function NextDayOffset(schedule: Schedule, today: int, offset: nat): (d: nat)
    requires 1 <= offset <= 7
    ensures offset <= d <= 7
    ensures d < 7 ==> DayAhead(schedule, today, d) != []
    ensures forall e :: offset <= e < d ==> DayAhead(schedule, today, e) == []
    decreases 7 - offset
  {
    if offset == 7 then 7
    else if DayAhead(schedule, today, offset) != [] then offset
    else
      var d := NextDayOffset(schedule, today, offset + 1);
      forall e | offset <= e < d ensures DayAhead(schedule, today, e) == [] {
        if e > offset { assert offset + 1 <= e < d; }
      }
      d
  }

  /** `openMin + offset * 1440`, NaN staying NaN. */
  function Shift(m: Option<real>, days: nat): Option<real> {
    if m.Some? then Some(m.value + (days * MinutesPerDay) as real) else None
  }

  /** What the card computes: whether the pub is open now and the next change to show. */
  function Status(parse: string -> Option<real>, schedule: Schedule, today: int, now: int): (bool, Option<NextChange>) {
    var ranges := DayRanges(schedule, today);
    var i := FirstCovering(parse, ranges, now as real);
    if i < |ranges| then
      (true, Some(NextChange(Closes, CloseMin(parse, ranges[i]), ranges[i], None)))
    else
      var j := FirstLater(parse, ranges, now as real);
      if j < |ranges| then
        (false, Some(NextChange(Opens, OpenMin(parse, ranges[j]), ranges[j], None)))
      else
        var d := NextDayOffset(schedule, today, 1);
        if d < 7 then
          var r := DayAhead(schedule, today, d)[0];
          (false, Some(NextChange(Opens, Shift(OpenMin(parse, r), d), r, Some(d))))
        else
          (false, None)
  }

  /**
   * The badge and next change, computed with the component's three loops:
   * today's ranges for one that contains now, then for a later opening today,
   * then the next six days for their first range.
   */
  method ComputeStatus(hours: Option<Schedule>, today: int, now: int) returns (isOpen: bool, next: Option<NextChange>)
    requires 0 <= today < 7 && 0 <= now < MinutesPerDay
    ensures (isOpen, next) == Status(ParseTimeToMinutes, hours.GetOr(DefaultHours()), today, now)
  {
    isOpen, next := StatusLoops(ParseTimeToMinutes, hours, today, now);
  }

  /** The loops of `ComputeStatus`, for any clock reader. */
  method StatusLoops(parse: string -> Option<real>, hours: Option<Schedule>, today: int, now: int)
    returns (isOpen: bool, next: Option<NextChange>)
    requires 0 <= today < 7 && 0 <= now < MinutesPerDay
    ensures (isOpen, next) == Status(parse, hours.GetOr(DefaultHours()), today, now)
  {
    var schedule := hours.GetOr(DefaultHours());
    var todays := DayRanges(schedule, today);
    isOpen, next := false, None;
    var k := 0;
    while k < |todays|
      invariant 0 <= k <= |todays|
      invariant forall j :: 0 <= j < k ==> !Covers(parse, todays[j], now as real)
    {
      if InRange(now as real, OpenMin(parse, todays[k]), CloseMin(parse, todays[k])) {
        isOpen := true;
        next := Some(NextChange(Closes, CloseMin(parse, todays[k]), todays[k], None));
        break;
      }
      k := k + 1;
    }
    assert isOpen ==> k == FirstCovering(parse, todays, now as real);
    assert !isOpen ==> FirstCovering(parse, todays, now as real) == |todays|;
    if !isOpen {
      k := 0;
      while k < |todays|
        invariant 0 <= k <= |todays|
        invariant next.None?
        invariant forall j :: 0 <= j < k ==> !OpensLater(parse, todays[j], now as real)
      {
        var openMin := OpenMin(parse, todays[k]);
        if !InRange(now as real, openMin, CloseMin(parse, todays[k])) {
          if openMin.Some? && openMin.value > now as real && openMin.value <= MinutesPerDay as real {
            next := Some(NextChange(Opens, openMin, todays[k], None));
            break;
          }
        }
        k := k + 1;
      }
      assert next.Some? ==> k == FirstLater(parse, todays, now as real);
      assert next.None? ==> FirstLater(parse, todays, now as real) == |todays|;
    }
    if next.None? {
      var offset := 1;
      while offset < 7
        invariant 1 <= offset <= 7
        invariant next.None?
        invariant forall e :: 1 <= e < offset ==> DayAhead(schedule, today, e) == []
      {
        var ranges := DayAhead(schedule, today, offset);
        if |ranges| > 0 {
          next := Some(NextChange(Opens, Shift(OpenMin(parse, ranges[0]), offset), ranges[0], Some(offset)));
          break;
        }
        offset := offset + 1;
      }
      assert next.Some? ==> offset == NextDayOffset(schedule, today, 1);
      assert next.None? ==> NextDayOffset(schedule, today, 1) == 7;
    }
  }

  /** The pub shows OPEN exactly when one of today's ranges contains now. */
  lemma OpenIffCovered(parse: string -> Option<real>, schedule: Schedule, today: int, now: int)
    ensures Status(parse, schedule, today, now).0
        <==> exists r :: r in DayRanges(schedule, today) && Covers(parse, r, now as real)
  {
    var ranges := DayRanges(schedule, today);
    var i := FirstCovering(parse, ranges, now as real);
    if i < |ranges| {
      assert ranges[i] in ranges;
    } else {
      forall r | r in ranges ensures !Covers(parse, r, now as real) {
        var k :| 0 <= k < |ranges| && ranges[k] == r;
      }
    }
  }

  /** When open, the next change is the closing time of the first range that contains now. */
  lemma OpenNextIsClose(parse: string -> Option<real>, schedule: Schedule, today: int, now: int)
    requires Status(parse, schedule, today, now).0
    ensures var next := Status(parse, schedule, today, now).1;
            next.Some? && next.value.kind == Closes && Covers(parse, next.value.range, now as real)
            && next.value.minutes == CloseMin(parse, next.value.range)
            && next.value.range in DayRanges(schedule, today)
  {
  }

  /**
   * When closed, the next change is an opening: later today if some range
   * opens later today, otherwise the first range of the nearest day ahead,
   * `offset` days of minutes later; none when no day has a range.
   */
  lemma ClosedNextIsOpening(parse: string -> Option<real>, schedule: Schedule, today: int, now: int)
    requires !Status(parse, schedule, today, now).0
    ensures var next := Status(parse, schedule, today, now).1;
            next.Some? ==> next.value.kind == Opens
    ensures var next := Status(parse, schedule, today, now).1;
            (exists r :: r in DayRanges(schedule, today) && OpensLater(parse, r, now as real))
            ==> next.Some? && next.value.dayOffset.None? && OpensLater(parse, next.value.range, now as real)
    ensures var next := Status(parse, schedule, today, now).1;
            next.Some? && next.value.dayOffset.Some? ==>
              var d := next.value.dayOffset.value;
              1 <= d < 7 && next.value.range == DayAhead(schedule, today, d)[0]
              && next.value.minutes == Shift(OpenMin(parse, next.value.range), d)
    ensures var next := Status(parse, schedule, today, now).1;
            next.None? <==> (forall r :: r in DayRanges(schedule, today) ==> !OpensLater(parse, r, now as real))
                            && forall e :: 1 <= e < 7 ==> DayAhead(schedule, today, e) == []
  {
    var ranges := DayRanges(schedule, today);
    var j := FirstLater(parse, ranges, now as real);
    if exists r :: r in ranges && OpensLater(parse, r, now as real) {
      var r :| r in ranges && OpensLater(parse, r, now as real);
      var k :| 0 <= k < |ranges| && ranges[k] == r;
      assert j <= k;
    }
    if j < |ranges| {
      assert ranges[j] in ranges;
    }
  }

  /** `minutesToDisplay`: the time of day of the next change. */
  function NextDisplay(next: Option<NextChange>): Option<string> {
    match next
    case None => None
    case Some(c) =>
      match c.minutes
      case None => Some("NaN:NaN AM")
      case Some(m) => Some(MinutesToClock(JsRem(m, MinutesPerDay as real)))
  }

  /** An opening some days ahead is shown at its time of day. */
  lemma DisplayDropsDays(m: nat, d: nat)
    requires m < MinutesPerDay
    ensures JsRem((m + d * MinutesPerDay) as real, MinutesPerDay as real) == m as real
  {
    JsRemNat(m + d * MinutesPerDay, MinutesPerDay);
    assert (m + d * MinutesPerDay) % MinutesPerDay == m;
  }

  // ---------------------------------------------------------------------------
  // Timeline

  /** Bucket `i` of the timeline: some range of today contains minute `15 * i`. */
  predicate BucketOpen(parse: string -> Option<real>, ranges: seq<TimeRange>, i: int) {
    exists k :: 0 <= k < |ranges| && Covers(parse, ranges[k], (15 * i) as real)
  }

  /** The 96 quarter-hour buckets, filled range by range and minute by minute. */
  method Buckets(ranges: seq<TimeRange>) returns (b: array<bool>)
    ensures b.Length == 96
    ensures forall i :: 0 <= i < 96 ==> (b[i] <==> BucketOpen(ParseTimeToMinutes, ranges, i))
  {
    b := FillBuckets(ParseTimeToMinutes, ranges);
  }

  /** The nested loops of `Buckets`, for any clock reader. */
  method FillBuckets(parse: string -> Option<real>, ranges: seq<TimeRange>) returns (b: array<bool>)
    ensures b.Length == 96
    ensures forall i :: 0 <= i < 96 ==> (b[i] <==> BucketOpen(parse, ranges, i))
  {
    b := new bool[96](_ => false);
    var k := 0;
    while k < |ranges|
      invariant 0 <= k <= |ranges|
      invariant forall i :: 0 <= i < 96 ==> (b[i] <==> exists q :: 0 <= q < k && Covers(parse, ranges[q], (15 * i) as real))
    {
      var openMin, closeMin := OpenMin(parse, ranges[k]), CloseMin(parse, ranges[k]);
      var m := 0;
      while m < MinutesPerDay
        invariant 0 <= m <= MinutesPerDay && m % 15 == 0
        invariant forall i :: 0 <= i < 96 ==>
          (b[i] <==> (exists q :: 0 <= q < k && Covers(parse, ranges[q], (15 * i) as real))
                     || (15 * i < m && Covers(parse, ranges[k], (15 * i) as real)))
      {
        if InRange(m as real, openMin, closeMin) {
          b[m / 15] := true;
        }
        m := m + 15;
      }
      k := k + 1;
    }
  }
}
