/** The schedule calculator: automatic P1/P2 schedules derived from the
    light timing, the manual `H:MM.seconds` schedule grammar, and the choice
    of a zone's next run. All times are `Clock` microseconds. */
module Calculator {
  import opened Wrappers
  import opened Text
  import opened Clock

  datatype Phase = P1 | P2

  datatype ScheduledEvent = ScheduledEvent(time: int, durationSeconds: int, eventType: Phase)

  datatype GlobalTimingSettings = GlobalTimingSettings(
    lightsOnTime: TimeOfDay,
    lightsOffTime: TimeOfDay,
    p1StartDelayMinutes: int,
    p2StartDelayMinutes: int,
    p2EndBufferMinutes: int)

  /** The `zone_config` dictionary handed to the automatic calculation. */
  datatype ZoneConfig = ZoneConfig(p1DurationSec: int, p2EventCount: int, p2DurationSec: int)

  // ---------------------------------------------------------------------
  // Ordering: Python's stable `list.sort(key=lambda e: e.time)`
  // ---------------------------------------------------------------------

  predicate SortedByTime(s: seq<ScheduledEvent>) {
    forall i, j :: 0 <= i < j < |s| ==> s[i].time <= s[j].time
  }

  /** Inserts `e` in front of the first element not earlier than it. */
  function InsertByTime(e: ScheduledEvent, s: seq<ScheduledEvent>): (r: seq<ScheduledEvent>)
    ensures multiset(r) == multiset(s) + multiset{e}
    ensures forall x :: x in r ==> x in s || x == e
  {
    if s == [] || e.time <= s[0].time then [e] + s
    else
      assert s == [s[0]] + s[1..];
      [s[0]] + InsertByTime(e, s[1..])
  }

  /** Inserting into a sorted sequence keeps it sorted. */
  lemma {:induction false} InsertKeepsSorted(e: ScheduledEvent, s: seq<ScheduledEvent>)
    requires SortedByTime(s)
    ensures SortedByTime(InsertByTime(e, s))
  {
    if s != [] && e.time > s[0].time {
      var rest := InsertByTime(e, s[1..]);
      InsertKeepsSorted(e, s[1..]);
      var r := [s[0]] + rest;
      forall x | x in rest
        ensures s[0].time <= x.time
      {
        if x != e {
          var k :| 0 <= k < |s[1..]| && s[1..][k] == x;
          assert x == s[k + 1];
        }
      }
      forall i, j | 0 <= i < j < |r|
        ensures r[i].time <= r[j].time
      {
        assert r[j] == rest[j - 1];
        if i == 0 {
          assert r[j] in rest;
        } else {
          assert r[i] == rest[i - 1];
        }
      }
    }
  }

  /** A stable sort by time: an insertion sort that keeps earlier elements
      ahead of later ones with the same time. */
  function SortByTime(s: seq<ScheduledEvent>): (r: seq<ScheduledEvent>)
    ensures SortedByTime(r)
    ensures multiset(r) == multiset(s)
    ensures |r| == |s|
  {
    if s == [] then []
    else
      assert s == [s[0]] + s[1..];
      InsertKeepsSorted(s[0], SortByTime(s[1..]));
      InsertByTime(s[0], SortByTime(s[1..]))
  }

  /** The events of `s` scheduled at exactly `t`, in their order in `s`. */
  function AtTime(s: seq<ScheduledEvent>, t: int): seq<ScheduledEvent> {
    if s == [] then []
    else (if s[0].time == t then [s[0]] else []) + AtTime(s[1..], t)
  }

  lemma {:induction false} InsertKeepsTies(e: ScheduledEvent, s: seq<ScheduledEvent>, t: int)
    requires SortedByTime(s)
    ensures AtTime(InsertByTime(e, s), t) == (if e.time == t then [e] else []) + AtTime(s, t)
  {
    if s == [] || e.time <= s[0].time {
      assert ([e] + s)[1..] == s;
    } else {
      var rest := s[1..];
      SortedTail(s);
      InsertKeepsTies(e, rest, t);
      var ins := InsertByTime(e, rest);
      assert InsertByTime(e, s) == [s[0]] + ins;
      assert ([s[0]] + ins)[1..] == ins;
      if e.time == t {
        assert s[0].time != t;
      }
    }
  }

  lemma SortedTail(s: seq<ScheduledEvent>)
    requires s != [] && SortedByTime(s)
    ensures SortedByTime(s[1..])
  {
    var rest := s[1..];
    forall i, j | 0 <= i < j < |rest| ensures rest[i].time <= rest[j].time {
      assert rest[i] == s[i + 1] && rest[j] == s[j + 1];
    }
  }

  /** The sort is stable: events with equal times keep their relative order. */
  lemma {:induction false} SortIsStable(s: seq<ScheduledEvent>, t: int)
    ensures AtTime(SortByTime(s), t) == AtTime(s, t)
  {
    if s != [] {
      SortIsStable(s[1..], t);
      InsertKeepsTies(s[0], SortByTime(s[1..]), t);
    }
  }

  /** Sorting an already sorted list changes nothing. */
  lemma {:induction false} SortSorted(s: seq<ScheduledEvent>)
    requires SortedByTime(s)
    ensures SortByTime(s) == s
  {
    if s != [] {
      SortSorted(s[1..]);
      assert SortByTime(s) == InsertByTime(s[0], s[1..]);
      if |s| > 1 {
        assert s[0].time <= s[1].time;
      }
      assert [s[0]] + s[1..] == s;
    }
  }

  // ---------------------------------------------------------------------
  // Automatic schedule
  // ---------------------------------------------------------------------

  function LightsOn(target: int, g: GlobalTimingSettings): int {
    Combine(target, g.lightsOnTime)
  }

  /** lights_on + p1_start_delay. */
  function P1Start(target: int, g: GlobalTimingSettings): int {
    LightsOn(target, g) + g.p1StartDelayMinutes * MicrosPerMinute
  }

  /** lights_on + p2_start_delay. */
  function P2Start(target: int, g: GlobalTimingSettings): int {
    LightsOn(target, g) + g.p2StartDelayMinutes * MicrosPerMinute
  }

  /** lights_off on the target date, or the next day when the lights go off
      at an earlier clock time than they come on. */
  function LightsOff(target: int, g: GlobalTimingSettings): int {
    Combine(target, g.lightsOffTime) + (if g.lightsOffTime < g.lightsOnTime then MicrosPerDay else 0)
  }

  /** lights_off − p2_end_buffer. */
  function P2End(target: int, g: GlobalTimingSettings): int {
    LightsOff(target, g) - g.p2EndBufferMinutes * MicrosPerMinute
  }

  function P2Window(target: int, g: GlobalTimingSettings): int {
    P2End(target, g) - P2Start(target, g)
  }

  /** Offset of the i-th of `count` P2 events in a window of `window`
      microseconds: 0 for a single event, `i * window / count` otherwise. */
  function P2Offset(i: nat, count: nat, window: int): int
    requires count >= 1
  {
    if count == 1 then 0 else (i * window) / count
  }

  predicate HasP2(z: ZoneConfig, target: int, g: GlobalTimingSettings) {
    z.p2EventCount > 0 && z.p2DurationSec > 0 && P2Window(target, g) > 0
  }

  function P1Events(z: ZoneConfig, target: int, g: GlobalTimingSettings): seq<ScheduledEvent> {
    if z.p1DurationSec > 0 then [ScheduledEvent(P1Start(target, g), z.p1DurationSec, P1)] else []
  }

  function P2Event(z: ZoneConfig, target: int, g: GlobalTimingSettings, i: nat): ScheduledEvent
    requires z.p2EventCount >= 1
  {
    ScheduledEvent(P2Start(target, g) + P2Offset(i, z.p2EventCount, P2Window(target, g)), z.p2DurationSec, P2)
  }

  function P2Events(z: ZoneConfig, target: int, g: GlobalTimingSettings): seq<ScheduledEvent> {
    if HasP2(z, target, g) then seq(z.p2EventCount, i requires 0 <= i => P2Event(z, target, g, i))
    else []
  }

  /** `calculate_auto_schedule(zone_config, global_settings, target)`. */
  function AutoSchedule(z: ZoneConfig, target: int, g: GlobalTimingSettings): seq<ScheduledEvent> {
    SortByTime(P1Events(z, target, g) + P2Events(z, target, g))
  }

  /** `calculate_auto_schedule`: appends the P1 event, then the P2 events one
      by one, then sorts the list by time. */
  method CalculateAutoSchedule(z: ZoneConfig, g: GlobalTimingSettings, target: int)
    returns (events: seq<ScheduledEvent>)
    ensures events == AutoSchedule(z, target, g)
    ensures SortedByTime(events)
    ensures multiset(events) == multiset(P1Events(z, target, g) + P2Events(z, target, g))
  {
    events := [];
    var lightsOn := Combine(target, g.lightsOnTime);
    var p1Start := lightsOn + g.p1StartDelayMinutes * MicrosPerMinute;
    if z.p1DurationSec > 0 {
      events := events + [ScheduledEvent(p1Start, z.p1DurationSec, P1)];
    }
    assert events == P1Events(z, target, g);
    if z.p2EventCount > 0 && z.p2DurationSec > 0 {
      var p2Start := lightsOn + g.p2StartDelayMinutes * MicrosPerMinute;
      var lightsOff := Combine(target, g.lightsOffTime);
      if g.lightsOffTime < g.lightsOnTime {
        lightsOff := lightsOff + MicrosPerDay;
      }
      var p2End := lightsOff - g.p2EndBufferMinutes * MicrosPerMinute;
      var window := p2End - p2Start;
      assert window == P2Window(target, g);
      if window > 0 {
        var i := 0;
        while i < z.p2EventCount
          invariant 0 <= i <= z.p2EventCount
          invariant events == P1Events(z, target, g) + P2Events(z, target, g)[..i]
        {
          var offset := if z.p2EventCount == 1 then 0 else (i * window) / z.p2EventCount;
          events := events + [ScheduledEvent(p2Start + offset, z.p2DurationSec, P2)];
          assert P2Events(z, target, g)[..i + 1] == P2Events(z, target, g)[..i] + [P2Event(z, target, g, i)];
          i := i + 1;
        }
        assert P2Events(z, target, g)[..i] == P2Events(z, target, g);
      }
    }
    assert events == P1Events(z, target, g) + P2Events(z, target, g);
    events := SortByTime(events);
  }

  /** The lights-off instant used for the P2 window lies within one day
      after lights-on. */
  lemma LightsOffFollowsLightsOn(target: int, g: GlobalTimingSettings)
    ensures LightsOn(target, g) <= LightsOff(target, g) < LightsOn(target, g) + MicrosPerDay
    ensures g.lightsOffTime < g.lightsOnTime ==> LightsOff(target, g) == Combine(target, g.lightsOffTime) + MicrosPerDay
  {
  }

  /** The P2 window is the same on every date. */
  lemma P2WindowDateIndependent(t1: int, t2: int, g: GlobalTimingSettings)
    ensures P2Window(t1, g) == P2Window(t2, g)
    ensures P2Start(t2, g) - P2Start(t1, g) == DayStart(t2) - DayStart(t1)
  {
  }

  lemma {:induction false} InSortedEvents(e: ScheduledEvent, s: seq<ScheduledEvent>)
    ensures e in SortByTime(s) <==> e in s
  {
    var r := SortByTime(s);
    assert multiset(r) == multiset(s);
    assert e in r <==> multiset(r)[e] > 0;
    assert e in s <==> multiset(s)[e] > 0;
  }

  /** The automatic schedule holds a P1 event exactly when the P1 duration is
      positive; it is at lights-on + p1 delay and lasts the P1 duration. */
  lemma AutoP1Event(z: ZoneConfig, target: int, g: GlobalTimingSettings)
    ensures (exists e :: e in AutoSchedule(z, target, g) && e.eventType == P1) <==> z.p1DurationSec > 0
    ensures forall e :: e in AutoSchedule(z, target, g) && e.eventType == P1 ==>
      e == ScheduledEvent(P1Start(target, g), z.p1DurationSec, P1)
  {
    var all := P1Events(z, target, g) + P2Events(z, target, g);
    forall e
      ensures e in AutoSchedule(z, target, g) <==> e in all
    {
      InSortedEvents(e, all);
    }
    if z.p1DurationSec > 0 {
      var p := ScheduledEvent(P1Start(target, g), z.p1DurationSec, P1);
      assert p in all;
    }
  }

  /** Bounds of the P2 offset: inside `[0, window)`, and 0 for the first event. */
  lemma OffsetBounds(i: nat, count: nat, window: int)
    requires i < count && window > 0
    ensures 0 <= P2Offset(i, count, window) < window
    ensures i == 0 ==> P2Offset(i, count, window) == 0
  {
    if count > 1 {
      MulMonotone(window, i + 1, count);
      assert 0 <= i * window < count * window;
      DivBelow(i * window, count, window);
    }
  }

  lemma DivBelow(a: int, c: int, w: int)
    requires c > 0 && a < c * w
    ensures a / c < w
  {
    if a / c >= w {
      MulMonotone(c, w, a / c);
      assert false;
    }
  }

  lemma MulMonotone(c: nat, a: int, b: int)
    requires a <= b
    ensures c * a <= c * b
  {
  }

  lemma DivMonotone(a: int, b: int, c: int)
    requires a <= b && c > 0
    ensures a / c <= b / c
  {
    if a / c > b / c {
      MulMonotone(c, b / c + 1, a / c);
      assert false;
    }
  }

  /** Later P2 events never come before earlier ones, and they are strictly
      apart when the window has at least one microsecond per event. */
  lemma OffsetMonotone(i: nat, j: nat, count: nat, window: int)
    requires i < j < count && window > 0
    ensures P2Offset(i, count, window) <= P2Offset(j, count, window)
    ensures window >= count ==> P2Offset(i, count, window) < P2Offset(j, count, window)
  {
    var a, b := i * window, j * window;
    MulMonotone(window, i + 1, j);
    assert a + window <= b;
    DivMonotone(a, b, count);
    if window >= count {
      DivMonotone(a + count, b, count);
      DivShift(a, count);
    }
  }

  lemma DivShift(a: int, c: int)
    requires c > 0
    ensures (a + c) / c == a / c + 1
  {
    DivUnique(a + c, c, a / c + 1, a % c);
  }

  /** Euclidean division is determined by quotient and remainder. */
  lemma DivUnique(a: int, c: int, q: int, r: int)
    requires c > 0 && 0 <= r < c && a == c * q + r
    ensures a / c == q
  {
    var q' := a / c;
    if q' < q {
      MulMonotone(c, q' + 1, q);
      assert false;
    } else if q' > q {
      MulMonotone(c, q + 1, q');
      assert false;
    }
  }

  /** The P2 events: none unless count, duration and window are positive;
      otherwise exactly `count` of them, each lasting the P2 duration, the
      first at p2_start, all within [p2_start, p2_end), in time order. */
  lemma P2EventsShape(z: ZoneConfig, target: int, g: GlobalTimingSettings)
    ensures |P2Events(z, target, g)| == if HasP2(z, target, g) then z.p2EventCount else 0
    ensures P2Window(target, g) <= 0 ==> P2Events(z, target, g) == []
    ensures forall e :: e in P2Events(z, target, g) ==>
      e.eventType == P2 && e.durationSeconds == z.p2DurationSec &&
      P2Start(target, g) <= e.time < P2End(target, g)
    ensures HasP2(z, target, g) ==> P2Events(z, target, g)[0].time == P2Start(target, g)
    ensures SortedByTime(P2Events(z, target, g))
    ensures P2Window(target, g) >= z.p2EventCount ==>
      forall i, j :: 0 <= i < j < |P2Events(z, target, g)| ==>
        P2Events(z, target, g)[i].time < P2Events(z, target, g)[j].time
  {
    var es := P2Events(z, target, g);
    if HasP2(z, target, g) {
      var w := P2Window(target, g);
      forall i | 0 <= i < |es|
        ensures P2Start(target, g) <= es[i].time < P2End(target, g)
      {
        OffsetBounds(i, z.p2EventCount, w);
      }
      OffsetBounds(0, z.p2EventCount, w);
      forall i, j | 0 <= i < j < |es|
        ensures es[i].time <= es[j].time
        ensures w >= z.p2EventCount ==> es[i].time < es[j].time
      {
        OffsetMonotone(i, j, z.p2EventCount, w);
      }
    }
  }

  // ---------------------------------------------------------------------
  // Manual schedule grammar: one `H:MM.seconds` entry per line
  // ---------------------------------------------------------------------

  datatype LineError =
    | BadFormat(text: string)
    | TooManyDigits(digits: nat)   // `int()` refuses the duration group
    | HourOutOfRange(hours: int)
    | MinuteOutOfRange(minutes: int)
    | NonPositiveDuration(duration: int)

  /** A rejected manual schedule: the 1-based line number and the reason. */
  datatype ScheduleError = ScheduleError(lineNumber: nat, reason: LineError)

  datatype ManualEntry = ManualEntry(timeOfDay: TimeOfDay, durationSeconds: int)

  /** The shape `^(\d{1,2}):(\d{2})\.(\d+)$` with the three groups given. */
  predicate LineShape(line: string, hours: string, minutes: string, duration: string) {
    && 1 <= |hours| <= 2 && AllDigits(hours)
    && |minutes| == 2 && AllDigits(minutes)
    && |duration| >= 1 && AllDigits(duration)
    && line == hours + ":" + minutes + "." + duration
  }

  /** `re.match(r'^(\d{1,2}):(\d{2})\.(\d+)$', line)`, returning the groups. */
  function MatchLine(line: string): Option<(string, string, string)> {
    var colon := if |line| > 1 && line[1] == ':' then 1 else if |line| > 2 && line[2] == ':' then 2 else 0;
    if colon == 0 then None
    else
      var hours := line[..colon];
      var rest := line[colon + 1..];
      if AllDigits(hours) && |rest| >= 4 && AllDigits(rest[..2]) && rest[2] == '.' && AllDigits(rest[3..])
      then Some((hours, rest[..2], rest[3..]))
      else None
  }

  /** Every match has the line shape. */
  lemma MatchLineSound(line: string)
    ensures MatchLine(line).Some? ==>
      LineShape(line, MatchLine(line).value.0, MatchLine(line).value.1, MatchLine(line).value.2)
  {
    if MatchLine(line).Some? {
      var colon := if line[1] == ':' then 1 else 2;
      var rest := line[colon + 1..];
      assert line == line[..colon] + ":" + rest[..2] + "." + rest[3..];
    }
  }

  /** Every line of the right shape matches, with exactly its groups. */
  lemma MatchLineComplete(line: string, hours: string, minutes: string, duration: string)
    requires LineShape(line, hours, minutes, duration)
    ensures MatchLine(line) == Some((hours, minutes, duration))
  {
    var colon := |hours|;
    assert line[colon] == ':';
    if colon == 2 {
      assert line[1] != ':' by { assert line[1] == hours[1]; }
    }
    assert line[..colon] == hours;
    var rest := line[colon + 1..];
    assert rest == minutes + "." + duration;
    assert rest[..2] == minutes;
    assert rest[3..] == duration;
  }

  /** One stripped, non-blank line: the shape first, then the three `int()`
      conversions (only the duration group can exceed `MaxStrDigits`), then
      hours ≤ 23, minutes ≤ 59 and a positive duration, in that order. */
  function CheckLine(line: string): (r: Result<ManualEntry, LineError>)
    ensures r.Ok? ==> MatchLine(line).Some? && r.value.durationSeconds > 0
    ensures r.Ok? ==> |MatchLine(line).value.2| <= MaxStrDigits
  {
    match MatchLine(line)
    case None => Err(BadFormat(line))
    case Some((hs, ms, ds)) =>
      var h, m, d := DigitsValue(hs), DigitsValue(ms), DigitsValue(ds);
      if |ds| > MaxStrDigits then Err(TooManyDigits(|ds|))
      else if h > 23 then Err(HourOutOfRange(h))
      else if m > 59 then Err(MinuteOutOfRange(m))
      else if d <= 0 then Err(NonPositiveDuration(d))
      else Ok(ManualEntry(h * MicrosPerHour + m * MicrosPerMinute, d))
  }

  /** The canonical text of an entry. */
  function FormatLine(hours: nat, minutes: nat, duration: nat): string
    requires hours <= 23 && minutes <= 59
  {
    ShowNat(hours) + ":" + Pad2(minutes) + "." + ShowNat(duration)
  }

  /** Formatting an entry and checking the line gives the entry back. */
  lemma CheckFormattedLine(hours: nat, minutes: nat, duration: nat)
    requires hours <= 23 && minutes <= 59 && duration > 0 && StrFits(duration)
    ensures CheckLine(FormatLine(hours, minutes, duration))
         == Ok(ManualEntry(hours * MicrosPerHour + minutes * MicrosPerMinute, duration))
  {
    var hs := ShowNat(hours);
    assert |hs| <= 2 by {
      if |hs| > 2 {
        assert Pow10(|hs| - 1) >= 100 by { Pow10Grows(|hs| - 1); }
        LeadingDigitBound(hs);
      }
    }
    MatchLineComplete(FormatLine(hours, minutes, duration), hs, Pad2(minutes), ShowNat(duration));
  }

  /** A well-shaped line whose duration group has more digits than `int()`
      reads is refused for that, whatever its hour and minute. */
  lemma LongDurationRejected(hours: string, minutes: string, duration: string)
    requires 1 <= |hours| <= 2 && AllDigits(hours) && |minutes| == 2 && AllDigits(minutes)
    requires AllDigits(duration) && |duration| > MaxStrDigits
    ensures CheckLine(hours + ":" + minutes + "." + duration) == Err(TooManyDigits(|duration|))
  {
    MatchLineComplete(hours + ":" + minutes + "." + duration, hours, minutes, duration);
  }

  lemma {:induction false} Pow10Grows(n: nat)
    requires n >= 2
    ensures Pow10(n) >= 100
  {
    if n > 2 {
      Pow10Grows(n - 1);
    }
  }

  /** A digit string without a leading zero is worth at least 10^(length-1). */
  lemma {:induction false} LeadingDigitBound(s: string)
    requires |s| >= 1 && AllDigits(s) && (|s| > 1 ==> s[0] != '0')
    ensures |s| > 1 ==> DigitsValue(s) >= Pow10(|s| - 1)
  {
    if |s| > 1 {
      var init := s[..|s| - 1];
      assert init[0] == s[0];
      LeadingDigitBound(init);
      if |init| == 1 {
        assert DigitsValue(init) == DigitsValue(init[..0]) * 10 + DigitValue(init[0]);
        assert DigitsValue(init[..0]) == 0 by { assert init[..0] == []; }
        assert DigitsValue(init) >= 1;
      }
    }
  }

  /** `not text or not text.strip()`. */
  predicate BlankText(text: Option<string>) {
    text.None? || Strip(text.value) == []
  }

  /** The lines of a manual schedule: the whole text stripped, then split at
      newlines. */
  function ScheduleLines(text: string): seq<string> {
    Split(Strip(text), '\n')
  }

  /** The entries of `lines`, whose first line has number `first`: blank
      lines are skipped, the first bad line stops the parse. */
  function CheckLines(lines: seq<string>, first: nat): Result<seq<ManualEntry>, ScheduleError>
    decreases |lines|
  {
    if lines == [] then Ok([])
    else LineStep(Strip(lines[0]), first, CheckLines(lines[1..], first + 1))
  }

  /** Line `number` (already stripped) in front of the result `rest` for the
      lines after it. */
  function LineStep(line: string, number: nat, rest: Result<seq<ManualEntry>, ScheduleError>): Result<seq<ManualEntry>, ScheduleError> {
    if line == [] then rest
    else match CheckLine(line)
      case Err(reason) => Err(ScheduleError(number, reason))
      case Ok(entry) => Prepend([entry], rest)
  }

  function Prepend(entries: seq<ManualEntry>, r: Result<seq<ManualEntry>, ScheduleError>): Result<seq<ManualEntry>, ScheduleError> {
    match r
    case Ok(rest) => Ok(entries + rest)
    case Err(e) => Err(e)
  }

  /** The entries of a manual schedule text, or the first error. */
  function ManualEntries(text: Option<string>): Result<seq<ManualEntry>, ScheduleError> {
    if BlankText(text) then Ok([]) else CheckLines(ScheduleLines(text.value), 1)
  }

  function ToEvent(entry: ManualEntry, phase: Phase, target: int): ScheduledEvent {
    ScheduledEvent(Combine(target, entry.timeOfDay), entry.durationSeconds, phase)
  }

  function ToEvents(entries: seq<ManualEntry>, phase: Phase, target: int): (r: seq<ScheduledEvent>)
    ensures |r| == |entries|
    ensures forall i :: 0 <= i < |r| ==> r[i] == ToEvent(entries[i], phase, target)
  {
    if entries == [] then [] else [ToEvent(entries[0], phase, target)] + ToEvents(entries[1..], phase, target)
  }

  lemma ToEventsAppend(entries: seq<ManualEntry>, x: ManualEntry, phase: Phase, target: int)
    ensures ToEvents(entries + [x], phase, target) == ToEvents(entries, phase, target) + [ToEvent(x, phase, target)]
  {
  }

  /** `parse_manual_schedule(text, phase, target)`. */
  function ManualSchedule(text: Option<string>, phase: Phase, target: int): Result<seq<ScheduledEvent>, ScheduleError> {
    match ManualEntries(text)
    case Err(e) => Err(e)
    case Ok(entries) => Ok(SortByTime(ToEvents(entries, phase, target)))
  }

  /** A line the parser lets through: blank, or a valid entry. */
  predicate Acceptable(line: string) {
    Strip(line) == [] || CheckLine(Strip(line)).Ok?
  }

  /** A schedule is accepted exactly when every line is acceptable. */
  lemma {:induction false} CheckLinesAccepts(lines: seq<string>, first: nat)
    ensures CheckLines(lines, first).Ok? <==> forall j :: 0 <= j < |lines| ==> Acceptable(lines[j])
    decreases |lines|
  {
    if lines != [] {
      CheckLinesAccepts(lines[1..], first + 1);
      assert forall j :: 1 <= j < |lines| ==> lines[j] == lines[1..][j - 1];
    }
  }

  /** Line `n` (0-based) of `lines` is the first unacceptable one, and it is
      rejected for `reason`. */
  predicate FirstFailure(lines: seq<string>, n: int, reason: LineError) {
    && 0 <= n < |lines|
    && Strip(lines[n]) != []
    && CheckLine(Strip(lines[n])) == Err(reason)
    && forall j :: 0 <= j < n ==> Acceptable(lines[j])
  }

  /** A rejection names the first unacceptable line, with the reason that
      line fails for. */
  lemma {:induction false} CheckLinesFirstError(lines: seq<string>, first: nat)
    requires CheckLines(lines, first).Err?
    ensures FirstFailure(lines, CheckLines(lines, first).error.lineNumber - first, CheckLines(lines, first).error.reason)
    decreases |lines|
  {
    var rest := CheckLines(lines[1..], first + 1);
    if Acceptable(lines[0]) {
      AcceptableHead(lines, first);
      CheckLinesFirstError(lines[1..], first + 1);
      FirstFailureShift(lines, rest.error.lineNumber - (first + 1), rest.error.reason);
    }
  }

  /** Behind an acceptable first line, the parse fails exactly when the
      parse of the remaining lines does, with the same error. */
  lemma AcceptableHead(lines: seq<string>, first: nat)
    requires lines != [] && Acceptable(lines[0])
    ensures CheckLines(lines, first).Err? <==> CheckLines(lines[1..], first + 1).Err?
    ensures CheckLines(lines, first).Err? ==> CheckLines(lines, first) == CheckLines(lines[1..], first + 1)
  {
  }

  lemma FirstFailureShift(lines: seq<string>, n: int, reason: LineError)
    requires lines != [] && Acceptable(lines[0]) && FirstFailure(lines[1..], n, reason)
    ensures FirstFailure(lines, n + 1, reason)
  {
    assert lines[n + 1] == lines[1..][n];
    forall j | 0 <= j < n + 1
      ensures Acceptable(lines[j])
    {
      if j > 0 {
        assert lines[j] == lines[1..][j - 1];
      }
    }
  }

  /** Each non-blank line contributes one entry, in line order. */
  lemma {:induction false} CheckLinesCount(lines: seq<string>, first: nat)
    requires CheckLines(lines, first).Ok?
    ensures |CheckLines(lines, first).value| == NonBlank(lines)
    decreases |lines|
  {
    if lines != [] {
      CheckLinesCount(lines[1..], first + 1);
    }
  }

  function NonBlank(lines: seq<string>): nat {
    if lines == [] then 0 else (if Strip(lines[0]) == [] then 0 else 1) + NonBlank(lines[1..])
  }

  lemma CheckLinesStep(lines: seq<string>, n: nat, first: nat)
    requires n < |lines|
    ensures CheckLines(lines[n..], first) == LineStep(Strip(lines[n]), first, CheckLines(lines[n + 1..], first + 1))
  {
    assert lines[n..][1..] == lines[n + 1..];
  }

  lemma PrependNothing(r: Result<seq<ManualEntry>, ScheduleError>)
    ensures Prepend([], r) == r
  {
    if r.Ok? {
      assert [] + r.value == r.value;
    }
  }

  lemma PrependTwice(a: seq<ManualEntry>, b: seq<ManualEntry>, r: Result<seq<ManualEntry>, ScheduleError>)
    ensures Prepend(a, Prepend(b, r)) == Prepend(a + b, r)
  {
    if r.Ok? {
      assert a + (b + r.value) == (a + b) + r.value;
    }
  }

  /** `parse_manual_schedule`: blank text gives no events; otherwise the
      numbered lines are parsed and the events sorted by time. */
  method ParseManualSchedule(text: Option<string>, phase: Phase, target: int)
    returns (r: Result<seq<ScheduledEvent>, ScheduleError>)
    ensures r == ManualSchedule(text, phase, target)
    ensures r.Ok? ==> SortedByTime(r.value)
    ensures r.Err? ==> !BlankText(text)
  {
    if text.None? || Strip(text.value) == [] {
      return Ok([]);
    }
    var lines := Split(Strip(text.value), '\n');
    r := ParseLines(lines, phase, target);
    if r.Ok? {
      r := Ok(SortByTime(r.value));
    }
  }

  /** The loop of `parse_manual_schedule`: walks the numbered lines, skipping
      blank ones and raising on the first bad one, appending one event per
      accepted line. */
  method ParseLines(lines: seq<string>, phase: Phase, target: int)
    returns (r: Result<seq<ScheduledEvent>, ScheduleError>)
    ensures CheckLines(lines, 1).Err? ==> r == Err(CheckLines(lines, 1).error)
    ensures CheckLines(lines, 1).Ok? ==> r == Ok(ToEvents(CheckLines(lines, 1).value, phase, target))
  {
    ghost var entries: seq<ManualEntry> := [];
    var events: seq<ScheduledEvent> := [];
    var n := 0;
    PrependNothing(CheckLines(lines, 1));
    assert lines[0..] == lines;
    while n < |lines|
      invariant 0 <= n <= |lines|
      invariant CheckLines(lines, 1) == Prepend(entries, CheckLines(lines[n..], n + 1))
      invariant events == ToEvents(entries, phase, target)
    {
      var line := Strip(lines[n]);
      if line != [] {
        var checked := CheckLine(line);
        if checked.Err? {
          LineFails(lines, n, entries);
          return Err(ScheduleError(n + 1, checked.error));
        }
        LineAccepted(lines, n, entries);
        ToEventsAppend(entries, checked.value, phase, target);
        entries := entries + [checked.value];
        events := events + [ToEvent(checked.value, phase, target)];
      } else {
        LineSkipped(lines, n, entries);
      }
      n := n + 1;
    }
    LinesDone(lines, n, entries);
    r := Ok(events);
  }

  lemma LineSkipped(lines: seq<string>, n: nat, entries: seq<ManualEntry>)
    requires n < |lines| && Strip(lines[n]) == []
    ensures Prepend(entries, CheckLines(lines[n..], n + 1)) == Prepend(entries, CheckLines(lines[n + 1..], n + 2))
  {
    CheckLinesStep(lines, n, n + 1);
  }

  lemma LineAccepted(lines: seq<string>, n: nat, entries: seq<ManualEntry>)
    requires n < |lines| && Strip(lines[n]) != [] && CheckLine(Strip(lines[n])).Ok?
    ensures Prepend(entries, CheckLines(lines[n..], n + 1))
         == Prepend(entries + [CheckLine(Strip(lines[n])).value], CheckLines(lines[n + 1..], n + 2))
  {
    CheckLinesStep(lines, n, n + 1);
    PrependTwice(entries, [CheckLine(Strip(lines[n])).value], CheckLines(lines[n + 1..], n + 2));
  }

  lemma LineFails(lines: seq<string>, n: nat, entries: seq<ManualEntry>)
    requires n < |lines| && Strip(lines[n]) != [] && CheckLine(Strip(lines[n])).Err?
    ensures Prepend(entries, CheckLines(lines[n..], n + 1)) == Err(ScheduleError(n + 1, CheckLine(Strip(lines[n])).error))
  {
    CheckLinesStep(lines, n, n + 1);
  }

  lemma LinesDone(lines: seq<string>, n: nat, entries: seq<ManualEntry>)
    requires n == |lines|
    ensures Prepend(entries, CheckLines(lines[n..], n + 1)) == Ok(entries)
  {
    assert lines[n..] == [];
    assert entries + [] == entries;
  }

  /** `validate_manual_schedule_format`: `(True, None)` exactly on the texts
      `parse_manual_schedule` accepts, otherwise `(False, error)` with the
      error the parser raises. */
  method ValidateManualScheduleFormat(text: Option<string>) returns (valid: bool, error: Option<ScheduleError>)
    ensures valid <==> ManualEntries(text).Ok?
    ensures valid <==> error.None?
    ensures !valid ==> error == Some(ManualEntries(text).error)
  {
    if text.None? || Strip(text.value) == [] {
      return true, None;
    }
    var lines := Split(Strip(text.value), '\n');
    var n := 0;
    ghost var entries: seq<ManualEntry> := [];
    PrependNothing(CheckLines(lines, 1));
    assert lines[0..] == lines;
    while n < |lines|
      invariant 0 <= n <= |lines|
      invariant CheckLines(lines, 1) == Prepend(entries, CheckLines(lines[n..], n + 1))
    {
      var line := Strip(lines[n]);
      if line != [] {
        var checked := CheckLine(line);
        if checked.Err? {
          LineFails(lines, n, entries);
          return false, Some(ScheduleError(n + 1, checked.error));
        }
        LineAccepted(lines, n, entries);
        entries := entries + [checked.value];
      } else {
        LineSkipped(lines, n, entries);
      }
      n := n + 1;
    }
    LinesDone(lines, n, entries);
    return true, None;
  }

  // ---------------------------------------------------------------------
  // Next run
  // ---------------------------------------------------------------------

  /** The fields of a zone that decide its next run. */
  datatype ZoneSchedule = ZoneSchedule(
    mode: string,
    p1DurationSec: Option<int>,
    p2EventCount: Option<int>,
    p2DurationSec: Option<int>,
    p1ManualList: Option<string>,
    p2ManualList: Option<string>)

  /** `[e for e in events if e.time > now]`. */
  function Upcoming(events: seq<ScheduledEvent>, now: int): (r: seq<ScheduledEvent>)
    ensures forall e :: e in r <==> e in events && e.time > now
  {
    if events == [] then []
    else (if events[0].time > now then [events[0]] else []) + Upcoming(events[1..], now)
  }

  /** In a time-ordered list the first upcoming event is the earliest one
      strictly after `now`. */
  lemma {:induction false} FirstUpcomingIsEarliest(events: seq<ScheduledEvent>, now: int)
    requires SortedByTime(events)
    requires Upcoming(events, now) != []
    ensures Upcoming(events, now)[0].time > now
    ensures Upcoming(events, now)[0] in events
    ensures forall e :: e in events && e.time > now ==> Upcoming(events, now)[0].time <= e.time
  {
    assert Upcoming(events, now)[0] in Upcoming(events, now);
    if events[0].time <= now {
      FirstUpcomingIsEarliest(events[1..], now);
      forall e | e in events && e.time > now
        ensures e in events[1..]
      {
        if e == events[0] {
          assert false;
        }
      }
    } else {
      forall e | e in events && e.time > now
        ensures events[0].time <= e.time
      {
        var k :| 0 <= k < |events| && events[k] == e;
      }
    }
  }

  function FirstTime(events: seq<ScheduledEvent>): Option<int> {
    if events == [] then None else Some(events[0].time)
  }

  /** The upcoming events of today's list, or of tomorrow's when none of
      today's lies after `now`. */
  function TodayOrTomorrow(today: seq<ScheduledEvent>, tomorrow: seq<ScheduledEvent>, now: int): (r: seq<ScheduledEvent>)
    ensures forall e :: e in r ==> e.time > now
  {
    var future := Upcoming(today, now);
    if future != [] then future else Upcoming(tomorrow, now)
  }

  function ManualDay(z: ZoneSchedule, target: int): Result<seq<ScheduledEvent>, ScheduleError> {
    match ManualSchedule(z.p1ManualList, P1, target)
    case Err(e) => Err(e)
    case Ok(p1) =>
      match ManualSchedule(z.p2ManualList, P2, target)
      case Err(e) => Err(e)
      case Ok(p2) => Ok(SortByTime(p1 + p2))
  }

  /** `get_next_run_time(zone, global_settings, now)`: `None` for an auto zone
      without settings, an unknown mode or no upcoming event; a manual
      schedule error propagates. */
  function NextRunTime(z: ZoneSchedule, settings: Option<GlobalTimingSettings>, now: int): (r: Result<Option<int>, ScheduleError>)
    ensures z.mode != "auto" && z.mode != "manual" ==> r == Ok(None)
    ensures z.mode == "auto" && settings.None? ==> r == Ok(None)
    ensures r.Err? ==> z.mode == "manual"
    ensures r.Ok? && r.value.Some? ==> r.value.value > now
  {
    if z.mode == "auto" then
      if settings.None? then Ok(None) else Ok(AutoNextRun(AutoConfig(z), settings.value, now))
    else if z.mode == "manual" then ManualNextRun(z, now)
    else Ok(None)
  }

  /** The zone's auto parameters, each `value or 0`. */
  function AutoConfig(z: ZoneSchedule): ZoneConfig {
    ZoneConfig(z.p1DurationSec.GetOr(0), z.p2EventCount.GetOr(0), z.p2DurationSec.GetOr(0))
  }

  /** The auto branch: today's schedule, else tomorrow's. */
  function AutoNextRun(config: ZoneConfig, g: GlobalTimingSettings, now: int): (r: Option<int>)
    ensures r.Some? ==> r.value > now
  {
    var today := AutoSchedule(config, now, g);
    var tomorrow := AutoSchedule(config, now + MicrosPerDay, g);
    FirstTime(TodayOrTomorrow(today, tomorrow, now))
  }

  /** The manual branch: both lists merged and sorted, today's, else
      tomorrow's (parsed again for tomorrow's date). */
  function ManualNextRun(z: ZoneSchedule, now: int): (r: Result<Option<int>, ScheduleError>)
    ensures r.Ok? && r.value.Some? ==> r.value.value > now
  {
    match ManualDay(z, now)
    case Err(e) => Err(e)
    case Ok(today) =>
      var u := Upcoming(today, now);
      if u != [] then assert u[0] in u; Ok(FirstTime(u))
      else
        match ManualDay(z, now + MicrosPerDay)
        case Err(e) => Err(e)
        case Ok(tomorrow) =>
          var v := Upcoming(tomorrow, now);
          assert v != [] ==> v[0] in v;
          Ok(FirstTime(v))
  }

  predicate HasUpcoming(events: seq<ScheduledEvent>, now: int) {
    exists e :: e in events && e.time > now
  }

  /** `t` is the time of the earliest event of `events` after `now`. */
  predicate EarliestAfter(t: int, events: seq<ScheduledEvent>, now: int) {
    && t > now
    && (exists e :: e in events && e.time == t)
    && forall e :: e in events && e.time > now ==> t <= e.time
  }

  /** `t` is the earliest upcoming time of today's events, or of tomorrow's
      when today has none. */
  predicate ChosenFrom(t: int, today: seq<ScheduledEvent>, tomorrow: seq<ScheduledEvent>, now: int) {
    if HasUpcoming(today, now) then EarliestAfter(t, today, now) else EarliestAfter(t, tomorrow, now)
  }

  lemma FirstTimeOfUpcoming(events: seq<ScheduledEvent>, now: int)
    requires SortedByTime(events)
    ensures FirstTime(Upcoming(events, now)).Some? <==> HasUpcoming(events, now)
    ensures FirstTime(Upcoming(events, now)).Some? ==>
      EarliestAfter(FirstTime(Upcoming(events, now)).value, events, now)
  {
    var u := Upcoming(events, now);
    if u != [] {
      FirstUpcomingIsEarliest(events, now);
      assert u[0] in u;
    }
  }

  /** What the choice of `TodayOrTomorrow` means for time-ordered day
      lists: the earliest of today's events after `now`, or, when today has
      none, the earliest of tomorrow's; nothing only when neither has one. */
  lemma NextOfDays(today: seq<ScheduledEvent>, tomorrow: seq<ScheduledEvent>, now: int)
    requires SortedByTime(today) && SortedByTime(tomorrow)
    ensures var r := FirstTime(TodayOrTomorrow(today, tomorrow, now));
      && (r.Some? ==> ChosenFrom(r.value, today, tomorrow, now))
      && (r.None? <==> !HasUpcoming(today, now) && !HasUpcoming(tomorrow, now))
  {
    FirstTimeOfUpcoming(today, now);
    FirstTimeOfUpcoming(tomorrow, now);
  }

  /** Today's and tomorrow's manual lists come from the same texts, so they
      fail or succeed together. */
  lemma ManualDayOkOnAnyDate(z: ZoneSchedule, t1: int, t2: int)
    ensures ManualDay(z, t1).Ok? == ManualDay(z, t2).Ok?
    ensures ManualDay(z, t1).Err? ==> ManualDay(z, t1) == ManualDay(z, t2)
  {
  }

  /** The auto branch picks the earliest upcoming event of today's
      schedule, or of tomorrow's; nothing only when neither has one. */
  lemma AutoNextRunIsEarliest(config: ZoneConfig, g: GlobalTimingSettings, now: int)
    ensures var today := AutoSchedule(config, now, g);
      var tomorrow := AutoSchedule(config, now + MicrosPerDay, g);
      && (AutoNextRun(config, g, now).Some? ==> ChosenFrom(AutoNextRun(config, g, now).value, today, tomorrow, now))
      && (AutoNextRun(config, g, now).None? <==> !HasUpcoming(today, now) && !HasUpcoming(tomorrow, now))
  {
    NextOfDays(AutoSchedule(config, now, g), AutoSchedule(config, now + MicrosPerDay, g), now);
  }

  /** The manual branch propagates a parse error, and otherwise picks like
      the auto branch from the merged P1 and P2 lists. */
  lemma ManualNextRunIsEarliest(z: ZoneSchedule, now: int)
    ensures ManualDay(z, now).Err? ==> ManualNextRun(z, now) == Err(ManualDay(z, now).error)
    ensures ManualDay(z, now).Ok? ==>
      var today := ManualDay(z, now).value;
      var tomorrow := ManualDay(z, now + MicrosPerDay).value;
      && ManualDay(z, now + MicrosPerDay).Ok?
      && ManualNextRun(z, now).Ok?
      && (ManualNextRun(z, now).value.Some? ==> ChosenFrom(ManualNextRun(z, now).value.value, today, tomorrow, now))
      && (ManualNextRun(z, now).value.None? <==> !HasUpcoming(today, now) && !HasUpcoming(tomorrow, now))
  {
    if ManualDay(z, now).Ok? {
      ManualDayOkOnAnyDate(z, now, now + MicrosPerDay);
      var today := ManualDay(z, now).value;
      var tomorrow := ManualDay(z, now + MicrosPerDay).value;
      NextOfDays(today, tomorrow, now);
      assert ManualNextRun(z, now) == Ok(FirstTime(TodayOrTomorrow(today, tomorrow, now)));
    }
  }

  /** Tomorrow's occurrence of any time of day lies strictly after `now`. */
  lemma TomorrowIsAfter(now: int, tod: TimeOfDay)
    ensures Combine(now + MicrosPerDay, tod) > now
  {
    NextDay(now);
  }

  /** A manual zone whose schedules hold at least one entry always has a next
      run: tomorrow's occurrences all lie after `now`. */
  lemma ManualZoneAlwaysHasNextRun(z: ZoneSchedule, now: int)
    requires z.mode == "manual"
    requires ManualEntries(z.p1ManualList).Ok? && ManualEntries(z.p2ManualList).Ok?
    requires ManualEntries(z.p1ManualList).value != [] || ManualEntries(z.p2ManualList).value != []
    ensures NextRunTime(z, None, now).Ok? && NextRunTime(z, None, now).value.Some?
  {
    var x := ManualEventTomorrow(z, now);
    ManualDayOkOnAnyDate(z, now, now + MicrosPerDay);
    ManualNextRunIsEarliest(z, now);
    var tomorrow := ManualDay(z, now + MicrosPerDay).value;
    assert x in tomorrow && x.time > now;
    assert HasUpcoming(tomorrow, now);
    var r := ManualNextRun(z, now);
    assert r.Ok? && r.value.Some?;
    assert NextRunTime(z, None, now) == r;
  }

  /** Some event of tomorrow's manual schedule lies after `now`. */
  lemma ManualEventTomorrow(z: ZoneSchedule, now: int) returns (x: ScheduledEvent)
    requires ManualEntries(z.p1ManualList).Ok? && ManualEntries(z.p2ManualList).Ok?
    requires ManualEntries(z.p1ManualList).value != [] || ManualEntries(z.p2ManualList).value != []
    ensures ManualDay(z, now + MicrosPerDay).Ok?
    ensures x in ManualDay(z, now + MicrosPerDay).value && x.time > now
  {
    var tomorrow := now + MicrosPerDay;
    var e1 := ManualEntries(z.p1ManualList).value;
    var e2 := ManualEntries(z.p2ManualList).value;
    var p1 := SortByTime(ToEvents(e1, P1, tomorrow));
    var p2 := SortByTime(ToEvents(e2, P2, tomorrow));
    assert ManualDay(z, tomorrow) == Ok(SortByTime(p1 + p2));
    if e1 != [] {
      x := ToEvent(e1[0], P1, tomorrow);
      assert x in ToEvents(e1, P1, tomorrow);
      InSortedEvents(x, ToEvents(e1, P1, tomorrow));
      TomorrowIsAfter(now, e1[0].timeOfDay);
    } else {
      x := ToEvent(e2[0], P2, tomorrow);
      assert x in ToEvents(e2, P2, tomorrow);
      InSortedEvents(x, ToEvents(e2, P2, tomorrow));
      TomorrowIsAfter(now, e2[0].timeOfDay);
    }
    assert x in p1 + p2;
    InSortedEvents(x, p1 + p2);
  }

  /** An auto zone with settings, non-negative delays and at least one event
      always has a next run. */
  lemma AutoZoneAlwaysHasNextRun(z: ZoneSchedule, g: GlobalTimingSettings, now: int)
    requires z.mode == "auto"
    requires g.p1StartDelayMinutes >= 0 && g.p2StartDelayMinutes >= 0
    requires AutoConfig(z).p1DurationSec > 0 || HasP2(AutoConfig(z), now, g)
    ensures NextRunTime(z, Some(g), now).Ok? && NextRunTime(z, Some(g), now).value.Some?
  {
    var config := AutoConfig(z);
    var tomorrow := now + MicrosPerDay;
    var all := P1Events(config, tomorrow, g) + P2Events(config, tomorrow, g);
    TomorrowIsAfter(now, g.lightsOnTime);
    P2WindowDateIndependent(now, tomorrow, g);
    var x: ScheduledEvent;
    if config.p1DurationSec > 0 {
      x := ScheduledEvent(P1Start(tomorrow, g), config.p1DurationSec, P1);
      assert x in all;
    } else {
      P2EventsShape(config, tomorrow, g);
      x := P2Events(config, tomorrow, g)[0];
      assert x in all;
    }
    assert x.time > now;
    InSortedEvents(x, all);
    AutoNextRunIsEarliest(config, g, now);
    assert HasUpcoming(AutoSchedule(config, tomorrow, g), now);
  }
}
