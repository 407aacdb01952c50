/** The water-event endpoints: the next-run computation, which is a second
    next-occurrence rule beside the scheduler's (seconds are dropped and a
    time not after `now` moves to tomorrow), the zone assignment rules, and
    the check of the zone ids given when an event is created. */
module WaterEvents {
  import opened Wrappers
  import opened Text
  import opened Clock
  import opened Entities
  import opened HomeAssistant

  // ---------------------------------------------------------------------
  // Next run

  /** Which `calculation_details` text accompanies the answer. */
  datatype NextRunDetail =
    | Disabled                 // "Event is disabled"
    | LightsOnNotConfigured    // "Room lights_on_entity not configured"
    | MissingDelay             // "P1 event missing delay_minutes"
    | LightsOnRun              // "Lights on at …, event runs … minutes later"
    | InvalidLightsOnFormat    // "Invalid lights_on time format: …"
    | QueryError               // "Error querying Home Assistant: …"
    | MissingTimeOfDay         // "P2 event missing time_of_day"
    | DailyRun                 // "Scheduled for … daily"
    | TimeParseError           // "Error parsing time_of_day: …"
    | UnknownType              // "Unknown event type: …"

  /** The `next_run_time` (a datetime, in microseconds) and the detail. */
  datatype NextRun = NextRun(time: Option<int>, detail: NextRunDetail)

  /** `now.replace(hour=h, minute=m, second=0, microsecond=0)`, which raises
      `ValueError` (here `None`) for an hour outside 0..23 or a minute
      outside 0..59. */
  function ReplaceHM(now: int, h: int, m: int): (r: Option<int>)
    ensures r.Some? <==> 0 <= h <= 23 && 0 <= m <= 59
    ensures r.Some? ==> DayStart(r.value) == DayStart(now)
    ensures r.Some? ==> r.value % MicrosPerMinute == 0
  {
    if 0 <= h <= 23 && 0 <= m <= 59 then
      var tod: TimeOfDay := h * MicrosPerHour + m * MicrosPerMinute;
      assert tod == (60 * h + m) * MicrosPerMinute;
      DayStartUnique(DayStart(now), DayStart(now) + tod);
      Some(DayStart(now) + tod)
    else None
  }

  /** `if event_time <= now: event_time += timedelta(days=1)`. */
  function Bump(t: int, now: int): (r: int)
    ensures r == t || r == t + MicrosPerDay
    ensures t > now ==> r == t
    ensures now - MicrosPerDay < t ==> now < r
  {
    if t <= now then t + MicrosPerDay else t
  }

  /** What `time_parts = s.split(":")` followed by `int(time_parts[0])` and
      `int(time_parts[1])` yields: too few fields, a field `int()` rejects,
      or the hour and the minute (not yet range-checked). */
  datatype Fields = TooFewFields | NotAnInteger | HourMinute(hour: int, minute: int)

  function LeadingFields(s: string): (f: Fields)
    ensures f.TooFewFields? <==> |Split(s, ':')| < 2
  {
    var parts := Split(s, ':');
    if |parts| < 2 then TooFewFields
    else
      match (PyInt(parts[0]), PyInt(parts[1]))
      case (Some(h), Some(m)) => HourMinute(h, m)
      case _ => NotAnInteger
  }

  /** A multiple of a minute stays one when whole minutes are added. */
  lemma AddMinutes(t: int, k: int)
    requires t % MicrosPerMinute == 0
    ensures (t + k * MicrosPerMinute) % MicrosPerMinute == 0
  {
    var q := t / MicrosPerMinute;
    assert t == q * MicrosPerMinute;
    assert t + k * MicrosPerMinute == (q + k) * MicrosPerMinute;
  }

  /** Today at `h:m` (the `replace`), plus `delay` minutes, moved to
      tomorrow when that is not after `now`. It falls on a whole minute
      and, for a delay that is not negative, lies after `now` and at most a
      day plus the delay after it. */
  function NextAt(now: int, h: int, m: int, delay: int): (r: Option<int>)
    ensures r.Some? <==> ReplaceHM(now, h, m).Some?
    ensures r.Some? ==> r.value == Bump(ReplaceHM(now, h, m).value + delay * MicrosPerMinute, now)
    ensures r.Some? ==> r.value % MicrosPerMinute == 0
    ensures r.Some? && delay >= 0 ==> now < r.value <= now + MicrosPerDay + delay * MicrosPerMinute
  {
    match ReplaceHM(now, h, m)
    case None => None
    case Some(t) =>
      AddMinutes(t, delay);
      AddMinutes(t + delay * MicrosPerMinute, 1440);
      Some(Bump(t + delay * MicrosPerMinute, now))
  }

  /** The P1 branch: the lights-on value read from Home Assistant, of which
      only the first two `:`-separated fields count, plus the delay. Every
      exception inside the `try` (the read, `int()`, `replace`) gives the
      same `QueryError`. */
  function P1NextRun(event: WaterEvent, room: Option<Room>, lightsOn: Reply, now: int): (r: NextRun)
    ensures r.time.Some? <==> r.detail == LightsOnRun
    ensures r.time.Some? ==> room.Some? && Truthy(room.value.lightsOnEntity)
                             && event.delayMinutes.Some? && lightsOn.Success?
  {
    if room.None? || !Truthy(room.value.lightsOnEntity) then NextRun(None, LightsOnNotConfigured)
    else if event.delayMinutes.None? then NextRun(None, MissingDelay)
    else if lightsOn.Failure? then NextRun(None, QueryError)
    else LightsOnNextRun(LeadingFields(lightsOn.state), event.delayMinutes.value, now)
  }

  /** The P1 branch once the lights-on value has been split and read. */
  function LightsOnNextRun(f: Fields, delay: int, now: int): (r: NextRun)
    ensures r.time.Some? <==> r.detail == LightsOnRun
    ensures r.time.Some? <==> f.HourMinute? && ReplaceHM(now, f.hour, f.minute).Some?
  {
    match f
    case TooFewFields => NextRun(None, InvalidLightsOnFormat)
    case NotAnInteger => NextRun(None, QueryError)
    case HourMinute(h, m) =>
      match NextAt(now, h, m, delay)
      case None => NextRun(None, QueryError)
      case Some(t) => NextRun(Some(t), LightsOnRun)
  }

  /** The P2 branch: `time_of_day` split on `:`; fewer than two fields
      (`IndexError`), a field `int()` rejects, or an out-of-range time all
      give `TimeParseError`. */
  function P2NextRun(event: WaterEvent, now: int): (r: NextRun)
    ensures r.time.Some? <==> r.detail == DailyRun
    ensures r.time.Some? ==> Truthy(event.timeOfDay)
  {
    if !Truthy(event.timeOfDay) then NextRun(None, MissingTimeOfDay)
    else
      match LeadingFields(event.timeOfDay.value)
      case TooFewFields => NextRun(None, TimeParseError)
      case NotAnInteger => NextRun(None, TimeParseError)
      case HourMinute(h, m) =>
        match NextAt(now, h, m, 0)
        case None => NextRun(None, TimeParseError)
        case Some(t) => NextRun(Some(t), DailyRun)
  }

  /** `calculate_next_run` for an existing event, given the room it belongs
      to (if any) and the reply to the lights-on read. A time is only ever
      reported for an enabled P1 or P2 event, and then, the delay not being
      negative (the schema demands `delay_minutes >= 0`), it is strictly
      after `now`. */
  function NextRunFor(event: WaterEvent, room: Option<Room>, lightsOn: Reply, now: int): (r: NextRun)
    ensures !event.enabled ==> r == NextRun(None, Disabled)
    ensures event.enabled && event.eventType != "p1" && event.eventType != "p2" ==> r == NextRun(None, UnknownType)
    ensures r.time.Some? ==> event.enabled && (r.detail == LightsOnRun || r.detail == DailyRun)
    ensures r.time.Some? && (event.delayMinutes.Some? ==> event.delayMinutes.value >= 0) ==> now < r.time.value
  {
    if !event.enabled then NextRun(None, Disabled)
    else if event.eventType == "p1" then P1NextRun(event, room, lightsOn, now)
    else if event.eventType == "p2" then P2NextRun(event, now)
    else NextRun(None, UnknownType)
  }

  /** The fields are a valid hour and minute that make up `tod`. */
  predicate ClockFields(f: Fields, tod: TimeOfDay) {
    f.HourMinute? && 0 <= f.hour <= 23 && 0 <= f.minute <= 59
    && f.hour * MicrosPerHour + f.minute * MicrosPerMinute == tod
  }

  /** An `HH:MM` value `strptime` accepts has as its first two fields the
      hour and the minute `int()` reads. */
  lemma FieldsOfHM(s: string, tod: TimeOfDay)
    requires ParseHM(s) == Some(tod)
    ensures ClockFields(LeadingFields(s), tod)
  {
    var parts := Split(s, ':');
    PyIntDigits(parts[0]);
    PyIntDigits(parts[1]);
  }

  /** An `HH:MM:SS` value `strptime` accepts has as its first two fields the
      hour and the minute `int()` reads; the seconds are left over. So for
      P1 with such a lights-on value (`P1NextRunOfFields`), the run is at
      the lights-on time truncated to the minute plus the delay, whereas
      the scheduler keeps the seconds. */
  lemma FieldsOfHMS(s: string, tod: TimeOfDay)
    requires ParseHMS(s) == Some(tod)
    ensures ClockFields(LeadingFields(s), MinuteOf(tod))
  {
    var parts := Split(s, ':');
    assert |parts| == 3;
    assert TimeField(parts[0], 23).Some? && TimeField(parts[1], 59).Some? && TimeField(parts[2], 59).Some?;
    PyIntDigits(parts[0]);
    PyIntDigits(parts[1]);
    var h := TimeField(parts[0], 23).value;
    var m := TimeField(parts[1], 59).value;
    var sec := TimeField(parts[2], 59).value;
    assert tod == h * MicrosPerHour + m * MicrosPerMinute + sec * MicrosPerSecond;
    MinuteTruncation(tod, 60 * h + m, sec * MicrosPerSecond);
    assert LeadingFields(s) == HourMinute(h, m);
  }

  /** Truncating `k` minutes and `rest` microseconds, `rest` under a minute,
      to the minute leaves the `k` minutes. */
  lemma MinuteTruncation(t: int, k: nat, rest: nat)
    requires rest < MicrosPerMinute && t == k * MicrosPerMinute + rest
    ensures t % MicrosPerMinute == rest
  {
  }

  /** `calculate_next_run` for a P2 event agrees with the scheduler on every
      `HH:MM` time of day: the run is today at that time, or tomorrow when
      that is not after `now`. */
  lemma P2NextRunMatchesSchedule(event: WaterEvent, room: Option<Room>, lightsOn: Reply, now: int)
    requires event.enabled && event.eventType == "p2"
    requires event.timeOfDay.Some? && ParseHM(event.timeOfDay.value).Some?
    ensures NextRunFor(event, room, lightsOn, now)
         == NextRun(Some(Bump(Combine(now, ParseHM(event.timeOfDay.value).value), now)), DailyRun)
  {
    var s := event.timeOfDay.value;
    assert s != [];
    FieldsOfHM(s, ParseHM(s).value);
    var f := LeadingFields(s);
    NextAtTimeOfDay(now, f.hour, f.minute, 0, ParseHM(s).value);
  }

  /** `NextAt` for the hour and minute of a time of day `tod` is today at
      `tod` plus the delay, or a day later. */
  lemma NextAtTimeOfDay(now: int, h: int, m: int, delay: int, tod: TimeOfDay)
    requires 0 <= h <= 23 && 0 <= m <= 59 && h * MicrosPerHour + m * MicrosPerMinute == tod
    ensures NextAt(now, h, m, delay) == Some(Bump(Combine(now, tod) + delay * MicrosPerMinute, now))
  {
    assert Combine(now, tod) == DayStart(now) + tod;
  }

  /** For P1 with an `HH:MM` lights-on value, `calculate_next_run` agrees
      with the scheduler: the run is at the lights-on time plus the delay,
      today, or tomorrow when that is not after `now`. */
  lemma P1NextRunMatchesSchedule(event: WaterEvent, room: Room, state: string, now: int, delay: int, tod: TimeOfDay)
    requires P1Configured(event, room, delay)
    requires ParseHM(state) == Some(tod)
    ensures NextRunFor(event, Some(room), Success(state), now)
         == NextRun(Some(Bump(Combine(now, tod) + delay * MicrosPerMinute, now)), LightsOnRun)
  {
    FieldsOfHM(state, tod);
    P1NextRunOfFields(event, room, state, now, delay, tod);
  }

  /** An enabled P1 event with a delay of `delay` minutes, in a room with a
      lights-on entity. */
  predicate P1Configured(event: WaterEvent, room: Room, delay: int) {
    event.enabled && event.eventType == "p1" && event.delayMinutes == Some(delay) && Truthy(room.lightsOnEntity)
  }

  /** A configured P1 event whose lights-on value has as its first two
      fields the hour and minute of `tod` runs at `tod` plus the delay,
      today or tomorrow. */
  lemma P1NextRunOfFields(event: WaterEvent, room: Room, state: string, now: int, delay: int, tod: TimeOfDay)
    requires P1Configured(event, room, delay)
    requires ClockFields(LeadingFields(state), tod)
    ensures NextRunFor(event, Some(room), Success(state), now)
         == NextRun(Some(Bump(Combine(now, tod) + delay * MicrosPerMinute, now)), LightsOnRun)
  {
    P1NextRunReadsFields(event, room, state, now, delay);
    LightsOnNextRunAt(LeadingFields(state), delay, now, tod);
  }

  /** A configured P1 event whose lights-on value was read is decided by the
      first two fields of that value. */
  lemma P1NextRunReadsFields(event: WaterEvent, room: Room, state: string, now: int, delay: int)
    requires P1Configured(event, room, delay)
    ensures NextRunFor(event, Some(room), Success(state), now) == LightsOnNextRun(LeadingFields(state), delay, now)
  {
  }

  /** `LightsOnNextRun` for an hour and a minute making up `tod`. */
  lemma LightsOnNextRunAt(f: Fields, delay: int, now: int, tod: TimeOfDay)
    requires ClockFields(f, tod)
    ensures LightsOnNextRun(f, delay, now)
         == NextRun(Some(Bump(Combine(now, tod) + delay * MicrosPerMinute, now)), LightsOnRun)
  {
    NextAtTimeOfDay(now, f.hour, f.minute, delay, tod);
  }

  /** A time of day truncated to the minute. */
  function MinuteOf(tod: TimeOfDay): (r: TimeOfDay)
    ensures r <= tod < r + MicrosPerMinute
  {
    tod - tod % MicrosPerMinute
  }

  // ---------------------------------------------------------------------
  // Zones of an event

  predicate NoDup(s: seq<int>) {
    forall i, j :: 0 <= i < j < |s| ==> s[i] != s[j]
  }

  /** `list.remove(x)`: drops the first occurrence of `x`. */
  function RemoveFirst(s: seq<int>, x: int): (r: seq<int>)
    requires x in s
    ensures |r| == |s| - 1
    ensures multiset(r) == multiset(s) - multiset{x}
  {
    assert s == [s[0]] + s[1..];
    if s[0] == x then s[1..]
    else [s[0]] + RemoveFirst(s[1..], x)
  }

  /** The tail of a list without repeats has none either, and lacks the head. */
  lemma NoDupTail(s: seq<int>)
    requires s != [] && NoDup(s)
    ensures NoDup(s[1..]) && s[0] !in s[1..]
  {
    var t := s[1..];
    forall i, j | 0 <= i < j < |t| ensures t[i] != t[j] {
      assert t[i] == s[i + 1] && t[j] == s[j + 1];
    }
    forall j | 0 <= j < |t| ensures t[j] != s[0] {
      assert t[j] == s[j + 1];
    }
  }

  /** Removing a zone from a list without repeats leaves no copy of it and
      keeps the list free of repeats. */
  lemma {:induction false} RemoveFirstNoDup(s: seq<int>, x: int)
    requires x in s && NoDup(s)
    ensures NoDup(RemoveFirst(s, x)) && x !in RemoveFirst(s, x)
  {
    NoDupTail(s);
    var t := s[1..];
    if s[0] != x {
      assert x in t by { assert s == [s[0]] + t; }
      RemoveFirstNoDup(t, x);
      var rest := RemoveFirst(t, x);
      assert multiset(t)[s[0]] == 0;
      assert multiset(rest)[s[0]] == 0;
      NoDupCons(s[0], rest);
    }
  }

  /** A new head missing from a list without repeats keeps it so. */
  lemma NoDupCons(a: int, s: seq<int>)
    requires NoDup(s) && a !in s
    ensures NoDup([a] + s)
  {
    var r := [a] + s;
    forall i, j | 0 <= i < j < |r| ensures r[i] != r[j] {
      assert r[j] == s[j - 1];
      if i > 0 {
        assert r[i] == s[i - 1];
      }
    }
  }

  /** The answer of an assignment endpoint. */
  datatype Status = Done | NotFound | BadRequest

  /** The event–zone association: for each existing event, the ids of its
      zones in assignment order. */
  class ZoneAssignments {
    var links: map<int, seq<int>>

    /** An event never lists a zone twice. */
    ghost predicate Valid()
      reads this
    {
      forall e :: e in links ==> NoDup(links[e])
    }

    constructor()
      ensures links == map[] && Valid()
    {
      links := map[];
    }

    /** `assign_zone_to_event`: 404 for an unknown event or zone, 400 when
        the zone is already assigned, otherwise the zone is appended. */
    method Assign(eventId: int, zoneId: int, zones: set<int>) returns (status: Status)
      requires Valid()
      modifies this
      ensures Valid()
      ensures status == NotFound <==> eventId !in old(links) || zoneId !in zones
      ensures status == BadRequest <==> eventId in old(links) && zoneId in zones && zoneId in old(links)[eventId]
      ensures status == Done ==> links == old(links)[eventId := old(links)[eventId] + [zoneId]]
      ensures status != Done ==> links == old(links)
    {
      if eventId !in links || zoneId !in zones {
        return NotFound;
      }
      if zoneId in links[eventId] {
        return BadRequest;
      }
      var s := links[eventId];
      assert NoDup(s + [zoneId]) by {
        forall i, j | 0 <= i < j < |s + [zoneId]|
          ensures (s + [zoneId])[i] != (s + [zoneId])[j]
        {
          if j == |s| {
            assert (s + [zoneId])[i] == s[i] && s[i] in s;
          }
        }
      }
      links := links[eventId := s + [zoneId]];
      return Done;
    }

    /** `remove_zone_from_event`: 404 for an unknown event or zone, 400 when
        the zone is not assigned, otherwise the zone is removed. */
    method Remove(eventId: int, zoneId: int, zones: set<int>) returns (status: Status)
      requires Valid()
      modifies this
      ensures Valid()
      ensures status == NotFound <==> eventId !in old(links) || zoneId !in zones
      ensures status == BadRequest <==> eventId in old(links) && zoneId in zones && zoneId !in old(links)[eventId]
      ensures status == Done ==> links == old(links)[eventId := RemoveFirst(old(links)[eventId], zoneId)]
      ensures status == Done ==> zoneId !in links[eventId]
      ensures status != Done ==> links == old(links)
    {
      if eventId !in links || zoneId !in zones {
        return NotFound;
      }
      if zoneId !in links[eventId] {
        return BadRequest;
      }
      RemoveFirstNoDup(links[eventId], zoneId);
      links := links[eventId := RemoveFirst(links[eventId], zoneId)];
      return Done;
    }
  }

  /** Assigning a zone and then removing it gives the event its zones back. */
  lemma {:induction false} AssignRemoveRestores(s: seq<int>, x: int)
    requires x !in s
    ensures RemoveFirst(s + [x], x) == s
  {
    if s != [] {
      assert (s + [x])[1..] == s[1..] + [x];
      AssignRemoveRestores(s[1..], x);
    }
  }

  // ---------------------------------------------------------------------
  // Zone ids of a new event

  /** The distinct ids of a request, `set(zone_ids)`. */
  function Elements(s: seq<int>): set<int>
  {
    set z | z in s
  }

  /** The zone-id check of `create_event` as written: the database returns
      each matching zone once, and the request is rejected when fewer
      zones come back than ids were given, naming the ids not found. */
  function CheckZoneIdsAsWritten(ids: seq<int>, existing: set<int>): (r: Result<set<int>, set<int>>)
    ensures r.Ok? ==> r.value == Elements(ids) * existing
    ensures r.Err? ==> r.error == Elements(ids) - existing && ids != []
  {
    var found := Elements(ids) * existing;
    if ids != [] && |found| != |ids| then Err(Elements(ids) - found)
    else Ok(found)
  }

  /** Given a zone id twice, the check as written rejects the event and
      reports no missing id at all. */
  lemma DuplicateIdsRejected()
    ensures CheckZoneIdsAsWritten([1, 1], {1}) == Err({})
  {
    var ids := [1, 1];
    assert Elements(ids) == {1} by {
      assert ids[0] == 1;
    }
    var found := Elements(ids) * {1};
    assert found == {1};
    assert |found| == 1 != |ids|;
    assert Elements(ids) - found == {};
  }

  /** The zone-id check as intended: the event is rejected exactly when some
      given id is not a zone, and then the missing ids are named. */
  function CheckZoneIds(ids: seq<int>, existing: set<int>): (r: Result<set<int>, set<int>>)
    ensures r.Ok? <==> forall z :: z in ids ==> z in existing
    ensures r.Ok? ==> forall z :: z in r.value <==> z in ids
    ensures r.Err? ==> r.error != {} && forall z :: z in r.error <==> z in ids && z !in existing
  {
    if forall z :: z in ids ==> z in existing then
      Ok(Elements(ids))
    else
      var w :| w in ids && w !in existing;
      assert w in Elements(ids) - existing;
      Err(Elements(ids) - existing)
  }

  /** The two checks agree on every request without repeated ids. */
  lemma CheckZoneIdsAgree(ids: seq<int>, existing: set<int>)
    requires NoDup(ids)
    ensures CheckZoneIdsAsWritten(ids, existing) == CheckZoneIds(ids, existing)
  {
    var all := Elements(ids);
    var found := all * existing;
    var missing := all - existing;
    DistinctCard(ids);
    if missing == {} {
      forall z | z in all ensures z in existing {
        assert z !in missing;
      }
      assert found == all;
    } else {
      SplitCard(all, existing);
      assert |missing| > 0;
    }
  }

  /** A set falls apart into the members that are in `other` and those that are not. */
  lemma SplitCard(all: set<int>, other: set<int>)
    ensures |all| == |all * other| + |all - other|
  {
    assert all == (all * other) + (all - other);
    assert (all * other) * (all - other) == {};
  }

  /** A sequence without repeats has as many distinct elements as entries. */
  lemma {:induction false} DistinctCard(s: seq<int>)
    requires NoDup(s)
    ensures |Elements(s)| == |s|
  {
    if s != [] {
      var t := s[1..];
      NoDupTail(s);
      DistinctCard(t);
      assert Elements(s) == Elements(t) + {s[0]} by {
        assert s == [s[0]] + t;
      }
    }
  }
}
