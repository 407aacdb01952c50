/** The event scheduler: once a minute it decides, for each enabled water
    event of a room, whether the event is due now, and if so queues one job
    per eligible zone on that zone's pump. A P1 event is due around the
    room's lights-on time (read from Home Assistant) plus its delay, a P2
    event around its fixed time of day; "around" is strictly less than 60
    seconds either way. */
module Scheduling {
  import opened Wrappers
  import opened Text
  import opened Clock
  import opened Entities
  import opened HomeAssistant
  import opened QueueProcessing

  /** Half-width of the window in which an event counts as due. */
  const DueWindowSeconds: int := 60

  /** `abs((now - scheduled).total_seconds()) < 60`. */
  predicate Due(now: int, scheduled: int) {
    -DueWindowSeconds * MicrosPerSecond < now - scheduled < DueWindowSeconds * MicrosPerSecond
  }

  /** The `(should_run, scheduled_time)` pair of one evaluation. */
  datatype Decision = Decision(run: bool, scheduled: Option<int>)

  const NotDue: Decision := Decision(false, None)

  /** The lights-on state parsed as `%H:%M:%S`, else as `%H:%M`. */
  function LightsOnTime(value: string): Option<TimeOfDay> {
    if ParseHMS(value).Some? then ParseHMS(value) else ParseHM(value)
  }

  /** Both formats the lights-on entity may report are understood. */
  lemma LightsOnFormats(h: nat, m: nat, sec: nat)
    requires h <= 23 && m <= 59 && sec <= 59
    ensures LightsOnTime(Pad2(h) + ":" + Pad2(m) + ":" + Pad2(sec))
         == Some(h * MicrosPerHour + m * MicrosPerMinute + sec * MicrosPerSecond)
    ensures LightsOnTime(Pad2(h) + ":" + Pad2(m)) == Some(h * MicrosPerHour + m * MicrosPerMinute)
  {
    ParseHMSFormat(h, m, sec);
    ParseHMFormat(h, m);
    FormatsDisjoint(Pad2(h) + ":" + Pad2(m));
  }

  /** Whichever format reads a lights-on value decides it: since no text is
      read by both, trying `%H:%M:%S` first loses nothing. */
  lemma LightsOnEitherFormat(value: string)
    ensures ParseHMS(value).Some? ==> LightsOnTime(value) == ParseHMS(value)
    ensures ParseHM(value).Some? ==> LightsOnTime(value) == ParseHM(value)
    ensures LightsOnTime(value).None? <==> ParseHMS(value).None? && ParseHM(value).None?
  {
    FormatsDisjoint(value);
  }

  /** Whether evaluating the event reads the lights-on entity: only a P1
      event with a delay in a room with a lights-on entity does. */
  predicate NeedsRead(room: Room, event: WaterEvent) {
    event.eventType == "p1" && event.delayMinutes.Some? && Truthy(room.lightsOnEntity)
  }

  /** `_calculate_p1_event`, given the reply to the lights-on read. */
  function P1Decision(room: Room, event: WaterEvent, now: int, lightsOn: Reply): Decision {
    if event.delayMinutes.None? || !Truthy(room.lightsOnEntity) || lightsOn.Failure? then NotDue
    else
      match LightsOnTime(lightsOn.state)
      case None => NotDue
      case Some(tod) =>
        var scheduled := Combine(now, tod) + event.delayMinutes.value * MicrosPerMinute;
        Decision(Due(now, scheduled), Some(scheduled))
  }

  /** `_calculate_p2_event`. */
  function P2Decision(event: WaterEvent, now: int): Decision {
    if !Truthy(event.timeOfDay) then NotDue
    else
      match ParseHM(event.timeOfDay.value)
      case None => NotDue
      case Some(tod) =>
        var scheduled := Combine(now, tod);
        Decision(Due(now, scheduled), Some(scheduled))
  }

  /** `_should_event_run`: dispatch on the event type; an unknown type is
      never due. */
  function Decide(room: Room, event: WaterEvent, now: int, lightsOn: Reply): (d: Decision)
    ensures d.run ==> d.scheduled.Some? && Due(now, d.scheduled.value)
    ensures event.eventType != "p1" && event.eventType != "p2" ==> d == NotDue
  {
    if event.eventType == "p1" then P1Decision(room, event, now, lightsOn)
    else if event.eventType == "p2" then P2Decision(event, now)
    else NotDue
  }

  /** A P1 event is due exactly when it has a delay, its room a lights-on
      entity whose state could be read and parsed, and `now` lies within a
      minute of that time of day plus the delay, on today's date. */
  lemma P1DueExactly(room: Room, event: WaterEvent, now: int, lightsOn: Reply)
    requires event.eventType == "p1"
    ensures Decide(room, event, now, lightsOn).run <==>
      && NeedsRead(room, event)
      && lightsOn.Success?
      && LightsOnTime(lightsOn.state).Some?
      && Due(now, DayStart(now) + LightsOnTime(lightsOn.state).value
                  + event.delayMinutes.value * MicrosPerMinute)
  {
  }

  /** A P2 event is due exactly when its time of day is an `HH:MM` time and
      `now` lies within a minute of it, on today's date. */
  lemma P2DueExactly(room: Room, event: WaterEvent, now: int, lightsOn: Reply)
    requires event.eventType == "p2"
    ensures Decide(room, event, now, lightsOn).run <==>
      && Truthy(event.timeOfDay)
      && ParseHM(event.timeOfDay.value).Some?
      && Due(now, DayStart(now) + ParseHM(event.timeOfDay.value).value)
  {
  }

  /** The loop sleeps 60 s after each evaluation, so consecutive
      evaluations are `g` apart with `g` just over a minute; while an
      evaluation takes less than a minute, `g` is below two. Of the two
      evaluations around the scheduled instant on day `d`, one is on day `d`
      and within the window, unless the time of day lies within `g - 60 s`
      of midnight (`P2MissedAtMidnight`). */
  lemma {:induction false} P2NeverMissed(tod: TimeOfDay, d: int, a: int, b: int)
    requires d % MicrosPerDay == 0
    requires a <= d + tod <= b && b - a < 2 * DueWindowSeconds * MicrosPerSecond
    requires (b - a) - DueWindowSeconds * MicrosPerSecond <= tod
    requires tod + (b - a) - DueWindowSeconds * MicrosPerSecond < MicrosPerDay
    ensures (DayStart(a) == d && Due(a, Combine(a, tod))) || (DayStart(b) == d && Due(b, Combine(b, tod)))
  {
    var s := d + tod;
    if d <= a && s - a < DueWindowSeconds * MicrosPerSecond {
      DayStartUnique(d, a);
    } else {
      assert b - s < DueWindowSeconds * MicrosPerSecond;
      DayStartUnique(d, b);
    }
  }

  /** Near midnight the window misses: for every gap over a minute, the
      evaluations 1 µs before midnight and `g` later both find a `"00:00"`
      P2 event not due, the first because it combines the time with the
      day before. */
  lemma P2MissedAtMidnight(room: Room, event: WaterEvent, lightsOn: Reply, g: int)
    requires event.eventType == "p2" && event.timeOfDay == Some("00:00")
    requires DueWindowSeconds * MicrosPerSecond < g < 2 * DueWindowSeconds * MicrosPerSecond
    ensures !Decide(room, event, -1, lightsOn).run
    ensures !Decide(room, event, g - 1, lightsOn).run
  {
    ParseHMFormat(0, 0);
    assert Pad2(0) + ":" + Pad2(0) == "00:00";
    DayStartUnique(-MicrosPerDay, -1);
    DayStartUnique(0, g - 1);
  }

  /** A P1 event whose lights-on time plus delay lies a minute or more past
      the next midnight is never due: the time is combined with today's
      date, so the scheduled instant is always more than a minute ahead. */
  lemma P1PastMidnightNeverDue(room: Room, event: WaterEvent, now: int, lightsOn: Reply)
    requires event.eventType == "p1" && NeedsRead(room, event) && lightsOn.Success?
    requires LightsOnTime(lightsOn.state).Some?
    requires LightsOnTime(lightsOn.state).value + event.delayMinutes.value * MicrosPerMinute
             >= MicrosPerDay + DueWindowSeconds * MicrosPerSecond
    ensures !Decide(room, event, now, lightsOn).run
  {
    P1DueExactly(room, event, now, lightsOn);
  }

  /** Lights-on at 20:00:00 with a delay of 300 minutes: never due. */
  lemma P1EveningDelayNeverDue(room: Room, event: WaterEvent, now: int)
    requires event.eventType == "p1" && event.delayMinutes == Some(300) && Truthy(room.lightsOnEntity)
    ensures !Decide(room, event, now, Success("20:00:00")).run
  {
    ParseHMSFormat(20, 0, 0);
    assert Pad2(20) + ":" + Pad2(0) + ":" + Pad2(0) == "20:00:00";
    P1PastMidnightNeverDue(room, event, now, Success("20:00:00"));
  }

  // ---------------------------------------------------------------------
  // A daily due test

  /** The due test as a daily schedule means it: `now` lies within a minute
      of some instant `offset` past a midnight, on whichever day. */
  predicate DueDaily(now: int, offset: int) {
    var r := (now - offset) - DayStart(now - offset);
    r < DueWindowSeconds * MicrosPerSecond || r > MicrosPerDay - DueWindowSeconds * MicrosPerSecond
  }

  /** The daily test fires at the scheduled instant on every day, however
      far past midnight lights-on plus the delay lies. */
  lemma DueDailyAtInstant(offset: int, k: int)
    ensures DueDaily(offset + k * MicrosPerDay, offset)
  {
    DayStartUnique(k * MicrosPerDay, k * MicrosPerDay);
  }

  /** Of two evaluations less than two minutes apart around an instant
      `offset` past a midnight, the daily test fires on one, at any time of
      day, midnight included. */
  lemma DueDailyNeverMissed(offset: int, s: int, a: int, b: int)
    requires (s - offset) % MicrosPerDay == 0
    requires a <= s <= b && b - a < 2 * DueWindowSeconds * MicrosPerSecond
    ensures DueDaily(a, offset) || DueDaily(b, offset)
  {
    var d := s - offset;
    if s - a < DueWindowSeconds * MicrosPerSecond {
      if a == s {
        DayStartUnique(d, a - offset);
      } else {
        DayMultiple(d);
        DayStartUnique(d - MicrosPerDay, a - offset);
      }
    } else {
      DayStartUnique(d, b - offset);
    }
  }

  /** One day earlier is still a whole number of days. */
  lemma DayMultiple(d: int)
    requires d % MicrosPerDay == 0
    ensures (d - MicrosPerDay) % MicrosPerDay == 0
  {
    var q := d / MicrosPerDay;
    assert d - MicrosPerDay == (q - 1) * MicrosPerDay;
  }

  /** Away from midnight the daily test is the source's test: for a time of
      day at least a minute from either midnight, it agrees with
      `Due(now, Combine(now, tod))` at every `now`. */
  lemma DueDailyAgrees(now: int, tod: TimeOfDay)
    requires DueWindowSeconds * MicrosPerSecond <= tod <= MicrosPerDay - DueWindowSeconds * MicrosPerSecond
    ensures DueDaily(now, tod) <==> Due(now, Combine(now, tod))
  {
    var d := DayStart(now);
    if now - tod >= d {
      DayStartUnique(d, now - tod);
    } else {
      DayMultiple(d);
      DayStartUnique(d - MicrosPerDay, now - tod);
    }
  }

  /** There is no at-most-once guard: two evaluations a minute apart can
      both find the same P2 event due, here at 07:59:30 and 08:00:30 for an
      event at 08:00, so its jobs are queued twice. */
  lemma P2CanFireTwice(room: Room, event: WaterEvent, lightsOn: Reply)
    requires event.eventType == "p2" && event.timeOfDay == Some("08:00")
    ensures Decide(room, event, 8 * MicrosPerHour - 30 * MicrosPerSecond, lightsOn).run
    ensures Decide(room, event, 8 * MicrosPerHour + 30 * MicrosPerSecond, lightsOn).run
  {
    ParseHMFormat(8, 0);
    assert Pad2(8) + ":" + Pad2(0) == "08:00";
    DayStartUnique(0, 8 * MicrosPerHour - 30 * MicrosPerSecond);
    DayStartUnique(0, 8 * MicrosPerHour + 30 * MicrosPerSecond);
  }

  // ---------------------------------------------------------------------
  // Job fan-out

  /** A zone gets a job when it is enabled and its pump exists and is enabled. */
  predicate Eligible(zone: Zone, pumps: map<int, Pump>) {
    zone.enabled && zone.pumpId in pumps && pumps[zone.pumpId].enabled
  }

  /** The job of one zone for an event scheduled at `scheduled`. */
  function ZoneJob(zone: Zone, event: WaterEvent, scheduled: int): ExecutionJob {
    ExecutionJob(zone.id, zone.name, zone.switchEntity, event.runTimeSeconds, scheduled)
  }

  /** The (pump, job) pairs an event creates from the zones `zones`, in zone order. */
  function ZoneJobs(zones: seq<Zone>, pumps: map<int, Pump>, event: WaterEvent, scheduled: int)
    : (jobs: seq<(int, ExecutionJob)>)
    ensures |jobs| <= |zones|
    decreases |zones|
  {
    if zones == [] then []
    else
      var z := zones[|zones| - 1];
      ZoneJobs(zones[..|zones| - 1], pumps, event, scheduled)
        + (if Eligible(z, pumps) then [(z.pumpId, ZoneJob(z, event, scheduled))] else [])
  }

  /** The jobs an event creates: one per eligible zone, in zone order. */
  function EventJobs(event: WaterEvent, pumps: map<int, Pump>, scheduled: int): seq<(int, ExecutionJob)> {
    ZoneJobs(event.zones, pumps, event, scheduled)
  }

  /** The zones of `zones` that get a job, in order. */
  function EligibleZones(zones: seq<Zone>, pumps: map<int, Pump>): (r: seq<Zone>)
    decreases |zones|
  {
    if zones == [] then []
    else
      var z := zones[|zones| - 1];
      EligibleZones(zones[..|zones| - 1], pumps) + (if Eligible(z, pumps) then [z] else [])
  }

  /** The created jobs are exactly the jobs of the eligible zones, one each,
      in zone order, each on its zone's pump with the event's run time and
      the scheduled time. */
  lemma {:induction false} ZoneJobsAreEligibleZones(zones: seq<Zone>, pumps: map<int, Pump>, event: WaterEvent, scheduled: int)
    ensures |ZoneJobs(zones, pumps, event, scheduled)| == |EligibleZones(zones, pumps)|
    ensures forall i :: 0 <= i < |EligibleZones(zones, pumps)| ==>
      ZoneJobs(zones, pumps, event, scheduled)[i]
        == (EligibleZones(zones, pumps)[i].pumpId, ZoneJob(EligibleZones(zones, pumps)[i], event, scheduled))
    decreases |zones|
  {
    if zones != [] {
      ZoneJobsAreEligibleZones(zones[..|zones| - 1], pumps, event, scheduled);
    }
  }

  /** A zone is selected exactly when it is one of the zones and eligible. */
  lemma {:induction false} EligibleZonesMembers(zones: seq<Zone>, pumps: map<int, Pump>)
    ensures forall z :: z in EligibleZones(zones, pumps) <==> z in zones && Eligible(z, pumps)
    decreases |zones|
  {
    if zones != [] {
      var init := zones[..|zones| - 1];
      EligibleZonesMembers(init, pumps);
      assert zones == init + [zones[|zones| - 1]];
    }
  }

  /** An event without zones creates no jobs. */
  lemma NoZonesNoJobs(event: WaterEvent, pumps: map<int, Pump>, scheduled: int)
    requires event.zones == []
    ensures EventJobs(event, pumps, scheduled) == []
  {
  }

  // ---------------------------------------------------------------------
  // A room's evaluation as a value

  /** The read the evaluation of `event` takes, given its reply. */
  function ReadSteps(room: Room, event: WaterEvent, reply: Reply): seq<Step> {
    if NeedsRead(room, event) then [Step(Read(room.lightsOnEntity.value), reply)] else []
  }

  /** The jobs an event contributes under decision `d`: its jobs at the
      scheduled time when it is due, none otherwise. */
  function DueJobs(event: WaterEvent, pumps: map<int, Pump>, d: Decision): seq<(int, ExecutionJob)> {
    if d.run && d.scheduled.Some? then EventJobs(event, pumps, d.scheduled.value) else []
  }

  /** The Home Assistant steps of evaluating `events` in order, the service
      answering from step `k`: one lights-on read per event that needs it. */
  function RoomSteps(room: Room, events: seq<WaterEvent>, script: seq<Reply>, k: nat): (steps: seq<Step>)
    decreases |events|
  {
    if events == [] then []
    else
      var before := RoomSteps(room, events[..|events| - 1], script, k);
      before + ReadSteps(room, events[|events| - 1], ReplyAt(script, k + |before|))
  }

  /** The reply the evaluation of `events[i]` sees, after the reads of the
      events before it. */
  function ReplyFor(room: Room, events: seq<WaterEvent>, i: nat, script: seq<Reply>, k: nat): Reply
    requires i < |events|
  {
    ReplyAt(script, k + |RoomSteps(room, events[..i], script, k)|)
  }

  /** The jobs of evaluating `events` in order: each event is decided on its
      own, with the reply its read gets, and when due contributes its jobs. */
  function RoomJobs(room: Room, events: seq<WaterEvent>, pumps: map<int, Pump>, now: int,
                    script: seq<Reply>, k: nat): seq<(int, ExecutionJob)>
    decreases |events|
  {
    if events == [] then []
    else
      var n := |events| - 1;
      RoomJobs(room, events[..n], pumps, now, script, k)
        + DueJobs(events[n], pumps, Decide(room, events[n], now, ReplyFor(room, events, n, script, k)))
  }

  /** Only events found due contribute jobs: an event that is not due at
      `now` leaves the jobs of the others as they are. */
  lemma {:induction false} RoomJobsSkipNotDue(room: Room, events: seq<WaterEvent>, e: WaterEvent, pumps: map<int, Pump>,
                           now: int, script: seq<Reply>, k: nat)
    requires !Decide(room, e, now, ReplyAt(script, k + |RoomSteps(room, events, script, k)|)).run
    ensures RoomJobs(room, events + [e], pumps, now, script, k) == RoomJobs(room, events, pumps, now, script, k)
  {
    assert (events + [e])[..|events + [e]| - 1] == events;
  }

  class EventScheduler {
    const ha: HomeAssistantClient
    const processor: QueueProcessor

    constructor(ha: HomeAssistantClient, processor: QueueProcessor)
      ensures this.ha == ha && this.processor == processor
    {
      this.ha := ha;
      this.processor := processor;
    }

    /** `_should_event_run` with `_calculate_p1_event` and `_calculate_p2_event`:
        reads the lights-on entity when a P1 event needs it. */
    method ShouldEventRun(room: Room, event: WaterEvent, now: int) returns (d: Decision)
      modifies ha
      ensures d == Decide(room, event, now, ReplyAt(ha.script, |old(ha.trace)|))
      ensures ha.trace == old(ha.trace) + ReadSteps(room, event, ReplyAt(ha.script, |old(ha.trace)|))
    {
      if event.eventType == "p1" {
        if event.delayMinutes.None? || !Truthy(room.lightsOnEntity) {
          return NotDue;
        }
        var lightsOn := ha.GetState(room.lightsOnEntity.value);
        return P1Decision(room, event, now, lightsOn);
      } else if event.eventType == "p2" {
        return P2Decision(event, now);
      }
      return NotDue;
    }

    /** `_create_jobs_for_event`: one job per eligible zone, added to its
        pump's queue in zone order. */
    method CreateJobsForEvent(event: WaterEvent, pumps: map<int, Pump>, scheduled: int)
      modifies processor`pumpQueues
      ensures processor.pumpQueues == EnqueueAll(old(processor.pumpQueues), EventJobs(event, pumps, scheduled))
    {
      if event.zones == [] {
        return;
      }
      var i := 0;
      while i < |event.zones|
        invariant 0 <= i <= |event.zones|
        invariant processor.pumpQueues
          == EnqueueAll(old(processor.pumpQueues), ZoneJobs(event.zones[..i], pumps, event, scheduled))
      {
        var zone := event.zones[i];
        ZoneJobsStep(event.zones, i, pumps, event, scheduled);
        if zone.enabled && zone.pumpId in pumps && pumps[zone.pumpId].enabled {
          var job := ExecutionJob(zone.id, zone.name, zone.switchEntity, event.runTimeSeconds, scheduled);
          EnqueueAllSnoc(old(processor.pumpQueues), ZoneJobs(event.zones[..i], pumps, event, scheduled), (zone.pumpId, job));
          processor.AddJob(zone.pumpId, job);
        } else {
          assert ZoneJobs(event.zones[..i + 1], pumps, event, scheduled)
              == ZoneJobs(event.zones[..i], pumps, event, scheduled) + [];
          assert ZoneJobs(event.zones[..i], pumps, event, scheduled) + []
              == ZoneJobs(event.zones[..i], pumps, event, scheduled);
        }
        i := i + 1;
      }
      assert event.zones[..i] == event.zones;
    }

    /** `_evaluate_room_events`: decide each of the room's enabled events in
        turn and queue the jobs of those that are due. */
    method EvaluateRoomEvents(room: Room, events: seq<WaterEvent>, pumps: map<int, Pump>, now: int)
      modifies ha, processor`pumpQueues
      ensures ha.trace == old(ha.trace) + RoomSteps(room, events, ha.script, |old(ha.trace)|)
      ensures processor.pumpQueues
        == EnqueueAll(old(processor.pumpQueues), RoomJobs(room, events, pumps, now, ha.script, |old(ha.trace)|))
    {
      var i := 0;
      while i < |events|
        invariant 0 <= i <= |events|
        invariant ha.trace == old(ha.trace) + RoomSteps(room, events[..i], ha.script, |old(ha.trace)|)
        invariant processor.pumpQueues
          == EnqueueAll(old(processor.pumpQueues), RoomJobs(room, events[..i], pumps, now, ha.script, |old(ha.trace)|))
      {
        ghost var trace0, queues0 := ha.trace, processor.pumpQueues;
        EvaluateEvent(room, events[i], pumps, now);
        EvaluateStepTrace(room, events, i, ha.script, old(ha.trace), trace0, ha.trace);
        EvaluateStepQueues(room, events, i, pumps, now, ha.script, |old(ha.trace)|, |trace0|,
                           old(processor.pumpQueues), queues0, processor.pumpQueues);
        i := i + 1;
      }
      assert events[..i] == events;
    }

    /** One iteration of `_evaluate_room_events`: decide the event and, when
        it is due, queue its jobs. */
    method EvaluateEvent(room: Room, event: WaterEvent, pumps: map<int, Pump>, now: int)
      modifies ha, processor`pumpQueues
      ensures ha.trace == old(ha.trace) + ReadSteps(room, event, ReplyAt(ha.script, |old(ha.trace)|))
      ensures processor.pumpQueues
        == EnqueueAll(old(processor.pumpQueues),
                      DueJobs(event, pumps, Decide(room, event, now, ReplyAt(ha.script, |old(ha.trace)|))))
    {
      var d := ShouldEventRun(room, event, now);
      if d.run {
        CreateJobsForEvent(event, pumps, d.scheduled.value);
      } else {
        assert DueJobs(event, pumps, d) == [];
      }
    }
  }

  /** One more zone adds its job, if it is eligible, at the end. */
  lemma {:induction false} ZoneJobsStep(zones: seq<Zone>, i: nat, pumps: map<int, Pump>, event: WaterEvent, scheduled: int)
    requires i < |zones|
    ensures ZoneJobs(zones[..i + 1], pumps, event, scheduled)
         == ZoneJobs(zones[..i], pumps, event, scheduled)
            + (if Eligible(zones[i], pumps) then [(zones[i].pumpId, ZoneJob(zones[i], event, scheduled))] else [])
  {
    assert zones[..i + 1][..i] == zones[..i];
  }

  /** The loop step of `EvaluateRoomEvents` for the trace: the event's read,
      if any, extends the room's steps. */
  lemma {:induction false} EvaluateStepTrace(room: Room, events: seq<WaterEvent>, i: nat, script: seq<Reply>,
                          trace: seq<Step>, trace0: seq<Step>, trace1: seq<Step>)
    requires i < |events|
    requires trace0 == trace + RoomSteps(room, events[..i], script, |trace|)
    requires trace1 == trace0 + ReadSteps(room, events[i], ReplyAt(script, |trace0|))
    ensures trace1 == trace + RoomSteps(room, events[..i + 1], script, |trace|)
  {
    assert events[..i + 1] == events[..i] + [events[i]];
    RoomStepsSnoc(room, events[..i], events[i], script, |trace|);
  }

  /** Evaluating one more event appends its read, if any. */
  lemma {:induction false} RoomStepsSnoc(room: Room, events: seq<WaterEvent>, e: WaterEvent, script: seq<Reply>, k: nat)
    ensures RoomSteps(room, events + [e], script, k)
         == RoomSteps(room, events, script, k)
            + ReadSteps(room, e, ReplyAt(script, k + |RoomSteps(room, events, script, k)|))
  {
    assert (events + [e])[..|events|] == events;
  }

  /** The loop step of `EvaluateRoomEvents` for the queues: a due event's
      jobs extend the room's jobs. */
  lemma {:induction false} EvaluateStepQueues(room: Room, events: seq<WaterEvent>, i: nat, pumps: map<int, Pump>, now: int,
                           script: seq<Reply>, k: nat, k0: nat, queues: Queues, queues0: Queues,
                           queues1: Queues)
    requires i < |events|
    requires k0 == k + |RoomSteps(room, events[..i], script, k)|
    requires queues0 == EnqueueAll(queues, RoomJobs(room, events[..i], pumps, now, script, k))
    requires queues1 == EnqueueAll(queues0, DueJobs(events[i], pumps, Decide(room, events[i], now, ReplyAt(script, k0))))
    ensures queues1 == EnqueueAll(queues, RoomJobs(room, events[..i + 1], pumps, now, script, k))
  {
    RoomJobsStep(room, events, i, pumps, now, script, k);
    var a := RoomJobs(room, events[..i], pumps, now, script, k);
    var b := DueJobs(events[i], pumps, Decide(room, events[i], now, ReplyAt(script, k0)));
    assert RoomJobs(room, events[..i + 1], pumps, now, script, k) == a + b;
    EnqueueAllAppend(queues, a, b);
  }

  /** The jobs of one more event come after those of the events before it. */
  lemma RoomJobsStep(room: Room, events: seq<WaterEvent>, i: nat, pumps: map<int, Pump>, now: int,
                     script: seq<Reply>, k: nat)
    requires i < |events|
    ensures RoomJobs(room, events[..i + 1], pumps, now, script, k)
         == RoomJobs(room, events[..i], pumps, now, script, k)
            + DueJobs(events[i], pumps, Decide(room, events[i], now, ReplyAt(script, k + |RoomSteps(room, events[..i], script, k)|)))
  {
    var e := events[..i + 1];
    assert e[..i] == events[..i] && e[i] == events[i];
    assert ReplyFor(room, e, i, script, k) == ReplyAt(script, k + |RoomSteps(room, events[..i], script, k)|);
  }

  /** Enqueuing one more pair enqueues it last. */
  lemma {:induction false} EnqueueAllSnoc(q: Queues, jobs: seq<(int, ExecutionJob)>, x: (int, ExecutionJob))
    ensures EnqueueAll(q, jobs + [x]) == Enqueue(EnqueueAll(q, jobs), x.0, x.1)
  {
    assert (jobs + [x])[..|jobs|] == jobs;
  }

  /** Enqueuing two batches one after the other is enqueuing their concatenation. */
  lemma {:induction false} EnqueueAllAppend(q: Queues, a: seq<(int, ExecutionJob)>, b: seq<(int, ExecutionJob)>)
    ensures EnqueueAll(EnqueueAll(q, a), b) == EnqueueAll(q, a + b)
    decreases |b|
  {
    if b == [] {
      assert a + b == a;
    } else {
      var n, x := |b| - 1, b[|b| - 1];
      assert b == b[..n] + [x];
      assert a + b == (a + b[..n]) + [x];
      EnqueueAllAppend(q, a, b[..n]);
      EnqueueAllSnoc(q, a + b[..n], x);
      EnqueueAllSnoc(EnqueueAll(q, a), b[..n], x);
    }
  }
}
