# Irrigation core in Dafny

This project models the core of a Home Assistant irrigation add-on backend.

- **Scheduler.** Once a minute it decides which water events of a room are due.
  - A P1 event is due at the room's lights-on time plus a delay.
  - A P2 event is due at a fixed time of day.
  - A due event queues one execution job per eligible zone on that zone's pump.
- **Queue processor.** It runs each pump's jobs one at a time, in FIFO order. Each job goes through lock the pump, switch the zone on, wait, switch it off, unlock. A watchdog releases locks held too long.
- **Schedule calculator.** It builds automatic P1/P2 day plans from the light timing, parses the manual `H:MM.seconds` schedule grammar, and picks a zone's next run.
- **HTTP routers.** Modelled parts:
  - the water-event next-run endpoint;
  - the zone-membership rules of water events;
  - manual run and emergency stop;
  - the sensor-history duration parser;
  - the request schemas for water events and system settings.

Modules, one per concern:

| module | file | models |
|---|---|---|
| `Wrappers` | wrappers.dfy | `Option` and `Result` |
| `Text` | text.dfy | Python's `str.strip`, `str.lower`, `str.split`, `int()` and `str()` |
| `Clock` | clock.dfy | datetimes, `datetime.combine`, `strptime("%H:%M")` and `("%H:%M:%S")` |
| `Entities` | entities.dfy | pump, zone, room, water event and execution job records |
| `HomeAssistant` | home_assistant.dfy | the Home Assistant client, as a scripted environment with a trace |
| `QueueProcessing` | queue_processor.dfy | `QueueProcessor` (a class with the processor's fields) |
| `Scheduling` | scheduler.dfy | `EventScheduler`: due decisions and job fan-out |
| `Calculator` | calculator.dfy | `calculate_auto_schedule`, `parse_manual_schedule`, `validate_manual_schedule_format`, `get_next_run_time` |
| `WaterEvents` | water_events.dfy | `calculate_next_run`, zone assignment and removal, the zone-id check of `create_event` |
| `Manual` | manual.dfy | `run_zone_manually`, `emergency_stop` |
| `Sensors` | sensors.dfy | `_parse_duration` |
| `Schemas` | schemas.dfy | `WaterEventBase`, `WaterEventUpdate`, `SystemSettingsBase` |

Conventions:

- **Times.** A datetime is an integer number of **microseconds** since midnight of a fixed day; a `datetime.time` is a `TimeOfDay` (microseconds after midnight). Microseconds rather than seconds, because `datetime.now()` carries them. That matters for the scheduler's strict `< 60 s` window and for the `event_time <= now` tests. "now" is always a parameter.
- **Home Assistant.** It is a `HomeAssistantClient` object holding a script of replies. Step `k` of a run gets `ReplyAt(script, k)`: the script's k-th entry, which is a `Failure` (the client raised `HomeAssistantAPIError`) or a `Success(state)`. Every call past the end of the script fails. Every call, and every `asyncio.sleep`, is appended to its `trace`. Every pattern of failures is one script, so properties stated for every script hold under every failure pattern.
- **Database tables.** They are plain values: maps from id to record, and the event's zone list.
- **Stateful code.** The queue processor and the event scheduler are classes whose methods update their fields (`pumpQueues`, `activeJobs`, `lockStartTimes`, the status cache, the client's trace). Each method is specified against pure functions (`Enqueue`, `EnqueueAll`, `JobSteps`, `RoomSteps`, `RoomJobs`, `DeriveStatus`), and the properties are proved about those functions.
- **Integer text.** `int()` and `str()` follow CPython's default limit of 4300 decimal digits (`sys.int_info.default_max_str_digits`, Python 3.11 and later): `int()` of a longer digit run raises `ValueError` (`None` or an error result here), and `str()` lemmas hold for integers of at most that many digits.
- **Loops.** The loops of `calculate_auto_schedule`, `parse_manual_schedule`, `validate_manual_schedule_format`, `_create_jobs_for_event`, `_evaluate_room_events` and `processor_tick` are methods with loop invariants. Each is tied to a recursive reference function.

## Model

| member | source | states |
|---|---|---|
| Clock.DayStart | backend/services/calculator.py:86 | The midnight of a datetime's date is at most that datetime, less than a day before it, and a whole number of days |
| Clock.Combine | backend/services/scheduler.py:268 | `datetime.combine(t.date(), tod)` lies on the date of `t` at time of day `tod` |
| Clock.NextDay | backend/services/calculator.py:350 | Adding one day moves the date forward by exactly one day |
| Clock.HourField | backend/services/scheduler.py:257 | An `%H` field is read exactly when it matches one of strptime's alternatives `2[0-3]`, `[0-1]\d` or `\d`, and then as its decimal value |
| Clock.MinuteField | backend/services/scheduler.py:311 | An `%M` field is read exactly when it matches `[0-5]\d` or `\d`, and then as its decimal value |
| Clock.SecondField | backend/services/scheduler.py:257 | An `%S` field is read exactly when it matches `6[0-1]`, `[0-5]\d` or `\d` and is not a leap second (60, 61), and then as its decimal value |
| Clock.ParseHM | backend/services/scheduler.py:311 | A time read with `%H:%M` falls on a whole minute |
| Clock.ParseHMS | backend/services/scheduler.py:257 | A time read with `%H:%M:%S` falls on a whole second |
| Clock.ParseHMFormat | backend/services/scheduler.py:311 | A zero-padded `HH:MM` rendering of any valid hour and minute is read back as that time |
| Clock.ParseHMSFormat | backend/services/scheduler.py:257 | A zero-padded `HH:MM:SS` rendering of any valid time is read back as that time |
| Clock.FormatsDisjoint | backend/services/scheduler.py:256-265 | No text is accepted by both formats, so the `%H:%M` fallback only decides texts the first format refused |
| Text.Strip | backend/services/calculator.py:185-188 | `str.strip()`: empty exactly for all-whitespace text; otherwise it starts and ends with non-whitespace and is the middle of the input |
| Text.StripIdempotent | backend/services/calculator.py:185-188 | Stripping twice is stripping once, so the per-line strip after the whole-text strip is harmless |
| Text.Lower | backend/services/queue_processor.py:167 | `str.lower()` keeps the length and lower-cases character by character |
| Text.LowerIdempotent | backend/services/queue_processor.py:167 | Lower-casing twice is lower-casing once |
| Text.StripLower | backend/routers/sensors.py:382 | Stripping and lower-casing commute |
| Text.Split | backend/services/calculator.py:185 | `str.split(sep)` gives at least one piece and no piece contains the separator |
| Text.JoinSplit | backend/routers/water_events.py:383 | Joining the pieces of a split gives the text back |
| Text.SplitJoin | backend/services/calculator.py:185 | Splitting a join of separator-free pieces gives the pieces back |
| Text.DigitsValue | backend/services/calculator.py:205-207 | The value of an n-digit run is below 10^n |
| Text.PyIntShow | backend/routers/sensors.py:391 | `int(str(n)) == n` for every integer `str()` renders (at most 4300 digits), negative ones included |
| Text.PyIntDigits | backend/routers/water_events.py:385-386 | `int()` of a run of decimal digits is its decimal value when the run has at most 4300 digits, and raises otherwise |
| Text.PyIntStrip | backend/routers/water_events.py:385-386 | `int()` ignores surrounding whitespace |
| HomeAssistant.HomeAssistantClient.constructor | backend/services/ha_client.py:52-68 | A new client has the given reply script and an empty trace |
| HomeAssistant.HomeAssistantClient.GetState | backend/services/ha_client.py:180-211 | `get_state` returns the scripted reply and appends exactly one read step to the trace |
| HomeAssistant.HomeAssistantClient.TurnOn | backend/services/ha_client.py:248-260 | `turn_on` succeeds exactly when the scripted reply does, and appends one step |
| HomeAssistant.HomeAssistantClient.TurnOff | backend/services/ha_client.py:262-274 | `turn_off` succeeds exactly when the scripted reply does, and appends one step |
| HomeAssistant.HomeAssistantClient.Sleep | backend/services/queue_processor.py:286 | `asyncio.sleep(d)` appends a wait of d and never fails |
| QueueProcessing.IsLockedIgnoresCase | backend/services/queue_processor.py:167 | Whether a lock state reads as held does not depend on letter case |
| QueueProcessing.IsLockedExamples | backend/services/queue_processor.py:167 | `ON`, `Locked` and `true` read as held |
| QueueProcessing.NotLockedExamples | backend/services/queue_processor.py:167 | `off`, `unavailable` and a padded ` on` read as free, since the state is not stripped |
| QueueProcessing.JobSteps | backend/services/queue_processor.py:258-339 | The steps of one job run take, in order, exactly the scripted replies from their start position |
| QueueProcessing.JobRunSafe | backend/services/queue_processor.py:258-339 | On every reply pattern: the lock is taken first and released last; a failed lock actuates nothing else; the switch goes on only after the lock; a switch turned on is turned off before the unlock; the only wait is the job's duration with the switch on. Water runs iff lock and switch both turned on |
| QueueProcessing.DeriveStatus | backend/services/queue_processor.py:375-396 | Status is running (with the active zone) iff a job is active, queued iff idle with a non-empty queue, idle otherwise; the length is the queue length |
| QueueProcessing.Enqueue | backend/services/scheduler.py:392 | `add_job` appends the job to that pump's queue, creating it if missing, and leaves other queues alone |
| QueueProcessing.EnqueueAllFifo | backend/services/scheduler.py:365-392 | After a batch of adds, each pump's queue is its old queue followed by its share of the batch in batch order (per-pump FIFO) |
| QueueProcessing.EnqueueAllKeys | backend/services/scheduler.py:365-392 | A batch of adds creates queues for exactly the pumps it names |
| QueueProcessing.QueueProcessor.constructor | backend/services/queue_processor.py:37-62 | A new processor has the given queues, no active jobs, no lock times and an empty cache |
| QueueProcessing.QueueProcessor.AddJob | backend/routers/manual.py:117-119 | `add_job` replaces the queues by `Enqueue` of the old queues |
| QueueProcessing.QueueProcessor.ClearQueue | backend/routers/manual.py:179 | `clear_queue` returns the old queue length, empties that queue, and keeps other queues and the set of pumps |
| QueueProcessing.QueueProcessor.GetPumpStatus | backend/services/queue_processor.py:350-403 | A cached status younger than 1 s is returned with the cache unchanged; otherwise the status derived from the live state is returned and cached with time now |
| QueueProcessing.QueueProcessor.CheckLockTimeout | backend/services/queue_processor.py:186-227 | Only past the 300 s timeout, compared strictly: one unlock attempt, then the job and lock time are removed whether or not it succeeded. Otherwise nothing changes |
| QueueProcessing.QueueProcessor.Actuate | backend/services/queue_processor.py:258-339 | With the job marked active, the try/except body issues exactly the steps `JobSteps` describes, so every run keeps `JobRunSafe` |
| QueueProcessing.QueueProcessor.ExecuteJob | backend/services/queue_processor.py:229-348 | Runs the job's steps and on every path removes the pump's active job and lock time, leaving the queues untouched |
| QueueProcessing.QueueProcessor.ProcessPump | backend/services/queue_processor.py:134-184 | A running pump gets only the watchdog and keeps its queue. An idle pump with an empty queue does nothing. Otherwise the lock is read: if free, exactly the head is dequeued and run; if held or the read fails, the queue is unchanged |
| QueueProcessing.QueueProcessor.ProcessorTick | backend/services/queue_processor.py:93-132 | After a tick over pumps with distinct ids: unlisted pumps untouched; each listed queue unchanged or minus its head; a pump running at the start keeps its whole queue; active entries only removed; the trace only grows |
| QueueProcessing.TickStep | backend/services/queue_processor.py:118-124 | Processing one more, not yet visited, pump keeps the tick's effect invariant |
| Scheduling.LightsOnEitherFormat | backend/services/scheduler.py:255-265 | Whichever of `%H:%M:%S` and `%H:%M` reads a lights-on value decides its time, so the order of the attempts does not matter; the value is refused iff neither reads it |
| Scheduling.LightsOnFormats | backend/services/scheduler.py:255-265 | Both `HH:MM:SS` and `HH:MM` lights-on values are understood, with their exact time |
| Scheduling.Decide | backend/services/scheduler.py:194-216 | A due event has a scheduled time within 60 s of now; an unknown event type is never due and has no time |
| Scheduling.P1DueExactly | backend/services/scheduler.py:218-285 | P1 is due iff it has a delay, the room has a lights-on entity whose read succeeds and parses, and now is strictly within 60 s of today's lights-on plus the delay |
| Scheduling.P2DueExactly | backend/services/scheduler.py:287-335 | P2 is due iff its time of day is a valid `HH:MM` and now is strictly within 60 s of it today |
| Scheduling.P2NeverMissed | backend/services/scheduler.py:93-100 | For consecutive evaluations `g` apart with `g` under 120 s (the loop's 60 s sleep plus an evaluation shorter than a minute), one of the two around the scheduled instant is on that day and finds the P2 event due, provided the time of day is at least `g - 60 s` after midnight and more than `g - 60 s` before the next |
| Scheduling.P2MissedAtMidnight | backend/services/scheduler.py:319-323 | For every gap over 60 s, evaluations 1 µs before midnight and that gap later both find a `"00:00"` P2 event not due, so it is skipped that day |
| Scheduling.P1PastMidnightNeverDue | backend/services/scheduler.py:268-273 | A P1 event whose lights-on time plus delay is a minute or more past the next midnight is never due, at any time |
| Scheduling.P1EveningDelayNeverDue | backend/services/scheduler.py:268-273 | Lights-on at 20:00:00 with a 300-minute delay is never due |
| Scheduling.DueDailyAtInstant | backend/services/scheduler.py:268-273 | The daily due test fires at lights-on plus the delay on every day, however far past midnight that lies |
| Scheduling.DueDailyNeverMissed | backend/services/scheduler.py:93-100 | With the daily due test, of two evaluations under 120 s apart around a scheduled instant, one finds it due, midnight included |
| Scheduling.DueDailyAgrees | backend/services/scheduler.py:319-323 | For a time of day at least a minute from midnight, the daily due test and the source's test agree at every instant |
| Scheduling.P2CanFireTwice | backend/services/scheduler.py:319-323 | There is no at-most-once guard: evaluations at 07:59:30 and 08:00:30 both find an 08:00 event due |
| Scheduling.ZoneJobs | backend/services/scheduler.py:365-392 | An event creates no more jobs than it has zones |
| Scheduling.ZoneJobsAreEligibleZones | backend/services/scheduler.py:365-392 | The jobs are exactly one per eligible zone, in zone order, each on the zone's pump with the event's run time and the scheduled time |
| Scheduling.EligibleZonesMembers | backend/services/scheduler.py:367-380 | A zone gets a job iff it is enabled and its pump exists and is enabled |
| Scheduling.NoZonesNoJobs | backend/services/scheduler.py:353-357 | An event without zones creates no jobs |
| Scheduling.RoomJobsSkipNotDue | backend/services/scheduler.py:169-186 | An event that is not due adds no jobs and leaves the jobs of the other events as they are |
| Scheduling.EventScheduler.constructor | backend/services/scheduler.py:38-52 | The scheduler holds the given client and queue processor |
| Scheduling.EventScheduler.ShouldEventRun | backend/services/scheduler.py:194-335 | Returns `Decide` for the reply its read gets, and reads the lights-on entity only for a P1 event with a delay and a configured entity |
| Scheduling.EventScheduler.CreateJobsForEvent | backend/services/scheduler.py:337-403 | The queues become the old queues with the event's jobs added in zone order |
| Scheduling.EventScheduler.EvaluateRoomEvents | backend/services/scheduler.py:145-192 | The trace gains exactly the room's lights-on reads, and the queues gain the jobs of each due event, each event decided on its own with the reply its read gets, in event order |
| Scheduling.EventScheduler.EvaluateEvent | backend/services/scheduler.py:169-186 | One loop iteration: at most one read, and the event's jobs are added only when it is due |
| Scheduling.EnqueueAllAppend | backend/services/scheduler.py:169-181 | Adding two batches one after the other is adding their concatenation |
| Calculator.InsertByTime | backend/services/calculator.py:138 | Insertion adds exactly the one element (multiset) |
| Calculator.InsertKeepsSorted | backend/services/calculator.py:138 | Inserting into a time-sorted list keeps it sorted |
| Calculator.SortByTime | backend/services/calculator.py:138 | `sort(key=time)` returns a time-sorted permutation |
| Calculator.SortIsStable | backend/services/calculator.py:138 | The sort is stable: events with equal times keep their relative order |
| Calculator.SortSorted | backend/services/calculator.py:360 | Sorting an already sorted list changes nothing |
| Calculator.InSortedEvents | backend/services/calculator.py:138 | An event is in the sorted list iff it is in the input |
| Calculator.CalculateAutoSchedule | backend/services/calculator.py:47-145 | The loop builds the P1 event then the P2 events and sorts them; the result is sorted and a permutation of them |
| Calculator.LightsOffFollowsLightsOn | backend/services/calculator.py:103-107 | Lights-off is moved to the next day when its clock time is before lights-on, so it lies within one day after lights-on |
| Calculator.P2WindowDateIndependent | backend/services/calculator.py:98-112 | The P2 window has the same length on every date, and its start moves with the date |
| Calculator.AutoP1Event | backend/services/calculator.py:80-95 | The auto schedule has a P1 event iff the P1 duration is positive; it is at lights-on plus the P1 delay with that duration |
| Calculator.OffsetBounds | backend/services/calculator.py:120-129 | Each P2 offset lies in [0, window), and the first is 0 |
| Calculator.OffsetMonotone | backend/services/calculator.py:120-129 | Later P2 offsets are never earlier, and strictly later when the window has at least one microsecond per event |
| Calculator.P2EventsShape | backend/services/calculator.py:98-134 | There are no P2 events unless count, duration and window are positive, and then exactly count of them. All have the P2 duration, lie in [p2_start, p2_end), start at p2_start, and are in time order |
| Calculator.MatchLineSound | backend/services/calculator.py:183-194 | Every regex match has the shape `d{1,2}:dd.d+`, and the groups are its parts |
| Calculator.MatchLineComplete | backend/services/calculator.py:183-194 | Every line of that shape matches, with exactly its groups |
| Calculator.CheckLine | backend/services/calculator.py:194-217 | An accepted line matched the pattern, its duration group has at most 4300 digits, and the duration is positive |
| Calculator.CheckFormattedLine | backend/services/calculator.py:204-223 | A rendered entry with valid hour and minute and a positive duration of at most 4300 digits is parsed back to that entry |
| Calculator.LongDurationRejected | backend/services/calculator.py:205-207 | A well-shaped line whose duration has more than 4300 digits is refused because `int()` raises, before the range checks |
| Calculator.ToEvents | backend/services/calculator.py:219-229 | One event per entry, in order, on the target date |
| Calculator.CheckLinesAccepts | backend/services/calculator.py:185-239 | A schedule is accepted iff every line is blank or a valid entry |
| Calculator.CheckLinesFirstError | backend/services/calculator.py:187-239 | A rejection names the 1-based number of the first bad line and that line's reason; every earlier line is acceptable |
| Calculator.CheckLinesCount | backend/services/calculator.py:187-229 | An accepted schedule yields one entry per non-blank line |
| Calculator.ParseManualSchedule | backend/services/calculator.py:148-245 | Returns the line loop's result sorted by time (no events for blank or missing text), and an error only for non-blank text |
| Calculator.ParseLines | backend/services/calculator.py:187-239 | The loop returns the first line error, or one event per accepted line in line order |
| Calculator.ValidateManualScheduleFormat | backend/services/calculator.py:248-298 | `(True, None)` exactly on the texts `parse_manual_schedule` accepts, otherwise `(False, e)` with the error the parser raises |
| Calculator.Upcoming | backend/services/calculator.py:348 | The filter keeps exactly the events strictly after now |
| Calculator.FirstUpcomingIsEarliest | backend/services/calculator.py:379-382 | In a sorted list, the first upcoming event is the earliest one strictly after now |
| Calculator.FirstTimeOfUpcoming | backend/services/calculator.py:348-382 | On a time-sorted list, the first upcoming time exists iff some event is after now, and it is the earliest time after now that some event has |
| Calculator.TodayOrTomorrow | backend/services/calculator.py:345-352 | Only events strictly after now are candidates |
| Calculator.AutoNextRun | backend/services/calculator.py:331-352 | A next run of an auto zone is strictly after now |
| Calculator.ManualNextRun | backend/services/calculator.py:354-372 | A next run of a manual zone is strictly after now |
| Calculator.NextOfDays | backend/services/calculator.py:347-352 | The choice is the earliest event after now today, or else tomorrow; none only when neither day has one |
| Calculator.NextRunTime | backend/services/calculator.py:325-385 | None for an auto zone without settings and for an unknown mode; errors only in manual mode; a returned time is strictly after now |
| Calculator.AutoNextRunIsEarliest | backend/services/calculator.py:331-352 | The auto branch returns the earliest upcoming event of today's schedule, else tomorrow's, and None only when neither has one |
| Calculator.ManualNextRunIsEarliest | backend/services/calculator.py:354-372 | The manual branch propagates a parse error, otherwise picks like the auto branch from the merged and sorted P1 and P2 lists |
| Calculator.ManualDayOkOnAnyDate | backend/services/calculator.py:354-372 | Today's and tomorrow's manual parses succeed or fail together, with the same error |
| Calculator.TomorrowIsAfter | backend/services/calculator.py:350 | Tomorrow at any time of day is after now |
| Calculator.ManualEventTomorrow | backend/services/calculator.py:366-372 | A non-empty valid manual schedule has an event tomorrow after now |
| Calculator.ManualZoneAlwaysHasNextRun | backend/services/calculator.py:354-385 | A manual zone with a valid non-empty schedule always has a next run |
| Calculator.AutoZoneAlwaysHasNextRun | backend/services/calculator.py:331-385 | An auto zone with settings, non-negative delays, and a positive P1 duration or a non-empty P2 window always has a next run |
| WaterEvents.ReplaceHM | backend/routers/water_events.py:389 | `now.replace(hour, minute, 0, 0)` succeeds iff hour and minute are in range, stays on today's date and falls on a whole minute |
| WaterEvents.Bump | backend/routers/water_events.py:393-394 | A time after now is kept, otherwise it moves exactly one day later; a time less than a day before now then lies after now |
| WaterEvents.LeadingFields | backend/routers/water_events.py:383-386 | Fewer than two fields is told apart from a field `int()` rejects |
| WaterEvents.NextAt | backend/routers/water_events.py:389-394 | Today at h:m plus the delay, bumped to tomorrow if not after now. It is on a whole minute and, for a non-negative delay, after now and at most a day plus the delay later |
| WaterEvents.P1NextRun | backend/routers/water_events.py:354-419 | A P1 time is given only with the "lights on" detail, a room with a lights-on entity, a delay and a successful read |
| WaterEvents.LightsOnNextRun | backend/routers/water_events.py:383-419 | A P1 time is given iff the value has an hour and minute in range |
| WaterEvents.P2NextRun | backend/routers/water_events.py:421-460 | A P2 time is given only with the "daily" detail and a present time of day |
| WaterEvents.NextRunFor | backend/routers/water_events.py:341-469 | Disabled gives None ("disabled"); an unknown type gives None ("unknown"). A time comes only from an enabled P1/P2 event and, for a non-negative delay, is strictly after now |
| WaterEvents.FieldsOfHM | backend/routers/water_events.py:383-386 | For an `HH:MM` value, `int()` of the first two fields reads its hour and minute |
| WaterEvents.FieldsOfHMS | backend/routers/water_events.py:383-389 | For an `HH:MM:SS` value, the first two fields give the time truncated to the minute, so the seconds are dropped |
| WaterEvents.MinuteOf | backend/routers/water_events.py:389 | The truncated time is at most the time and less than a minute before it |
| WaterEvents.P1NextRunOfFields | backend/routers/water_events.py:383-394 | A configured P1 event runs at its lights-on hour and minute plus the delay, today or tomorrow |
| WaterEvents.P1NextRunMatchesSchedule | backend/routers/water_events.py:383-394 | With an `HH:MM` lights-on value, the P1 next run is the scheduler's scheduled time, today or tomorrow |
| WaterEvents.P2NextRunMatchesSchedule | backend/routers/water_events.py:434-443 | For every `HH:MM` time of day, the P2 next run is the scheduler's scheduled time, today or tomorrow |
| WaterEvents.RemoveFirst | backend/routers/water_events.py:283 | `list.remove` drops exactly one occurrence |
| WaterEvents.RemoveFirstNoDup | backend/routers/water_events.py:276-283 | From a list without repeats, removing a zone leaves no copy of it and no repeats |
| WaterEvents.ZoneAssignments.Assign | backend/routers/water_events.py:193-240 | 404 iff the event or zone is missing; 400 iff already assigned; otherwise the zone is appended. Nothing changes on an error, and no event ever lists a zone twice |
| WaterEvents.ZoneAssignments.Remove | backend/routers/water_events.py:244-286 | 404 iff the event or zone is missing; 400 iff not assigned; otherwise the zone is removed and no longer listed. Nothing changes on an error |
| WaterEvents.AssignRemoveRestores | backend/routers/water_events.py:229-283 | Assigning a zone and then removing it restores the event's zone list |
| WaterEvents.CheckZoneIdsAsWritten | backend/routers/water_events.py:104-114 | As written: accepts with the found zones; a rejection reports the given ids that are not zones |
| WaterEvents.DuplicateIdsRejected | backend/routers/water_events.py:104-114 | As written, ids `[1, 1]` with zone 1 existing are rejected with no missing id |
| WaterEvents.CheckZoneIds | backend/routers/water_events.py:104-114 | As intended: accepted iff every id is a zone, with exactly the given zones; else rejected, naming exactly the missing ids, which are not none |
| WaterEvents.CheckZoneIdsAgree | backend/routers/water_events.py:104-114 | On requests without repeated ids the check as written and as intended agree |
| Manual.RunGuard | backend/routers/manual.py:79-106 | Passes iff the duration is positive and the zone and its pump exist and are enabled. Non-positive duration is 422, a missing zone or pump 404, a disabled zone or pump 400, in check order |
| Manual.ManualJob | backend/routers/manual.py:109-115 | The job is named zone name + " (Manual)" and carries the zone's id and switch, the requested duration and the current UTC time (`datetime.utcnow()`, unlike the scheduler's local clock) |
| Manual.RunZoneManually | backend/routers/manual.py:56-134 | On success the job is appended to the pump's queue and the position is the new queue length; on failure the guard's status is returned and nothing is queued |
| Manual.StopOutcomeFor | backend/routers/manual.py:182-199 | The message case says "will complete" iff a job is executing and "cleared" iff jobs were cleared |
| Manual.EmergencyStop | backend/routers/manual.py:137-207 | Unknown pump: 404, nothing cleared. Otherwise: reports the executing zone (left running) and the count of cleared jobs; empties that pump's queue; leaves other queues alone |
| Sensors.UnitSeconds | backend/routers/sensors.py:388-408 | The units h, m and d are 3600, 60 and 86400 seconds |
| Sensors.ParseDuration | backend/routers/sensors.py:364-410 | Empty-duration error iff the text is all whitespace |
| Sensors.ParseNormalized | backend/routers/sensors.py:384-410 | Empty iff no text; unknown unit iff the last character is not h/m/d; invalid number iff `int()` refuses the prefix (not an integer literal, or more than 4300 digits); every accepted duration is whole minutes |
| Sensors.ParseDurationNormalizes | backend/routers/sensors.py:382 | Surrounding whitespace and letter case do not change the result |
| Sensors.ParseNormalizedCount | backend/routers/sensors.py:388-408 | An integer count followed by a unit is that many units in seconds |
| Sensors.ParseNormalizedBadCount | backend/routers/sensors.py:388-408 | A unit letter after a count `int()` refuses is an invalid number |
| Sensors.ParseDurationPlain | backend/routers/sensors.py:382 | Stripped lower-case text is parsed as it stands |
| Sensors.ParseDurationDigits | backend/routers/sensors.py:388-408 | A digit run followed by a unit is that many units, or an invalid number when the run has more than 4300 digits |
| Sensors.ParseDurationShow | backend/routers/sensors.py:285-288 | `str(n)` followed by a unit is read back as n units, for every integer n that `str()` renders (so 1h, 24h, 7d) |
| Schemas.Violations | backend/schemas.py:144-169 | The error list is empty exactly on well-formed requests: type p1/p2, name 1–100, run time > 0, delay ≥ 0, an `HH:MM` time, and P1 without a time and without a null delay, P2 without a delay and without a null time |
| Schemas.Validate | backend/schemas.py:144-169 | Accepted iff well-formed, with omitted or null optional fields as None; a rejection lists at least one violation |
| Schemas.OmittedRequiredFieldAccepted | backend/schemas.py:153-167 | As written, a P1 without a delay and a P2 without a time of day are accepted when the field is left out |
| Schemas.OmittedDelayHasNoNextRun | backend/routers/water_events.py:367-374 | Such a P1 event never gets a next run |
| Schemas.Defaulted | backend/schemas.py:148-149 | A field left out is validated as null, with the same value |
| Schemas.ValidateRequired | backend/schemas.py:153-167 | As intended: accepted P1 has a delay ≥ 0 and no time, accepted P2 an `HH:MM` time and no delay. Stricter than as written, and equal to it when both fields are supplied |
| Schemas.TimePatternParses | backend/schemas.py:149 | The `time_of_day` pattern admits exactly the five-character texts `strptime("%H:%M")` reads |
| Schemas.AcceptedP2HasNextRun | backend/routers/water_events.py:421-451 | A P2 event accepted under the intended rules always has a next run |
| Schemas.UpdateViolations | backend/schemas.py:177-184 | An update is accepted iff every supplied field meets its own constraint; no cross-field rule is reported |
| Schemas.UpdateSkipsCrossField | backend/schemas.py:177-184 | An update may give a P1 event a time of day, which creation refuses |
| Schemas.SettingsViolations | backend/schemas.py:248-252 | Settings are accepted iff both delays are ≥ 0 and the interval is ≥ 1, and each violation is reported iff its bound fails |

## Left out

- Background loops and timers: `start`, `stop`, `_scheduler_loop` and the apscheduler wiring. One tick of each loop is a method, and the clock is a parameter.
- Loading rooms, events, pumps and zones from the database (`_evaluate_events`, the queries in `processor_tick`). Records are passed in as maps and sequences, and a room's events are the enabled events given to `EvaluateRoomEvents`.
- The Home Assistant client's HTTP transport, retries and float backoff (`_make_request`). A call either succeeds or raises, as the script says. `get_entities` and `call_service` are not part of this model.
- `ExecutionJob`, `add_job`, `get_queue_length`, `clear_queue` and `get_executing_job` are used but defined in no file of the repository. They are modelled from their call sites: an append (`AddJob`), the length, empty-and-return-count (`ClearQueue`), and a lookup in the active jobs (`ExecutingJob`). The same holds for the `get_queue_processor` that backend/routers/manual.py:18 and backend/services/scheduler.py:22 import from `backend.services.queue_processor`, which that module does not define. backend/routers/pumps.py:39 defines a module-local function of that name. Here the processor is a parameter.
- The `Empty` race in `_process_pump` (the queue emptied between the check and `get_nowait`) cannot happen in a single-threaded tick, and is not modelled.
- Exceptions that have no source in the model: datetime overflow (`OverflowError`, `ScheduleCalculationError`) and the catch-all handlers of `_evaluate_room_events`, `_create_jobs_for_event` and `processor_tick`. Their effect, that one event or zone does not stop the others, shows in `RoomJobs` deciding each event on its own.
- Error messages are datatypes, not the f-string text. Examples: the `calculation_details` of the next-run endpoint, the manual-schedule error message, and the emergency-stop message.
- Calculator.CalculateAutoSchedule: the P2 spacing `window / count` is float arithmetic. It is modelled as exact integer division in microseconds, `i * window / count`, so float rounding is not modelled.
- The 4300-digit limit is CPython's default. Older interpreters, and a process that changes `sys.set_int_max_str_digits`, accept longer digit texts; that variation is not modelled.
- Unicode: `str.lower()` is modelled on ASCII letters only. The `\d` of the manual-schedule pattern, the `\d` in `strptime`'s `%H`/`%M`/`%S` patterns (`Clock.TimeField`, `ParseHM`, `ParseHMS`) and `int()` are modelled on ASCII digits only.
- Schemas.Validate: Pydantic's type coercion (`"5"` accepted as the integer 5) is not modelled; requests arrive with typed fields.
- The 404 for a missing water event in `calculate_next_run`: the event is a parameter.
- The sensor-history fetch `_get_ha_history` and the other CRUD routers are not part of this model.
- WaterEvents.FieldsOfHMS: the P1 next run for an `HH:MM:SS` lights-on value is stated in two lemmas, `FieldsOfHMS` and `P1NextRunOfFields`, not as one combined lemma.
- The descriptions promise waits for a pump-startup delay and a zone-switch delay, but `_execute_job` never waits for them. The model follows the code.
- Descriptions say only enabled pumps are scanned, but `processor_tick` processes every pump. The model follows the code.
- When the unlock in `_execute_job` fails, the `finally` block still clears the active job and lock time, so the watchdog never retries that lock. The model follows the code: `ExecuteJob` removes both entries on every path.
- `processor_tick` is specified for pump lists with distinct ids (`DistinctIds`), as rows keyed by id are.
- The scheduler's due decision (`Decide`) follows the code as written. The corrected daily test `DueDaily` of the two scheduler findings is stated and proved beside it, not substituted into `EvaluateEvent`.
- Times are in microseconds rather than seconds, to keep `datetime.now()`'s sub-second part in the due window and next-run comparisons.

## Findings

| source | as written | input that shows it | evidently intended | confidence | as-written member | corrected member |
|---|---|---|---|---|---|---|
| backend/routers/water_events.py:104-114 | The create-event check compares the number of zones found with the number of ids given, so a repeated id makes it fail, reporting an empty set of missing ids | `zone_ids = [1, 1]` with zone 1 existing: rejected with "Zone IDs not found: set()" | Reject exactly when some given id is not a zone, and name those ids | not executed | WaterEvents.DuplicateIdsRejected | WaterEvents.CheckZoneIdsAgree |
| backend/services/scheduler.py:93-100, 319-323 | The due test combines the event's time with today's date and the loop evaluates a little more than 60 s apart, so near midnight consecutive evaluations can both miss the window | A `"00:00"` P2 event with evaluations at 23:59:59.999999 and 00:01:00 (60.000001 s apart): the first compares with yesterday's 00:00, the second is 60 s late; neither runs it | A daily event runs once every day, as when the window is measured to the nearest occurrence of the time of day | not executed | Scheduling.P2MissedAtMidnight | Scheduling.DueDailyNeverMissed |
| backend/services/scheduler.py:268-273 | The P1 instant is lights-on plus the delay on today's date, so a sum past midnight is always ahead of `now` | Lights-on `20:00:00` and `delay_minutes = 300`: the event is scheduled for 01:00 of tomorrow on every evaluation and never runs | The event runs at 01:00 after each lights-on | not executed | Scheduling.P1EveningDelayNeverDue | Scheduling.DueDailyAtInstant |
| backend/schemas.py:153-167 | The "required for P1/P2" rules live in a field validator, which does not run on a field's default, so leaving the field out bypasses them | `{"event_type": "p1", "name": "x", "run_time_seconds": 10}` is accepted with no `delay_minutes`, and the event never gets a next run | A P1 event always has a delay and a P2 event a time of day (as with `validate_default=True`) | not executed | Schemas.OmittedRequiredFieldAccepted | Schemas.ValidateRequired |
