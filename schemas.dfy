/** The request rules for water events and system settings: the field
    constraints and the cross-field validator `validate_event_type_fields`.
    Pydantic runs a field's own constraints first and the validator only
    after they pass, and only for fields the request actually carries; the
    validator sees `event_type` only when that field was valid. */
module Schemas {
  import opened Wrappers
  import opened Text
  import opened Clock
  import opened Entities
  import opened HomeAssistant
  import opened WaterEvents

  /** How an optional field arrives: left out (the default `None` is used and
      no validator runs), sent as `null`, or sent with a value. */
  datatype Supplied<T> = Omitted | Null | Given(value: T)

  function ValueOf<T>(f: Supplied<T>): Option<T> {
    if f.Given? then Some(f.value) else None
  }

  datatype WaterEventRequest = WaterEventRequest(
    eventType: string,
    name: string,
    delayMinutes: Supplied<int>,
    timeOfDay: Supplied<string>,
    runTimeSeconds: int,
    enabled: bool)

  /** One entry of the validation error list, in field order. */
  datatype Violation =
    | BadEventType            // pattern ^(p1|p2)$
    | BadName                 // 1 to 100 characters
    | NegativeDelay           // ge=0
    | BadTimeOfDay            // pattern ^([0-1][0-9]|2[0-3]):[0-5][0-9]$
    | NonPositiveRunTime      // gt=0
    | DelayRequiredForP1
    | TimeOfDayNotForP1
    | TimeOfDayRequiredForP2
    | DelayNotForP2

  predicate IsEventType(t: string) {
    t == "p1" || t == "p2"
  }

  /** `^([0-1][0-9]|2[0-3]):[0-5][0-9]$`: an `HH:MM` clock time. */
  predicate TimePattern(t: string) {
    && |t| == 5
    && (('0' <= t[0] <= '1' && IsDigit(t[1])) || (t[0] == '2' && '0' <= t[1] <= '3'))
    && t[2] == ':'
    && '0' <= t[3] <= '5' && IsDigit(t[4])
  }

  datatype CrossField = DelayField | TimeOfDayField

  /** `validate_event_type_fields` for one field: `eventType` is the event
      type the validator sees (`None` when that field failed), `present`
      whether the value is not `None`. */
  function CrossFieldCheck(eventType: Option<string>, field: CrossField, present: bool): Option<Violation> {
    if eventType == Some("p1") && field == DelayField && !present then Some(DelayRequiredForP1)
    else if eventType == Some("p1") && field == TimeOfDayField && present then Some(TimeOfDayNotForP1)
    else if eventType == Some("p2") && field == TimeOfDayField && !present then Some(TimeOfDayRequiredForP2)
    else if eventType == Some("p2") && field == DelayField && present then Some(DelayNotForP2)
    else None
  }

  function AsList(v: Option<Violation>): seq<Violation> {
    if v.Some? then [v.value] else []
  }

  function DelayViolations(eventType: Option<string>, d: Supplied<int>): seq<Violation> {
    match d
    case Omitted => []
    case Null => AsList(CrossFieldCheck(eventType, DelayField, false))
    case Given(v) => if v < 0 then [NegativeDelay] else AsList(CrossFieldCheck(eventType, DelayField, true))
  }

  function TimeViolations(eventType: Option<string>, t: Supplied<string>): seq<Violation> {
    match t
    case Omitted => []
    case Null => AsList(CrossFieldCheck(eventType, TimeOfDayField, false))
    case Given(v) => if !TimePattern(v) then [BadTimeOfDay] else AsList(CrossFieldCheck(eventType, TimeOfDayField, true))
  }

  /** What a request must satisfy, rule by rule. */
  predicate WellFormed(req: WaterEventRequest) {
    && IsEventType(req.eventType)
    && 1 <= |req.name| <= 100
    && req.runTimeSeconds > 0
    && (req.delayMinutes.Given? ==> req.delayMinutes.value >= 0)
    && (req.timeOfDay.Given? ==> TimePattern(req.timeOfDay.value))
    && (req.eventType == "p1" ==> !req.delayMinutes.Null? && !req.timeOfDay.Given?)
    && (req.eventType == "p2" ==> !req.timeOfDay.Null? && !req.delayMinutes.Given?)
  }

  /** The error list of `WaterEventBase` as written: every field's
      constraints, in field order, then the validator on the fields the
      request carries. It is empty exactly on the well-formed requests. */
  function Violations(req: WaterEventRequest): (r: seq<Violation>)
    ensures r == [] <==> WellFormed(req)
  {
    var known := if IsEventType(req.eventType) then Some(req.eventType) else None;
    (if IsEventType(req.eventType) then [] else [BadEventType])
      + (if 1 <= |req.name| <= 100 then [] else [BadName])
      + DelayViolations(known, req.delayMinutes)
      + TimeViolations(known, req.timeOfDay)
      + (if req.runTimeSeconds > 0 then [] else [NonPositiveRunTime])
  }

  /** The event fields a valid request yields: an omitted or `null` optional
      field becomes `None`. */
  datatype EventFields = EventFields(
    eventType: string,
    name: string,
    delayMinutes: Option<int>,
    timeOfDay: Option<string>,
    runTimeSeconds: int,
    enabled: bool)

  function Validate(req: WaterEventRequest): (r: Result<EventFields, seq<Violation>>)
    ensures r.Ok? <==> WellFormed(req)
    ensures r.Ok? ==> r.value.delayMinutes == ValueOf(req.delayMinutes) && r.value.timeOfDay == ValueOf(req.timeOfDay)
    ensures r.Err? ==> r.error != []
  {
    var v := Violations(req);
    if v == [] then
      Ok(EventFields(req.eventType, req.name, ValueOf(req.delayMinutes), ValueOf(req.timeOfDay),
                     req.runTimeSeconds, req.enabled))
    else Err(v)
  }

  /** As written, a P1 event that leaves `delay_minutes` out, or a P2 event
      that leaves `time_of_day` out, is accepted without the field it needs:
      the "required" rules only see fields the request carries. */
  lemma OmittedRequiredFieldAccepted(name: string, runTimeSeconds: int)
    requires 1 <= |name| <= 100 && runTimeSeconds > 0
    ensures Validate(WaterEventRequest("p1", name, Omitted, Omitted, runTimeSeconds, true))
         == Ok(EventFields("p1", name, None, None, runTimeSeconds, true))
    ensures Validate(WaterEventRequest("p2", name, Omitted, Omitted, runTimeSeconds, true))
         == Ok(EventFields("p2", name, None, None, runTimeSeconds, true))
  {
  }

  /** Such an accepted P1 event never gets a next run. */
  lemma OmittedDelayHasNoNextRun(e: WaterEvent, room: Option<Room>, reply: Reply, now: int)
    requires e.enabled && e.eventType == "p1" && e.delayMinutes == None
    ensures NextRunFor(e, room, reply, now).time.None?
  {
  }

  /** The rules as intended (`validate_default=True`): a field left out is
      checked as `null`, so the "required" rules always apply. */
  function Defaulted<T>(f: Supplied<T>): (g: Supplied<T>)
    ensures !g.Omitted? && ValueOf(g) == ValueOf(f)
  {
    if f.Omitted? then Null else f
  }

  /** With the rules applied to every field, an accepted P1 event has a
      delay that is not negative and no time of day, and an accepted P2
      event has an `HH:MM` time of day and no delay. The intended check is
      stricter than the one as written and agrees with it on requests that
      carry both optional fields. */
  function ValidateRequired(req: WaterEventRequest): (r: Result<EventFields, seq<Violation>>)
    ensures r.Ok? ==> Validate(req).Ok?
    ensures !req.delayMinutes.Omitted? && !req.timeOfDay.Omitted? ==> r == Validate(req)
    ensures r.Ok? && r.value.eventType == "p1" ==>
      r.value.delayMinutes.Some? && r.value.delayMinutes.value >= 0 && r.value.timeOfDay.None?
    ensures r.Ok? && r.value.eventType == "p2" ==>
      r.value.timeOfDay.Some? && TimePattern(r.value.timeOfDay.value) && r.value.delayMinutes.None?
  {
    Validate(req.(delayMinutes := Defaulted(req.delayMinutes), timeOfDay := Defaulted(req.timeOfDay)))
  }

  /** A time of day the pattern admits is one `strptime("%H:%M")` reads,
      and conversely every five-character time it reads fits the pattern. */
  lemma TimePatternParses(t: string)
    ensures TimePattern(t) <==> |t| == 5 && ParseHM(t).Some?
  {
    if TimePattern(t) {
      PatternParses(t);
    }
    if |t| == 5 && ParseHM(t).Some? {
      ParsedFitsPattern(t);
    }
  }

  lemma PatternParses(t: string)
    requires TimePattern(t)
    ensures ParseHM(t).Some?
  {
    var hs, ms := t[..2], t[3..];
    assert t == hs + [':'] + ms;
    assert ':' !in hs && ':' !in ms by {
      assert IsDigit(hs[0]) && IsDigit(hs[1]) && IsDigit(ms[0]) && IsDigit(ms[1]);
    }
    SplitAtSeparator(hs, ':', ms);
    SplitNoSeparator(ms, ':');
    TwoDigits(hs);
    TwoDigits(ms);
  }

  lemma ParsedFitsPattern(t: string)
    requires |t| == 5 && ParseHM(t).Some?
    ensures TimePattern(t)
  {
    var parts := Split(t, ':');
    JoinSplit(t, ':');
    var p0, p1 := parts[0], parts[1];
    assert parts[1..] == [p1];
    assert t == p0 + [':'] + p1;
    assert |p0| == 2 && |p1| == 2;
    assert t[0] == p0[0] && t[1] == p0[1] && t[2] == ':' && t[3] == p1[0] && t[4] == p1[1];
    TwoDigits(p0);
    TwoDigits(p1);
  }

  /** A P2 event accepted under the intended rules always has a next run:
      today or tomorrow at its time of day. */
  lemma AcceptedP2HasNextRun(req: WaterEventRequest, e: WaterEvent, room: Option<Room>, reply: Reply, now: int)
    requires ValidateRequired(req).Ok? && req.eventType == "p2"
    requires e.enabled && e.eventType == "p2" && e.timeOfDay == ValidateRequired(req).value.timeOfDay
    ensures NextRunFor(e, room, reply, now).time.Some?
  {
    TimePatternParses(e.timeOfDay.value);
    P2NextRunMatchesSchedule(e, room, reply, now);
  }

  /** A partial update: every field may be left out (`None`). */
  datatype WaterEventUpdate = WaterEventUpdate(
    eventType: Option<string>,
    name: Option<string>,
    delayMinutes: Option<int>,
    timeOfDay: Option<string>,
    runTimeSeconds: Option<int>,
    enabled: Option<bool>)

  /** The violations a field's own constraint can report. */
  predicate FieldRule(v: Violation) {
    v.BadEventType? || v.BadName? || v.NegativeDelay? || v.BadTimeOfDay? || v.NonPositiveRunTime?
  }

  /** The error list of `WaterEventUpdate`: a supplied value meets the same
      constraint as on creation, and no cross-field rule is checked. */
  function UpdateViolations(u: WaterEventUpdate): (r: seq<Violation>)
    ensures r == [] <==>
      && (u.eventType.Some? ==> IsEventType(u.eventType.value))
      && (u.name.Some? ==> 1 <= |u.name.value| <= 100)
      && (u.delayMinutes.Some? ==> u.delayMinutes.value >= 0)
      && (u.timeOfDay.Some? ==> TimePattern(u.timeOfDay.value))
      && (u.runTimeSeconds.Some? ==> u.runTimeSeconds.value > 0)
    ensures forall v :: v in r ==> FieldRule(v)
  {
    (if u.eventType.None? || IsEventType(u.eventType.value) then [] else [BadEventType])
      + (if u.name.None? || 1 <= |u.name.value| <= 100 then [] else [BadName])
      + (if u.delayMinutes.None? || u.delayMinutes.value >= 0 then [] else [NegativeDelay])
      + (if u.timeOfDay.None? || TimePattern(u.timeOfDay.value) then [] else [BadTimeOfDay])
      + (if u.runTimeSeconds.None? || u.runTimeSeconds.value > 0 then [] else [NonPositiveRunTime])
  }

  /** An update may turn an event into a P1 event that carries a time of
      day, which creation refuses. */
  lemma UpdateSkipsCrossField(name: string, t: string, runTimeSeconds: int)
    requires 1 <= |name| <= 100 && TimePattern(t) && runTimeSeconds > 0
    ensures UpdateViolations(WaterEventUpdate(Some("p1"), Some(name), None, Some(t), Some(runTimeSeconds), None)) == []
    ensures Validate(WaterEventRequest("p1", name, Omitted, Given(t), runTimeSeconds, true)).Err?
  {
  }

  datatype SystemSettings = SystemSettings(
    pumpStartupDelaySeconds: int,
    zoneSwitchDelaySeconds: int,
    schedulerIntervalSeconds: int)

  datatype SettingsViolation = NegativeStartupDelay | NegativeSwitchDelay | IntervalBelowOne

  /** The bounds of `SystemSettingsBase`, each field reported on its own. */
  function SettingsViolations(s: SystemSettings): (r: seq<SettingsViolation>)
    ensures r == [] <==> s.pumpStartupDelaySeconds >= 0 && s.zoneSwitchDelaySeconds >= 0 && s.schedulerIntervalSeconds >= 1
    ensures NegativeStartupDelay in r <==> s.pumpStartupDelaySeconds < 0
    ensures NegativeSwitchDelay in r <==> s.zoneSwitchDelaySeconds < 0
    ensures IntervalBelowOne in r <==> s.schedulerIntervalSeconds < 1
  {
    (if s.pumpStartupDelaySeconds >= 0 then [] else [NegativeStartupDelay])
      + (if s.zoneSwitchDelaySeconds >= 0 then [] else [NegativeSwitchDelay])
      + (if s.schedulerIntervalSeconds >= 1 then [] else [IntervalBelowOne])
  }
}
