/** The records the irrigation core reads from the database, as plain
    values: pumps, zones, rooms and water events, and the execution job the
    scheduler and the manual-run endpoint hand to the queue processor. */
module Entities {
  import opened Wrappers

  /** A pump with the Home Assistant entity that locks it. */
  datatype Pump = Pump(id: int, name: string, lockEntity: string, enabled: bool)

  /** A zone: one switch, fed by the pump `pumpId`. */
  datatype Zone = Zone(id: int, pumpId: int, name: string, switchEntity: string, enabled: bool)

  /** A room whose lights-on time is read from the entity `lightsOnEntity`. */
  datatype Room = Room(id: int, name: string, lightsOnEntity: Option<string>, enabled: bool)

  /** A water event with the zones assigned to it, in assignment order. */
  datatype WaterEvent = WaterEvent(
    id: int,
    roomId: int,
    name: string,
    eventType: string,
    delayMinutes: Option<int>,
    timeOfDay: Option<string>,
    runTimeSeconds: int,
    enabled: bool,
    zones: seq<Zone>)

  /** One run of one zone's switch for `durationSeconds`; `scheduledTime`
      is a datetime in microseconds. */
  datatype ExecutionJob = ExecutionJob(
    zoneId: int,
    zoneName: string,
    switchEntity: string,
    durationSeconds: int,
    scheduledTime: int)

  /** Python truthiness of an optional string: present and not empty. */
  predicate Truthy(s: Option<string>) {
    s.Some? && s.value != []
  }
}
