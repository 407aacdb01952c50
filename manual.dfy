/** Manual control: running one zone now, outside the schedule, and the
    emergency stop that empties a pump's queue. The database tables are
    maps from id to record; the queue processor is the shared one. */
module Manual {
  import opened Wrappers
  import opened Entities
  import opened QueueProcessing

  const HttpBadRequest: int := 400
  const HttpNotFound: int := 404
  /** The request schema refuses a duration that is not positive. */
  const HttpUnprocessable: int := 422

  datatype RunRequest = RunRequest(zoneId: int, durationSeconds: int)

  datatype RunResponse = RunResponse(
    zoneId: int,
    zoneName: string,
    pumpId: int,
    pumpName: string,
    durationSeconds: int,
    queuePosition: int,
    scheduledTime: int)

  /** The checks of a manual run, in the order they are made: the request
      schema's duration, then zone found, zone enabled, its pump found,
      pump enabled. The first failure decides the status code; when all
      pass, the zone and its pump are returned. */
  function RunGuard(req: RunRequest, zones: map<int, Zone>, pumps: map<int, Pump>): (r: Result<(Zone, Pump), int>)
    ensures r.Ok? <==> req.durationSeconds > 0 && req.zoneId in zones && zones[req.zoneId].enabled
                       && zones[req.zoneId].pumpId in pumps && pumps[zones[req.zoneId].pumpId].enabled
    ensures r.Ok? ==> r.value == (zones[req.zoneId], pumps[zones[req.zoneId].pumpId])
    ensures r == Err(HttpUnprocessable) <==> req.durationSeconds <= 0
    ensures r == Err(HttpNotFound) <==>
      req.durationSeconds > 0
      && (req.zoneId !in zones || (zones[req.zoneId].enabled && zones[req.zoneId].pumpId !in pumps))
    ensures r == Err(HttpBadRequest) <==>
      req.durationSeconds > 0 && req.zoneId in zones
      && (!zones[req.zoneId].enabled
          || (zones[req.zoneId].pumpId in pumps && !pumps[zones[req.zoneId].pumpId].enabled))
  {
    if req.durationSeconds <= 0 then Err(HttpUnprocessable)
    else if req.zoneId !in zones then Err(HttpNotFound)
    else
      var zone := zones[req.zoneId];
      if !zone.enabled then Err(HttpBadRequest)
      else if zone.pumpId !in pumps then Err(HttpNotFound)
      else
        var pump := pumps[zone.pumpId];
        if !pump.enabled then Err(HttpBadRequest)
        else Ok((zone, pump))
  }

  /** The job a manual run queues: the zone's switch for the requested
      time, named after the zone with a " (Manual)" suffix, due `now`.
      Here `now` is the UTC clock (`datetime.utcnow()`), unlike the
      scheduler's local `datetime.now()`. */
  function ManualJob(zone: Zone, durationSeconds: int, now: int): (job: ExecutionJob)
    ensures |job.zoneName| == |zone.name| + 9
    ensures job.zoneName[..|zone.name|] == zone.name && job.zoneName[|zone.name|..] == " (Manual)"
    ensures job.zoneId == zone.id && job.switchEntity == zone.switchEntity
    ensures job.durationSeconds == durationSeconds && job.scheduledTime == now
  {
    ExecutionJob(zone.id, zone.name + " (Manual)", zone.switchEntity, durationSeconds, now)
  }

  /** `run_zone_manually`: when every check passes, the job joins the end
      of its pump's queue and its position is the queue's new length; when
      a check fails nothing is queued. */
  method RunZoneManually(processor: QueueProcessor, req: RunRequest, zones: map<int, Zone>,
                         pumps: map<int, Pump>, now: int)
    returns (r: Result<RunResponse, int>)
    modifies processor`pumpQueues
    ensures r.Ok? <==> RunGuard(req, zones, pumps).Ok?
    ensures r.Err? ==> r.error == RunGuard(req, zones, pumps).error
                       && processor.pumpQueues == old(processor.pumpQueues)
    ensures r.Ok? ==>
      var (zone, pump) := RunGuard(req, zones, pumps).value;
      && processor.pumpQueues == Enqueue(old(processor.pumpQueues), pump.id, ManualJob(zone, req.durationSeconds, now))
      && r.value == RunResponse(zone.id, zone.name, pump.id, pump.name, req.durationSeconds,
                                |QueueOf(old(processor.pumpQueues), pump.id)| + 1, now)
  {
    var guard := RunGuard(req, zones, pumps);
    if guard.Err? {
      return Err(guard.error);
    }
    var (zone, pump) := guard.value;
    var job := ManualJob(zone, req.durationSeconds, now);
    processor.AddJob(pump.id, job);
    var position := processor.QueueLength(pump.id);
    r := Ok(RunResponse(zone.id, zone.name, pump.id, pump.name, req.durationSeconds, position, job.scheduledTime));
  }

  /** Which of the four emergency-stop messages is given. */
  datatype StopOutcome =
    | FinishingAndCleared  // a job runs to completion, queued jobs were cleared
    | FinishingOnly        // a job runs to completion, nothing was queued
    | ClearedOnly          // nothing running, queued jobs were cleared
    | NothingToStop        // "idle with no queued jobs"

  /** The message case, from whether a job is running and how many waiting
      jobs were cleared. */
  function StopOutcomeFor(executing: bool, cleared: int): (o: StopOutcome)
    ensures (o == FinishingAndCleared || o == FinishingOnly) <==> executing
    ensures (o == FinishingAndCleared || o == ClearedOnly) <==> cleared > 0
  {
    if executing && cleared > 0 then FinishingAndCleared
    else if executing then FinishingOnly
    else if cleared > 0 then ClearedOnly
    else NothingToStop
  }

  datatype StopResponse = StopResponse(
    outcome: StopOutcome,
    pumpId: int,
    pumpName: string,
    stoppedJob: Option<string>,
    clearedJobs: int)

  /** `emergency_stop`: for a known pump, report the job it is running (left
      to finish: the running jobs are outside this method's frame), empty
      its queue and report how many jobs were dropped; other pumps' queues
      are untouched. An unknown pump is a 404 and nothing changes. */
  method EmergencyStop(processor: QueueProcessor, pumpId: int, pumps: map<int, Pump>)
    returns (r: Result<StopResponse, int>)
    modifies processor`pumpQueues
    ensures pumpId !in pumps ==> r == Err(HttpNotFound) && processor.pumpQueues == old(processor.pumpQueues)
    ensures pumpId in pumps ==>
      var pump := pumps[pumpId];
      var executing := pump.id in processor.activeJobs;
      var cleared := |QueueOf(old(processor.pumpQueues), pump.id)|;
      && r == Ok(StopResponse(StopOutcomeFor(executing, cleared), pump.id, pump.name,
                              if executing then Some(processor.activeJobs[pump.id].zoneName) else None,
                              cleared))
      && QueueOf(processor.pumpQueues, pump.id) == []
      && processor.pumpQueues.Keys == old(processor.pumpQueues).Keys
      && (forall p :: p != pump.id ==> QueueOf(processor.pumpQueues, p) == QueueOf(old(processor.pumpQueues), p))
  {
    if pumpId !in pumps {
      return Err(HttpNotFound);
    }
    var pump := pumps[pumpId];
    var executingJob := processor.ExecutingJob(pump.id);
    var stoppedJob: Option<string> := None;
    if executingJob.Some? {
      stoppedJob := Some(executingJob.value.zoneName);
    }
    var cleared := processor.ClearQueue(pump.id);
    var outcome := StopOutcomeFor(executingJob.Some?, cleared);
    r := Ok(StopResponse(outcome, pump.id, pump.name, stoppedJob, cleared));
  }
}
