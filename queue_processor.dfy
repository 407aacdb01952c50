/** The pump queue processor: one FIFO queue of execution jobs per pump, the
    jobs running now, the time each pump was locked, and a one-second cache
    of pump statuses. A tick visits every pump; an idle, unlocked pump with
    queued work runs its oldest job through the fixed sequence lock on,
    switch on, wait, switch off, lock off. */
module QueueProcessing {
  import opened Wrappers
  import opened Text
  import opened Clock
  import opened Entities
  import opened HomeAssistant

  /** A pump held longer than this is forcibly unlocked by the watchdog. */
  const LockTimeoutSeconds: int := 300
  /** How long a computed pump status is served from the cache. */
  const CacheTtlSeconds: int := 1

  type Queues = map<int, seq<ExecutionJob>>

  /** The queue of pump `id`; a pump without a queue has an empty one. */
  function QueueOf(queues: Queues, id: int): seq<ExecutionJob> {
    if id in queues then queues[id] else []
  }

  /** The lock entity's state means "held": `on`, `true` or `locked` in any
      letter case (the state is lower-cased but not stripped). */
  predicate IsLocked(state: string) {
    var s := Lower(state);
    s == "on" || s == "true" || s == "locked"
  }

  /** Whether the lock is held does not depend on letter case. */
  lemma IsLockedIgnoresCase(state: string)
    ensures IsLocked(Lower(state)) == IsLocked(state)
  {
    LowerIdempotent(state);
  }

  /** Sample readings: the upper-case forms are held, padding is not trimmed. */
  lemma IsLockedExamples()
    ensures IsLocked("ON") && IsLocked("Locked") && IsLocked("true")
  {
    assert Lower("ON") == "on";
    assert Lower("Locked") == "locked";
    assert Lower("true") == "true";
  }

  /** States other than the three lock words, even one only padded, leave
      the pump free. */
  lemma NotLockedExamples()
    ensures !IsLocked("off") && !IsLocked(" on") && !IsLocked("unavailable")
  {
    assert Lower(" on") == " on";
  }

  /** A read of the lock entity that lets a job start: it succeeded and the
      lock is not held. */
  predicate MayStart(r: Reply) {
    r.Success? && !IsLocked(r.state)
  }

  // ---------------------------------------------------------------------
  // The actuation sequence of one job

  /** The steps one job takes, pump locked with `lock`, when the service
      answers from step `k` of `script` on. */
  function JobSteps(lock: string, job: ExecutionJob, script: seq<Reply>, k: nat): (t: seq<Step>)
    ensures RepliesFrom(script, k, t)
  {
    var lockOn := ReplyAt(script, k);
    if lockOn.Failure? then
      [Step(On(lock), lockOn), Step(Off(lock), ReplyAt(script, k + 1))]
    else
      var switchOn := ReplyAt(script, k + 1);
      if switchOn.Failure? then
        [Step(On(lock), lockOn), Step(On(job.switchEntity), switchOn),
         Step(Off(lock), ReplyAt(script, k + 2))]
      else
        [Step(On(lock), lockOn), Step(On(job.switchEntity), switchOn),
         Step(Wait(job.durationSeconds), Success("")),
         Step(Off(job.switchEntity), ReplyAt(script, k + 3)),
         Step(Off(lock), ReplyAt(script, k + 4))]
  }

  /** Every run of a job keeps the safety promises, and the water runs
      exactly when both the lock and the switch could be turned on. */
  lemma JobRunSafe(lock: string, job: ExecutionJob, script: seq<Reply>, k: nat)
    ensures SafeRun(lock, job, JobSteps(lock, job, script, k))
    ensures Waters(job, JobSteps(lock, job, script, k))
        <==> ReplyAt(script, k).Success? && ReplyAt(script, k + 1).Success?
  {
    var t := JobSteps(lock, job, script, k);
    if ReplyAt(script, k).Success? && ReplyAt(script, k + 1).Success? {
      assert t[3].action == Off(job.switchEntity);
      assert t[2].action == Wait(job.durationSeconds);
    } else {
      forall i | 0 <= i < |t| ensures !t[i].action.Wait? {
      }
    }
  }

  /** Every call in `t` got the service's scripted answer for its position. */
  predicate RepliesFrom(script: seq<Reply>, k: nat, t: seq<Step>) {
    forall i :: 0 <= i < |t| && !t[i].action.Wait? ==> t[i].reply == ReplyAt(script, k + i)
  }

  /** The water runs: the job waits its duration with the switch on. */
  predicate Waters(job: ExecutionJob, t: seq<Step>) {
    exists i :: 0 <= i < |t| && t[i].action == Wait(job.durationSeconds)
  }

  /** The safety promises of a job run:
      - the pump lock is the first thing taken and the last thing released,
        and its release is attempted whatever failed before;
      - if taking the lock fails nothing else is actuated;
      - the switch is only turned on after the lock was taken;
      - a switch that was turned on is turned off before the lock is
        released, and the only wait is the job's duration while it is on. */
  predicate SafeRun(lock: string, job: ExecutionJob, t: seq<Step>) {
    && 2 <= |t|
    && t[0].action == On(lock)
    && t[|t| - 1].action == Off(lock)
    && (t[0].reply.Failure? ==> |t| == 2)
    && (forall i :: 0 < i < |t| && t[i].action == On(job.switchEntity) ==> t[0].reply.Success?)
    && (forall i :: 0 <= i < |t| && t[i].action.Wait? ==>
          t[i].action.seconds == job.durationSeconds && 0 < i && t[i - 1].action == On(job.switchEntity)
          && t[i - 1].reply.Success?)
    && (forall i :: 0 < i < |t| - 1 && t[i].action == On(job.switchEntity) && t[i].reply.Success? ==>
          exists j :: i < j < |t| - 1 && t[j].action == Off(job.switchEntity))
  }

  // ---------------------------------------------------------------------
  // Status

  datatype StatusKind = Idle | Running | Queued

  /** The status dictionary of a pump: `status`, `active_zone`, `queue_length`. */
  datatype PumpStatus = PumpStatus(status: StatusKind, activeZone: Option<string>, queueLength: nat)

  /** The status computed from the live state: running with the active
      job's zone, else queued when jobs wait, else idle. */
  function DeriveStatus(activeJobs: map<int, ExecutionJob>, queues: Queues, id: int): (s: PumpStatus)
    ensures s.queueLength == |QueueOf(queues, id)|
    ensures s.status == Running <==> id in activeJobs
    ensures s.status == Queued <==> id !in activeJobs && |QueueOf(queues, id)| > 0
    ensures s.status == Idle <==> id !in activeJobs && QueueOf(queues, id) == []
    ensures s.activeZone.Some? <==> id in activeJobs
    ensures id in activeJobs ==> s.activeZone == Some(activeJobs[id].zoneName)
  {
    var n := |QueueOf(queues, id)|;
    if id in activeJobs then PumpStatus(Running, Some(activeJobs[id].zoneName), n)
    else if n > 0 then PumpStatus(Queued, None, n)
    else PumpStatus(Idle, None, n)
  }

  // ---------------------------------------------------------------------
  // Queue contents as values

  /** `add_job`: `job` joins the back of pump `id`'s queue. */
  function Enqueue(queues: Queues, id: int, job: ExecutionJob): (r: Queues)
    ensures r.Keys == queues.Keys + {id}
    ensures QueueOf(r, id) == QueueOf(queues, id) + [job]
    ensures forall p :: p != id ==> QueueOf(r, p) == QueueOf(queues, p)
  {
    queues[id := QueueOf(queues, id) + [job]]
  }

  /** Adding a batch of (pump, job) pairs one after the other. */
  function EnqueueAll(queues: Queues, jobs: seq<(int, ExecutionJob)>): Queues
    decreases |jobs|
  {
    if jobs == [] then queues
    else
      var last := jobs[|jobs| - 1];
      Enqueue(EnqueueAll(queues, jobs[..|jobs| - 1]), last.0, last.1)
  }

  /** The jobs of a batch that go to pump `p`, in batch order. */
  function JobsFor(jobs: seq<(int, ExecutionJob)>, p: int): seq<ExecutionJob>
    decreases |jobs|
  {
    if jobs == [] then []
    else
      var last := jobs[|jobs| - 1];
      JobsFor(jobs[..|jobs| - 1], p) + (if last.0 == p then [last.1] else [])
  }

  /** Each pump's queue keeps its old jobs in front and receives its share of
      the batch in batch order: per-pump FIFO. */
  lemma {:induction false} EnqueueAllFifo(queues: Queues, jobs: seq<(int, ExecutionJob)>, p: int)
    ensures QueueOf(EnqueueAll(queues, jobs), p) == QueueOf(queues, p) + JobsFor(jobs, p)
    decreases |jobs|
  {
    if jobs != [] {
      var init := jobs[..|jobs| - 1];
      EnqueueAllFifo(queues, init, p);
      if jobs[|jobs| - 1].0 == p {
        assert QueueOf(queues, p) + JobsFor(init, p) + [jobs[|jobs| - 1].1]
            == QueueOf(queues, p) + (JobsFor(init, p) + [jobs[|jobs| - 1].1]);
      }
    }
  }

  /** Exactly the pumps named in the batch gain a queue. */
  lemma {:induction false} EnqueueAllKeys(queues: Queues, jobs: seq<(int, ExecutionJob)>)
    ensures EnqueueAll(queues, jobs).Keys == queues.Keys + (set i | 0 <= i < |jobs| :: jobs[i].0)
    decreases |jobs|
  {
    if jobs != [] {
      var n := |jobs| - 1;
      var init := jobs[..n];
      EnqueueAllKeys(queues, init);
      var before := set i | 0 <= i < |init| :: init[i].0;
      var all := set i | 0 <= i < |jobs| :: jobs[i].0;
      assert all == before + {jobs[n].0} by {
        forall x | x in all ensures x in before + {jobs[n].0} {
          var i :| 0 <= i < |jobs| && jobs[i].0 == x;
          if i < n { assert init[i].0 == x; }
        }
        forall x | x in before ensures x in all {
          var i :| 0 <= i < |init| && init[i].0 == x;
          assert jobs[i].0 == x;
        }
      }
    }
  }

  /** The ids of a list of pumps. */
  function PumpIds(pumps: seq<Pump>): set<int> {
    set p | p in pumps :: p.id
  }

  /** No two pumps share an id (they are rows keyed by id). */
  predicate DistinctIds(pumps: seq<Pump>) {
    forall i, j :: 0 <= i < j < |pumps| ==> pumps[i].id != pumps[j].id
  }

  /** The watchdog's test: a lock start is recorded and strictly more than
      `LockTimeoutSeconds` have passed since. */
  predicate TimedOut(lockStartTimes: map<int, int>, id: int, now: int) {
    id in lockStartTimes && now - lockStartTimes[id] > LockTimeoutSeconds * MicrosPerSecond
  }

  /** A cached status younger than `CacheTtlSeconds` is served. */
  predicate CacheFresh(cache: map<int, PumpStatus>, cacheTime: map<int, int>, id: int, now: int) {
    id in cache && id in cacheTime && now - cacheTime[id] < CacheTtlSeconds * MicrosPerSecond
  }

  class QueueProcessor {
    const ha: HomeAssistantClient
    var pumpQueues: Queues
    /** The job each pump is running now. */
    var activeJobs: map<int, ExecutionJob>
    /** When each running pump was locked, in microseconds. */
    var lockStartTimes: map<int, int>
    var statusCache: map<int, PumpStatus>
    var statusCacheTime: map<int, int>

    /** A pump is running a job exactly when its lock start is recorded. */
    predicate Valid()
      reads this
    {
      activeJobs.Keys == lockStartTimes.Keys
    }

    constructor(ha: HomeAssistantClient, pumpQueues: Queues)
      ensures this.ha == ha && this.pumpQueues == pumpQueues
      ensures activeJobs == map[] && lockStartTimes == map[]
      ensures statusCache == map[] && statusCacheTime == map[]
      ensures Valid()
    {
      this.ha := ha;
      this.pumpQueues := pumpQueues;
      activeJobs := map[];
      lockStartTimes := map[];
      statusCache := map[];
      statusCacheTime := map[];
    }

    /** `add_job`: append `job` to pump `id`'s queue, creating it if needed. */
    method AddJob(id: int, job: ExecutionJob)
      modifies this`pumpQueues
      ensures pumpQueues == Enqueue(old(pumpQueues), id, job)
    {
      pumpQueues := pumpQueues[id := QueueOf(pumpQueues, id) + [job]];
    }

    /** `get_queue_length`. */
    function QueueLength(id: int): nat
      reads this
    {
      |QueueOf(pumpQueues, id)|
    }

    /** `get_executing_job`: the job pump `id` is running, if any. */
    function ExecutingJob(id: int): Option<ExecutionJob>
      reads this
    {
      if id in activeJobs then Some(activeJobs[id]) else None
    }

    /** `clear_queue`: drop every waiting job of pump `id` and say how many
        there were; the running job is left alone. */
    method ClearQueue(id: int) returns (count: nat)
      modifies this`pumpQueues
      ensures count == |QueueOf(old(pumpQueues), id)|
      ensures QueueOf(pumpQueues, id) == []
      ensures pumpQueues.Keys == old(pumpQueues).Keys
      ensures forall p :: p != id ==> QueueOf(pumpQueues, p) == QueueOf(old(pumpQueues), p)
    {
      count := |QueueOf(pumpQueues, id)|;
      if id in pumpQueues {
        pumpQueues := pumpQueues[id := []];
      }
    }

    /** `get_pump_status`: a cached status younger than the TTL, else the
        status derived from the live state, which is then cached. */
    method GetPumpStatus(id: int, now: int) returns (s: PumpStatus)
      modifies this`statusCache, this`statusCacheTime
      ensures CacheFresh(old(statusCache), old(statusCacheTime), id, now) ==>
        s == old(statusCache)[id] && statusCache == old(statusCache) && statusCacheTime == old(statusCacheTime)
      ensures !CacheFresh(old(statusCache), old(statusCacheTime), id, now) ==>
        s == DeriveStatus(activeJobs, pumpQueues, id)
        && statusCache == old(statusCache)[id := s] && statusCacheTime == old(statusCacheTime)[id := now]
    {
      if CacheFresh(statusCache, statusCacheTime, id, now) {
        s := statusCache[id];
        return;
      }
      s := DeriveStatus(activeJobs, pumpQueues, id);
      statusCache := statusCache[id := s];
      statusCacheTime := statusCacheTime[id := now];
    }

    /** `_check_lock_timeout`: once the lock of `pump` has been held longer
        than the timeout, try to unlock it and forget the job and its lock
        time whether or not the unlock succeeded. */
    method CheckLockTimeout(pump: Pump, now: int)
      requires Valid()
      modifies this, ha
      ensures Valid()
      ensures pumpQueues == old(pumpQueues)
      ensures statusCache == old(statusCache) && statusCacheTime == old(statusCacheTime)
      ensures TimedOut(old(lockStartTimes), pump.id, now) ==>
        && activeJobs == old(activeJobs) - {pump.id}
        && lockStartTimes == old(lockStartTimes) - {pump.id}
        && ha.trace == old(ha.trace) + [Step(Off(pump.lockEntity), ReplyAt(ha.script, |old(ha.trace)|))]
      ensures !TimedOut(old(lockStartTimes), pump.id, now) ==>
        activeJobs == old(activeJobs) && lockStartTimes == old(lockStartTimes) && ha.trace == old(ha.trace)
    {
      if pump.id !in lockStartTimes {
        return;
      }
      var elapsed := now - lockStartTimes[pump.id];
      if elapsed > LockTimeoutSeconds * MicrosPerSecond {
        var unlocked := ha.TurnOff(pump.lockEntity);
        if pump.id in activeJobs {
          activeJobs := activeJobs - {pump.id};
        }
        if pump.id in lockStartTimes {
          lockStartTimes := lockStartTimes - {pump.id};
        }
      }
    }

    /** The try/except body of `_execute_job`: lock, switch on, wait, switch
        off, unlock; when locking or switching on fails, the cleanup path
        unlocks. Runs only while the job is marked active. */
    method Actuate(pump: Pump, job: ExecutionJob)
      requires pump.id in activeJobs && activeJobs[pump.id] == job && pump.id in lockStartTimes
      modifies ha
      ensures ha.trace == old(ha.trace) + JobSteps(pump.lockEntity, job, ha.script, |old(ha.trace)|)
    {
      var switchTurnedOn := false;
      var failed := false;
      var locked := ha.TurnOn(pump.lockEntity);
      if !locked {
        failed := true;
      } else {
        var switchOn := ha.TurnOn(job.switchEntity);
        if !switchOn {
          failed := true;
        } else {
          switchTurnedOn := true;
          ha.Sleep(job.durationSeconds);
          var switchOff := ha.TurnOff(job.switchEntity);
          var unlocked := ha.TurnOff(pump.lockEntity);
        }
      }
      if failed {
        // Only the two turn-on calls can fail here, before the switch is on,
        // so the emergency switch turn-off of the cleanup path is never taken.
        assert !switchTurnedOn;
        var unlocked := ha.TurnOff(pump.lockEntity);
      }
    }

    /** `_execute_job`: mark the job active and note the lock time, actuate,
        and on every path clear both entries again. */
    method ExecuteJob(pump: Pump, job: ExecutionJob, now: int)
      requires Valid()
      modifies this, ha
      ensures Valid()
      ensures activeJobs == old(activeJobs) - {pump.id}
      ensures lockStartTimes == old(lockStartTimes) - {pump.id}
      ensures pumpQueues == old(pumpQueues)
      ensures statusCache == old(statusCache) && statusCacheTime == old(statusCacheTime)
      ensures ha.trace == old(ha.trace) + JobSteps(pump.lockEntity, job, ha.script, |old(ha.trace)|)
    {
      activeJobs := activeJobs[pump.id := job];
      lockStartTimes := lockStartTimes[pump.id := now];
      Actuate(pump, job);
      activeJobs := activeJobs - {pump.id};
      lockStartTimes := lockStartTimes - {pump.id};
    }

    /** `_process_pump`: a running pump only gets the watchdog; otherwise, if
        jobs wait, read the lock and, when it is free, run the oldest job. */
    method ProcessPump(pump: Pump, now: int)
      requires Valid()
      modifies this, ha
      ensures Valid()
      ensures statusCache == old(statusCache) && statusCacheTime == old(statusCacheTime)
      ensures pump.id in pumpQueues
      ensures pumpQueues == old(pumpQueues)[pump.id := pumpQueues[pump.id]]
      ensures PumpStepEffect(pump.id, old(pumpQueues), old(activeJobs), old(lockStartTimes),
                             pumpQueues, activeJobs, lockStartTimes)
      // a running pump: the watchdog, and the queue stays as it was
      ensures pump.id in old(activeJobs) ==>
        && pumpQueues[pump.id] == QueueOf(old(pumpQueues), pump.id)
        && (TimedOut(old(lockStartTimes), pump.id, now) ==>
              && activeJobs == old(activeJobs) - {pump.id}
              && lockStartTimes == old(lockStartTimes) - {pump.id}
              && ha.trace == old(ha.trace) + [Step(Off(pump.lockEntity), ReplyAt(ha.script, |old(ha.trace)|))])
        && (!TimedOut(old(lockStartTimes), pump.id, now) ==>
              activeJobs == old(activeJobs) && lockStartTimes == old(lockStartTimes) && ha.trace == old(ha.trace))
      // an idle pump: nothing to do, or a lock read and possibly its oldest job
      ensures pump.id !in old(activeJobs) ==>
        activeJobs == old(activeJobs) && lockStartTimes == old(lockStartTimes)
      ensures pump.id !in old(activeJobs) && QueueOf(old(pumpQueues), pump.id) == [] ==>
        pumpQueues[pump.id] == [] && ha.trace == old(ha.trace)
      ensures pump.id !in old(activeJobs) && QueueOf(old(pumpQueues), pump.id) != [] ==>
        var read := Step(Read(pump.lockEntity), ReplyAt(ha.script, |old(ha.trace)|));
        var q := QueueOf(old(pumpQueues), pump.id);
        if MayStart(read.reply) then
          pumpQueues[pump.id] == q[1..]
          && ha.trace == old(ha.trace) + [read] + JobSteps(pump.lockEntity, q[0], ha.script, |old(ha.trace)| + 1)
        else
          pumpQueues[pump.id] == q && ha.trace == old(ha.trace) + [read]
    {
      if pump.id !in pumpQueues {
        pumpQueues := pumpQueues[pump.id := []];
      }
      if pump.id in activeJobs {
        CheckLockTimeout(pump, now);
        return;
      }
      if pumpQueues[pump.id] == [] {
        return;
      }
      var lockState := ha.GetState(pump.lockEntity);
      if lockState.Failure? || IsLocked(lockState.state) {
        return;
      }
      var job := pumpQueues[pump.id][0];
      pumpQueues := pumpQueues[pump.id := pumpQueues[pump.id][1..]];
      ExecuteJob(pump, job, now);
    }

    /** `processor_tick`: process every pump in turn. Pumps not in the list
        are untouched; each listed pump ends with a queue that is its old one
        or its old one without the head, and a pump running a job at the
        start of the tick keeps its whole queue. */
    method ProcessorTick(pumps: seq<Pump>, now: int)
      requires Valid()
      requires DistinctIds(pumps)
      modifies this, ha
      ensures Valid()
      ensures statusCache == old(statusCache) && statusCacheTime == old(statusCacheTime)
      ensures TickEffect(old(pumpQueues), old(activeJobs), old(lockStartTimes),
                         pumpQueues, activeJobs, lockStartTimes, PumpIds(pumps))
      ensures old(ha.trace) <= ha.trace
    {
      var i := 0;
      while i < |pumps|
        invariant 0 <= i <= |pumps|
        invariant Valid()
        invariant statusCache == old(statusCache) && statusCacheTime == old(statusCacheTime)
        invariant TickEffect(old(pumpQueues), old(activeJobs), old(lockStartTimes),
                             pumpQueues, activeJobs, lockStartTimes, PumpIds(pumps[..i]))
        invariant old(ha.trace) <= ha.trace
      {
        VisitedNext(pumps, i);
        ghost var q1, a1, l1 := pumpQueues, activeJobs, lockStartTimes;
        ProcessPump(pumps[i], now);
        TickStep(old(pumpQueues), old(activeJobs), old(lockStartTimes), q1, a1, l1,
                 pumpQueues, activeJobs, lockStartTimes, PumpIds(pumps[..i]), pumps[i].id);
        i := i + 1;
      }
      assert pumps[..i] == pumps;
    }
  }

  /** A tick either leaves a queue alone or takes its head. */
  predicate TookAtMostHead(before: seq<ExecutionJob>, after: seq<ExecutionJob>) {
    after == before || (before != [] && after == before[1..])
  }

  /** What one visit of pump `id` may do to the processor's maps: it gets a
      queue, loses at most its head and only when not running a job, no
      other queue changes, and running entries can only disappear, and
      only for `id`. */
  ghost predicate PumpStepEffect(id: int, q1: Queues, a1: map<int, ExecutionJob>, l1: map<int, int>,
                           q2: Queues, a2: map<int, ExecutionJob>, l2: map<int, int>) {
    && q2.Keys == q1.Keys + {id}
    && (forall p :: p != id ==> QueueOf(q2, p) == QueueOf(q1, p))
    && TookAtMostHead(QueueOf(q1, id), QueueOf(q2, id))
    && (id in a1 ==> QueueOf(q2, id) == QueueOf(q1, id))
    && (forall p :: p in a2 ==> p in a1 && a2[p] == a1[p])
    && (forall p :: p in l2 ==> p in l1 && l2[p] == l1[p])
    && (forall p :: p != id ==> (p in a2 <==> p in a1) && (p in l2 <==> p in l1))
  }

  /** What a tick that visited the pumps `visited` did, from the maps
      `q0`, `a0`, `l0` to `q`, `a`, `l`: every visited pump has a queue,
      unvisited pumps are untouched, a visited queue lost at most its head,
      a pump running at the start lost nothing, and running entries were
      only removed. */
  ghost predicate TickEffect(q0: Queues, a0: map<int, ExecutionJob>, l0: map<int, int>,
                       q: Queues, a: map<int, ExecutionJob>, l: map<int, int>, visited: set<int>) {
    && q.Keys == q0.Keys + visited
    && (forall id :: id !in visited ==>
          QueueOf(q, id) == QueueOf(q0, id) && (id in a <==> id in a0) && (id in l <==> id in l0))
    && (forall id :: id in visited ==> TookAtMostHead(QueueOf(q0, id), QueueOf(q, id)))
    && (forall id :: id in a0 ==> QueueOf(q, id) == QueueOf(q0, id))
    && (forall id :: id in a ==> id in a0 && a[id] == a0[id])
    && (forall id :: id in l ==> id in l0 && l[id] == l0[id])
  }

  /** Visiting one more, not yet visited, pump keeps `TickEffect`. */
  lemma TickStep(q0: Queues, a0: map<int, ExecutionJob>, l0: map<int, int>,
                 q1: Queues, a1: map<int, ExecutionJob>, l1: map<int, int>,
                 q2: Queues, a2: map<int, ExecutionJob>, l2: map<int, int>,
                 visited: set<int>, id: int)
    requires TickEffect(q0, a0, l0, q1, a1, l1, visited)
    requires id !in visited
    requires PumpStepEffect(id, q1, a1, l1, q2, a2, l2)
    ensures TickEffect(q0, a0, l0, q2, a2, l2, visited + {id})
  {
    assert QueueOf(q1, id) == QueueOf(q0, id) && (id in a1 <==> id in a0);
  }

  /** The pumps visited after step `i` are those before it plus pump `i`,
      which, the ids being distinct, was not visited before. */
  lemma VisitedNext(pumps: seq<Pump>, i: nat)
    requires i < |pumps| && DistinctIds(pumps)
    ensures PumpIds(pumps[..i + 1]) == PumpIds(pumps[..i]) + {pumps[i].id}
    ensures pumps[i].id !in PumpIds(pumps[..i])
  {
    assert pumps[..i + 1] == pumps[..i] + [pumps[i]];
    forall p | p in pumps[..i] ensures p.id != pumps[i].id {
      var j :| 0 <= j < i && pumps[j] == p;
    }
  }
}
