/**
 Each request handler, taken as one step, as a function on the tables: what start, poll,
 metrics, complete, stop and the scheduled sweep do when nothing runs in between.
 `ControlPlane` implements them statement by statement.
 */
module Handlers {
  import opened Tables
  import opened Shares

  const MAX_AGENTS_PER_JOB := 512
  const DEFAULT_WORKERS_PER_AGENT := 512.0
  const DEFAULT_START_DELAY_SECONDS := 30.0

  // ---- start_job ----

  datatype StartRequest = StartRequest(targetRPS: real, agents: real, workersPerAgent: Option<real>,
                                       duration: real, startDelaySeconds: Option<real>, unthrottled: bool)

  datatype StartError =
    NotPositive | NegativeDelay | TooManyAgents | RateBelowAgents | TooManyWorkers | StillActive

  datatype StartResponse = Accepted(jobId: JobId) | Refused(error: StartError)

  function OrDefault(x: Option<real>, default: real): real {
    if x.Some? then x.value else default
  }

  /** The validation order of start_job, before it looks at the tables. */
  function Validate(req: StartRequest, workerCap: Option<nat>): Option<StartError> {
    var workers := OrDefault(req.workersPerAgent, DEFAULT_WORKERS_PER_AGENT).Floor;
    var delay := OrDefault(req.startDelaySeconds, DEFAULT_START_DELAY_SECONDS).Floor;
    if req.targetRPS.Floor <= 0 || req.agents.Floor <= 0 || workers <= 0 || req.duration.Floor <= 0 then
      Some(NotPositive)
    else if delay < 0 then Some(NegativeDelay)
    else if req.agents.Floor > MAX_AGENTS_PER_JOB then Some(TooManyAgents)
    else if !req.unthrottled && req.targetRPS.Floor < req.agents.Floor then Some(RateBelowAgents)
    else if workerCap.Some? && workers > workerCap.value then Some(TooManyWorkers)
    else None
  }

  /** x without its fraction. */
  predicate WholePart(n: int, x: real) {
    n as real <= x < n as real + 1.0
  }

  /** The row holds what the request asked for, fractions dropped, with the defaults for what it left out. */
  predicate AsRequested(req: StartRequest, now: int, job: Job) {
    && WholePart(job.rps, req.targetRPS) && WholePart(job.agents, req.agents) && WholePart(job.duration, req.duration)
    && (match req.workersPerAgent case Some(w) => WholePart(job.workers, w) case None => job.workers == 512)
    && (job.startAt - now) % 1000 == 0
    && (match req.startDelaySeconds
        case Some(d) => WholePart((job.startAt - now) / 1000, d)
        case None => job.startAt == now + 30_000)
    && job.stopAt == job.startAt + 60_000 * job.duration
    && job.unthrottled == req.unthrottled
  }

  /** The row start_job inserts. */
  function NewJob(req: StartRequest, workerCap: Option<nat>, now: int, createdAt: int): (job: Job)
    requires Validate(req, workerCap).None?
    ensures job.status == QUEUED && job.stopAt == job.PlannedStop() && job.startAt >= now
    ensures 0 < job.agents <= MAX_AGENTS_PER_JOB
    ensures job.unthrottled || job.rps >= job.agents
    ensures AsRequested(req, now, job) && job.createdAt == createdAt
  {
    var startAt := now + OrDefault(req.startDelaySeconds, DEFAULT_START_DELAY_SECONDS).Floor * 1000;
    Job(req.targetRPS.Floor, req.agents.Floor,
        OrDefault(req.workersPerAgent, DEFAULT_WORKERS_PER_AGENT).Floor, req.duration.Floor,
        startAt, startAt + req.duration.Floor * 60 * 1000, req.unthrottled, createdAt, QUEUED)
  }

  function Start(db: Db, req: StartRequest, workerCap: Option<nat>, now: int, newId: JobId, createdAt: int)
    : (Db, StartResponse)
  {
    var bad := Validate(req, workerCap);
    if bad.Some? then (db, Refused(bad.value))
    else if db.ActiveJobs() != {} then (db, Refused(StillActive))
    else (db.InsertJob(newId, NewJob(req, workerCap, now, createdAt)), Accepted(newId))
  }

  // ---- agent_poll ----

  datatype RunOrder = RunOrder(job: JobId, spawn: SpawnId, targetRPS: nat, workers: nat,
                               startAt: int, stopAt: int, unthrottled: bool)

  datatype PollResponse = Idle | Run(order: RunOrder) | Failed

  function OrderFor(id: JobId, job: Job, spawn: SpawnId, slot: nat): RunOrder {
    RunOrder(id, spawn, RpsForSlot(job.rps, job.agents, slot), job.workers,
             job.startAt, job.stopAt, job.unthrottled)
  }

  /** `pick` is the row the SELECT returned, if any job is open. */
  function Poll(db: Db, pick: Option<JobId>, agent: AgentId, now: int): (Db, PollResponse)
    requires pick.Some? ==> pick.value in db.jobs
  {
    if agent == "" || pick.None? then (db, Idle)
    else
      var j := pick.value;
      var job := db.jobs[j];
      var id := SpawnIdOf(j, agent);
      if now >= job.stopAt then (db, Idle)
      else if id in db.spawns then
        if db.spawns[id].status != RUNNING then (db, Idle)
        else (db.Touch(id, now).Promote(j), Run(OrderFor(j, job, id, db.spawns[id].slot)))
      else
        match db.Claim(id, j, agent, now, job.agents)
        case Skipped => (db, Idle)
        case UniqueViolation => (db, Failed)
        case Inserted(claimed) => (claimed.Promote(j), Run(OrderFor(j, job, id, db.CountRows(j))))
  }

  // ---- complete_benchmark_spawn ----

  function Complete(db: Db, job: JobId, spawn: SpawnId, error: bool): Db {
    if error then db.MarkSpawn(spawn, FAILED).FailOpenJob(job)
    else
      var stopping := job in db.jobs && (db.jobs[job].status.STOPPING? || db.jobs[job].status.STOPPED?);
      var outcome := if stopping then STOPPED else COMPLETED;
      var marked := db.MarkSpawn(spawn, outcome);
      if marked.CountRunning(job) != 0 then marked else marked.CloseJob(job, outcome)
  }

  // ---- reap_jobs ----

  datatype Tally = Tally(finalised: nat, staleSpawns: nat, abandoned: nat)

  /** The label of rule 2: FAILED when no agent ever registered. */
  function ExpiryLabel(db: Db, job: JobId): Status {
    if db.CountRows(job) > 0 then COMPLETED else FAILED
  }

  /** Rule 2 applied to every job of the set, whatever the order. */
  function FinaliseAll(db: Db, done: set<JobId>): Db {
    Db(map j | j in db.jobs ::
         if j in done && db.jobs[j].status.Active() then db.jobs[j].(status := ExpiryLabel(db, j)) else db.jobs[j],
       map id | id in db.spawns ::
         if db.spawns[id].job in done && db.spawns[id].status == RUNNING
         then db.spawns[id].(status := COMPLETED) else db.spawns[id])
  }

  function AfterStale(db: Db, now: int): Db {
    db.FailStale(now - SPAWN_STALE_AFTER_MS)
  }

  function AfterExpiry(db: Db, now: int): Db {
    var d := AfterStale(db, now);
    FinaliseAll(d, d.Expired(now - JOB_FINALISE_GRACE_MS))
  }

  function AfterOrphans(db: Db, now: int): Db {
    AfterExpiry(db, now).FailOrphans(now - QUEUED_WITHOUT_AGENTS_TIMEOUT_MS)
  }

  function Sweep(db: Db, now: int): Db {
    AfterOrphans(db, now).CloseQuietStopping()
  }

  function SweepTally(db: Db, now: int): Tally {
    Tally(|AfterStale(db, now).Expired(now - JOB_FINALISE_GRACE_MS)|,
          |db.StaleSpawns(now - SPAWN_STALE_AFTER_MS)|,
          |AfterExpiry(db, now).Orphans(now - QUEUED_WITHOUT_AGENTS_TIMEOUT_MS)|)
  }

  /** One iteration of rule 2's loop. */
  function FinaliseOne(db: Db, job: JobId): Db {
    db.CompleteSpawnsOf(job).CloseJob(job, ExpiryLabel(db, job))
  }

  lemma RowsIgnoreStatus(db: Db, done: set<JobId>, job: JobId)
    ensures FinaliseAll(db, done).RowsOf(job) == db.RowsOf(job)
  {
  }

  lemma FinaliseSpawns(db: Db, done: set<JobId>, job: JobId)
    ensures FinaliseAll(db, done).CompleteSpawnsOf(job).spawns == FinaliseAll(db, done + {job}).spawns
  {
  }

  /** The loop may take the expired jobs in any order. */
  lemma FinaliseStep(db: Db, done: set<JobId>, job: JobId)
    requires job in db.jobs
    ensures FinaliseOne(FinaliseAll(db, done), job) == FinaliseAll(db, done + {job})
  {
    var mid := FinaliseAll(db, done);
    RowsIgnoreStatus(db, done, job);
    FinaliseSpawns(db, done, job);
    var lhs, rhs := FinaliseOne(mid, job), FinaliseAll(db, done + {job});
    assert lhs.jobs.Keys == rhs.jobs.Keys;
    forall j | j in db.jobs ensures lhs.jobs[j] == rhs.jobs[j] {
    }
  }

  /** The same, with the jobs still to do counted down. */
  lemma FinaliseNext(db: Db, all: set<JobId>, todo: set<JobId>, job: JobId)
    requires job in todo && todo <= all && job in db.jobs
    ensures FinaliseOne(FinaliseAll(db, all - todo), job) == FinaliseAll(db, all - (todo - {job}))
  {
    assert all - (todo - {job}) == (all - todo) + {job};
    FinaliseStep(db, all - todo, job);
  }
}
