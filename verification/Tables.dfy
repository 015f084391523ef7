/**
 The control plane's tables JOBS and JOB_SPAWNS as values, and every SQL statement the
 Worker issues on them as a function from tables to tables. Each statement (or D1 batch)
 is atomic; `Handlers` composes them into whole requests and `Interleavings` lets them
 interleave.
 */
module Tables {

  type JobId = string
  type AgentId = string
  type SpawnId = string

  // crypto.randomUUID() always yields 36 characters.
  const UUID_LENGTH := 36
  const SPAWN_STALE_AFTER_MS := 90_000
  const JOB_FINALISE_GRACE_MS := 30_000
  const QUEUED_WITHOUT_AGENTS_TIMEOUT_MS := 300_000
  const MS_PER_MINUTE := 60_000

  datatype Option<+T> = None | Some(value: T)

  /** The STATUS texts; jobs use all six, spawns never QUEUED or STOPPING. */
  datatype Status = QUEUED | RUNNING | STOPPING | COMPLETED | STOPPED | FAILED {
    predicate Terminal() {
      COMPLETED? || STOPPED? || FAILED?
    }

    predicate Active() {
      !Terminal()
    }

    /** The statuses in which agents may still join (ACTIVE_STATUSES in types.ts). */
    predicate Open() {
      QUEUED? || RUNNING?
    }

    function Rank(): nat {
      match this
      case QUEUED => 0
      case RUNNING => 1
      case STOPPING => 2
      case _ => 3
    }
  }

  datatype Job = Job(rps: nat, agents: nat, workers: nat, duration: nat,
                     startAt: int, stopAt: int, unthrottled: bool,
                     createdAt: int, status: Status) {
    /** Everything but STATUS and STOP_AT is written once, by the INSERT. */
    predicate SamePlan(other: Job) {
      && rps == other.rps && agents == other.agents && workers == other.workers
      && duration == other.duration && startAt == other.startAt
      && unthrottled == other.unthrottled
    }

    function PlannedStop(): int {
      startAt + duration * MS_PER_MINUTE
    }
  }

  datatype Spawn = Spawn(job: JobId, agent: AgentId, slot: nat, lastSeen: int, status: Status)

  function SpawnIdOf(job: JobId, agent: AgentId): SpawnId {
    job + "-" + agent
  }

  /** With fixed-length job ids the concatenated spawn id determines both parts. */
  lemma SpawnIdInjective(j1: JobId, a1: AgentId, j2: JobId, a2: AgentId)
    requires |j1| == |j2|
    requires SpawnIdOf(j1, a1) == SpawnIdOf(j2, a2)
    ensures j1 == j2 && a1 == a2
  {
    var s := SpawnIdOf(j1, a1);
    assert s[..|j1|] == j1 && s[|j1| + 1..] == a1;
    var t := SpawnIdOf(j2, a2);
    assert t[..|j2|] == j2 && t[|j2| + 1..] == a2;
  }

  /** Outcome of the conditional slot INSERT. */
  datatype ClaimResult =
    | Inserted(db: Db)
    | Skipped          // full job, or SPAWN_ID already present (DO NOTHING)
    | UniqueViolation  // the index on (JOB_ID, SLOT) rejects the row

  datatype Db = Db(jobs: map<JobId, Job>, spawns: map<SpawnId, Spawn>) {

    // ---- reads ----

    function RowsOf(job: JobId): set<SpawnId> {
      set id | id in spawns && spawns[id].job == job
    }

    /** SELECT COUNT(*) FROM JOB_SPAWNS WHERE JOB_ID = ? */
    function CountRows(job: JobId): nat {
      |RowsOf(job)|
    }

    function RunningOf(job: JobId): set<SpawnId> {
      set id | id in spawns && spawns[id].job == job && spawns[id].status == RUNNING
    }

    /** SELECT COUNT(*) FROM JOB_SPAWNS WHERE JOB_ID = ? AND STATUS = 'RUNNING' */
    function CountRunning(job: JobId): nat {
      |RunningOf(job)|
    }

    function ActiveJobs(): set<JobId> {
      set j | j in jobs && jobs[j].status.Active()
    }

    function RunningSpawns(): set<SpawnId> {
      set id | id in spawns && spawns[id].status == RUNNING
    }

    /** A possible answer of agent_poll's ORDER BY CREATED_AT LIMIT 1 query. */
    predicate OldestOpen(job: JobId) {
      && job in jobs && jobs[job].status.Open()
      && forall k | k in jobs && jobs[k].status.Open() :: jobs[job].createdAt <= jobs[k].createdAt
    }

    predicate NoOpenJob() {
      forall k | k in jobs :: !jobs[k].status.Open()
    }

    // ---- statements on JOBS ----

    /** INSERT INTO JOBS; the primary key rejects a known id. */
    function InsertJob(id: JobId, job: Job): Db {
      if id in jobs then this else this.(jobs := jobs[id := job])
    }

    function SetJob(id: JobId, status: Status): Db
      requires id in jobs
    {
      this.(jobs := jobs[id := jobs[id].(status := status)])
    }

    /** UPDATE JOBS SET STATUS = 'RUNNING' WHERE JOB_ID = ? AND STATUS = 'QUEUED' */
    function Promote(id: JobId): Db {
      if id in jobs && jobs[id].status == QUEUED then SetJob(id, RUNNING) else this
    }

    /** UPDATE JOBS SET STATUS = 'STOPPING', STOP_AT = ? WHERE ... NOT terminal */
    function RequestStop(id: JobId, now: int): Db {
      if id in jobs && jobs[id].status.Active()
      then this.(jobs := jobs[id := jobs[id].(status := STOPPING, stopAt := now)])
      else this
    }

    /** UPDATE JOBS SET STATUS = ? WHERE JOB_ID = ? AND STATUS is active */
    function CloseJob(id: JobId, outcome: Status): Db {
      if id in jobs && jobs[id].status.Active() then SetJob(id, outcome) else this
    }

    /** UPDATE JOBS SET STATUS = 'FAILED' WHERE JOB_ID = ? AND STATUS IN (QUEUED, RUNNING) */
    function FailOpenJob(id: JobId): Db {
      if id in jobs && jobs[id].status.Open() then SetJob(id, FAILED) else this
    }

    /** SELECT JOB_ID FROM JOBS WHERE STATUS is active AND STOP_AT < cutoff */
    function Expired(cutoff: int): set<JobId> {
      set j | j in jobs && jobs[j].status.Active() && jobs[j].stopAt < cutoff
    }

    /** The rows the orphan UPDATE touches. */
    function Orphans(cutoff: int): set<JobId> {
      set j | j in jobs && jobs[j].status == QUEUED && jobs[j].startAt < cutoff && CountRows(j) == 0
    }

    function FailOrphans(cutoff: int): Db {
      this.(jobs := map j | j in jobs ::
        if j in Orphans(cutoff) then jobs[j].(status := FAILED) else jobs[j])
    }

    /** UPDATE JOBS SET STATUS = 'STOPPED' WHERE STATUS = 'STOPPING' AND no RUNNING row */
    function CloseQuietStopping(): Db {
      this.(jobs := map j | j in jobs ::
        if jobs[j].status == STOPPING && CountRunning(j) == 0
        then jobs[j].(status := STOPPED) else jobs[j])
    }

    // ---- statements on JOB_SPAWNS ----

    /** The conditional INSERT of agent_poll: SLOT and the WHERE both read COUNT(*). */
    function Claim(id: SpawnId, job: JobId, agent: AgentId, now: int, agents: nat): ClaimResult {
      var n := CountRows(job);
      if n >= agents || id in spawns then Skipped
      else if exists r :: r in RowsOf(job) && spawns[r].slot == n then UniqueViolation
      else Inserted(this.(spawns := spawns[id := Spawn(job, agent, n, now, RUNNING)]))
    }

    /** UPDATE JOB_SPAWNS SET LAST_SEEN = ? WHERE SPAWN_ID = ? */
    function Touch(id: SpawnId, now: int): Db {
      if id in spawns then this.(spawns := spawns[id := spawns[id].(lastSeen := now)]) else this
    }

    /** UPDATE JOB_SPAWNS SET STATUS = ? WHERE SPAWN_ID = ?, without a status guard */
    function MarkSpawn(id: SpawnId, status: Status): Db {
      if id in spawns then this.(spawns := spawns[id := spawns[id].(status := status)]) else this
    }

    function StaleSpawns(cutoff: int): set<SpawnId> {
      set id | id in spawns && spawns[id].status == RUNNING && spawns[id].lastSeen < cutoff
    }

    function FailStale(cutoff: int): Db {
      this.(spawns := map id | id in spawns ::
        if id in StaleSpawns(cutoff) then spawns[id].(status := FAILED) else spawns[id])
    }

    /** UPDATE JOB_SPAWNS SET STATUS = 'COMPLETED' WHERE JOB_ID = ? AND STATUS = 'RUNNING' */
    function CompleteSpawnsOf(job: JobId): Db {
      this.(spawns := map id | id in spawns ::
        if spawns[id].job == job && spawns[id].status == RUNNING
        then spawns[id].(status := COMPLETED) else spawns[id])
    }
  }
}
