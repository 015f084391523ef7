/** The answer of a poll and what it leaves, read off the tables. */
module Polls {
  import opened Tables
  import opened Handlers
  import opened Invariants

  /**
   A poll whose query returned job j. It is told to run exactly when it names an agent, the job's window
   is open, and the agent holds a RUNNING row or has none while fewer than AGENTS rows exist. It then has
   the row of its slot, seen now, and the order of that slot; otherwise nothing changes.
   */
  ghost predicate PollSays(db: Db, after: Db, j: JobId, agent: AgentId, now: int, resp: PollResponse)
    requires j in db.jobs
  {
    var job, id := db.jobs[j], j + "-" + agent;
    var rows := |set r | r in db.spawns && db.spawns[r].job == j|;
    && (resp.Run? <==>
          && agent != "" && now < job.stopAt
          && if id in db.spawns then db.spawns[id].status == RUNNING else rows < job.agents)
    && (!resp.Run? ==> resp.Idle? && after == db)
    && (resp.Run? ==>
          var slot := if id in db.spawns then db.spawns[id].slot else rows;
          && after == Db(db.jobs[j := job.(status := RUNNING)], db.spawns[id := Spawn(j, agent, slot, now, RUNNING)])
          && OrderSays(resp.order, j, id, job, slot))
  }

  /** The window, workers and rate of one slot of the job. */
  predicate OrderSays(order: RunOrder, j: JobId, id: SpawnId, job: Job, slot: nat) {
    && order.job == j && order.spawn == id
    && order.startAt == job.startAt && order.stopAt == job.stopAt
    && order.workers == job.workers && order.unthrottled == job.unthrottled
    && job.agents > 0
    && order.targetRPS == job.rps / job.agents + (if slot < job.rps % job.agents then 1 else 0)
  }

  lemma OwnRow(db: Db, j: JobId, agent: AgentId)
    requires Sound(db) && j in db.jobs && SpawnIdOf(j, agent) in db.spawns
    ensures db.spawns[SpawnIdOf(j, agent)].job == j && db.spawns[SpawnIdOf(j, agent)].agent == agent
  {
    var id := SpawnIdOf(j, agent);
    assert RowSound(db, id) && JobSound(db, j) && JobSound(db, db.spawns[id].job);
    SpawnIdInjective(j, agent, db.spawns[id].job, db.spawns[id].agent);
  }

  lemma PollAnswers(db: Db, j: JobId, agent: AgentId, now: int)
    requires Sound(db) && db.OldestOpen(j)
    ensures var (after, resp) := Poll(db, Some(j), agent, now);
      PollSays(db, after, j, agent, now, resp)
  {
    var id := SpawnIdOf(j, agent);
    var rows := set r | r in db.spawns && db.spawns[r].job == j;
    assert rows == db.RowsOf(j);
    assert JobSound(db, j);
    ClaimSound(db, id, j, agent, now);
    if id in db.spawns {
      OwnRow(db, j, agent);
    }
  }
}
