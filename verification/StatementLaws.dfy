/** Every UPDATE the handlers issue obeys the two-state law `Updates`, from any tables at all. */
module StatementLaws {
  import opened Tables
  import opened Handlers
  import opened Invariants

  lemma UpdatesTrans(a: Db, b: Db, c: Db)
    requires Updates(a, b) && Updates(b, c)
    ensures Updates(a, c)
  {
    EvolvesTrans(a, b, c);
  }

  lemma MarkUpdates(db: Db, id: SpawnId, status: Status)
    requires status.Terminal()
    ensures Updates(db, db.MarkSpawn(id, status))
  {
  }

  lemma CloseUpdates(db: Db, id: JobId, outcome: Status)
    requires outcome.Terminal()
    ensures Updates(db, db.CloseJob(id, outcome)) && Updates(db, db.FailOpenJob(id))
  {
  }

  lemma CompleteSpawnsUpdates(db: Db, job: JobId)
    ensures Updates(db, db.CompleteSpawnsOf(job))
  {
  }

  lemma StopUpdates(db: Db, id: JobId, now: int)
    ensures Updates(db, db.RequestStop(id, now))
  {
  }

  lemma CompleteUpdates(db: Db, job: JobId, spawn: SpawnId, error: bool)
    ensures Updates(db, Complete(db, job, spawn, error))
  {
    var stopping := job in db.jobs && (db.jobs[job].status.STOPPING? || db.jobs[job].status.STOPPED?);
    var outcome := if error then FAILED else if stopping then STOPPED else COMPLETED;
    MarkUpdates(db, spawn, outcome);
    CloseUpdates(db.MarkSpawn(spawn, outcome), job, outcome);
    if error || db.MarkSpawn(spawn, outcome).CountRunning(job) == 0 {
      UpdatesTrans(db, db.MarkSpawn(spawn, outcome), Complete(db, job, spawn, error));
    }
  }

  lemma FinaliseUpdates(db: Db, done: set<JobId>)
    ensures Updates(db, FinaliseAll(db, done))
  {
  }

  lemma SweepRulesUpdate(db: Db, cutoff: int)
    ensures Updates(db, db.FailStale(cutoff))
    ensures Updates(db, db.FailOrphans(cutoff))
    ensures Updates(db, db.CloseQuietStopping())
  {
  }

  lemma SweepUpdates(db: Db, now: int)
    ensures Updates(db, Sweep(db, now))
  {
    var d1, d2, d3 := AfterStale(db, now), AfterExpiry(db, now), AfterOrphans(db, now);
    SweepRulesUpdate(db, now - SPAWN_STALE_AFTER_MS);
    FinaliseUpdates(d1, d1.Expired(now - JOB_FINALISE_GRACE_MS));
    UpdatesTrans(db, d1, d2);
    SweepRulesUpdate(d2, now - QUEUED_WITHOUT_AGENTS_TIMEOUT_MS);
    UpdatesTrans(db, d2, d3);
    SweepRulesUpdate(d3, 0);
    UpdatesTrans(db, d3, Sweep(db, now));
  }
}
