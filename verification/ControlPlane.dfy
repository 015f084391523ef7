/**
 The Worker's request handlers over its two mutable tables, statement by statement. Every
 method equates the new tables with the handler function of the old ones and keeps the
 tables sound.
 */
module ControlPlane {
  import opened Tables
  import opened Handlers
  import opened Invariants
  import opened StatementLaws
  import opened Starts
  import opened Polls

  class Worker {
    var jobs: map<JobId, Job>
    var spawns: map<SpawnId, Spawn>

    function View(): Db
      reads this
    {
      Db(jobs, spawns)
    }

    ghost predicate Valid()
      reads this
    {
      Sound(View())
    }

    constructor ()
      ensures Valid() && View() == Db(map[], map[])
    {
      jobs, spawns := map[], map[];
    }

    method StartJob(req: StartRequest, workerCap: Option<nat>, now: int, newId: JobId, createdAt: int)
      returns (resp: StartResponse)
      requires Valid() && |newId| == UUID_LENGTH && newId !in jobs
      modifies this
      ensures Valid()
      ensures (View(), resp) == Start(old(View()), req, workerCap, now, newId, createdAt)
      ensures StartSays(old(View()), View(), req, workerCap, now, newId, resp)
    {
      StartAnswers(View(), req, workerCap, now, newId, createdAt);
      var bad := Validate(req, workerCap);
      if bad.Some? {
        return Refused(bad.value);
      }
      if exists j :: j in jobs && jobs[j].status.Active() {
        var j :| j in jobs && jobs[j].status.Active();
        assert j in View().ActiveJobs();
        return Refused(StillActive);
      }
      InsertJobSound(View(), newId, NewJob(req, workerCap, now, createdAt));
      jobs := jobs[newId := NewJob(req, workerCap, now, createdAt)];
      return Accepted(newId);
    }

    method AgentPoll(agent: AgentId, now: int) returns (resp: PollResponse, ghost pick: Option<JobId>)
      requires Valid()
      modifies this
      ensures Valid() && !resp.Failed?
      ensures if pick.Some? then old(View()).OldestOpen(pick.value) else agent == "" || old(View()).NoOpenJob()
      ensures (View(), resp) == Poll(old(View()), pick, agent, now)
      ensures if pick.Some? then PollSays(old(View()), View(), pick.value, agent, now, resp)
        else resp == Idle && View() == old(View())
    {
      pick := None;
      if agent == "" {
        return Idle, None;
      }
      if forall k :: k in jobs ==> !jobs[k].status.Open() {
        return Idle, None;
      }
      OldestExists(View());
      var j :| View().OldestOpen(j);
      pick := Some(j);
      PollAnswers(View(), j, agent, now);
      resp := PollJob(j, agent, now);
    }

    /** agent_poll once its query has returned job j. */
    method PollJob(j: JobId, agent: AgentId, now: int) returns (resp: PollResponse)
      requires Valid() && agent != "" && View().OldestOpen(j)
      modifies this
      ensures Valid() && (View(), resp) == Poll(old(View()), Some(j), agent, now)
    {
      var job := jobs[j];
      if now >= job.stopAt {
        return Idle;
      }
      var id := SpawnIdOf(j, agent);
      var slot: nat;
      ghost var before := View();
      if id in spawns {
        if spawns[id].status != RUNNING {
          return Idle;
        }
        slot := spawns[id].slot;
        spawns := spawns[id := spawns[id].(lastSeen := now)];
        UpdateKeepsSound(before, View());
      } else {
        ClaimSound(before, id, j, agent, now);
        var n := View().CountRows(j);
        if n < job.agents {
          spawns := spawns[id := Spawn(j, agent, n, now, RUNNING)];
        }
        if id !in spawns {
          return Idle;
        }
        slot := spawns[id].slot;
      }
      UpdateKeepsSound(View(), View().Promote(j));
      if job.status == QUEUED {
        if jobs[j].status == QUEUED {
          jobs := jobs[j := jobs[j].(status := RUNNING)];
        }
      }
      return Run(OrderFor(j, job, id, slot));
    }

    /** The heartbeat half of record_benchmark_metrics. */
    method RecordMetrics(spawn: SpawnId, now: int)
      requires Valid()
      modifies this`spawns
      ensures Valid() && View() == old(View()).Touch(spawn, now)
    {
      UpdateKeepsSound(View(), View().Touch(spawn, now));
      if spawn in spawns {
        spawns := spawns[spawn := spawns[spawn].(lastSeen := now)];
      }
    }

    method CompleteSpawn(job: JobId, spawn: SpawnId, error: bool)
      requires Valid()
      modifies this
      ensures Valid() && View() == Complete(old(View()), job, spawn, error)
    {
      CompleteUpdates(View(), job, spawn, error);
      UpdateKeepsSound(View(), Complete(View(), job, spawn, error));
      if error {
        if spawn in spawns {
          spawns := spawns[spawn := spawns[spawn].(status := FAILED)];
        }
        if job in jobs && jobs[job].status.Open() {
          jobs := jobs[job := jobs[job].(status := FAILED)];
        }
        return;
      }
      var stopping := job in jobs && jobs[job].status in {STOPPING, STOPPED};
      var outcome := if stopping then STOPPED else COMPLETED;
      if spawn in spawns {
        spawns := spawns[spawn := spawns[spawn].(status := outcome)];
      }
      var active := View().CountRunning(job);
      if active != 0 {
        return;
      }
      if job in jobs && jobs[job].status.Active() {
        jobs := jobs[job := jobs[job].(status := outcome)];
      }
    }

    method StopJob(job: JobId, now: int) returns (changed: bool)
      requires Valid()
      modifies this`jobs
      ensures Valid() && View() == old(View()).RequestStop(job, now)
      ensures changed <==> job in old(jobs) && !old(jobs)[job].status.Terminal()
    {
      StopUpdates(View(), job, now);
      UpdateKeepsSound(View(), View().RequestStop(job, now));
      changed := job in jobs && jobs[job].status !in {COMPLETED, STOPPED, FAILED};
      if changed {
        jobs := jobs[job := jobs[job].(status := STOPPING, stopAt := now)];
      }
    }

    /** Rule 1 of the sweep: spawns that have stopped reporting. */
    method FailStaleSpawns(cutoff: int) returns (changes: nat)
      modifies this`spawns
      ensures View() == old(View()).FailStale(cutoff) && changes == |old(View()).StaleSpawns(cutoff)|
    {
      var stale := View().StaleSpawns(cutoff);
      spawns := map id | id in spawns ::
        if id in stale then spawns[id].(status := FAILED) else spawns[id];
      changes := |stale|;
    }

    /** The batch of rule 2 for one job. */
    method FinaliseJob(j: JobId)
      modifies this
      ensures View() == FinaliseOne(old(View()), j)
    {
      var outcome := if View().CountRows(j) > 0 then COMPLETED else FAILED;
      spawns := map id | id in spawns ::
        if spawns[id].job == j && spawns[id].status == RUNNING
        then spawns[id].(status := COMPLETED) else spawns[id];
      if j in jobs && jobs[j].status.Active() {
        jobs := jobs[j := jobs[j].(status := outcome)];
      }
    }

    /** Rule 2 of the sweep: the loop over the expired jobs, in whatever order they come. */
    method FinaliseJobs(expired: set<JobId>) returns (finalised: nat)
      requires expired <= jobs.Keys
      modifies this
      ensures View() == FinaliseAll(old(View()), expired) && finalised == |expired|
    {
      ghost var db := View();
      var todo := expired;
      finalised := 0;
      assert FinaliseAll(db, {}) == db;
      while todo != {}
        invariant todo <= expired
        invariant View() == FinaliseAll(db, expired - todo)
        invariant finalised + |todo| == |expired|
        decreases todo
      {
        var j :| j in todo;
        FinaliseNext(db, expired, todo, j);
        FinaliseJob(j);
        finalised := finalised + 1;
        todo := todo - {j};
      }
      assert expired - {} == expired;
    }

    /** Rule 3 of the sweep: jobs that never attracted any agents. */
    method FailAbandoned(cutoff: int) returns (changes: nat)
      modifies this`jobs
      ensures View() == old(View()).FailOrphans(cutoff) && changes == |old(View()).Orphans(cutoff)|
    {
      var orphans := View().Orphans(cutoff);
      jobs := map j | j in jobs :: if j in orphans then jobs[j].(status := FAILED) else jobs[j];
      changes := |orphans|;
    }

    /** Rule 4 of the sweep: stopping jobs whose agents have all gone quiet. */
    method CloseStopping()
      modifies this`jobs
      ensures View() == old(View()).CloseQuietStopping()
    {
      var quiet := set j | j in jobs && jobs[j].status == STOPPING && View().CountRunning(j) == 0;
      jobs := map j | j in jobs :: if j in quiet then jobs[j].(status := STOPPED) else jobs[j];
    }

    method ReapJobs(now: int) returns (tally: Tally)
      requires Valid()
      modifies this
      ensures Valid()
      ensures View() == Sweep(old(View()), now) && tally == SweepTally(old(View()), now)
    {
      SweepUpdates(View(), now);
      UpdateKeepsSound(View(), Sweep(View(), now));
      var staleSpawns := FailStaleSpawns(now - SPAWN_STALE_AFTER_MS);
      var finalised := FinaliseJobs(View().Expired(now - JOB_FINALISE_GRACE_MS));
      var abandoned := FailAbandoned(now - QUEUED_WITHOUT_AGENTS_TIMEOUT_MS);
      CloseStopping();
      tally := Tally(finalised, staleSpawns, abandoned);
    }
  }

  /** The ORDER BY ... LIMIT 1 query returns a row whenever some job is open. */
  lemma OldestExists(db: Db)
    requires !db.NoOpenJob()
    ensures exists j :: db.OldestOpen(j)
  {
    var open := set j | j in db.jobs && db.jobs[j].status.Open();
    var k :| k in db.jobs && db.jobs[k].status.Open();
    assert k in open;
    var j := Earliest(db, open);
    assert db.OldestOpen(j) by {
      assert forall k | k in db.jobs && db.jobs[k].status.Open() :: k in open;
    }
  }

  lemma {:induction false} Earliest(db: Db, ids: set<JobId>) returns (j: JobId)
    requires ids != {} && ids <= db.jobs.Keys
    ensures j in ids && forall k | k in ids :: db.jobs[j].createdAt <= db.jobs[k].createdAt
    decreases ids
  {
    j :| j in ids;
    if ids != {j} {
      var k := Earliest(db, ids - {j});
      if db.jobs[k].createdAt < db.jobs[j].createdAt {
        j := k;
      }
    }
  }
}
