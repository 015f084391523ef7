/**
 What every statement keeps. `Evolves` is the two-state law of the tables (statuses only
 advance, plans and slots never change); `Sound` is the one-state law (slots of each job
 are dense, open jobs still carry their planned window).
 */
module Invariants {
  import opened Tables

  // ---- one state ----

  /** Some row of the job holds slot k. */
  ghost predicate Occupied(db: Db, job: JobId, k: nat) {
    exists r :: r in db.RowsOf(job) && db.spawns[r].slot == k
  }

  /** The rows of a job hold exactly the slots 0..n-1, one row each. */
  ghost predicate DenseRows(db: Db, job: JobId, n: nat) {
    && (forall r | r in db.RowsOf(job) :: db.spawns[r].slot < n)
    && (forall k: nat | k < n :: Occupied(db, job, k))
    && (forall a, b | a in db.RowsOf(job) && b in db.RowsOf(job) ::
          db.spawns[a].slot == db.spawns[b].slot ==> a == b)
  }

  ghost predicate Dense(db: Db, job: JobId)
    requires job in db.jobs
  {
    DenseRows(db, job, db.CountRows(job)) && db.CountRows(job) <= db.jobs[job].agents
  }

  ghost predicate JobOk(id: JobId, job: Job) {
    && |id| == UUID_LENGTH
    && job.agents > 0
    && (job.unthrottled || job.rps >= job.agents)
    && (job.status.Open() ==> job.stopAt == job.PlannedStop())
  }

  ghost predicate JobSound(db: Db, id: JobId) {
    id in db.jobs ==> JobOk(id, db.jobs[id]) && Dense(db, id)
  }

  ghost predicate RowSound(db: Db, id: SpawnId) {
    id in db.spawns ==>
      && db.spawns[id].job in db.jobs
      && id == SpawnIdOf(db.spawns[id].job, db.spawns[id].agent)
  }

  ghost predicate Sound(db: Db) {
    (forall j :: JobSound(db, j)) && (forall id :: RowSound(db, id))
  }

  // ---- two states ----

  ghost predicate JobEvolves(a: Db, b: Db, id: JobId) {
    id in a.jobs ==>
      && id in b.jobs
      && a.jobs[id].SamePlan(b.jobs[id])
      && a.jobs[id].status.Rank() <= b.jobs[id].status.Rank()
      && (a.jobs[id].status.Terminal() ==> b.jobs[id].status == a.jobs[id].status)
      && (b.jobs[id].status.Open() ==> b.jobs[id].stopAt == a.jobs[id].stopAt)
  }

  ghost predicate SpawnEvolves(a: Db, b: Db, id: SpawnId) {
    id in a.spawns ==>
      && id in b.spawns
      && a.spawns[id].job == b.spawns[id].job
      && a.spawns[id].agent == b.spawns[id].agent
      && a.spawns[id].slot == b.spawns[id].slot
      && (a.spawns[id].status != RUNNING ==> b.spawns[id].status != RUNNING)
  }

  /** Nothing is deleted, statuses only advance, plans and slots stay. */
  ghost predicate Evolves(a: Db, b: Db) {
    (forall j :: JobEvolves(a, b, j)) && (forall id :: SpawnEvolves(a, b, id))
  }

  /** An UPDATE: the law above, with no row added. */
  ghost predicate Updates(a: Db, b: Db) {
    Evolves(a, b) && b.jobs.Keys == a.jobs.Keys && b.spawns.Keys == a.spawns.Keys
  }

  lemma EvolvesTrans(a: Db, b: Db, c: Db)
    requires Evolves(a, b) && Evolves(b, c)
    ensures Evolves(a, c)
  {
    forall j ensures JobEvolves(a, c, j) {
      assert JobEvolves(a, b, j) && JobEvolves(b, c, j);
    }
    forall id ensures SpawnEvolves(a, c, id) {
      assert SpawnEvolves(a, b, id) && SpawnEvolves(b, c, id);
    }
  }

  /** A job that has become active was active before: nothing but InsertJob opens one. */
  lemma UpdateOpensNothing(a: Db, b: Db)
    requires Updates(a, b)
    ensures b.ActiveJobs() <= a.ActiveJobs()
  {
    forall j | j in b.ActiveJobs() ensures j in a.ActiveJobs() {
      assert j in b.jobs.Keys;
      assert JobEvolves(a, b, j);
    }
  }

  // ---- preservation ----

  /** DenseRows only reads the rows of its own job. */
  lemma DenseFrame(a: Db, b: Db, job: JobId, n: nat)
    requires DenseRows(a, job, n)
    requires a.RowsOf(job) == b.RowsOf(job)
    requires forall r | r in a.RowsOf(job) :: a.spawns[r].slot == b.spawns[r].slot
    ensures DenseRows(b, job, n)
  {
    forall k: nat | k < n ensures Occupied(b, job, k) {
      assert Occupied(a, job, k);
      var r :| r in a.RowsOf(job) && a.spawns[r].slot == k;
      assert r in b.RowsOf(job);
    }
    forall x, y | x in b.RowsOf(job) && y in b.RowsOf(job) && b.spawns[x].slot == b.spawns[y].slot
      ensures x == y
    {
      assert x in a.RowsOf(job) && y in a.RowsOf(job);
    }
  }

  lemma UpdateKeepsRows(a: Db, b: Db, job: JobId)
    requires Updates(a, b)
    ensures b.RowsOf(job) == a.RowsOf(job)
    ensures forall r | r in a.RowsOf(job) :: a.spawns[r].slot == b.spawns[r].slot
  {
    forall id ensures id in b.RowsOf(job) <==> id in a.RowsOf(job) {
      assert id in a.spawns <==> id in a.spawns.Keys;
      assert id in b.spawns <==> id in b.spawns.Keys;
      assert SpawnEvolves(a, b, id);
    }
    forall r | r in a.RowsOf(job) ensures a.spawns[r].slot == b.spawns[r].slot {
      assert SpawnEvolves(a, b, r);
    }
  }

  lemma UpdateKeepsSound(a: Db, b: Db)
    requires Updates(a, b)
    ensures Sound(a) ==> Sound(b)
  {
    if Sound(a) {
      forall j ensures JobSound(b, j) {
        if j in b.jobs.Keys {
          assert JobEvolves(a, b, j) && JobSound(a, j);
          UpdateKeepsRows(a, b, j);
          DenseFrame(a, b, j, a.CountRows(j));
        }
      }
      forall id ensures RowSound(b, id) {
        if id in b.spawns.Keys {
          assert SpawnEvolves(a, b, id) && RowSound(a, id);
          assert JobEvolves(a, b, a.spawns[id].job);
        }
      }
    }
  }

  lemma NoRowsWithoutJob(db: Db, id: JobId)
    requires Sound(db) && id !in db.jobs
    ensures db.RowsOf(id) == {}
  {
    forall r | r in db.spawns ensures db.spawns[r].job != id {
      assert RowSound(db, r);
    }
  }

  lemma InsertJobSound(db: Db, id: JobId, job: Job)
    requires Sound(db) && JobOk(id, job) && id !in db.jobs
    ensures Sound(db.InsertJob(id, job))
  {
    var after := db.InsertJob(id, job);
    NoRowsWithoutJob(db, id);
    forall j ensures JobSound(after, j) {
      assert after.RowsOf(j) == db.RowsOf(j);
      assert JobSound(db, j);
      if j != id && j in db.jobs {
        DenseFrame(db, after, j, db.CountRows(j));
      }
    }
    forall r ensures RowSound(after, r) {
      assert RowSound(db, r);
    }
  }

  /** One more row, in the slot after the last. */
  lemma DenseGrows(db: Db, id: SpawnId, row: Spawn, n: nat)
    requires DenseRows(db, row.job, n) && id !in db.spawns && row.slot == n
    ensures DenseRows(db.(spawns := db.spawns[id := row]), row.job, n + 1)
  {
    var after := db.(spawns := db.spawns[id := row]);
    assert after.RowsOf(row.job) == db.RowsOf(row.job) + {id};
    forall k: nat | k < n + 1 ensures Occupied(after, row.job, k) {
      if k < n {
        assert Occupied(db, row.job, k);
        var r :| r in db.RowsOf(row.job) && db.spawns[r].slot == k;
        assert r in after.RowsOf(row.job) && after.spawns[r].slot == k;
      } else {
        assert id in after.RowsOf(row.job);
      }
    }
  }

  lemma RowAddedDense(db: Db, id: SpawnId, row: Spawn, j: JobId)
    requires j in db.jobs && Dense(db, j) && id !in db.spawns
    requires row.job == j ==> row.slot == db.CountRows(j) < db.jobs[j].agents
    ensures Dense(db.(spawns := db.spawns[id := row]), j)
  {
    var after := db.(spawns := db.spawns[id := row]);
    if j == row.job {
      DenseGrows(db, id, row, db.CountRows(j));
      assert after.RowsOf(j) == db.RowsOf(j) + {id};
      assert after.CountRows(j) == db.CountRows(j) + 1;
    } else {
      assert after.RowsOf(j) == db.RowsOf(j);
      DenseFrame(db, after, j, db.CountRows(j));
    }
  }

  /** Adding a row of an existing job in its next slot keeps the tables sound. */
  lemma RowAdded(db: Db, id: SpawnId, row: Spawn)
    requires Sound(db) && row.job in db.jobs && id !in db.spawns
    requires id == SpawnIdOf(row.job, row.agent)
    requires row.slot == db.CountRows(row.job) < db.jobs[row.job].agents
    ensures Sound(db.(spawns := db.spawns[id := row]))
  {
    var after := db.(spawns := db.spawns[id := row]);
    forall j ensures JobSound(after, j) {
      assert JobSound(db, j);
      if j in db.jobs {
        RowAddedDense(db, id, row, j);
      }
    }
    forall r ensures RowSound(after, r) {
      assert RowSound(db, r);
    }
  }

  /** The unique index on (JOB_ID, SLOT) never rejects a claim: the next slot is always free. */
  lemma ClaimNeverRejected(db: Db, id: SpawnId, job: JobId, agent: AgentId, now: int, agents: nat)
    requires job in db.jobs && Dense(db, job)
    ensures !db.Claim(id, job, agent, now, agents).UniqueViolation?
  {
    forall r | r in db.RowsOf(job) ensures db.spawns[r].slot != db.CountRows(job) {
    }
  }

  /** The conditional INSERT keeps the slots dense. */
  lemma ClaimSound(db: Db, id: SpawnId, job: JobId, agent: AgentId, now: int)
    requires Sound(db) && job in db.jobs && id == SpawnIdOf(job, agent)
    ensures var r := db.Claim(id, job, agent, now, db.jobs[job].agents);
      !r.UniqueViolation? && (r.Inserted? ==> Sound(r.db))
  {
    assert JobSound(db, job);
    ClaimNeverRejected(db, id, job, agent, now, db.jobs[job].agents);
    if id !in db.spawns && db.CountRows(job) < db.jobs[job].agents {
      RowAdded(db, id, Spawn(job, agent, db.CountRows(job), now, RUNNING));
    }
  }
}
