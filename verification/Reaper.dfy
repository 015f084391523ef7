/**
 The scheduled sweep is stateless: a missed tick resolves on the next one. Which jobs stay
 active and which spawns stay RUNNING depends on the last tick alone, from any tables.
 */
module Reaper {
  import opened Tables
  import opened Handlers

  /** The job's window closed more than the grace period before t. */
  predicate ExpiredAt(db: Db, job: JobId, t: int) {
    job in db.jobs && db.jobs[job].status.Active() && db.jobs[job].stopAt < t - 30_000
  }

  /** A RUNNING row that a sweep at t leaves RUNNING. */
  predicate StaysRunning(db: Db, id: SpawnId, t: int) {
    && id in db.spawns && db.spawns[id].status == RUNNING
    && db.spawns[id].lastSeen >= t - 90_000
    && !ExpiredAt(db, db.spawns[id].job, t)
  }

  predicate OrphanAt(db: Db, job: JobId, t: int)
    requires job in db.jobs
  {
    && db.jobs[job].status == QUEUED && db.CountRows(job) == 0
    && db.jobs[job].startAt < t - 300_000
  }

  ghost predicate HasLiveRow(db: Db, job: JobId, t: int) {
    exists id :: StaysRunning(db, id, t) && db.spawns[id].job == job
  }

  // ---- what one sweep leaves ----

  lemma SweepRows(db: Db, t: int, job: JobId)
    ensures Sweep(db, t).RowsOf(job) == db.RowsOf(job)
    ensures AfterExpiry(db, t).RowsOf(job) == db.RowsOf(job)
  {
    var d := AfterStale(db, t);
    assert d.RowsOf(job) == db.RowsOf(job);
    RowsIgnoreStatus(d, d.Expired(t - JOB_FINALISE_GRACE_MS), job);
    assert Sweep(db, t).RowsOf(job) == AfterExpiry(db, t).RowsOf(job);
  }

  lemma QuietIff(db: Db, t: int, job: JobId)
    ensures AfterOrphans(db, t).CountRunning(job) == 0 <==> !HasLiveRow(db, job, t)
  {
    var d := AfterOrphans(db, t);
    assert d.spawns == AfterExpiry(db, t).spawns;
    if HasLiveRow(db, job, t) {
      var id :| StaysRunning(db, id, t) && db.spawns[id].job == job;
      assert id in d.RunningOf(job);
    }
    if d.CountRunning(job) != 0 {
      var id :| id in d.RunningOf(job);
      assert id in AfterExpiry(db, t).RunningSpawns();
    }
  }

  /** The status a sweep at t gives a job: rules 2, 3 and 4 in that order. */
  ghost function StatusAt(db: Db, job: JobId, t: int): Status
    requires job in db.jobs
  {
    var status := db.jobs[job].status;
    if status.Terminal() then status
    else if ExpiredAt(db, job, t) then ExpiryLabel(db, job)
    else if OrphanAt(db, job, t) then FAILED
    else if status == STOPPING && !HasLiveRow(db, job, t) then STOPPED
    else status
  }

  /** The job row after rules 1 and 2. */
  lemma ExpiryJob(db: Db, t: int, j: JobId)
    ensures j in AfterExpiry(db, t).jobs <==> j in db.jobs
    ensures j in db.jobs ==> AfterExpiry(db, t).jobs[j] == db.jobs[j].(status :=
      if ExpiredAt(db, j, t) then ExpiryLabel(db, j) else db.jobs[j].status)
  {
    var d := AfterStale(db, t);
    assert d.jobs == db.jobs;
    assert d.RowsOf(j) == db.RowsOf(j);
    assert j in d.Expired(t - JOB_FINALISE_GRACE_MS) <==> ExpiredAt(db, j, t);
  }

  /** And after rule 3. */
  lemma OrphanJob(db: Db, t: int, j: JobId)
    requires j in db.jobs
    ensures j in AfterOrphans(db, t).jobs
    ensures AfterOrphans(db, t).jobs[j] == db.jobs[j].(status :=
      if ExpiredAt(db, j, t) then ExpiryLabel(db, j) else if OrphanAt(db, j, t) then FAILED else db.jobs[j].status)
  {
    ExpiryJob(db, t, j);
    SweepRows(db, t, j);
  }

  /** The job row after a sweep: only STATUS changes. */
  lemma SweepJob(db: Db, t: int, j: JobId)
    ensures j in Sweep(db, t).jobs <==> j in db.jobs
    ensures j in db.jobs ==> Sweep(db, t).jobs[j] == db.jobs[j].(status := StatusAt(db, j, t))
  {
    if j in db.jobs {
      OrphanJob(db, t, j);
      QuietIff(db, t, j);
    }
  }

  ghost predicate JobSwept(a: Db, b: Db, t: int, j: JobId) {
    && (j in b.jobs <==> j in a.jobs)
    && (j in a.jobs ==> b.jobs[j] == a.jobs[j].(status := StatusAt(a, j, t)))
    && b.RowsOf(j) == a.RowsOf(j)
  }

  ghost predicate RowSwept(a: Db, b: Db, t: int, id: SpawnId) {
    && (id in b.spawns <==> id in a.spawns)
    && (id in a.spawns ==>
          && b.spawns[id].job == a.spawns[id].job
          && b.spawns[id].lastSeen == a.spawns[id].lastSeen
          && (b.spawns[id].status == RUNNING <==> StaysRunning(a, id, t)))
  }

  /** Tables b are tables a after a sweep at t, row by row. */
  ghost predicate Swept(a: Db, b: Db, t: int) {
    (forall j :: JobSwept(a, b, t, j)) && (forall id :: RowSwept(a, b, t, id))
  }

  lemma SweepSwept(db: Db, t: int)
    ensures Swept(db, Sweep(db, t), t)
  {
    forall j ensures JobSwept(db, Sweep(db, t), t, j) {
      SweepJob(db, t, j);
      SweepRows(db, t, j);
    }
    forall id ensures RowSwept(db, Sweep(db, t), t, id) {
    }
  }

  /** The spawn row after a sweep: gone quiet it is FAILED, else in an expired job COMPLETED. */
  lemma SpawnSwept(db: Db, t: int, id: SpawnId)
    requires id in db.spawns
    ensures id in Sweep(db, t).spawns
    ensures var row := db.spawns[id];
      Sweep(db, t).spawns[id] == row.(status :=
        if row.status != RUNNING then row.status
        else if row.lastSeen < t - 90_000 then FAILED
        else if ExpiredAt(db, row.job, t) then COMPLETED
        else RUNNING)
  {
  }

  // ---- the counts a sweep returns ----

  function ChangedRows(a: Db, b: Db): set<SpawnId> {
    set id | id in a.spawns && id in b.spawns && a.spawns[id] != b.spawns[id]
  }

  function ChangedJobs(a: Db, b: Db): set<JobId> {
    set j | j in a.jobs && j in b.jobs && a.jobs[j] != b.jobs[j]
  }

  /** Each count is the number of rows its rule changed. */
  lemma TallyCounts(db: Db, t: int)
    ensures SweepTally(db, t) == Tally(
      |ChangedJobs(AfterStale(db, t), AfterExpiry(db, t))|,
      |ChangedRows(db, AfterStale(db, t))|,
      |ChangedJobs(AfterExpiry(db, t), AfterOrphans(db, t))|)
  {
    var d1, d2 := AfterStale(db, t), AfterExpiry(db, t);
    assert ChangedJobs(d1, d2) == d1.Expired(t - JOB_FINALISE_GRACE_MS);
    assert ChangedRows(db, d1) == db.StaleSpawns(t - SPAWN_STALE_AFTER_MS);
    assert ChangedJobs(d2, AfterOrphans(db, t)) == d2.Orphans(t - QUEUED_WITHOUT_AGENTS_TIMEOUT_MS);
  }

  /** And read off the tables before the sweep. */
  lemma TallyBefore(db: Db, t: int)
    ensures SweepTally(db, t) == Tally(
      |set j | j in db.jobs && ExpiredAt(db, j, t)|,
      |set id | id in db.spawns && db.spawns[id].status == RUNNING && db.spawns[id].lastSeen < t - 90_000|,
      |set j | j in db.jobs && OrphanAt(db, j, t) && !ExpiredAt(db, j, t)|)
  {
    var d1, d2 := AfterStale(db, t), AfterExpiry(db, t);
    assert d1.Expired(t - JOB_FINALISE_GRACE_MS) == set j | j in db.jobs && ExpiredAt(db, j, t);
    assert db.StaleSpawns(t - SPAWN_STALE_AFTER_MS)
      == set id | id in db.spawns && db.spawns[id].status == RUNNING && db.spawns[id].lastSeen < t - 90_000;
    forall j ensures j in d2.Orphans(t - QUEUED_WITHOUT_AGENTS_TIMEOUT_MS)
      <==> j in db.jobs && OrphanAt(db, j, t) && !ExpiredAt(db, j, t)
    {
      ExpiryJob(db, t, j);
      SweepRows(db, t, j);
    }
    assert d2.Orphans(t - QUEUED_WITHOUT_AGENTS_TIMEOUT_MS)
      == set j | j in db.jobs && OrphanAt(db, j, t) && !ExpiredAt(db, j, t);
  }

  // ---- a missed tick ----

  lemma RunningCommutes(a: Db, b: Db, t1: int, t2: int, id: SpawnId)
    requires t1 <= t2 && Swept(a, b, t1)
    ensures StaysRunning(b, id, t2) <==> StaysRunning(a, id, t2)
  {
    assert RowSwept(a, b, t1, id);
    if id in a.spawns {
      var j := a.spawns[id].job;
      assert JobSwept(a, b, t1, j);
      if StaysRunning(a, id, t1) && ExpiredAt(a, j, t2) {
        // Its own live row keeps the job from being an orphan or quiet at t1.
        assert HasLiveRow(a, j, t1);
        assert id in a.RowsOf(j);
        assert ExpiredAt(b, j, t2);
      }
    }
  }

  lemma LiveRowCommutes(a: Db, b: Db, t1: int, t2: int, job: JobId)
    requires t1 <= t2 && Swept(a, b, t1)
    ensures HasLiveRow(b, job, t2) <==> HasLiveRow(a, job, t2)
    ensures HasLiveRow(a, job, t2) && !ExpiredAt(a, job, t1) ==> HasLiveRow(a, job, t1)
  {
    if HasLiveRow(b, job, t2) {
      var id :| StaysRunning(b, id, t2) && b.spawns[id].job == job;
      RunningCommutes(a, b, t1, t2, id);
      assert RowSwept(a, b, t1, id);
    }
    if HasLiveRow(a, job, t2) {
      var id :| StaysRunning(a, id, t2) && a.spawns[id].job == job;
      RunningCommutes(a, b, t1, t2, id);
      assert RowSwept(a, b, t1, id);
      assert !ExpiredAt(a, job, t1) ==> StaysRunning(a, id, t1);
    }
  }

  lemma ActiveCommutes(a: Db, b: Db, t1: int, t2: int, j: JobId)
    requires t1 <= t2 && Swept(a, b, t1) && j in a.jobs
    ensures j in b.jobs
    ensures StatusAt(b, j, t2).Active() <==> StatusAt(a, j, t2).Active()
  {
    assert JobSwept(a, b, t1, j);
    LiveRowCommutes(a, b, t1, t2, j);
  }

  ghost predicate SameLiveness(a: Db, b: Db) {
    a.ActiveJobs() == b.ActiveJobs() && a.RunningSpawns() == b.RunningSpawns()
  }

  lemma TwoSweepsOrOne(a: Db, b: Db, twice: Db, once: Db, t1: int, t2: int)
    requires t1 <= t2
    requires Swept(a, b, t1) && Swept(b, twice, t2) && Swept(a, once, t2)
    ensures SameLiveness(twice, once)
  {
    forall j ensures j in twice.ActiveJobs() <==> j in once.ActiveJobs() {
      assert JobSwept(a, b, t1, j) && JobSwept(b, twice, t2, j) && JobSwept(a, once, t2, j);
      if j in a.jobs {
        ActiveCommutes(a, b, t1, t2, j);
      }
    }
    forall id ensures id in twice.RunningSpawns() <==> id in once.RunningSpawns() {
      assert RowSwept(a, b, t1, id) && RowSwept(b, twice, t2, id) && RowSwept(a, once, t2, id);
      RunningCommutes(a, b, t1, t2, id);
    }
  }

  /** Sweeping at t1 and again at t2 leaves the same active jobs and RUNNING spawns as t2 alone. */
  lemma MissedTick(db: Db, t1: int, t2: int)
    requires t1 <= t2
    ensures SameLiveness(Sweep(Sweep(db, t1), t2), Sweep(db, t2))
  {
    SweepSwept(db, t1);
    SweepSwept(Sweep(db, t1), t2);
    SweepSwept(db, t2);
    TwoSweepsOrOne(db, Sweep(db, t1), Sweep(Sweep(db, t1), t2), Sweep(db, t2), t1, t2);
  }

  function SweepEach(db: Db, ticks: seq<int>): Db
    decreases |ticks|
  {
    if ticks == [] then db else SweepEach(Sweep(db, ticks[0]), ticks[1..])
  }

  predicate Ordered(ticks: seq<int>) {
    forall i, j :: 0 <= i < j < |ticks| ==> ticks[i] <= ticks[j]
  }

  /** However many ticks fired before it, the last one decides. */
  lemma {:induction false} LastTickDecides(db: Db, ticks: seq<int>)
    requires ticks != [] && Ordered(ticks)
    ensures SameLiveness(SweepEach(db, ticks), Sweep(db, ticks[|ticks| - 1]))
    decreases |ticks|
  {
    if |ticks| > 1 {
      var next, last := Sweep(db, ticks[0]), ticks[|ticks| - 1];
      LastTickDecides(next, ticks[1..]);
      MissedTick(db, ticks[0], last);
    }
  }

  // ---- the same tick twice ----

  lemma NothingLeft(a: Db, b: Db, t: int)
    requires Swept(a, b, t)
    ensures b.StaleSpawns(t - SPAWN_STALE_AFTER_MS) == {}
    ensures b.Expired(t - JOB_FINALISE_GRACE_MS) == {}
    ensures b.Orphans(t - QUEUED_WITHOUT_AGENTS_TIMEOUT_MS) == {}
    ensures forall j | j in b.jobs && b.jobs[j].status == STOPPING :: b.CountRunning(j) != 0
  {
    forall id | id in b.spawns ensures id !in b.StaleSpawns(t - SPAWN_STALE_AFTER_MS) {
      assert RowSwept(a, b, t, id);
    }
    forall j | j in b.jobs
      ensures j !in b.Expired(t - JOB_FINALISE_GRACE_MS)
      ensures j !in b.Orphans(t - QUEUED_WITHOUT_AGENTS_TIMEOUT_MS)
      ensures b.jobs[j].status == STOPPING ==> b.CountRunning(j) != 0
    {
      assert JobSwept(a, b, t, j);
      if b.jobs[j].status == STOPPING {
        var id :| StaysRunning(a, id, t) && a.spawns[id].job == j;
        assert RowSwept(a, b, t, id);
        assert id in b.RunningOf(j);
      }
    }
  }

  lemma IdleSweep(db: Db, t: int)
    requires db.StaleSpawns(t - SPAWN_STALE_AFTER_MS) == {}
    requires db.Expired(t - JOB_FINALISE_GRACE_MS) == {}
    requires db.Orphans(t - QUEUED_WITHOUT_AGENTS_TIMEOUT_MS) == {}
    requires forall j | j in db.jobs && db.jobs[j].status == STOPPING :: db.CountRunning(j) != 0
    ensures Sweep(db, t) == db && SweepTally(db, t) == Tally(0, 0, 0)
  {
    assert AfterStale(db, t) == db;
    assert FinaliseAll(db, {}) == db;
    assert AfterOrphans(db, t) == db;
  }

  /** Running the same tick again changes nothing and reports nothing. */
  lemma SameTickTwice(db: Db, t: int)
    ensures Sweep(Sweep(db, t), t) == Sweep(db, t)
    ensures SweepTally(Sweep(db, t), t) == Tally(0, 0, 0)
  {
    SweepSwept(db, t);
    NothingLeft(db, Sweep(db, t), t);
    IdleSweep(Sweep(db, t), t);
  }

  // ---- terminal labels ----

  /**
   The one way an extra tick shows: it closes a stopping job that has gone quiet as STOPPED
   before its stop time is far enough back for the later tick to finalise it.
   */
  ghost predicate ClosedEarly(db: Db, j: JobId, t1: int, t2: int)
    requires j in db.jobs
  {
    && db.jobs[j].status == STOPPING && !HasLiveRow(db, j, t1)
    && !ExpiredAt(db, j, t1) && ExpiredAt(db, j, t2)
  }

  lemma LabelsCompared(a: Db, b: Db, twice: Db, once: Db, t1: int, t2: int, j: JobId)
    requires t1 <= t2 && j in a.jobs
    requires Swept(a, b, t1) && Swept(b, twice, t2) && Swept(a, once, t2)
    ensures j in twice.jobs && j in once.jobs
    ensures twice.jobs[j].status != once.jobs[j].status <==> ClosedEarly(a, j, t1, t2)
  {
    assert JobSwept(a, b, t1, j) && JobSwept(b, twice, t2, j) && JobSwept(a, once, t2, j);
    LiveRowCommutes(a, b, t1, t2, j);
  }

  /** Labels, unlike the active sets, can depend on a missed tick: exactly then. */
  lemma LabelsDifferIff(db: Db, t1: int, t2: int, j: JobId)
    requires t1 <= t2 && j in db.jobs
    ensures j in Sweep(Sweep(db, t1), t2).jobs && j in Sweep(db, t2).jobs
    ensures Sweep(Sweep(db, t1), t2).jobs[j].status != Sweep(db, t2).jobs[j].status
      <==> ClosedEarly(db, j, t1, t2)
  {
    SweepSwept(db, t1);
    SweepSwept(Sweep(db, t1), t2);
    SweepSwept(db, t2);
    LabelsCompared(db, Sweep(db, t1), Sweep(Sweep(db, t1), t2), Sweep(db, t2), t1, t2, j);
  }
}
