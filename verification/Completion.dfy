/** How a job ends when its agents report back: which report closes it, and under which label. */
module Completion {
  import opened Tables
  import opened Handlers
  import opened Invariants
  import opened Reaper
  import opened Lifecycle
  import opened History

  /** Some event of the run asked to stop the job. */
  ghost predicate Requested(run: seq<Event>, job: JobId) {
    exists k: nat :: StopsAt(run, k, job)
  }

  lemma RequestedPrefix(run: seq<Event>, job: JobId)
    requires run != []
    ensures Requested(run, job) <==> Requested(run[..|run| - 1], job) || StopsAt(run, |run| - 1, job)
  {
    var k := |run| - 1;
    var init := run[..k];
    forall i: nat | i < k ensures StopsAt(init, i, job) <==> StopsAt(run, i, job) {
      assert init[..i] == run[..i];
    }
    if Requested(run, job) {
      var i: nat :| StopsAt(run, i, job);
      assert i < k ==> StopsAt(init, i, job);
    }
  }

  lemma {:induction false} NotRequestedYet(run: seq<Event>, job: JobId)
    requires job !in After(run).jobs
    ensures !Requested(run, job)
  {
    if run != [] {
      var init, e := run[..|run| - 1], run[|run| - 1];
      RunKeeps(init);
      if job in After(init).jobs {
        EventStop(After(init), e, job);
      }
      NotRequestedYet(init, job);
      RequestedPrefix(run, job);
    }
  }

  lemma SweepStopping(db: Db, t: int, job: JobId)
    requires job in db.jobs
    ensures job in Sweep(db, t).jobs
    ensures Sweep(db, t).jobs[job].status.Active() ==> Sweep(db, t).jobs[job].status == db.jobs[job].status
  {
    SweepSwept(db, t);
    assert JobSwept(db, Sweep(db, t), t, job);
  }

  lemma ReportStopping(db: Db, job: JobId, spawn: SpawnId, error: bool, j: JobId)
    requires j in db.jobs
    ensures j in Complete(db, job, spawn, error).jobs
    ensures Complete(db, job, spawn, error).jobs[j].status.Active() ==>
      Complete(db, job, spawn, error).jobs[j].status == db.jobs[j].status
  {
  }

  lemma PollStopping(db: Db, e: Event, job: JobId)
    requires e.OnPoll? && job in db.jobs
    ensures job in Apply(db, e).jobs
    ensures Apply(db, e).jobs[job].status == STOPPING <==> db.jobs[job].status == STOPPING
  {
  }

  lemma EventStopping(db: Db, e: Event, job: JobId)
    requires Sound(db) && Quiet(db) && job in db.jobs
    ensures job in Apply(db, e).jobs
    ensures Apply(db, e).jobs[job].status.Active() ==>
      (Apply(db, e).jobs[job].status == STOPPING <==> db.jobs[job].status == STOPPING || (e.OnStop? && e.job == job))
  {
    if e.OnReap? {
      SweepStopping(db, e.now, job);
    } else if e.OnComplete? {
      ReportStopping(db, e.job, e.spawn, e.error, job);
    } else if e.OnPoll? {
      PollStopping(db, e, job);
    }
  }

  /** An active job is STOPPING exactly when the run asked for it to stop. */
  lemma {:induction false} StoppingIffRequested(run: seq<Event>, job: JobId)
    requires job in After(run).jobs && After(run).jobs[job].status.Active()
    ensures After(run).jobs[job].status == STOPPING <==> Requested(run, job)
  {
    if run != [] {
      var init, e := run[..|run| - 1], run[|run| - 1];
      RunKeeps(init);
      RequestedPrefix(run, job);
      if job in After(init).jobs {
        EventStop(After(init), e, job);
        EventStopping(After(init), e, job);
        StoppingIffRequested(init, job);
      } else {
        NotRequestedYet(init, job);
      }
    }
  }

  lemma MarkedRows(db: Db, job: JobId, spawn: SpawnId, outcome: Status)
    requires outcome != RUNNING
    ensures db.MarkSpawn(spawn, outcome).RunningOf(job) == db.RunningOf(job) - {spawn}
  {
  }

  /**
   A report without an error closes an active job exactly when no other spawn of it is RUNNING, as
   STOPPED if the run ever asked for it to stop and as COMPLETED otherwise.
   */
  lemma LastReportCloses(run: seq<Event>, now: int, job: JobId, spawn: SpawnId)
    requires job in After(run).jobs && After(run).jobs[job].status.Active()
    ensures var after := Apply(After(run), OnComplete(now, job, spawn, false));
      && job in after.jobs
      && (after.jobs[job].status.Terminal() <==> After(run).RunningOf(job) <= {spawn})
      && (after.jobs[job].status.Terminal() ==>
            after.jobs[job].status == if Requested(run, job) then STOPPED else COMPLETED)
  {
    var db := After(run);
    StoppingIffRequested(run, job);
    var outcome := if db.jobs[job].status.STOPPING? then STOPPED else COMPLETED;
    MarkedRows(db, job, spawn, outcome);
  }

  /** A report with an error fails an active job at once, unless it is being stopped: then nothing changes it. */
  lemma ErrorReportFails(run: seq<Event>, now: int, job: JobId, spawn: SpawnId)
    requires job in After(run).jobs && After(run).jobs[job].status.Active()
    ensures var after := Apply(After(run), OnComplete(now, job, spawn, true));
      && job in after.jobs
      && after.jobs[job].status == if Requested(run, job) then STOPPING else FAILED
  {
    StoppingIffRequested(run, job);
  }

  /**
   What a report does to the spawn rows: its own row is FAILED after an error, else STOPPED or COMPLETED as
   the job was asked to stop or not; a job that has ended keeps its label, and STOPPED decides the row's.
   */
  lemma ReportMarks(run: seq<Event>, now: int, job: JobId, spawn: SpawnId, error: bool)
    ensures var db, after := After(run), Apply(After(run), OnComplete(now, job, spawn, error));
      var active := job in db.jobs && db.jobs[job].status.Active();
      var stopped := if active then Requested(run, job) else job in db.jobs && db.jobs[job].status == STOPPED;
      && after.spawns == (if spawn in db.spawns
           then db.spawns[spawn := db.spawns[spawn].(status :=
                  if error then FAILED else if stopped then STOPPED else COMPLETED)]
           else db.spawns)
      && (!active ==> after.jobs == db.jobs)
      && (active ==>
            job in after.jobs && after.jobs == db.jobs[job := db.jobs[job].(status := after.jobs[job].status)])
  {
    if job in After(run).jobs && After(run).jobs[job].status.Active() {
      StoppingIffRequested(run, job);
    }
  }

  /**
   The sweep closes a stopping job whose window it does not expire as STOPPED exactly when no spawn of it
   is both RUNNING and in contact within the last 90 s.
   */
  lemma SweepClosesStopping(run: seq<Event>, job: JobId, t: int)
    requires job in After(run).jobs && After(run).jobs[job].status.Active() && Requested(run, job)
    requires !ExpiredAt(After(run), job, t)
    ensures var after := Apply(After(run), OnReap(t));
      && job in after.jobs
      && after.jobs[job].status == (if HasLiveRow(After(run), job, t) then STOPPING else STOPPED)
  {
    StoppingIffRequested(run, job);
    SweepSwept(After(run), t);
    assert JobSwept(After(run), Sweep(After(run), t), t, job);
  }
}
