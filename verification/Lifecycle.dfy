/**
 Runs of whole requests: any sequence of start, poll, metrics, complete, stop and reap events
 from empty tables, each handler atomic.
 */
module Lifecycle {
  import opened Tables
  import opened Handlers
  import opened Invariants
  import opened StatementLaws
  import opened Reaper

  datatype Event =
    | OnStart(now: int, req: StartRequest, cap: Option<nat>, newId: JobId, createdAt: int)
    | OnPoll(now: int, pick: JobId, agent: AgentId)
    | OnMetrics(now: int, spawn: SpawnId)
    | OnComplete(now: int, job: JobId, spawn: SpawnId, error: bool)
    | OnStop(now: int, job: JobId)
    | OnReap(now: int)

  /** The response of a poll event; `pick` stands for the row its SELECT returned. */
  function PollAnswer(db: Db, e: Event): PollResponse
    requires e.OnPoll?
  {
    if db.OldestOpen(e.pick) then Poll(db, Some(e.pick), e.agent, e.now).1 else Idle
  }

  function Apply(db: Db, e: Event): Db {
    match e
    case OnStart(now, req, cap, newId, createdAt) =>
      if |newId| == UUID_LENGTH && newId !in db.jobs then Start(db, req, cap, now, newId, createdAt).0 else db
    case OnPoll(now, pick, agent) =>
      if db.OldestOpen(pick) then Poll(db, Some(pick), agent, now).0 else db
    case OnMetrics(now, spawn) => db.Touch(spawn, now)
    case OnComplete(now, job, spawn, error) => Complete(db, job, spawn, error)
    case OnStop(now, job) => db.RequestStop(job, now)
    case OnReap(now) => Sweep(db, now)
  }

  /** The tables after a run. */
  function After(run: seq<Event>): Db {
    if run == [] then Db(map[], map[]) else Apply(After(run[..|run| - 1]), run[|run| - 1])
  }

  // ---- what every reachable state keeps ----

  /** A QUEUED job has no spawn rows; a COMPLETED or STOPPED job has no RUNNING spawn. */
  ghost predicate JobQuiet(db: Db, j: JobId) {
    j in db.jobs ==>
      && (db.jobs[j].status == QUEUED ==> db.RowsOf(j) == {})
      && (db.jobs[j].status == COMPLETED || db.jobs[j].status == STOPPED ==> db.RunningOf(j) == {})
  }

  ghost predicate Quiet(db: Db) {
    forall j :: JobQuiet(db, j)
  }

  /** No job is labelled COMPLETED or STOPPED while it still has a RUNNING row. */
  ghost predicate ClosesQuietly(a: Db, b: Db, j: JobId) {
    j in a.jobs && j in b.jobs && (b.jobs[j].status == COMPLETED || b.jobs[j].status == STOPPED)
    ==> a.jobs[j].status == b.jobs[j].status || b.RunningOf(j) == {}
  }

  lemma UpdateKeepsQuiet(a: Db, b: Db)
    requires Updates(a, b) && Quiet(a) && forall j :: ClosesQuietly(a, b, j)
    ensures Quiet(b)
  {
    forall j ensures JobQuiet(b, j) {
      if j in b.jobs.Keys {
        assert JobQuiet(a, j) && JobEvolves(a, b, j) && ClosesQuietly(a, b, j);
        UpdateKeepsRows(a, b, j);
        forall id | id in b.RunningOf(j) ensures id in a.RunningOf(j) {
          assert id in b.spawns.Keys;
          assert SpawnEvolves(a, b, id);
        }
      }
    }
  }

  lemma SweepCloses(a: Db, b: Db, t: int, j: JobId)
    requires Swept(a, b, t)
    ensures ClosesQuietly(a, b, j)
  {
    assert JobSwept(a, b, t, j);
    if j in a.jobs && a.jobs[j].status != b.jobs[j].status
       && (b.jobs[j].status == COMPLETED || b.jobs[j].status == STOPPED) {
      forall id | id in b.RunningOf(j) ensures false {
        assert RowSwept(a, b, t, id);
        assert HasLiveRow(a, j, t);
      }
      assert b.RunningOf(j) == {};
    }
  }

  lemma PollKeeps(db: Db, pick: JobId, agent: AgentId, now: int)
    requires Sound(db) && Quiet(db) && db.OldestOpen(pick)
    ensures var after := Poll(db, Some(pick), agent, now).0;
      Sound(after) && Quiet(after)
    ensures !Poll(db, Some(pick), agent, now).1.Failed?
  {
    var id := SpawnIdOf(pick, agent);
    var after := Poll(db, Some(pick), agent, now).0;
    ClaimSound(db, id, pick, agent, now);
    assert JobSound(db, pick);
    if after != db {
      var mid := if id in db.spawns then db.Touch(id, now)
                 else db.(spawns := db.spawns[id := Spawn(pick, agent, db.CountRows(pick), now, RUNNING)]);
      UpdateKeepsSound(db, db.Touch(id, now));
      UpdateKeepsSound(mid, after);
      PollQuiet(db, mid, pick, id);
    }
  }

  /** Touching or adding one row of an open job and promoting it. */
  lemma PollQuiet(db: Db, mid: Db, pick: JobId, id: SpawnId)
    requires Quiet(db) && pick in db.jobs && db.jobs[pick].status.Open() && mid.jobs == db.jobs
    requires id in mid.spawns
    requires forall r | r in mid.spawns && r != id :: r in db.spawns && mid.spawns[r] == db.spawns[r]
    requires if id in db.spawns
      then mid.spawns[id].job == db.spawns[id].job && mid.spawns[id].status == db.spawns[id].status
      else mid.spawns[id].job == pick
    ensures Quiet(mid.Promote(pick))
  {
    forall j ensures JobQuiet(mid.Promote(pick), j) {
      assert JobQuiet(db, j);
      assert j != pick || id in db.spawns ==> mid.RowsOf(j) <= db.RowsOf(j) && mid.RunningOf(j) <= db.RunningOf(j);
      assert mid.Promote(pick).RowsOf(j) == mid.RowsOf(j) && mid.Promote(pick).RunningOf(j) == mid.RunningOf(j);
    }
  }

  lemma StartKeeps(db: Db, e: Event)
    requires Sound(db) && Quiet(db) && e.OnStart?
    ensures Sound(Apply(db, e)) && Quiet(Apply(db, e))
  {
    if Apply(db, e) != db {
      var job := NewJob(e.req, e.cap, e.now, e.createdAt);
      InsertJobSound(db, e.newId, job);
      NoRowsWithoutJob(db, e.newId);
      forall j ensures JobQuiet(Apply(db, e), j) {
        assert JobQuiet(db, j);
        assert Apply(db, e).RowsOf(j) == db.RowsOf(j) && Apply(db, e).RunningOf(j) == db.RunningOf(j);
      }
    }
  }

  lemma UpdateEventKeeps(db: Db, e: Event)
    requires Sound(db) && Quiet(db) && !e.OnStart? && !e.OnPoll?
    ensures Sound(Apply(db, e)) && Quiet(Apply(db, e)) && Updates(db, Apply(db, e))
  {
    var after := Apply(db, e);
    match e {
      case OnMetrics(now, spawn) =>
      case OnComplete(now, job, spawn, error) => CompleteUpdates(db, job, spawn, error);
      case OnStop(now, job) => StopUpdates(db, job, now);
      case OnReap(now) => SweepUpdates(db, now); SweepSwept(db, now);
    }
    UpdateKeepsSound(db, after);
    forall j ensures ClosesQuietly(db, after, j) {
      if e.OnComplete? {
      } else if e.OnReap? {
        SweepCloses(db, after, e.now, j);
      }
    }
    UpdateKeepsQuiet(db, after);
  }

  /** Every reachable state is sound and quiet. */
  lemma {:induction false} RunKeeps(run: seq<Event>)
    ensures Sound(After(run)) && Quiet(After(run))
  {
    if run == [] {
      assert forall j :: JobSound(After([]), j);
    } else {
      var db, e := After(run[..|run| - 1]), run[|run| - 1];
      RunKeeps(run[..|run| - 1]);
      if e.OnStart? {
        StartKeeps(db, e);
      } else if e.OnPoll? {
        if db.OldestOpen(e.pick) {
          PollKeeps(db, e.pick, e.agent, e.now);
        }
      } else {
        UpdateEventKeeps(db, e);
      }
    }
  }

  /** No poll of any run ever hit the unique index. */
  lemma NoPollRejected(run: seq<Event>, k: nat)
    requires k < |run| && run[k].OnPoll?
    ensures !PollAnswer(After(run[..k]), run[k]).Failed?
  {
    RunKeeps(run[..k]);
    if After(run[..k]).OldestOpen(run[k].pick) {
      PollKeeps(After(run[..k]), run[k].pick, run[k].agent, run[k].now);
    }
  }
}
