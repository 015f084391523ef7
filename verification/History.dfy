/**
 Statements about whole runs of requests: labels against the claim history, the deadline of a
 job, and the staleness rule against the heartbeat history.
 */
module History {
  import opened Tables
  import opened Handlers
  import opened Invariants
  import opened Reaper
  import opened Lifecycle

  /** Event k of the run answered some agent with a slot of the job. */
  predicate HandsOut(run: seq<Event>, k: nat, job: JobId) {
    k < |run| && run[k].OnPoll? &&
    var resp := PollAnswer(After(run[..k]), run[k]);
    resp.Run? && resp.order.job == job
  }

  ghost predicate Handed(run: seq<Event>, job: JobId) {
    exists k: nat :: HandsOut(run, k, job)
  }

  // ---- the expiry label ----

  lemma EventRows(db: Db, e: Event, job: JobId)
    requires Sound(db) && Quiet(db)
    ensures Apply(db, e).RowsOf(job) != {} <==>
      db.RowsOf(job) != {} || (e.OnPoll? && PollAnswer(db, e).Run? && PollAnswer(db, e).order.job == job)
  {
    var after := Apply(db, e);
    if e.OnStart? {
      assert after.RowsOf(job) == db.RowsOf(job);
    } else if e.OnPoll? {
      PollRows(db, e, job);
    } else {
      UpdateEventKeeps(db, e);
      UpdateKeepsRows(db, after, job);
    }
  }

  /** An answered poll leaves one row more at most, the agent's own, in the job it was read for. */
  lemma PollRow(db: Db, e: Event)
    requires Sound(db) && e.OnPoll? && PollAnswer(db, e).Run?
    ensures var after, id := Apply(db, e), SpawnIdOf(e.pick, e.agent);
      && PollAnswer(db, e).order.job == e.pick
      && id in after.spawns && after.spawns[id].job == e.pick
      && forall r | r != id ::
           (r in after.spawns <==> r in db.spawns) && (r in db.spawns ==> after.spawns[r] == db.spawns[r])
    ensures SpawnIdOf(e.pick, e.agent) in db.spawns ==> db.spawns[SpawnIdOf(e.pick, e.agent)].job == e.pick
  {
    var id := SpawnIdOf(e.pick, e.agent);
    if id in db.spawns {
      assert RowSound(db, id) && JobSound(db, e.pick) && JobSound(db, db.spawns[id].job);
      SpawnIdInjective(e.pick, e.agent, db.spawns[id].job, db.spawns[id].agent);
    }
  }

  lemma PollRows(db: Db, e: Event, job: JobId)
    requires Sound(db) && e.OnPoll?
    ensures Apply(db, e).RowsOf(job) != {} <==>
      db.RowsOf(job) != {} || (PollAnswer(db, e).Run? && PollAnswer(db, e).order.job == job)
  {
    var after, id := Apply(db, e), SpawnIdOf(e.pick, e.agent);
    if PollAnswer(db, e).Run? {
      PollRow(db, e);
      assert forall r | r != id :: r in after.RowsOf(job) <==> r in db.RowsOf(job);
      assert id in after.RowsOf(job) <==> job == e.pick;
      assert id in db.RowsOf(job) ==> job == e.pick;
    } else {
      assert after == db;
    }
  }

  lemma HandedPrefix(run: seq<Event>, job: JobId)
    requires run != []
    ensures Handed(run, job) <==> Handed(run[..|run| - 1], job) || HandsOut(run, |run| - 1, job)
  {
    var k := |run| - 1;
    var init := run[..k];
    forall i: nat | i < k ensures HandsOut(init, i, job) <==> HandsOut(run, i, job) {
      assert init[..i] == run[..i];
    }
    if Handed(run, job) {
      var i: nat :| HandsOut(run, i, job);
      assert i < k ==> HandsOut(init, i, job);
    }
  }

  lemma {:induction false} RowsIffHanded(run: seq<Event>, job: JobId)
    ensures After(run).RowsOf(job) != {} <==> Handed(run, job)
  {
    if run != [] {
      var k := |run| - 1;
      var init := run[..k];
      RowsIffHanded(init, job);
      RunKeeps(init);
      EventRows(After(init), run[k], job);
      HandedPrefix(run, job);
    }
  }

  /**
   When the expiry rule closes a job, the label is FAILED exactly when no agent was handed a
   slot in the whole history of the run, and COMPLETED otherwise.
   */
  lemma ExpiryLabelTellsHistory(run: seq<Event>, job: JobId, t: int)
    requires ExpiredAt(After(run), job, t)
    ensures job in Apply(After(run), OnReap(t)).jobs
    ensures Apply(After(run), OnReap(t)).jobs[job].status == if Handed(run, job) then COMPLETED else FAILED
  {
    SweepSwept(After(run), t);
    assert JobSwept(After(run), Sweep(After(run), t), t, job);
    RowsIffHanded(run, job);
    assert After(run).RowsOf(job) == {} <==> After(run).CountRows(job) == 0;
  }

  // ---- the deadline of a job ----

  /** Event k asked to stop the job once it existed. */
  predicate StopsAt(run: seq<Event>, k: nat, job: JobId) {
    k < |run| && run[k].OnStop? && run[k].job == job && job in After(run[..k]).jobs
  }

  /** The time of the last stop request for the job, or `plan` if there was none. */
  function EffectiveStop(run: seq<Event>, job: JobId, plan: int): int {
    if run == [] then plan
    else if StopsAt(run, |run| - 1, job) then run[|run| - 1].now
    else EffectiveStop(run[..|run| - 1], job, plan)
  }

  lemma EventStop(db: Db, e: Event, job: JobId)
    requires Sound(db) && Quiet(db) && job in db.jobs
    ensures var b := Apply(db, e);
      && job in b.jobs && b.jobs[job].PlannedStop() == db.jobs[job].PlannedStop()
      && (b.jobs[job].status.Active() ==>
            db.jobs[job].status.Active() &&
            b.jobs[job].stopAt == if e.OnStop? && e.job == job then e.now else db.jobs[job].stopAt)
  {
    var b := Apply(db, e);
    if e.OnReap? {
      SweepSwept(db, e.now);
      assert JobSwept(db, b, e.now, job);
    } else if e.OnPoll? {
    } else if e.OnStart? {
    } else {
      UpdateEventKeeps(db, e);
      assert JobEvolves(db, b, job);
    }
  }

  lemma {:induction false} NoStopYet(run: seq<Event>, job: JobId, plan: int)
    requires job !in After(run).jobs
    ensures EffectiveStop(run, job, plan) == plan
  {
    if run != [] {
      var init, e := run[..|run| - 1], run[|run| - 1];
      RunKeeps(init);
      if job in After(init).jobs {
        EventStop(After(init), e, job);
      }
      NoStopYet(init, job, plan);
    }
  }

  /** STOP_AT of an active job is its last stop request, or the planned end of its window. */
  lemma {:induction false} StopAtIsEffective(run: seq<Event>, job: JobId)
    requires job in After(run).jobs && After(run).jobs[job].status.Active()
    ensures After(run).jobs[job].stopAt == EffectiveStop(run, job, After(run).jobs[job].PlannedStop())
  {
    if run != [] {
      var init, e := run[..|run| - 1], run[|run| - 1];
      var db := After(init);
      RunKeeps(init);
      if job in db.jobs {
        EventStop(db, e, job);
        StopAtIsEffective(init, job);
      } else {
        NoStopYet(init, job, After(run).jobs[job].PlannedStop());
      }
    }
  }

  lemma {:induction false} StopWithinWindow(run: seq<Event>, job: JobId, plan: int)
    requires forall k: nat | StopsAt(run, k, job) :: run[k].now <= plan
    ensures EffectiveStop(run, job, plan) <= plan
  {
    if run != [] {
      var init := run[..|run| - 1];
      if !StopsAt(run, |run| - 1, job) {
        forall k: nat | StopsAt(init, k, job) ensures init[k].now <= plan {
          assert init[..k] == run[..k];
          assert StopsAt(run, k, job);
        }
        StopWithinWindow(init, job, plan);
      }
    }
  }

  /** A sweep expires an active job exactly when its effective stop is over the grace period old. */
  lemma ExpiresIff(run: seq<Event>, job: JobId, t: int)
    requires job in After(run).jobs && After(run).jobs[job].status.Active()
    ensures ExpiredAt(After(run), job, t) <==>
      EffectiveStop(run, job, After(run).jobs[job].PlannedStop()) + 30_000 < t
  {
    StopAtIsEffective(run, job);
  }

  /**
   If no stop request came after the job's original window, the first sweep beyond
   START_AT + DURATION minutes + 30 s leaves the job terminal.
   */
  lemma FirstSweepAfterWindow(run: seq<Event>, job: JobId, t: int)
    requires job in After(run).jobs
    requires forall k: nat | StopsAt(run, k, job) :: run[k].now <= After(run).jobs[job].PlannedStop()
    requires After(run).jobs[job].PlannedStop() + 30_000 < t
    ensures job in Apply(After(run), OnReap(t)).jobs
    ensures Apply(After(run), OnReap(t)).jobs[job].status.Terminal()
  {
    SweepSwept(After(run), t);
    assert JobSwept(After(run), Sweep(After(run), t), t, job);
    if After(run).jobs[job].status.Active() {
      ExpiresIff(run, job, t);
      StopWithinWindow(run, job, After(run).jobs[job].PlannedStop());
    }
  }

  /** A job that is still QUEUED fails at the first sweep 300 s past its start or 30 s past its planned end. */
  lemma QueuedFailsIff(run: seq<Event>, job: JobId, t: int)
    requires job in After(run).jobs && After(run).jobs[job].status == QUEUED
    ensures job in Apply(After(run), OnReap(t)).jobs
    ensures var j := After(run).jobs[job];
      Apply(After(run), OnReap(t)).jobs[job].status ==
        if j.startAt + 300_000 < t || j.startAt + j.duration * 60_000 + 30_000 < t then FAILED else QUEUED
  {
    RunKeeps(run);
    SweepSwept(After(run), t);
    assert JobSwept(After(run), Sweep(After(run), t), t, job);
    assert JobSound(After(run), job) && JobQuiet(After(run), job);
  }

  // ---- heartbeats ----

  /** Event k refreshed the spawn: its claim, a re-poll that got its slot back, or a report. */
  predicate Contacts(run: seq<Event>, k: nat, spawn: SpawnId) {
    k < |run| &&
    match run[k]
    case OnPoll(_, _, _) =>
      var resp := PollAnswer(After(run[..k]), run[k]);
      resp.Run? && resp.order.spawn == spawn
    case OnMetrics(_, s) => s == spawn && spawn in After(run[..k]).spawns
    case _ => false
  }

  /** The time of the last contact, if there was any. */
  function LastContact(run: seq<Event>, spawn: SpawnId): Option<int> {
    if run == [] then None
    else if Contacts(run, |run| - 1, spawn) then Some(run[|run| - 1].now)
    else LastContact(run[..|run| - 1], spawn)
  }

  predicate ContactsNow(db: Db, e: Event, id: SpawnId) {
    || (e.OnPoll? && PollAnswer(db, e).Run? && PollAnswer(db, e).order.spawn == id)
    || (e.OnMetrics? && e.spawn == id && id in db.spawns)
  }

  ghost predicate SeenAfter(db: Db, e: Event, id: SpawnId) {
    var b := Apply(db, e);
    && (id in b.spawns <==> id in db.spawns || ContactsNow(db, e, id))
    && (id in b.spawns ==>
          b.spawns[id].lastSeen == if ContactsNow(db, e, id) then e.now else db.spawns[id].lastSeen)
  }

  lemma ReportSeen(db: Db, e: Event, id: SpawnId)
    requires e.OnStart? || e.OnMetrics? || e.OnStop? || e.OnComplete?
    ensures SeenAfter(db, e, id)
  {
  }

  lemma EventSeen(db: Db, e: Event, id: SpawnId)
    ensures SeenAfter(db, e, id)
  {
    if e.OnReap? {
      SweepSwept(db, e.now);
      assert RowSwept(db, Sweep(db, e.now), e.now, id);
    } else if !e.OnPoll? {
      ReportSeen(db, e, id);
    }
  }

  /** LAST_SEEN is the last contact in the run. */
  lemma {:induction false} LastSeenIsLastContact(run: seq<Event>, id: SpawnId)
    ensures id in After(run).spawns <==> LastContact(run, id).Some?
    ensures id in After(run).spawns ==> After(run).spawns[id].lastSeen == LastContact(run, id).value
  {
    if run != [] {
      var init, e := run[..|run| - 1], run[|run| - 1];
      LastSeenIsLastContact(init, id);
      EventSeen(After(init), e, id);
    }
  }

  /** The staleness rule fails a RUNNING spawn exactly when its last contact is over 90 s old. */
  lemma StaleIff(run: seq<Event>, id: SpawnId, t: int)
    requires id in After(run).RunningSpawns()
    ensures LastContact(run, id).Some?
    ensures id in After(run).StaleSpawns(t - SPAWN_STALE_AFTER_MS) <==>
      t - LastContact(run, id).value > 90_000
  {
    LastSeenIsLastContact(run, id);
  }

  ghost predicate ClockOrdered(run: seq<Event>) {
    forall i, k :: 0 <= i < k < |run| ==> run[i].now <= run[k].now
  }

  /** Every contact after the claim comes within 90 s of the one before it. */
  ghost predicate Steady(run: seq<Event>, id: SpawnId) {
    forall k: nat | Contacts(run, k, id) && LastContact(run[..k], id).Some? ::
      run[k].now - LastContact(run[..k], id).value <= 90_000
  }

  lemma {:induction false} SilentStretch(run: seq<Event>, id: SpawnId, k: nat, m: nat)
    requires k <= m <= |run| && forall i: nat | k <= i < m :: !Contacts(run, i, id)
    ensures LastContact(run[..m], id) == LastContact(run[..k], id)
    decreases m
  {
    if k < m {
      SilentStretch(run, id, k, m - 1);
      assert run[..m][..m - 1] == run[..m - 1];
      assert !Contacts(run, m - 1, id);
    }
  }

  lemma {:induction false} NextContact(run: seq<Event>, id: SpawnId, k: nat, m: nat) returns (n: nat)
    requires k <= m < |run| && Contacts(run, m, id)
    ensures k <= n <= m && Contacts(run, n, id) && forall i: nat | k <= i < n :: !Contacts(run, i, id)
    decreases m - k
  {
    if Contacts(run, k, id) {
      n := k;
    } else {
      n := NextContact(run, id, k + 1, m);
    }
  }

  /**
   With an ordered clock, a spawn whose contacts are never more than 90 s apart is spared by the
   staleness rule of every sweep between its claim and its last contact.
   */
  lemma SteadyNeverStale(run: seq<Event>, id: SpawnId, k: nat, last: nat)
    requires ClockOrdered(run) && Steady(run, id)
    requires k < last < |run| && Contacts(run, last, id) && run[k].OnReap?
    ensures id !in After(run[..k]).StaleSpawns(run[k].now - SPAWN_STALE_AFTER_MS)
  {
    if id in After(run[..k]).RunningSpawns() {
      StaleIff(run[..k], id, run[k].now);
      assert !Contacts(run, k, id);
      var n := NextContact(run, id, k + 1, last);
      SilentStretch(run, id, k, n);
      assert run[k].now <= run[n].now;
    }
  }

  // ---- a label that depends on a missed tick ----

  const SMALL := StartRequest(1.0, 1.0, None, 1.0, None, false)
  const SMALL_ID: JobId := "000000000000000000000000000000000000"

  lemma StartedThenStopped(run: seq<Event>)
    requires run == [OnStart(0, SMALL, None, SMALL_ID, 0), OnStop(1, SMALL_ID)]
    ensures After(run) == STOPPED_AT_1
  {
    assert run[..1] == [run[0]] && run[..1][..0] == [];
    assert After(run[..1]) == Apply(After([]), run[0]);
    assert Validate(SMALL, None).None?;
  }

  /** A job stopped at 1 that no agent joined. */
  const STOPPED_AT_1: Db := Db(map[SMALL_ID := Job(1, 1, 512, 1, 30_000, 1, false, 0, STOPPING)], map[])

  lemma LabelOf(t: int)
    ensures SMALL_ID in Sweep(STOPPED_AT_1, t).jobs
    ensures Sweep(STOPPED_AT_1, t).jobs[SMALL_ID].status == if 1 < t - JOB_FINALISE_GRACE_MS then FAILED else STOPPED
  {
    assert STOPPED_AT_1.RowsOf(SMALL_ID) == {};
    SweepJob(STOPPED_AT_1, t, SMALL_ID);
  }

  lemma LabelAfterBoth()
    ensures SMALL_ID in Sweep(Sweep(STOPPED_AT_1, 2), 40_000).jobs
    ensures Sweep(Sweep(STOPPED_AT_1, 2), 40_000).jobs[SMALL_ID].status == STOPPED
  {
    LabelOf(2);
    SweepJob(Sweep(STOPPED_AT_1, 2), 40_000, SMALL_ID);
  }

  lemma ClosedEarlyHere()
    ensures ClosedEarly(STOPPED_AT_1, SMALL_ID, 2, 40_000)
  {
  }

  lemma SweptAfter(run: seq<Event>, t: int)
    ensures After(run + [OnReap(t)]) == Sweep(After(run), t)
  {
  }

  /**
   A job is started, stopped before any agent came, and swept: a tick at 2 labels it STOPPED and the
   tick at 40 000 keeps that; had the first been missed, the second would label it FAILED.
   */
  lemma LabelsDifferOnRun() returns (run: seq<Event>, job: JobId)
    ensures job in After(run).jobs && ClosedEarly(After(run), job, 2, 40_000)
    ensures var both, once := After(run + [OnReap(2)] + [OnReap(40_000)]), After(run + [OnReap(40_000)]);
      && job in both.jobs && job in once.jobs
      && both.jobs[job].status == STOPPED && once.jobs[job].status == FAILED
  {
    run, job := [OnStart(0, SMALL, None, SMALL_ID, 0), OnStop(1, SMALL_ID)], SMALL_ID;
    StartedThenStopped(run);
    ClosedEarlyHere();
    SweptAfter(run, 2);
    SweptAfter(run + [OnReap(2)], 40_000);
    SweptAfter(run, 40_000);
    LabelAfterBoth();
    LabelOf(40_000);
  }
}
