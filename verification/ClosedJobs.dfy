/**
 Closed jobs under statement interleavings. With whole requests a COMPLETED or STOPPED job never has
 a RUNNING row (`Lifecycle`); statement by statement it can get one, in exactly two ways.
 */
module ClosedJobs {
  import opened Tables
  import opened Handlers
  import opened Interleavings
  import opened SingleJob

  predicate Closed(db: Db, j: JobId) {
    j in db.jobs && (db.jobs[j].status == COMPLETED || db.jobs[j].status == STOPPED)
  }

  /** A closed job has no RUNNING row. */
  ghost predicate ClosedQuiet(db: Db, j: JobId) {
    Closed(db, j) ==> db.RunningOf(j) == {}
  }

  ghost predicate AllQuiet(db: Db) {
    forall j :: ClosedQuiet(db, j)
  }

  /**
   The statements whose guard is too old: a slot INSERT whose job has closed since it was read, and a
   completion that closes a job some agent joined after the last count. (That no row holds the next
   slot is always so in a reachable state.)
   */
  predicate ActsLate(db: Db, proc: Proc) {
    match proc
    case PollClaim(p) =>
      && Closed(db, p.jobId)
      && p.SpawnId() !in db.spawns && db.CountRows(p.jobId) < p.job.agents
      && (forall r :: r in db.RowsOf(p.jobId) ==> db.spawns[r].slot != db.CountRows(p.jobId))
    case CompleteClose(job, stopping) =>
      job in db.jobs && db.jobs[job].status.Active() && db.CountRunning(job) > 0
    case _ => false
  }

  lemma ClaimLate(db: Db, p: Snap, i: Input)
    requires AllQuiet(db)
    ensures AllQuiet(RunProc(db, PollClaim(p), i).db) <==> !ActsLate(db, PollClaim(p))
  {
    var after := RunProc(db, PollClaim(p), i).db;
    if db.Claim(p.SpawnId(), p.jobId, p.agent, p.now, p.job.agents).Inserted? {
      assert p.SpawnId() in after.RunningOf(p.jobId);
      assert ClosedQuiet(after, p.jobId) <==> !Closed(db, p.jobId);
      forall j | j != p.jobId ensures ClosedQuiet(after, j) {
        assert ClosedQuiet(db, j) && after.RunningOf(j) == db.RunningOf(j);
      }
    }
  }

  lemma CloseLate(db: Db, job: JobId, stopping: bool, i: Input)
    requires AllQuiet(db)
    ensures AllQuiet(RunProc(db, CompleteClose(job, stopping), i).db) <==> !ActsLate(db, CompleteClose(job, stopping))
  {
    var after := RunProc(db, CompleteClose(job, stopping), i).db;
    forall j ensures after.RunningOf(j) == db.RunningOf(j) {
    }
    assert ClosedQuiet(after, job) <==> !ActsLate(db, CompleteClose(job, stopping)) by {
      assert ClosedQuiet(db, job);
    }
    forall j | j != job ensures ClosedQuiet(after, j) {
      assert ClosedQuiet(db, j);
    }
  }

  /** A statement that wakes no row and closes no job with a RUNNING one. */
  ghost predicate Calm(a: Db, b: Db, j: JobId) {
    && b.RunningOf(j) <= a.RunningOf(j)
    && (Closed(b, j) ==> Closed(a, j) || b.RunningOf(j) == {})
  }

  lemma ReapStatementCalm(db: Db, proc: Proc, i: Input, j: JobId)
    requires proc.ReapStale? || proc.ReapClose? || proc.ReapOrphans? || proc.ReapStopping?
    ensures Calm(db, RunProc(db, proc, i).db, j)
  {
  }

  lemma StatementCalm(db: Db, proc: Proc, i: Input, j: JobId)
    requires !proc.PollClaim? && !proc.CompleteClose?
    ensures Calm(db, RunProc(db, proc, i).db, j)
  {
    if proc.ReapStale? || proc.ReapClose? || proc.ReapOrphans? || proc.ReapStopping? {
      ReapStatementCalm(db, proc, i, j);
    }
  }

  /** A statement leaves every closed job without RUNNING rows exactly when it does not act late. */
  lemma StatementKeepsQuietIff(db: Db, proc: Proc, i: Input)
    requires AllQuiet(db)
    ensures AllQuiet(RunProc(db, proc, i).db) <==> !ActsLate(db, proc)
  {
    match proc
    case PollClaim(p) => ClaimLate(db, p, i);
    case CompleteClose(job, stopping) => CloseLate(db, job, stopping, i);
    case _ =>
      forall j ensures ClosedQuiet(RunProc(db, proc, i).db, j) {
        assert ClosedQuiet(db, j);
        StatementCalm(db, proc, i, j);
      }
  }

  /** No statement of the run acts late. */
  ghost predicate Timely(s: Sys, run: seq<Action>)
    decreases |run|
  {
    run == [] ||
    (&& (run[0].Step? && run[0].pid in s.procs ==> !ActsLate(s.db, s.procs[run[0].pid]))
     && Timely(Next(s, run[0]), run[1..]))
  }

  /** Runs without late statements keep every closed job quiet, however they interleave. */
  lemma {:induction false} TimelyRunsStayQuiet(s: Sys, run: seq<Action>)
    requires AllQuiet(s.db) && Timely(s, run)
    ensures AllQuiet(Exec(s, run).db)
    decreases |run|
  {
    if run != [] {
      if run[0].Step? && run[0].pid in s.procs {
        StatementKeepsQuietIff(s.db, s.procs[run[0].pid], run[0].input);
      }
      TimelyRunsStayQuiet(Next(s, run[0]), run[1..]);
    }
  }

  // ---- a late claim ----

  const AGENT: AgentId := "vm"
  const JOB := Job(1, 1, 512, 1, 30_000, 90_000, false, 0, QUEUED)
  const PICK := Input(0, FIRST_ID, FIRST_ID, 0)
  const HELD := Snap(AGENT, FIRST_ID, JOB, 0)
  const STOPPING_JOB := Job(1, 1, 512, 1, 30_000, 0, false, 0, STOPPING)
  const STOPPED_JOB := Job(1, 1, 512, 1, 30_000, 0, false, 0, STOPPED)

  function WithJob(job: Job, procs: map<nat, Proc>): Sys {
    Sys(Db(map[FIRST_ID := job], map[]), procs, [], false)
  }

  const STARTING := [Begin(0, CHECK), Step(0, FIRST), Step(0, FIRST)]
  const POLLING := [Begin(1, PollSelect(AGENT)), Step(1, PICK), Step(1, PICK)]
  const STOPS := [Begin(2, StopUpdate(FIRST_ID)), Step(2, FIRST)]
  const SWEEPING := [Begin(3, ReapStale), Step(3, FIRST)]
  const SWEEPING_ON := [Step(3, FIRST), Step(3, FIRST)]
  const CLAIMING := [Step(1, FIRST)]

  lemma Three(s: Sys, a: Action, b: Action, c: Action)
    ensures Exec(s, [a, b, c]) == Next(Next(Next(s, a), b), c)
  {
    assert [a, b, c][1..] == [b, c];
    Two(Next(s, a), b, c);
  }

  lemma Two(s: Sys, a: Action, b: Action)
    ensures Exec(s, [a, b]) == Next(Next(s, a), b)
  {
    TwoSteps(s, [a, b]);
  }

  lemma InsertLands()
    ensures Next(EMPTY.(procs := map[0 := INSERT]), Step(0, FIRST)) == WithJob(JOB, map[0 := Done])
  {
    assert Validate(SMALL_JOB, None).None?;
  }

  lemma JobStarts()
    ensures Exec(EMPTY, STARTING) == WithJob(JOB, map[0 := Done])
  {
    Three(EMPTY, Begin(0, CHECK), Step(0, FIRST), Step(0, FIRST));
    InsertLands();
  }

  /** A poll reads the job and pauses before its claim. */
  lemma PollPauses()
    ensures Exec(WithJob(JOB, map[0 := Done]), POLLING) == WithJob(JOB, map[0 := Done, 1 := PollClaim(HELD)])
  {
    var s := WithJob(JOB, map[0 := Done]);
    Three(s, Begin(1, PollSelect(AGENT)), Step(1, PICK), Step(1, PICK));
    assert FIRST_ID in s.db.jobs && s.db.OldestOpen(FIRST_ID);
    assert Next(Next(s, Begin(1, PollSelect(AGENT))), Step(1, PICK))
        == WithJob(JOB, map[0 := Done, 1 := PollExisting(HELD)]);
  }

  /** The operator stops the job. */
  lemma StopArrives()
    ensures Exec(WithJob(JOB, map[0 := Done, 1 := PollClaim(HELD)]), STOPS)
         == WithJob(STOPPING_JOB, map[0 := Done, 1 := PollClaim(HELD), 2 := Done])
  {
    Two(WithJob(JOB, map[0 := Done, 1 := PollClaim(HELD)]), Begin(2, StopUpdate(FIRST_ID)), Step(2, FIRST));
  }

  /** A sweep finds nothing stale, expired or abandoned... */
  lemma SweepStarts(procs: map<nat, Proc>)
    requires 3 !in procs
    ensures Exec(WithJob(STOPPING_JOB, procs), SWEEPING) == WithJob(STOPPING_JOB, procs[3 := ReapExpired(0)])
  {
    var s := WithJob(STOPPING_JOB, procs);
    Two(s, Begin(3, ReapStale), Step(3, FIRST));
    assert s.db.FailStale(-SPAWN_STALE_AFTER_MS) == s.db;
  }

  lemma NothingExpired(procs: map<nat, Proc>)
    ensures Exec(WithJob(STOPPING_JOB, procs[3 := ReapExpired(0)]), SWEEPING_ON)
         == WithJob(STOPPING_JOB, procs[3 := ReapOrphans(0)])
  {
    var s := WithJob(STOPPING_JOB, procs[3 := ReapExpired(0)]);
    Two(s, Step(3, FIRST), Step(3, FIRST));
    assert s.db.Expired(-JOB_FINALISE_GRACE_MS) == {};
  }

  lemma NothingAbandoned(procs: map<nat, Proc>)
    ensures Next(WithJob(STOPPING_JOB, procs[3 := ReapOrphans(0)]), Step(3, FIRST))
         == WithJob(STOPPING_JOB, procs[3 := ReapStopping])
  {
    var s := WithJob(STOPPING_JOB, procs[3 := ReapOrphans(0)]);
    assert s.db.FailOrphans(-QUEUED_WITHOUT_AGENTS_TIMEOUT_MS) == s.db;
  }

  /** ...sees no agent on the stopping job, and closes it as STOPPED. */
  lemma SweepCloses(procs: map<nat, Proc>)
    ensures Exec(WithJob(STOPPING_JOB, procs[3 := ReapOrphans(0)]), SWEEPING_ON)
         == WithJob(STOPPED_JOB, procs[3 := Done])
  {
    Two(WithJob(STOPPING_JOB, procs[3 := ReapOrphans(0)]), Step(3, FIRST), Step(3, FIRST));
    NothingAbandoned(procs);
    assert WithJob(STOPPING_JOB, procs).db.RunningOf(FIRST_ID) == {};
  }

  /** The paused poll then claims slot 0 of the STOPPED job. */
  lemma ClaimLands(procs: map<nat, Proc>)
    requires 1 in procs && procs[1] == PollClaim(HELD)
    ensures !AllQuiet(Exec(WithJob(STOPPED_JOB, procs), CLAIMING).db)
  {
    var s := WithJob(STOPPED_JOB, procs);
    assert CLAIMING[1..] == [];
    assert Exec(s, CLAIMING) == Next(s, Step(1, FIRST));
    assert s.db.RowsOf(FIRST_ID) == {};
    var after := Next(s, Step(1, FIRST)).db;
    assert HELD.SpawnId() in after.RunningOf(FIRST_ID);
    assert !ClosedQuiet(after, FIRST_ID);
  }

  lemma SweepToClaim(procs: map<nat, Proc>)
    requires 3 !in procs && 1 in procs && procs[1] == PollClaim(HELD)
    ensures !AllQuiet(Exec(WithJob(STOPPING_JOB, procs), SWEEPING + (SWEEPING_ON + (SWEEPING_ON + CLAIMING))).db)
  {
    SweepStarts(procs);
    NothingExpired(procs);
    SweepCloses(procs);
    ClaimLands(procs[3 := Done]);
    ExecSplit(WithJob(STOPPING_JOB, procs), SWEEPING, SWEEPING_ON + (SWEEPING_ON + CLAIMING));
    ExecSplit(WithJob(STOPPING_JOB, procs[3 := ReapExpired(0)]), SWEEPING_ON, SWEEPING_ON + CLAIMING);
    ExecSplit(WithJob(STOPPING_JOB, procs[3 := ReapOrphans(0)]), SWEEPING_ON, CLAIMING);
  }

  /** From empty tables, a RUNNING row in a STOPPED job. */
  lemma LateClaimHappens() returns (run: seq<Action>)
    ensures !AllQuiet(Exec(EMPTY, run).db)
  {
    var tail := SWEEPING + (SWEEPING_ON + (SWEEPING_ON + CLAIMING));
    run := STARTING + (POLLING + (STOPS + tail));
    JobStarts();
    PollPauses();
    StopArrives();
    SweepToClaim(map[0 := Done, 1 := PollClaim(HELD), 2 := Done]);
    ExecSplit(EMPTY, STARTING, POLLING + (STOPS + tail));
    ExecSplit(WithJob(JOB, map[0 := Done]), POLLING, STOPS + tail);
    ExecSplit(WithJob(JOB, map[0 := Done, 1 := PollClaim(HELD)]), STOPS, tail);
  }
}
