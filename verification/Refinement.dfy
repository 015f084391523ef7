/**
 The two granularities agree: a handler whose statements run with nothing in between does what
 `Handlers` says of the whole request.
 */
module Refinement {
  import opened Sums
  import opened Tables
  import opened Handlers
  import opened Interleavings

  /** Statements of one handler, one per input, with no other handler in between. */
  function Alone(db: Db, proc: Proc, inputs: seq<Input>): Effect
    decreases |inputs|
  {
    if inputs == [] then Goto(db, proc)
    else
      var e := RunProc(db, proc, inputs[0]);
      if |inputs| == 1 || e.next.Done? then e else Alone(e.db, e.next, inputs[1..])
  }

  /** The same, for handlers whose statements all see one clock reading and make one choice. */
  function Repeat(db: Db, proc: Proc, i: Input, n: nat): Effect
    decreases n
  {
    if n == 0 then Goto(db, proc)
    else
      var e := RunProc(db, proc, i);
      if e.next.Done? then e else Repeat(e.db, e.next, i, n - 1)
  }

  function PickOf(db: Db, i: Input): Option<JobId> {
    if db.NoOpenJob() then None else Some(i.pick)
  }

  /** The effect of a finished poll is the response. */
  predicate Answers(e: Effect, resp: PollResponse) {
    && e.next.Done?
    && e.rejected == resp.Failed?
    && e.answer == (if resp.Run? then Some(resp.order) else None)
  }

  lemma ClaimAlone(db: Db, p: Snap, i: Input)
    requires p.jobId in db.jobs && p.job == db.jobs[p.jobId] && p.SpawnId() !in db.spawns
    requires p.agent != "" && p.now < p.job.stopAt
    ensures var (after, resp) := Poll(db, Some(p.jobId), p.agent, p.now);
      Repeat(db, PollClaim(p), i, 3).db == after && Answers(Repeat(db, PollClaim(p), i, 3), resp)
  {
    var e := RunProc(db, PollClaim(p), i);
    if !e.next.Done? {
      assert Repeat(db, PollClaim(p), i, 3) == Repeat(e.db, PollReadBack(p), i, 2);
      if p.SpawnId() in e.db.spawns {
        assert Repeat(e.db, PollReadBack(p), i, 2)
            == Repeat(e.db, PollPromote(p, e.db.spawns[p.SpawnId()].slot), i, 1);
      }
    }
  }

  /** At most five statements and the poll has its answer, the one Poll computes. */
  lemma PollAlone(db: Db, agent: AgentId, i: Input)
    requires db.NoOpenJob() || db.OldestOpen(i.pick)
    ensures var (after, resp) := Poll(db, PickOf(db, i), agent, i.now);
      Repeat(db, PollSelect(agent), i, 5).db == after && Answers(Repeat(db, PollSelect(agent), i, 5), resp)
  {
    if agent != "" && !db.NoOpenJob() && i.now < db.jobs[i.pick].stopAt {
      var p := Snap(agent, i.pick, db.jobs[i.pick], i.now);
      assert Repeat(db, PollSelect(agent), i, 5) == Repeat(db, PollExisting(p), i, 4);
      if p.SpawnId() !in db.spawns {
        ClaimAlone(db, p, i);
      } else if db.spawns[p.SpawnId()].status == RUNNING {
      }
    }
  }

  lemma MarkAlone(db: Db, job: JobId, spawn: SpawnId, stopping: bool, i: Input)
    ensures var outcome := if stopping then STOPPED else COMPLETED;
      var marked := db.MarkSpawn(spawn, outcome);
      var e := Repeat(db, CompleteMark(job, spawn, stopping), i, 3);
      e.next.Done? &&
      e.db == if marked.CountRunning(job) != 0 then marked else marked.CloseJob(job, outcome)
  {
    var marked := db.MarkSpawn(spawn, if stopping then STOPPED else COMPLETED);
    assert Repeat(db, CompleteMark(job, spawn, stopping), i, 3)
        == Repeat(marked, CompleteCount(job, stopping), i, 2);
    if marked.CountRunning(job) == 0 {
      assert Repeat(marked, CompleteCount(job, stopping), i, 2)
          == Repeat(marked, CompleteClose(job, stopping), i, 1);
    }
  }

  lemma ReadStatement(db: Db, job: JobId, spawn: SpawnId, i: Input)
    ensures RunProc(db, CompleteRead(job, spawn), i) == Goto(db, CompleteMark(job, spawn,
      job in db.jobs && (db.jobs[job].status.STOPPING? || db.jobs[job].status.STOPPED?)))
  {
  }

  lemma RepeatHead(db: Db, proc: Proc, i: Input, n: nat)
    requires n > 0
    ensures var e := RunProc(db, proc, i);
      Repeat(db, proc, i, n) == if e.next.Done? then e else Repeat(e.db, e.next, i, n - 1)
  {
  }

  lemma CompleteAlone(db: Db, job: JobId, spawn: SpawnId, i: Input)
    ensures Repeat(db, CompleteRead(job, spawn), i, 4).next.Done?
    ensures Repeat(db, CompleteRead(job, spawn), i, 4).db == Complete(db, job, spawn, false)
    ensures Repeat(db, CompleteFail(job, spawn), i, 1).db == Complete(db, job, spawn, true)
  {
    var stopping := job in db.jobs && (db.jobs[job].status.STOPPING? || db.jobs[job].status.STOPPED?);
    ReadStatement(db, job, spawn, i);
    RepeatHead(db, CompleteRead(job, spawn), i, 4);
    MarkAlone(db, job, spawn, stopping, i);
  }

  lemma CheckStatement(db: Db, req: StartRequest, cap: Option<nat>, i: Input)
    ensures RunProc(db, StartCheck(req, cap), i)
      == Goto(db, if Validate(req, cap).Some? || db.ActiveJobs() != {} then Done else StartInsert(req, cap))
  {
  }

  lemma InsertStatement(db: Db, req: StartRequest, cap: Option<nat>, i: Input)
    requires |i.newId| == UUID_LENGTH && i.newId !in db.jobs && Validate(req, cap).None?
    ensures RunProc(db, StartInsert(req, cap), i)
      == Goto(db.InsertJob(i.newId, NewJob(req, cap, i.now, i.createdAt)), Done)
  {
  }

  lemma InsertShows(db: Db, id: JobId, job: Job)
    requires id !in db.jobs
    ensures db.InsertJob(id, job) != db
  {
    assert id in db.InsertJob(id, job).jobs;
  }

  /** A start request's check and insert, with a fresh id, are Start. */
  lemma StartAlone(db: Db, req: StartRequest, cap: Option<nat>, i: Input)
    requires |i.newId| == UUID_LENGTH && i.newId !in db.jobs
    ensures var e := Repeat(db, StartCheck(req, cap), i, 2);
      && e.next.Done? && e.db == Start(db, req, cap, i.now, i.newId, i.createdAt).0
      && (e.db != db <==> Start(db, req, cap, i.now, i.newId, i.createdAt).1.Accepted?)
  {
    CheckStatement(db, req, cap, i);
    if Validate(req, cap).None? && db.ActiveJobs() == {} {
      InsertStatement(db, req, cap, i);
      InsertShows(db, i.newId, NewJob(req, cap, i.now, i.createdAt));
    }
  }

  /** Reports and stop requests are one statement each. */
  lemma OneStatementAlone(db: Db, spawn: SpawnId, job: JobId, i: Input)
    ensures var report, stop := Repeat(db, MetricsUpdate(spawn), i, 1), Repeat(db, StopUpdate(job), i, 1);
      && report.next.Done? && report.db == db.Touch(spawn, i.now)
      && stop.next.Done? && stop.db == db.RequestStop(job, i.now)
  {
  }

  // ---- the sweep ----

  /** Rules 3 and 4. */
  function LastRules(db: Db, at: int): Db {
    db.FailOrphans(at - QUEUED_WITHOUT_AGENTS_TIMEOUT_MS).CloseQuietStopping()
  }

  /** If the handler has finished, these are the tables it left. */
  predicate Leaves(e: Effect, db: Db) {
    e.next.Done? ==> e.db == db
  }

  lemma AloneStep(db: Db, proc: Proc, inputs: seq<Input>)
    requires inputs != [] && !RunProc(db, proc, inputs[0]).next.Done?
    ensures |inputs| == 1 ==> !Alone(db, proc, inputs).next.Done?
    ensures |inputs| > 1 ==>
      Alone(db, proc, inputs) == Alone(RunProc(db, proc, inputs[0]).db, RunProc(db, proc, inputs[0]).next, inputs[1..])
  {
  }

  lemma OrphansStatement(db: Db, at: int, i: Input)
    ensures RunProc(db, ReapOrphans(at), i) == Goto(db.FailOrphans(at - QUEUED_WITHOUT_AGENTS_TIMEOUT_MS), ReapStopping)
  {
  }

  lemma StoppingAlone(db: Db, inputs: seq<Input>)
    ensures Leaves(Alone(db, ReapStopping, inputs), db.CloseQuietStopping())
  {
  }

  lemma ReapEnd(db: Db, at: int, inputs: seq<Input>)
    ensures Leaves(Alone(db, ReapOrphans(at), inputs), LastRules(db, at))
  {
    if inputs != [] {
      OrphansStatement(db, at, inputs[0]);
      AloneStep(db, ReapOrphans(at), inputs);
      StoppingAlone(db.FailOrphans(at - QUEUED_WITHOUT_AGENTS_TIMEOUT_MS), inputs[1..]);
    }
  }

  lemma CountStatement(db: Db, at: int, todo: set<JobId>, i: Input)
    ensures RunProc(db, ReapCount(at, todo), i) == Goto(db,
      if todo == {} then ReapOrphans(at)
      else if i.pick !in todo then ReapCount(at, todo)
      else ReapClose(at, todo - {i.pick}, i.pick, db.CountRows(i.pick) > 0))
  {
  }

  lemma CloseStatement(db: Db, at: int, todo: set<JobId>, job: JobId, i: Input)
    ensures RunProc(db, ReapClose(at, todo, job, db.CountRows(job) > 0), i)
      == Goto(FinaliseOne(db, job), ReapCount(at, todo))
  {
  }

  /** What is left of a sweep at `at` once the jobs outside `todo` are finalised. */
  lemma {:induction false} ReapTail(d1: Db, all: set<JobId>, todo: set<JobId>, at: int, inputs: seq<Input>)
    requires todo <= all <= d1.jobs.Keys
    ensures Leaves(Alone(FinaliseAll(d1, all - todo), ReapCount(at, todo), inputs), LastRules(FinaliseAll(d1, all), at))
    decreases |inputs|
  {
    var db := FinaliseAll(d1, all - todo);
    if inputs != [] {
      var i := inputs[0];
      CountStatement(db, at, todo, i);
      AloneStep(db, ReapCount(at, todo), inputs);
      if todo == {} {
        assert all - todo == all;
        ReapEnd(db, at, inputs[1..]);
      } else if i.pick !in todo {
        ReapTail(d1, all, todo, at, inputs[1..]);
      } else if |inputs| > 1 {
        FinaliseNext(d1, all, todo, i.pick);
        CloseStatement(db, at, todo - {i.pick}, i.pick, inputs[1]);
        AloneStep(db, ReapClose(at, todo - {i.pick}, i.pick, db.CountRows(i.pick) > 0), inputs[1..]);
        assert inputs[1..][1..] == inputs[2..];
        ReapTail(d1, all, todo - {i.pick}, at, inputs[2..]);
      }
    }
  }

  lemma ExpiredStatement(db: Db, at: int, i: Input)
    ensures RunProc(db, ReapExpired(at), i) == Goto(db, ReapCount(at, db.Expired(at - JOB_FINALISE_GRACE_MS)))
  {
  }

  lemma NothingDone(db: Db)
    ensures FinaliseAll(db, {}) == db
  {
  }

  lemma ReapFromExpiry(d1: Db, at: int, inputs: seq<Input>)
    ensures Leaves(Alone(d1, ReapExpired(at), inputs),
                   LastRules(FinaliseAll(d1, d1.Expired(at - JOB_FINALISE_GRACE_MS)), at))
  {
    var all := d1.Expired(at - JOB_FINALISE_GRACE_MS);
    if inputs != [] {
      ExpiredStatement(d1, at, inputs[0]);
      AloneStep(d1, ReapExpired(at), inputs);
      NothingDone(d1);
      assert all - all == {};
      ReapTail(d1, all, all, at, inputs[1..]);
    }
  }

  lemma StaleStatement(db: Db, i: Input)
    ensures RunProc(db, ReapStale, i) == Goto(AfterStale(db, i.now), ReapExpired(i.now))
  {
  }

  lemma SweepRules(db: Db, at: int)
    ensures var d1 := AfterStale(db, at);
      Sweep(db, at) == LastRules(FinaliseAll(d1, d1.Expired(at - JOB_FINALISE_GRACE_MS)), at)
  {
  }

  /** A sweep that runs alone to its end, whatever order the expired rows come in, is Sweep. */
  lemma ReapAlone(db: Db, inputs: seq<Input>)
    requires inputs != []
    ensures Leaves(Alone(db, ReapStale, inputs), Sweep(db, inputs[0].now))
  {
    var at := inputs[0].now;
    StaleStatement(db, inputs[0]);
    AloneStep(db, ReapStale, inputs);
    ReapFromExpiry(AfterStale(db, at), at, inputs[1..]);
    SweepRules(db, at);
  }

  lemma AloneLast(db: Db, proc: Proc, i: Input)
    ensures Alone(db, proc, [i]) == RunProc(db, proc, i)
  {
  }

  /** One more statement in front of inputs that finish. */
  lemma AloneFront(db: Db, proc: Proc, i: Input, rest: seq<Input>)
    requires rest != [] && !RunProc(db, proc, i).next.Done?
    ensures Alone(db, proc, [i] + rest) == Alone(RunProc(db, proc, i).db, RunProc(db, proc, i).next, rest)
  {
    assert ([i] + rest)[1..] == rest;
  }

  lemma LastRulesFinish(db: Db, at: int, i: Input)
    ensures Alone(db, ReapOrphans(at), [i] + [i]).next.Done?
  {
    OrphansStatement(db, at, i);
    AloneFront(db, ReapOrphans(at), i, [i]);
    AloneLast(db.FailOrphans(at - QUEUED_WITHOUT_AGENTS_TIMEOUT_MS), ReapStopping, i);
  }

  /** The inputs of rule 2's loop: each job of `todo` once, in this order, then rules 3 and 4. */
  function LoopInputs(at: int, order: seq<JobId>): seq<Input> {
    if order == [] then [Input(at, "", "", 0)] + ([Input(at, "", "", 0)] + [Input(at, "", "", 0)])
    else [Input(at, order[0], "", 0)] + ([Input(at, order[0], "", 0)] + LoopInputs(at, order[1..]))
  }

  /** An order of the rows: every expired job once. */
  ghost predicate Orders(order: seq<JobId>, todo: set<JobId>) {
    Distinct(order) && forall j :: j in order <==> j in todo
  }

  lemma OrderTail(order: seq<JobId>, todo: set<JobId>)
    requires Orders(order, todo) && order != []
    ensures order[0] in todo && Orders(order[1..], todo - {order[0]})
  {
    forall j ensures j in order[1..] <==> j in todo - {order[0]} {
      if j in order[1..] {
        assert j in order;
      }
      if j in todo - {order[0]} {
        var k :| 0 <= k < |order| && order[k] == j;
        assert order[1..][k - 1] == j;
      }
    }
  }

  lemma NothingOrdered(order: seq<JobId>, todo: set<JobId>)
    requires Orders(order, todo)
    ensures order == [] <==> todo == {}
  {
    if order != [] {
      assert order[0] in todo;
    }
  }

  lemma {:induction false} LoopFinishes(db: Db, at: int, todo: set<JobId>, order: seq<JobId>)
    requires Orders(order, todo)
    ensures |LoopInputs(at, order)| >= 1 && Alone(db, ReapCount(at, todo), LoopInputs(at, order)).next.Done?
    decreases |order|
  {
    NothingOrdered(order, todo);
    if order == [] {
      var i := Input(at, "", "", 0);
      CountStatement(db, at, todo, i);
      AloneFront(db, ReapCount(at, todo), i, [i] + [i]);
      LastRulesFinish(db, at, i);
    } else {
      var j, i := order[0], Input(at, order[0], "", 0);
      var rest := LoopInputs(at, order[1..]);
      OrderTail(order, todo);
      CountStatement(db, at, todo, i);
      CloseStatement(db, at, todo - {j}, j, i);
      LoopFinishes(FinaliseOne(db, j), at, todo - {j}, order[1..]);
      AloneFront(db, ReapCount(at, todo), i, [i] + rest);
      AloneFront(db, ReapClose(at, todo - {j}, j, db.CountRows(j) > 0), i, rest);
    }
  }

  /** A sweep alone: the stale rule, the SELECT, then the loop. */
  function SweepInputs(at: int, order: seq<JobId>): seq<Input> {
    [Input(at, "", "", 0)] + ([Input(at, "", "", 0)] + LoopInputs(at, order))
  }

  /** Taking the expired rows in any order, each once, a sweep alone runs to its end and leaves Sweep. */
  lemma ReapFinishes(db: Db, at: int, order: seq<JobId>)
    requires Orders(order, AfterStale(db, at).Expired(at - JOB_FINALISE_GRACE_MS))
    ensures var e := Alone(db, ReapStale, SweepInputs(at, order));
      e.next.Done? && e.db == Sweep(db, at)
  {
    var i, d1 := Input(at, "", "", 0), AfterStale(db, at);
    var all := d1.Expired(at - JOB_FINALISE_GRACE_MS);
    LoopFinishes(d1, at, all, order);
    StaleStatement(db, i);
    ExpiredStatement(d1, at, i);
    AloneFront(db, ReapStale, i, [i] + LoopInputs(at, order));
    AloneFront(d1, ReapExpired(at), i, LoopInputs(at, order));
    ReapAlone(db, SweepInputs(at, order));
  }

  /** Such an order exists for every set of rows. */
  lemma {:induction false} SomeOrder(todo: set<JobId>) returns (order: seq<JobId>)
    ensures Orders(order, todo)
    decreases todo
  {
    if todo == {} {
      order := [];
    } else {
      var j :| j in todo;
      var rest := SomeOrder(todo - {j});
      order := [j] + rest;
    }
  }

  /** So from any tables and at any time a sweep alone can run to its end. */
  lemma SweepCanFinish(db: Db, at: int) returns (order: seq<JobId>)
    ensures Orders(order, AfterStale(db, at).Expired(at - JOB_FINALISE_GRACE_MS))
    ensures Alone(db, ReapStale, SweepInputs(at, order)).next.Done?
  {
    order := SomeOrder(AfterStale(db, at).Expired(at - JOB_FINALISE_GRACE_MS));
    ReapFinishes(db, at, order);
  }
}
