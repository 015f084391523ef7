/**
 Requests interleaved statement by statement. A handler in flight is a `Proc` carrying the
 local values it has read so far; each action begins a request or runs one statement of one
 request. `Exec` is any run; the theorems quantify over all of them.
 */
module Interleavings {
  import opened Tables
  import opened Shares
  import opened Handlers
  import opened Invariants
  import opened StatementLaws

  /** agent_poll's locals once the job row is read. */
  datatype Snap = Snap(agent: AgentId, jobId: JobId, job: Job, now: int) {
    function SpawnId(): SpawnId {
      SpawnIdOf(jobId, agent)
    }
  }

  datatype Proc =
    | PollSelect(agent: AgentId)
    | PollExisting(p: Snap)
    | PollTouch(p: Snap, slot: nat)
    | PollClaim(p: Snap)
    | PollReadBack(p: Snap)
    | PollPromote(p: Snap, slot: nat)
    | MetricsUpdate(spawn: SpawnId)
    | CompleteFail(job: JobId, spawn: SpawnId)
    | CompleteRead(job: JobId, spawn: SpawnId)
    | CompleteMark(job: JobId, spawn: SpawnId, stopping: bool)
    | CompleteCount(job: JobId, stopping: bool)
    | CompleteClose(job: JobId, stopping: bool)
    | StopUpdate(job: JobId)
    | ReapStale
    | ReapExpired(at: int)
    | ReapCount(at: int, todo: set<JobId>)
    | ReapClose(at: int, todo: set<JobId>, job: JobId, spawned: bool)
    | ReapOrphans(at: int)
    | ReapStopping
    | StartCheck(req: StartRequest, cap: Option<nat>)
    | StartInsert(req: StartRequest, cap: Option<nat>)
    | Done
  {
    predicate Initial() {
      PollSelect? || MetricsUpdate? || CompleteFail? || CompleteRead? || StopUpdate? || ReapStale? || StartCheck?
    }

    predicate Starting() {
      StartCheck? || StartInsert?
    }
  }

  /** What the environment supplies to a statement: the clock and the free choices. */
  datatype Input = Input(now: int, pick: JobId, newId: JobId, createdAt: int)

  datatype Effect = Effect(db: Db, next: Proc, answer: Option<RunOrder>, rejected: bool)

  function Goto(db: Db, next: Proc): Effect {
    Effect(db, next, None, false)
  }

  /** One statement of one handler. A choice the query could not return leaves it waiting. */
  function RunProc(db: Db, proc: Proc, i: Input): Effect {
    match proc
    case PollSelect(agent) =>
      if agent == "" || db.NoOpenJob() then Goto(db, Done)
      else if !db.OldestOpen(i.pick) then Goto(db, proc)
      else if i.now >= db.jobs[i.pick].stopAt then Goto(db, Done)
      else Goto(db, PollExisting(Snap(agent, i.pick, db.jobs[i.pick], i.now)))
    case PollExisting(p) =>
      if p.SpawnId() !in db.spawns then Goto(db, PollClaim(p))
      else if db.spawns[p.SpawnId()].status != RUNNING then Goto(db, Done)
      else Goto(db, PollTouch(p, db.spawns[p.SpawnId()].slot))
    case PollTouch(p, slot) => Goto(db.Touch(p.SpawnId(), p.now), PollPromote(p, slot))
    case PollClaim(p) =>
      (match db.Claim(p.SpawnId(), p.jobId, p.agent, p.now, p.job.agents)
       case Inserted(claimed) => Goto(claimed, PollReadBack(p))
       case Skipped => Goto(db, PollReadBack(p))
       case UniqueViolation => Effect(db, Done, None, true))
    case PollReadBack(p) =>
      if p.SpawnId() !in db.spawns then Goto(db, Done)
      else Goto(db, PollPromote(p, db.spawns[p.SpawnId()].slot))
    case PollPromote(p, slot) =>
      Effect(if p.job.status == QUEUED then db.Promote(p.jobId) else db, Done,
             Some(OrderFor(p.jobId, p.job, p.SpawnId(), slot)), false)
    case MetricsUpdate(spawn) => Goto(db.Touch(spawn, i.now), Done)
    case CompleteFail(job, spawn) => Goto(db.MarkSpawn(spawn, FAILED).FailOpenJob(job), Done)
    case CompleteRead(job, spawn) =>
      Goto(db, CompleteMark(job, spawn,
        job in db.jobs && (db.jobs[job].status.STOPPING? || db.jobs[job].status.STOPPED?)))
    case CompleteMark(job, spawn, stopping) =>
      Goto(db.MarkSpawn(spawn, if stopping then STOPPED else COMPLETED), CompleteCount(job, stopping))
    case CompleteCount(job, stopping) =>
      Goto(db, if db.CountRunning(job) != 0 then Done else CompleteClose(job, stopping))
    case CompleteClose(job, stopping) =>
      Goto(db.CloseJob(job, if stopping then STOPPED else COMPLETED), Done)
    case StopUpdate(job) => Goto(db.RequestStop(job, i.now), Done)
    case ReapStale => Goto(db.FailStale(i.now - SPAWN_STALE_AFTER_MS), ReapExpired(i.now))
    case ReapExpired(at) => Goto(db, ReapCount(at, db.Expired(at - JOB_FINALISE_GRACE_MS)))
    case ReapCount(at, todo) =>
      if todo == {} then Goto(db, ReapOrphans(at))
      else if i.pick !in todo then Goto(db, proc)
      else Goto(db, ReapClose(at, todo - {i.pick}, i.pick, db.CountRows(i.pick) > 0))
    case ReapClose(at, todo, job, spawned) =>
      Goto(db.CompleteSpawnsOf(job).CloseJob(job, if spawned then COMPLETED else FAILED),
           ReapCount(at, todo))
    case ReapOrphans(at) => Goto(db.FailOrphans(at - QUEUED_WITHOUT_AGENTS_TIMEOUT_MS), ReapStopping)
    case ReapStopping => Goto(db.CloseQuietStopping(), Done)
    case StartCheck(req, cap) =>
      if Validate(req, cap).Some? || db.ActiveJobs() != {} then Goto(db, Done)
      else Goto(db, StartInsert(req, cap))
    case StartInsert(req, cap) =>
      if Validate(req, cap).Some? then Goto(db, Done)
      else if |i.newId| != UUID_LENGTH || i.newId in db.jobs then Goto(db, proc)
      else Goto(db.InsertJob(i.newId, NewJob(req, cap, i.now, i.createdAt)), Done)
    case Done => Goto(db, Done)
  }

  // ---- the system ----

  datatype Answer = Answer(agent: AgentId, order: RunOrder)

  datatype Sys = Sys(db: Db, procs: map<nat, Proc>, answers: seq<Answer>, rejected: bool)

  const EMPTY: Sys := Sys(Db(map[], map[]), map[], [], false)

  datatype Action = Begin(pid: nat, proc: Proc) | Step(pid: nat, input: Input)

  function Next(s: Sys, a: Action): Sys {
    match a
    case Begin(pid, proc) =>
      if pid in s.procs || !proc.Initial() then s else s.(procs := s.procs[pid := proc])
    case Step(pid, input) =>
      if pid !in s.procs then s
      else
        var e := RunProc(s.db, s.procs[pid], input);
        Sys(e.db, s.procs[pid := e.next],
            if e.answer.Some? && s.procs[pid].PollPromote?
            then s.answers + [Answer(s.procs[pid].p.agent, e.answer.value)] else s.answers,
            s.rejected || e.rejected)
  }

  function Exec(s: Sys, run: seq<Action>): Sys
    decreases |run|
  {
    if run == [] then s else Exec(Next(s, run[0]), run[1..])
  }

  lemma {:induction false} ExecSplit(s: Sys, a: seq<Action>, b: seq<Action>)
    ensures Exec(s, a + b) == Exec(Exec(s, a), b)
    decreases |a|
  {
    if a == [] {
      assert a + b == b;
    } else {
      assert (a + b)[1..] == a[1..] + b;
      ExecSplit(Next(s, a[0]), a[1..], b);
    }
  }

  // ---- status monotonicity, from any state ----

  lemma ReapCloseUpdates(db: Db, job: JobId, outcome: Status)
    requires outcome.Terminal()
    ensures Updates(db, db.CompleteSpawnsOf(job).CloseJob(job, outcome))
  {
    var mid := db.CompleteSpawnsOf(job);
    CompleteSpawnsUpdates(db, job);
    CloseUpdates(mid, job, outcome);
    UpdatesTrans(db, mid, mid.CloseJob(job, outcome));
  }

  lemma ReapStatementUpdates(db: Db, proc: Proc, i: Input)
    requires proc.ReapStale? || proc.ReapClose? || proc.ReapOrphans? || proc.ReapStopping?
    ensures Updates(db, RunProc(db, proc, i).db)
  {
    match proc
    case ReapStale =>
      SweepRulesUpdate(db, i.now - SPAWN_STALE_AFTER_MS);
    case ReapClose(at, todo, job, spawned) =>
      ReapCloseUpdates(db, job, if spawned then COMPLETED else FAILED);
    case ReapOrphans(at) =>
      SweepRulesUpdate(db, at - QUEUED_WITHOUT_AGENTS_TIMEOUT_MS);
    case ReapStopping =>
      SweepRulesUpdate(db, 0);
  }

  /** Every statement but the two INSERTs is an update in the sense of the two-state law. */
  lemma StatementUpdates(db: Db, proc: Proc, i: Input)
    requires !proc.PollClaim? && !proc.StartInsert?
    ensures Updates(db, RunProc(db, proc, i).db)
  {
    if proc.ReapStale? || proc.ReapClose? || proc.ReapOrphans? || proc.ReapStopping? {
      ReapStatementUpdates(db, proc, i);
      return;
    }
    match proc
    case PollTouch(p, slot) =>
    case PollPromote(p, slot) =>
    case MetricsUpdate(spawn) =>
    case CompleteFail(job, spawn) =>
      CompleteUpdates(db, job, spawn, true);
    case CompleteMark(job, spawn, stopping) =>
      MarkUpdates(db, spawn, if stopping then STOPPED else COMPLETED);
    case CompleteClose(job, stopping) =>
      CloseUpdates(db, job, if stopping then STOPPED else COMPLETED);
    case StopUpdate(job) =>
      StopUpdates(db, job, i.now);
    case _ =>
  }

  /** No statement, whatever the tables and the locals, moves a status backwards. */
  lemma StatementEvolves(db: Db, proc: Proc, i: Input)
    ensures Evolves(db, RunProc(db, proc, i).db)
    ensures !proc.StartInsert? ==> RunProc(db, proc, i).db.ActiveJobs() <= db.ActiveJobs()
  {
    if !proc.PollClaim? && !proc.StartInsert? {
      StatementUpdates(db, proc, i);
      UpdateOpensNothing(db, RunProc(db, proc, i).db);
    }
  }

  /**
   Over every run from every state: job status rank never decreases, terminal statuses are
   absorbing, no spawn re-enters RUNNING, and no row, plan or slot is lost or changed.
   */
  lemma {:induction false} StatusesOnlyAdvance(s: Sys, run: seq<Action>)
    ensures Evolves(s.db, Exec(s, run).db)
    decreases |run|
  {
    if run != [] {
      var n := Next(s, run[0]);
      if run[0].Step? && run[0].pid in s.procs {
        StatementEvolves(s.db, s.procs[run[0].pid], run[0].input);
      }
      StatusesOnlyAdvance(n, run[1..]);
      EvolvesTrans(s.db, n.db, Exec(n, run[1..]).db);
    }
  }

  // ---- slot claiming ----

  /** The locals of a poll agree with the job row they were read from. */
  ghost predicate SnapOk(db: Db, p: Snap) {
    && p.jobId in db.jobs
    && p.job.SamePlan(db.jobs[p.jobId])
    && p.job.stopAt == p.job.PlannedStop()
  }

  ghost predicate SlotHeld(db: Db, p: Snap, slot: nat) {
    && SnapOk(db, p)
    && p.SpawnId() in db.spawns
    && db.spawns[p.SpawnId()].slot == slot
  }

  ghost predicate LocalsOk(db: Db, proc: Proc) {
    match proc
    case PollExisting(p) => SnapOk(db, p)
    case PollClaim(p) => SnapOk(db, p)
    case PollReadBack(p) => SnapOk(db, p)
    case PollTouch(p, slot) => SlotHeld(db, p, slot)
    case PollPromote(p, slot) => SlotHeld(db, p, slot)
    case _ => true
  }

  /** A "run" answer repeats the plan of its job and the share of its spawn's slot. */
  ghost predicate AnswerOk(db: Db, a: Answer) {
    var o := a.order;
    && o.job in db.jobs
    && o.spawn == SpawnIdOf(o.job, a.agent)
    && o.spawn in db.spawns
    && o.startAt == db.jobs[o.job].startAt
    && o.stopAt == db.jobs[o.job].PlannedStop()
    && o.workers == db.jobs[o.job].workers
    && o.unthrottled == db.jobs[o.job].unthrottled
    && o.targetRPS == RpsForSlot(db.jobs[o.job].rps, db.jobs[o.job].agents, db.spawns[o.spawn].slot)
  }

  ghost predicate ProcOk(s: Sys, pid: nat) {
    pid in s.procs ==> LocalsOk(s.db, s.procs[pid])
  }

  ghost predicate GivenOk(s: Sys, k: nat) {
    k < |s.answers| ==> AnswerOk(s.db, s.answers[k])
  }

  ghost predicate Inv(s: Sys) {
    && Sound(s.db) && !s.rejected
    && (forall pid: nat :: ProcOk(s, pid))
    && (forall k: nat :: GivenOk(s, k))
  }

  lemma LocalsStable(a: Db, b: Db, proc: Proc)
    requires Evolves(a, b) && LocalsOk(a, proc)
    ensures LocalsOk(b, proc)
  {
    if proc.PollExisting? || proc.PollClaim? || proc.PollReadBack? || proc.PollTouch? || proc.PollPromote? {
      assert JobEvolves(a, b, proc.p.jobId);
      assert SpawnEvolves(a, b, proc.p.SpawnId());
    }
  }

  lemma AnswerStable(a: Db, b: Db, x: Answer)
    requires Evolves(a, b) && AnswerOk(a, x)
    ensures AnswerOk(b, x)
  {
    assert JobEvolves(a, b, x.order.job);
    assert SpawnEvolves(a, b, x.order.spawn);
  }

  /** A statement keeps the tables sound, and the slot index never rejects its INSERT. */
  lemma StatementSound(db: Db, proc: Proc, i: Input)
    requires Sound(db) && LocalsOk(db, proc)
    ensures Sound(RunProc(db, proc, i).db) && !RunProc(db, proc, i).rejected
  {
    if proc.PollClaim? {
      ClaimSound(db, proc.p.SpawnId(), proc.p.jobId, proc.p.agent, proc.p.now);
    } else if proc.StartInsert? {
      if Validate(proc.req, proc.cap).None? && |i.newId| == UUID_LENGTH && i.newId !in db.jobs {
        InsertJobSound(db, i.newId, NewJob(proc.req, proc.cap, i.now, i.createdAt));
      }
    } else {
      StatementUpdates(db, proc, i);
      UpdateKeepsSound(db, RunProc(db, proc, i).db);
    }
  }

  lemma StatementLocals(db: Db, proc: Proc, i: Input)
    requires Sound(db) && LocalsOk(db, proc)
    ensures LocalsOk(RunProc(db, proc, i).db, RunProc(db, proc, i).next)
    ensures proc.PollPromote? && RunProc(db, proc, i).answer.Some? ==>
      AnswerOk(RunProc(db, proc, i).db, Answer(proc.p.agent, RunProc(db, proc, i).answer.value))
  {
    StatementEvolves(db, proc, i);
    match proc
    case PollSelect(agent) =>
      assert JobSound(db, i.pick);
    case PollPromote(p, slot) =>
      LocalsStable(db, RunProc(db, proc, i).db, proc);
    case PollTouch(p, slot) =>
      LocalsStable(db, RunProc(db, proc, i).db, proc);
    case PollClaim(p) =>
      LocalsStable(db, RunProc(db, proc, i).db, proc);
    case _ =>
  }

  lemma StepKeepsInv(s: Sys, pid: nat, i: Input)
    requires Inv(s) && pid in s.procs
    ensures Inv(Next(s, Step(pid, i)))
  {
    var n := Next(s, Step(pid, i));
    assert ProcOk(s, pid);
    StatementEvolves(s.db, s.procs[pid], i);
    StatementSound(s.db, s.procs[pid], i);
    StatementLocals(s.db, s.procs[pid], i);
    forall q: nat ensures ProcOk(n, q) {
      assert ProcOk(s, q);
      if q in s.procs && q != pid {
        LocalsStable(s.db, n.db, s.procs[q]);
      }
    }
    forall k: nat ensures GivenOk(n, k) {
      assert GivenOk(s, k);
      if k < |s.answers| {
        AnswerStable(s.db, n.db, s.answers[k]);
      }
    }
  }

  lemma NextKeepsInv(s: Sys, a: Action)
    requires Inv(s)
    ensures Inv(Next(s, a))
  {
    if a.Step? && a.pid in s.procs {
      StepKeepsInv(s, a.pid, a.input);
    } else {
      forall q: nat ensures ProcOk(Next(s, a), q) {
        assert ProcOk(s, q);
      }
      forall k: nat ensures GivenOk(Next(s, a), k) {
        assert GivenOk(s, k);
      }
    }
  }

  lemma {:induction false} InvHolds(s: Sys, run: seq<Action>)
    requires Inv(s)
    ensures Inv(Exec(s, run))
    decreases |run|
  {
    if run != [] {
      NextKeepsInv(s, run[0]);
      InvHolds(Next(s, run[0]), run[1..]);
    }
  }

  /** The states some run reaches from empty tables. */
  ghost predicate Reachable(s: Sys) {
    exists run :: s == Exec(EMPTY, run)
  }

  lemma ReachableOn(s: Sys, more: seq<Action>)
    requires Reachable(s)
    ensures Reachable(Exec(s, more))
  {
    var run :| s == Exec(EMPTY, run);
    ExecSplit(EMPTY, run, more);
  }

  lemma ReachableInv(s: Sys)
    requires Reachable(s)
    ensures Inv(s)
  {
    var run :| s == Exec(EMPTY, run);
    forall j ensures JobSound(EMPTY.db, j) {
    }
    InvHolds(EMPTY, run);
  }

  function SlotsOf(db: Db, job: JobId): set<nat> {
    set id | id in db.RowsOf(job) :: db.spawns[id].slot
  }

  /**
   In every reachable state the rows of a job hold exactly the slots 0..n-1, n <= AGENTS, no two
   rows share a slot or an agent, and no claim was ever rejected by the unique index.
   */
  lemma SlotsAreDense(s: Sys, job: JobId)
    requires Reachable(s) && job in s.db.jobs
    ensures var n := s.db.CountRows(job);
      && (forall k :: k in SlotsOf(s.db, job) <==> 0 <= k < n)
      && n <= s.db.jobs[job].agents
    ensures forall a, b | a in s.db.RowsOf(job) && b in s.db.RowsOf(job) && a != b ::
      s.db.spawns[a].slot != s.db.spawns[b].slot && s.db.spawns[a].agent != s.db.spawns[b].agent
    ensures !s.rejected
  {
    ReachableInv(s);
    assert JobSound(s.db, job);
    var n := s.db.CountRows(job);
    forall k ensures k in SlotsOf(s.db, job) <==> 0 <= k < n {
      if 0 <= k < n {
        assert Occupied(s.db, job, k);
      }
    }
    forall a, b | a in s.db.RowsOf(job) && b in s.db.RowsOf(job) && a != b
      ensures s.db.spawns[a].slot != s.db.spawns[b].slot && s.db.spawns[a].agent != s.db.spawns[b].agent
    {
      assert RowSound(s.db, a) && RowSound(s.db, b);
    }
  }

  // ---- what agents were told ----

  /**
   All "run" answers ever given for one job agree on window and worker count, whatever stops and
   sweeps came between; all those given to one agent also agree on its share.
   */
  lemma AnswersAgree(s: Sys, i: nat, k: nat)
    requires Reachable(s) && i < |s.answers| && k < |s.answers|
    requires s.answers[i].order.job == s.answers[k].order.job
    ensures var a, b := s.answers[i].order, s.answers[k].order;
      && a.startAt == b.startAt && a.stopAt == b.stopAt && a.workers == b.workers
      && a.job in s.db.jobs && a.stopAt == a.startAt + s.db.jobs[a.job].duration * MS_PER_MINUTE
      && (s.answers[i].agent == s.answers[k].agent ==> a == b)
      && (s.answers[i].agent != s.answers[k].agent ==> a.spawn != b.spawn)
  {
    ReachableInv(s);
    assert GivenOk(s, i) && GivenOk(s, k);
    var a, b := s.answers[i], s.answers[k];
    if a.order.spawn == b.order.spawn {
      SpawnIdInjective(a.order.job, a.agent, b.order.job, b.agent);
    }
  }
}
