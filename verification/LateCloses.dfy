/**
 A run of the second late statement of `ClosedJobs`: an agent reports completion, its handler counts no
 RUNNING spawn, another agent claims a slot, and the handler closes the job under it.
 */
module LateCloses {
  import opened Tables
  import opened Handlers
  import opened Interleavings
  import opened SingleJob
  import opened ClosedJobs

  const PAIR := StartRequest(2.0, 2.0, None, 1.0, None, false)

  function PairJob(status: Status): Job {
    Job(2, 2, 512, 1, 30_000, 90_000, false, 0, status)
  }

  function Held(agent: AgentId, status: Status): Snap {
    Snap(agent, FIRST_ID, PairJob(status), 0)
  }

  function RowId(agent: AgentId): SpawnId {
    SpawnIdOf(FIRST_ID, agent)
  }

  function At(job: Status, rows: map<SpawnId, Spawn>, procs: map<nat, Proc>, answers: seq<Answer>): Sys {
    Sys(Db(map[FIRST_ID := PairJob(job)], rows), procs, answers, false)
  }

  function OneRow(status: Status): map<SpawnId, Spawn> {
    map[RowId("a") := Spawn(FIRST_ID, "a", 0, 0, status)]
  }

  function BothRows(): map<SpawnId, Spawn> {
    OneRow(COMPLETED)[RowId("b") := Spawn(FIRST_ID, "b", 1, 0, RUNNING)]
  }

  function Told(): seq<Answer> {
    [Answer("a", OrderFor(FIRST_ID, PairJob(QUEUED), RowId("a"), 0))]
  }

  // ---- the legs of the run ----

  const STARTS := [Begin(0, StartCheck(PAIR, None)), Step(0, FIRST), Step(0, FIRST)]
  const A_POLLS := [Begin(1, PollSelect("a")), Step(1, PICK), Step(1, PICK)]
  const A_JOINS := [Step(1, PICK), Step(1, PICK), Step(1, PICK)]
  const A_REPORTS := [Begin(2, CompleteRead(FIRST_ID, RowId("a"))), Step(2, FIRST)]
  const NONE_LEFT := [Step(2, FIRST), Step(2, FIRST)]
  const B_POLLS := [Begin(3, PollSelect("b")), Step(3, PICK), Step(3, PICK)]
  const B_JOINS_THEN_CLOSE := [Step(3, PICK), Step(2, FIRST)]

  lemma PairInserted()
    ensures Next(EMPTY.(procs := map[0 := StartInsert(PAIR, None)]), Step(0, FIRST))
         == At(QUEUED, map[], map[0 := Done], [])
  {
    assert Validate(PAIR, None).None?;
  }

  lemma Starts()
    ensures Exec(EMPTY, STARTS) == At(QUEUED, map[], map[0 := Done], [])
  {
    Three(EMPTY, Begin(0, StartCheck(PAIR, None)), Step(0, FIRST), Step(0, FIRST));
    PairInserted();
  }

  lemma Polls(pid: nat, agent: AgentId, job: Status, rows: map<SpawnId, Spawn>, procs: map<nat, Proc>,
              answers: seq<Answer>)
    requires agent != "" && job.Open() && RowId(agent) !in rows && pid !in procs
    ensures Exec(At(job, rows, procs, answers), [Begin(pid, PollSelect(agent)), Step(pid, PICK), Step(pid, PICK)])
         == At(job, rows, procs[pid := PollClaim(Held(agent, job))], answers)
  {
    var s := At(job, rows, procs, answers);
    Three(s, Begin(pid, PollSelect(agent)), Step(pid, PICK), Step(pid, PICK));
    assert FIRST_ID in s.db.jobs && s.db.OldestOpen(FIRST_ID);
    assert Next(At(job, rows, procs[pid := PollSelect(agent)], answers), Step(pid, PICK))
        == At(job, rows, procs[pid := PollExisting(Held(agent, job))], answers);
  }

  lemma AJoins(procs: map<nat, Proc>)
    ensures Exec(At(QUEUED, map[], procs[1 := PollClaim(Held("a", QUEUED))], []), A_JOINS)
         == At(RUNNING, OneRow(RUNNING), procs[1 := Done], Told())
  {
    Three(At(QUEUED, map[], procs[1 := PollClaim(Held("a", QUEUED))], []), Step(1, PICK), Step(1, PICK), Step(1, PICK));
    assert Next(At(QUEUED, OneRow(RUNNING), procs[1 := PollReadBack(Held("a", QUEUED))], []), Step(1, PICK))
        == At(QUEUED, OneRow(RUNNING), procs[1 := PollPromote(Held("a", QUEUED), 0)], []);
  }

  lemma AReports(procs: map<nat, Proc>)
    requires 2 !in procs
    ensures Exec(At(RUNNING, OneRow(RUNNING), procs, Told()), A_REPORTS)
         == At(RUNNING, OneRow(RUNNING), procs[2 := CompleteMark(FIRST_ID, RowId("a"), false)], Told())
  {
    Two(At(RUNNING, OneRow(RUNNING), procs, Told()), Begin(2, CompleteRead(FIRST_ID, RowId("a"))), Step(2, FIRST));
  }

  /** The handler marks A's spawn and counts nobody RUNNING. */
  lemma NoneLeft(procs: map<nat, Proc>)
    ensures Exec(At(RUNNING, OneRow(RUNNING), procs[2 := CompleteMark(FIRST_ID, RowId("a"), false)], Told()), NONE_LEFT)
         == At(RUNNING, OneRow(COMPLETED), procs[2 := CompleteClose(FIRST_ID, false)], Told())
  {
    Two(At(RUNNING, OneRow(RUNNING), procs[2 := CompleteMark(FIRST_ID, RowId("a"), false)], Told()),
        Step(2, FIRST), Step(2, FIRST));
    assert At(RUNNING, OneRow(COMPLETED), procs, Told()).db.RunningOf(FIRST_ID) == {};
  }

  lemma RowsDiffer()
    ensures RowId("a") != RowId("b")
  {
    if RowId("a") == RowId("b") {
      SpawnIdInjective(FIRST_ID, "a", FIRST_ID, "b");
    }
  }

  /** B claims slot 1 meanwhile. */
  lemma BClaims(procs: map<nat, Proc>)
    ensures Next(At(RUNNING, OneRow(COMPLETED), procs[3 := PollClaim(Held("b", RUNNING))], Told()), Step(3, PICK))
         == At(RUNNING, BothRows(), procs[3 := PollReadBack(Held("b", RUNNING))], Told())
  {
    RowsDiffer();
    var s := At(RUNNING, OneRow(COMPLETED), procs[3 := PollClaim(Held("b", RUNNING))], Told());
    assert s.db.RowsOf(FIRST_ID) == {RowId("a")};
  }

  /** And the job is closed under it. */
  lemma ClosedUnderB(procs: map<nat, Proc>)
    requires 2 in procs && procs[2] == CompleteClose(FIRST_ID, false)
    ensures !AllQuiet(Next(At(RUNNING, BothRows(), procs, Told()), Step(2, FIRST)).db)
  {
    var after := Next(At(RUNNING, BothRows(), procs, Told()), Step(2, FIRST)).db;
    assert RowId("b") in after.RunningOf(FIRST_ID);
    assert !ClosedQuiet(after, FIRST_ID);
  }

  lemma JoinThenClose(procs: map<nat, Proc>)
    requires 2 in procs && procs[2] == CompleteClose(FIRST_ID, false)
    ensures !AllQuiet(Exec(At(RUNNING, OneRow(COMPLETED), procs[3 := PollClaim(Held("b", RUNNING))], Told()),
                           B_JOINS_THEN_CLOSE).db)
  {
    Two(At(RUNNING, OneRow(COMPLETED), procs[3 := PollClaim(Held("b", RUNNING))], Told()),
        Step(3, PICK), Step(2, FIRST));
    BClaims(procs);
    ClosedUnderB(procs[3 := PollReadBack(Held("b", RUNNING))]);
  }

  lemma ReportToClose(procs: map<nat, Proc>)
    requires 2 !in procs && 3 !in procs
    ensures !AllQuiet(Exec(At(RUNNING, OneRow(RUNNING), procs, Told()),
                           A_REPORTS + (NONE_LEFT + (B_POLLS + B_JOINS_THEN_CLOSE))).db)
  {
    var closing := procs[2 := CompleteClose(FIRST_ID, false)];
    AReports(procs);
    NoneLeft(procs);
    RowsDiffer();
    Polls(3, "b", RUNNING, OneRow(COMPLETED), closing, Told());
    JoinThenClose(closing);
    ExecSplit(At(RUNNING, OneRow(RUNNING), procs, Told()), A_REPORTS, NONE_LEFT + (B_POLLS + B_JOINS_THEN_CLOSE));
    ExecSplit(At(RUNNING, OneRow(RUNNING), procs[2 := CompleteMark(FIRST_ID, RowId("a"), false)], Told()),
              NONE_LEFT, B_POLLS + B_JOINS_THEN_CLOSE);
    ExecSplit(At(RUNNING, OneRow(COMPLETED), closing, Told()), B_POLLS, B_JOINS_THEN_CLOSE);
  }

  /** From empty tables, a COMPLETED job with a RUNNING row. */
  lemma LateCloseHappens() returns (run: seq<Action>)
    ensures !AllQuiet(Exec(EMPTY, run).db)
  {
    var tail := A_REPORTS + (NONE_LEFT + (B_POLLS + B_JOINS_THEN_CLOSE));
    run := STARTS + (A_POLLS + (A_JOINS + tail));
    Starts();
    Polls(1, "a", QUEUED, map[], map[0 := Done], []);
    AJoins(map[0 := Done]);
    ReportToClose(map[0 := Done, 1 := Done]);
    ExecSplit(EMPTY, STARTS, A_POLLS + (A_JOINS + tail));
    ExecSplit(At(QUEUED, map[], map[0 := Done], []), A_POLLS, A_JOINS + tail);
    ExecSplit(At(QUEUED, map[], map[0 := Done, 1 := PollClaim(Held("a", QUEUED))], []), A_JOINS, tail);
  }
}
