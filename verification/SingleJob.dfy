/**
 "Only one job may be active at a time": start_job checks and inserts in two statements, so the
 promise holds exactly when start requests do not overlap.
 */
module SingleJob {
  import opened Tables
  import opened Handlers
  import opened Interleavings

  predicate Alike(s: Sys, p: nat, q: nat) {
    p in s.procs && q in s.procs && s.procs[p].Starting() && s.procs[q].Starting() ==> p == q
  }

  /** At most one start request is in flight. */
  ghost predicate OneStart(s: Sys) {
    forall p: nat, q: nat :: Alike(s, p, q)
  }

  predicate AtMostOneActive(s: Sys) {
    forall j, k :: j in s.db.ActiveJobs() && k in s.db.ActiveJobs() ==> j == k
  }

  /** A start request that passed its check still sees no active job. */
  ghost predicate InsertClear(s: Sys, p: nat) {
    p in s.procs && s.procs[p].StartInsert? ==> s.db.ActiveJobs() == {}
  }

  ghost predicate Exclusive(s: Sys) {
    OneStart(s) && AtMostOneActive(s) && forall p: nat :: InsertClear(s, p)
  }

  /** The operator never issues a start while another one is unanswered. */
  ghost predicate Serialised(s: Sys, run: seq<Action>)
    decreases |run|
  {
    run == [] ||
    (&& (run[0].Begin? && run[0].proc.Starting() ==>
           forall p | p in s.procs :: !s.procs[p].Starting())
     && Serialised(Next(s, run[0]), run[1..]))
  }

  lemma StepKeepsOneStart(s: Sys, a: Action)
    requires OneStart(s)
    requires a.Begin? && a.proc.Starting() ==> forall p | p in s.procs :: !s.procs[p].Starting()
    ensures OneStart(Next(s, a))
  {
    var n := Next(s, a);
    forall p: nat, q: nat ensures Alike(n, p, q) {
      assert Alike(s, p, q);
    }
  }

  lemma InsertActive(s: Sys, pid: nat, i: Input)
    requires pid in s.procs && s.procs[pid].StartInsert? && s.db.ActiveJobs() == {}
    ensures AtMostOneActive(Next(s, Step(pid, i)))
    ensures Next(s, Step(pid, i)).procs[pid].StartInsert? ==> Next(s, Step(pid, i)).db == s.db
  {
    forall j | j in s.db.jobs ensures !s.db.jobs[j].status.Active() {
      assert j !in s.db.ActiveJobs();
    }
    assert forall j | j in Next(s, Step(pid, i)).db.ActiveJobs() :: j == i.newId;
  }

  lemma StepKeepsExclusive(s: Sys, pid: nat, i: Input)
    requires Exclusive(s) && pid in s.procs && OneStart(Next(s, Step(pid, i)))
    ensures Exclusive(Next(s, Step(pid, i)))
  {
    var n := Next(s, Step(pid, i));
    var proc := s.procs[pid];
    StatementEvolves(s.db, proc, i);
    assert InsertClear(s, pid);
    if proc.StartInsert? {
      InsertActive(s, pid, i);
    }
    forall p: nat ensures InsertClear(n, p) {
      assert InsertClear(s, p);
      assert Alike(s, pid, p);
    }
  }

  /** With start requests serialised, every interleaving of everything else keeps one active job. */
  lemma {:induction false} OneActiveJob(s: Sys, run: seq<Action>)
    requires Exclusive(s) && Serialised(s, run)
    ensures AtMostOneActive(Exec(s, run))
    decreases |run|
  {
    if run != [] {
      var n := Next(s, run[0]);
      StepKeepsOneStart(s, run[0]);
      if run[0].Step? && run[0].pid in s.procs {
        StepKeepsExclusive(s, run[0].pid, run[0].input);
      } else {
        forall p: nat ensures InsertClear(n, p) {
          assert InsertClear(s, p);
        }
      }
      OneActiveJob(n, run[1..]);
    }
  }

  lemma OneActiveJobFromEmpty(run: seq<Action>)
    requires Serialised(EMPTY, run)
    ensures AtMostOneActive(Exec(EMPTY, run))
  {
    OneActiveJob(EMPTY, run);
  }

  /** The INSERT that goes through keeps one active job exactly when none was active at that moment. */
  lemma InsertKeepsOneIff(s: Sys, pid: nat, i: Input)
    requires pid in s.procs && s.procs[pid].StartInsert?
    requires Next(s, Step(pid, i)).db != s.db
    ensures AtMostOneActive(Next(s, Step(pid, i))) <==> s.db.ActiveJobs() == {}
  {
    var after := Next(s, Step(pid, i)).db;
    assert i.newId in after.ActiveJobs();
    if s.db.ActiveJobs() == {} {
      InsertActive(s, pid, i);
    } else {
      var j :| j in s.db.ActiveJobs();
      assert j in after.ActiveJobs() && j != i.newId;
    }
  }

  lemma TwoSteps(s: Sys, run: seq<Action>)
    requires |run| >= 2
    ensures Exec(s, run) == Exec(Next(Next(s, run[0]), run[1]), run[2..])
  {
    assert run[1..][1..] == run[2..];
  }

  // ---- two overlapping starts ----

  const SMALL_JOB := StartRequest(1.0, 1.0, None, 1.0, None, false)
  const FIRST_ID: JobId := "000000000000000000000000000000000000"
  const SECOND_ID: JobId := "111111111111111111111111111111111111"
  const FIRST := Input(0, "", FIRST_ID, 0)
  const SECOND := Input(0, "", SECOND_ID, 0)
  const CHECK := StartCheck(SMALL_JOB, None)
  const INSERT := StartInsert(SMALL_JOB, None)

  lemma BothPass()
    ensures var s := EMPTY.(procs := map[0 := CHECK, 1 := CHECK]);
      Next(Next(s, Step(0, FIRST)), Step(1, SECOND)) == EMPTY.(procs := map[0 := INSERT, 1 := INSERT])
  {
    assert Validate(SMALL_JOB, None).None?;
  }

  lemma BothInsert()
    ensures var s := EMPTY.(procs := map[0 := INSERT, 1 := INSERT]);
      FIRST_ID != SECOND_ID &&
      {FIRST_ID, SECOND_ID} <= Next(Next(s, Step(0, FIRST)), Step(1, SECOND)).db.ActiveJobs()
  {
    assert Validate(SMALL_JOB, None).None?;
    assert FIRST_ID[0] != SECOND_ID[0];
  }

  /** Both requests check before either inserts, and two jobs are active. */
  lemma OverlappingStarts() returns (run: seq<Action>)
    ensures !AtMostOneActive(Exec(EMPTY, run))
  {
    run := [Begin(0, CHECK), Begin(1, CHECK), Step(0, FIRST), Step(1, SECOND), Step(0, FIRST), Step(1, SECOND)];
    BothPass();
    BothInsert();
    TwoSteps(EMPTY, run);
    TwoSteps(EMPTY.(procs := map[0 := CHECK, 1 := CHECK]), run[2..]);
    TwoSteps(EMPTY.(procs := map[0 := INSERT, 1 := INSERT]), run[4..]);
    assert run[2..][2..] == run[4..] && run[4..][2..] == [];
    assert FIRST_ID in Exec(EMPTY, run).db.ActiveJobs() && SECOND_ID in Exec(EMPTY, run).db.ActiveJobs();
  }
}
