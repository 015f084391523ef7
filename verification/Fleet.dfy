/**
 The rate split and the pacer together: what the shares handed out in any reachable state add
 up to, and how many tokens the whole fleet issues.
 */
module Fleet {
  import opened Tables
  import opened Sums
  import opened Shares
  import opened Handlers
  import opened Invariants
  import opened Interleavings
  import P = Pacer

  /** A listing of the job's rows, in any order. */
  ghost predicate ListsRows(db: Db, job: JobId, rows: seq<SpawnId>) {
    Distinct(rows) && forall r :: r in rows <==> r in db.RowsOf(job)
  }

  function SlotList(db: Db, rows: seq<SpawnId>): seq<nat>
    requires forall r | r in rows :: r in db.spawns
  {
    seq(|rows|, i requires 0 <= i < |rows| => db.spawns[rows[i]].slot)
  }

  lemma RowsListSlots(db: Db, job: JobId, rows: seq<SpawnId>)
    requires job in db.jobs && Dense(db, job) && ListsRows(db, job, rows)
    ensures forall r | r in rows :: r in db.spawns
    ensures Lists(SlotList(db, rows), db.CountRows(job))
  {
    var slots := SlotList(db, rows);
    assert forall i | 0 <= i < |rows| :: rows[i] in rows;
    forall i, j | 0 <= i < j < |slots| ensures slots[i] != slots[j] {
      assert rows[i] != rows[j] && rows[i] in db.RowsOf(job) && rows[j] in db.RowsOf(job);
    }
    forall k: nat | k < db.CountRows(job) ensures k in slots {
      assert Occupied(db, job, k);
      var r :| r in db.RowsOf(job) && db.spawns[r].slot == k;
      assert r in rows;
      var i :| 0 <= i < |rows| && rows[i] == r;
      assert slots[i] == k;
    }
  }

  /**
   In every reachable state the shares of a job's claimed slots add up to at most its RPS, to
   exactly its RPS once all AGENTS slots are claimed, differ by at most one, and for a
   throttled job are never the zero a runner would treat as unpaced.
   */
  lemma ClaimedShares(s: Sys, job: JobId, rows: seq<SpawnId>)
    requires Reachable(s) && job in s.db.jobs && ListsRows(s.db, job, rows)
    ensures forall r | r in rows :: r in s.db.spawns
    ensures var j := s.db.jobs[job];
      var share := Share(j.rps, j.agents);
      var sum := SumOver(share, SlotList(s.db, rows));
      && sum <= j.rps
      && (|rows| == j.agents ==> sum == j.rps)
      && (forall a, b | a in rows && b in rows ::
            share(s.db.spawns[a].slot) <= share(s.db.spawns[b].slot) + 1)
      && (!j.unthrottled ==> forall a | a in rows :: share(s.db.spawns[a].slot) >= 1)
  {
    ReachableInv(s);
    assert JobSound(s.db, job);
    var j := s.db.jobs[job];
    var n := s.db.CountRows(job);
    RowsListSlots(s.db, job, rows);
    SumInAnyOrder(Share(j.rps, j.agents), SlotList(s.db, rows), n);
    SharesSum(j.rps, j.agents, n);
    forall a | a in rows ensures !j.unthrottled ==> RpsForSlot(j.rps, j.agents, s.db.spawns[a].slot) >= 1 {
      ZeroShareIff(j.rps, j.agents, s.db.spawns[a].slot);
    }
  }

  /** The state after a start request that passed its check has inserted its job, and any further actions. */
  ghost predicate Accepts(s: Sys, pid: nat, i: Input, req: StartRequest, cap: Option<nat>) {
    && Reachable(s) && pid in s.procs && s.procs[pid] == StartInsert(req, cap) && Validate(req, cap).None?
    && |i.newId| == UUID_LENGTH && i.newId !in s.db.jobs
  }

  lemma RequestKept(s: Sys, pid: nat, i: Input, req: StartRequest, cap: Option<nat>, more: seq<Action>)
    requires Accepts(s, pid, i, req, cap)
    ensures var end := Exec(Next(s, Step(pid, i)), more);
      && Reachable(end) && i.newId in end.db.jobs
      && WholePart(end.db.jobs[i.newId].rps, req.targetRPS) && WholePart(end.db.jobs[i.newId].agents, req.agents)
  {
    var t := Next(s, Step(pid, i));
    assert Exec(t, []) == t && [Step(pid, i)][1..] == [];
    assert t == Exec(s, [Step(pid, i)]);
    ReachableOn(s, [Step(pid, i)]);
    ReachableOn(t, more);
    StatusesOnlyAdvance(t, more);
    assert JobEvolves(t.db, Exec(t, more).db, i.newId);
  }

  /**
   Once as many agents have joined as an accepted request asked for, whatever happened in between, the
   shares of their slots add up to the whole rate it asked for.
   */
  lemma WholeTarget(s: Sys, pid: nat, i: Input, req: StartRequest, cap: Option<nat>, more: seq<Action>,
                    rows: seq<SpawnId>)
    requires Accepts(s, pid, i, req, cap)
    requires ListsRows(Exec(Next(s, Step(pid, i)), more).db, i.newId, rows) && WholePart(|rows|, req.agents)
    ensures var end := Exec(Next(s, Step(pid, i)), more);
      && i.newId in end.db.jobs && (forall r | r in rows :: r in end.db.spawns)
      && var job := end.db.jobs[i.newId];
         WholePart(SumOver(Share(job.rps, job.agents), SlotList(end.db, rows)), req.targetRPS)
  {
    RequestKept(s, pid, i, req, cap, more);
    ClaimedShares(Exec(Next(s, Step(pid, i)), more), i.newId, rows);
  }

  /** Run starts a pacer for an order with a positive rate unless it is unthrottled. */
  predicate Paced(order: RunOrder) {
    !order.unthrottled && order.targetRPS > 0
  }

  /** Every order ever answered for a throttled job is paced. */
  lemma ThrottledOrdersArePaced(s: Sys, k: nat)
    requires Reachable(s) && k < |s.answers|
    ensures var o := s.answers[k].order;
      o.job in s.db.jobs && (Paced(o) <==> !s.db.jobs[o.job].unthrottled)
  {
    ReachableInv(s);
    assert GivenOk(s, k);
    var o := s.answers[k].order;
    assert JobSound(s.db, o.job);
    ZeroShareIff(s.db.jobs[o.job].rps, s.db.jobs[o.job].agents, s.db.spawns[o.spawn].slot);
  }

  // ---- tokens of the whole fleet ----

  /** Tokens a pacer with drained consumers issues in n ticks (Pacer.ExactRate). */
  function Tokens(n: nat, rps: nat): nat {
    n * rps / P.TICKS_PER_SECOND
  }

  function SlotTokens(n: nat, target: nat, agents: int): nat -> nat {
    slot => Tokens(n, RpsForSlot(target, agents, slot))
  }

  lemma Distribute(n: nat, a: nat, b: nat)
    ensures n * (a + b) == n * a + n * b
  {
  }

  /** Flooring costs less than one token a slot. */
  lemma {:induction false} PrefixTokens(n: nat, tokens: nat -> nat, share: nat -> nat, m: nat)
    requires forall k: nat :: tokens(k) == Tokens(n, share(k))
    ensures var due := n * SumFirst(share, m);
      due - (P.TICKS_PER_SECOND - 1) * m <= P.TICKS_PER_SECOND * SumFirst(tokens, m) <= due
  {
    if m > 0 {
      PrefixTokens(n, tokens, share, m - 1);
      Distribute(n, SumFirst(share, m - 1), share(m - 1));
    }
  }

  /** After n ticks the fleet has issued more than n*T/200 - A and at most n*T/200 tokens. */
  lemma FleetRate(n: nat, target: nat, agents: nat)
    requires agents > 0
    ensures var total := SumFirst(SlotTokens(n, target, agents), agents);
      n * target - P.TICKS_PER_SECOND * agents < P.TICKS_PER_SECOND * total <= n * target
  {
    PrefixTokens(n, SlotTokens(n, target, agents), Share(target, agents), agents);
    SharesSum(target, agents, agents);
  }

  /** The same, told by the pacers: one drained run per slot, all at tick n. */
  lemma FleetIssues(n: nat, target: nat, agents: nat, runs: seq<seq<P.Event>>)
    requires agents > 0 && target >= agents && |runs| == agents
    requires forall k: nat | k < agents ::
      var rps := RpsForSlot(target, agents, k);
      && P.Drained(rps, P.START, runs[k])
      && P.Exec(rps, P.START, runs[k]).pending == 0 && P.Exec(rps, P.START, runs[k]).ticks == n
    ensures forall k: nat | k < agents ::
      P.Exec(RpsForSlot(target, agents, k), P.START, runs[k]).issued == SlotTokens(n, target, agents)(k)
    ensures var total := SumFirst(SlotTokens(n, target, agents), agents);
      n * target - P.TICKS_PER_SECOND * agents < P.TICKS_PER_SECOND * total <= n * target
  {
    FleetRate(n, target, agents);
    forall k: nat | k < agents
      ensures P.Exec(RpsForSlot(target, agents, k), P.START, runs[k]).issued == SlotTokens(n, target, agents)(k)
    {
      ZeroShareIff(target, agents, k);
      P.ExactRate(RpsForSlot(target, agents, k), runs[k]);
    }
  }
}
