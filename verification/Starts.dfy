/** Which start requests are accepted, told on the request's own numbers, and what an accepted one inserts. */
module Starts {
  import opened Tables
  import opened Handlers

  /** Every number is at least 1 once its fraction is dropped; a missing worker count is 512. */
  predicate Positive(req: StartRequest) {
    && req.targetRPS >= 1.0 && req.agents >= 1.0 && req.duration >= 1.0
    && (req.workersPerAgent.Some? ==> req.workersPerAgent.value >= 1.0)
  }

  predicate DelayOk(req: StartRequest) {
    req.startDelaySeconds.Some? ==> req.startDelaySeconds.value >= 0.0
  }

  /** Each agent of a throttled job can be given at least one request per second. */
  ghost predicate RateOk(req: StartRequest) {
    req.unthrottled || exists n: int :: WholePart(n, req.agents) && n as real <= req.targetRPS
  }

  predicate WorkersOk(req: StartRequest, cap: Option<nat>) {
    cap.Some? ==>
      if req.workersPerAgent.Some? then req.workersPerAgent.value < cap.value as real + 1.0 else 512 <= cap.value
  }

  lemma WholePartIs(x: real)
    ensures WholePart(x.Floor, x) && forall n: int :: WholePart(n, x) ==> n == x.Floor
  {
  }

  /** The first check that fails names the error; a request that passes all of them is valid. */
  lemma ValidateSays(req: StartRequest, cap: Option<nat>)
    ensures Validate(req, cap) ==
      if !Positive(req) then Some(NotPositive)
      else if !DelayOk(req) then Some(NegativeDelay)
      else if req.agents >= 513.0 then Some(TooManyAgents)
      else if !RateOk(req) then Some(RateBelowAgents)
      else if !WorkersOk(req, cap) then Some(TooManyWorkers)
      else None
  {
    WholePartIs(req.agents);
  }

  /** A start is accepted exactly when the request is valid and no job is active; then one row is added. */
  ghost predicate StartSays(db: Db, after: Db, req: StartRequest, cap: Option<nat>, now: int, newId: JobId,
                            resp: StartResponse)
  {
    && (resp.Accepted? <==>
          && Positive(req) && DelayOk(req) && req.agents < 513.0 && RateOk(req) && WorkersOk(req, cap)
          && forall j | j in db.jobs :: db.jobs[j].status.Terminal())
    && (!resp.Accepted? ==> after == db)
    && (resp.Accepted? ==>
          && resp.jobId == newId && newId in after.jobs && after == Db(db.jobs[newId := after.jobs[newId]], db.spawns)
          && AsRequested(req, now, after.jobs[newId]) && after.jobs[newId].status == QUEUED)
  }

  lemma StartAnswers(db: Db, req: StartRequest, cap: Option<nat>, now: int, newId: JobId, createdAt: int)
    requires newId !in db.jobs
    ensures var (after, resp) := Start(db, req, cap, now, newId, createdAt);
      StartSays(db, after, req, cap, now, newId, resp)
  {
    ValidateSays(req, cap);
    if db.ActiveJobs() != {} {
      var j :| j in db.ActiveJobs();
      assert !db.jobs[j].status.Terminal();
    } else {
      forall j | j in db.jobs ensures db.jobs[j].status.Terminal() {
        assert j !in db.ActiveJobs();
      }
    }
  }
}
