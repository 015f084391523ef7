/**
 The books of one run. A log records, step by step, the listing pages it consumed, the jobs whose first
 PUT was made, those acknowledged and those given up; when the pool drains, every planned job was
 tried exactly once and the counters tell what became of it.
 */
module SeederBooks {
  import opened Sums
  import opened Seeder
  import opened SeederRuns
  import opened SeederSafety

  // ---- the log of a run ----

  datatype Log = Log(pages: map<nat, seq<Page>>, tried: seq<Job>, acked: seq<Job>, gaveUp: seq<Job>)

  const EMPTY_LOG := Log(map[], [], [], [])

  function PagesOf(pages: map<nat, seq<Page>>, b: nat): seq<Page> {
    if b in pages then pages[b] else []
  }

  /** The run is ready for this page of this bucket, and the page names only keys that exist. */
  predicate Reads(store: Store, r: Run, b: nat, page: Page) {
    && r.phase.Listing? && b in r.phase.buckets && b !in r.phase.done && page.Page?
    && forall k :: k in page.keys ==> (r.o.layout.BucketName(b), k) in store
  }

  predicate Puts(r: Run, w: nat) {
    r.phase.Pumping? && w < |r.phase.workers| && r.phase.workers[w].Putting?
  }

  function AddIf(jobs: seq<Job>, j: Job, yes: bool): seq<Job> {
    if yes then jobs + [j] else jobs
  }

  /** The log after one attempt of a worker. */
  function AfterAttempt(log: Log, worker: Worker, outcome: Outcome): Log
    requires worker.Putting?
  {
    Log(log.pages,
        AddIf(log.tried, worker.job, worker.attempt == 0),
        AddIf(log.acked, worker.job, outcome.Acked?),
        AddIf(log.gaveUp, worker.job, WorkerAttempt(worker, outcome).Lost?))
  }

  function Note(log: Log, store: Store, r: Run, e: Event): Log {
    match e
    case ListPage(b, page) =>
      if Reads(store, r, b, page) then log.(pages := log.pages[b := PagesOf(log.pages, b) + [page]]) else log
    case Attempt(w, _, outcome) =>
      if Puts(r, w) then AfterAttempt(log, r.phase.workers[w], outcome) else log
    case Cancel(w) =>
      if Puts(r, w) && r.phase.workers[w].attempt > 0
      then log.(gaveUp := log.gaveUp + [r.phase.workers[w].job]) else log
    case _ => log
  }

  datatype Traced = Traced(run: Run, log: Log)

  function TracedStep(store: Store, t: Traced, e: Event): Traced {
    Traced(Step(store, t.run, e).1, Note(t.log, store, t.run, e))
  }

  /** One run on its own, over a store others may change between its steps. */
  function RunSteps(t: Traced, steps: seq<(Store, Event)>): Traced
    decreases |steps|
  {
    if steps == [] then t else RunSteps(TracedStep(steps[0].0, t, steps[0].1), steps[1..])
  }

  function Launched(o: Options): Traced {
    Traced(Run(o, Checking(0, [])), EMPTY_LOG)
  }

  // ---- what listing has seen ----

  /** A listing read to its end. */
  predicate Complete(pages: seq<Page>) {
    && pages != [] && pages[|pages| - 1].Page? && pages[|pages| - 1].Last()
    && forall i | 0 <= i < |pages| - 1 :: !pages[i].Last()
  }

  ghost predicate BucketListed(present: map<nat, set<string>>, done: set<nat>, listed: map<nat, seq<Page>>, b: nat) {
    var pages := PagesOf(listed, b);
    && Seen(present, b) == KeysOn(pages, |pages|)
    && (if b in done then Complete(pages) else forall i | 0 <= i < |pages| :: !pages[i].Last())
  }

  /** A complete listing is exactly what the listing loop consumes of its pages. */
  lemma CompleteIsConsumed(pages: seq<Page>)
    requires Complete(pages)
    ensures Consumed(pages) == |pages|
  {
    ConsumedIs(pages, |pages| - 1);
  }

  lemma {:induction false} KeysOnPrefix(pages: seq<Page>, page: Page, n: nat)
    requires n <= |pages|
    ensures KeysOn(pages + [page], n) == KeysOn(pages, n)
  {
    if n > 0 {
      KeysOnPrefix(pages, page, n - 1);
    }
  }

  lemma NextPageListed(present: map<nat, set<string>>, done: set<nat>, listed: map<nat, seq<Page>>, b: nat, page: Page)
    requires BucketListed(present, done, listed, b) && b !in done && page.Page?
    ensures BucketListed(present[b := Seen(present, b) + page.Keys()], if page.Last() then done + {b} else done,
                         listed[b := PagesOf(listed, b) + [page]], b)
  {
    var pages := PagesOf(listed, b);
    KeysOnPrefix(pages, page, |pages|);
  }

  lemma ListBooks(store: Store, t: Traced, b: nat, page: Page)
    requires t.run.phase.Listing?
    requires forall n: nat :: BucketListed(t.run.phase.present, t.run.phase.done, t.log.pages, n)
    ensures var u := TracedStep(store, t, ListPage(b, page));
      u.run.phase.Listing? ==> forall n: nat :: BucketListed(u.run.phase.present, u.run.phase.done, u.log.pages, n)
  {
    var u := TracedStep(store, t, ListPage(b, page));
    if Reads(store, t.run, b, page) {
      assert BucketListed(t.run.phase.present, t.run.phase.done, t.log.pages, b);
      NextPageListed(t.run.phase.present, t.run.phase.done, t.log.pages, b, page);
      assert (set k | k in page.keys) == page.Keys();
      forall n: nat ensures BucketListed(u.run.phase.present, u.run.phase.done, u.log.pages, n) {
        assert BucketListed(t.run.phase.present, t.run.phase.done, t.log.pages, n);
      }
    }
  }

  // ---- the plan ----

  /** A key the run has to write: any key of its keyspace, or in repair one on none of the pages it read. */
  predicate Due(o: Options, listed: map<nat, seq<Page>>, b: nat, k: nat) {
    && k < o.layout.keyspace
    && (o.repair ==> o.layout.ObjectKey(k) !in KeysOn(PagesOf(listed, b), Consumed(PagesOf(listed, b))))
  }

  /** The plan holds exactly the due keys of the chosen buckets; in repair each was listed to its end. */
  ghost predicate Planned(o: Options, listed: map<nat, seq<Page>>, buckets: seq<nat>, plan: seq<Job>) {
    && Distinct(plan)
    && (forall b, k: nat :: Job(b, k) in plan <==> b in buckets && Due(o, listed, b, k))
    && (o.repair ==> forall b | b in buckets :: Complete(PagesOf(listed, b)))
  }

  function Total(s: seq<nat>): nat {
    if s == [] then 0 else s[0] + Total(s[1..])
  }

  lemma {:induction false} TotalUpdate(s: seq<nat>, b: nat)
    requires b < |s|
    ensures Total(s[b := s[b] + 1]) == Total(s) + 1
  {
    if b == 0 {
      assert s[b := s[b] + 1][1..] == s[1..];
    } else {
      TotalUpdate(s[1..], b - 1);
      assert s[b := s[b] + 1][1..] == s[1..][b - 1 := s[1..][b - 1] + 1];
    }
  }

  lemma {:induction false} TotalZero(n: nat)
    ensures Total(NoFailures(n)) == 0
  {
    if n > 0 {
      assert NoFailures(n)[1..] == NoFailures(n - 1);
      TotalZero(n - 1);
    }
  }

  // ---- the plan has no duplicates ----

  predicate BucketsOk(buckets: seq<nat>, n: nat) {
    Distinct(buckets) && forall i | 0 <= i < |buckets| :: buckets[i] < n
  }

  predicate JobsOk(plan: seq<Job>, buckets: seq<nat>) {
    Distinct(plan) && forall i | 0 <= i < |plan| :: plan[i].bucket in buckets
  }

  lemma KeysDistinct(o: Options, present: map<nat, set<string>>, b: nat)
    ensures Distinct(KeysFor(o, present, b))
  {
    if o.repair {
      MissingExact(o.layout, Seen(present, b), o.layout.keyspace);
    }
  }

  lemma {:induction false} PlanDistinct(o: Options, present: map<nat, set<string>>, buckets: seq<nat>)
    requires Distinct(buckets)
    ensures JobsOk(PlanJobs(o, present, buckets), buckets)
  {
    if buckets != [] {
      var b, rest := buckets[0], buckets[1..];
      PlanDistinct(o, present, rest);
      KeysDistinct(o, present, b);
    }
  }

  lemma PlanIsDue(o: Options, present: map<nat, set<string>>, listed: map<nat, seq<Page>>, buckets: seq<nat>)
    requires Distinct(buckets)
    requires o.repair ==> forall b | b in buckets ::
      Complete(PagesOf(listed, b)) && Seen(present, b) == KeysOn(PagesOf(listed, b), |PagesOf(listed, b)|)
    ensures Planned(o, listed, buckets, PlanJobs(o, present, buckets))
  {
    PlanDistinct(o, present, buckets);
    forall b, k: nat
      ensures Job(b, k) in PlanJobs(o, present, buckets) <==> b in buckets && Due(o, listed, b, k)
    {
      PlanExact(o, present, buckets, b, k);
      if o.repair && b in buckets {
        CompleteIsConsumed(PagesOf(listed, b));
      }
    }
  }

  // ---- counting jobs ----

  /** The jobs a count is about. */
  datatype Which = Any | One(job: Job) | InBucket(bucket: nat) {
    predicate Picks(j: Job) {
      Any? || (One? && j == job) || (InBucket? && j.bucket == bucket)
    }
  }

  function Number(jobs: seq<Job>, which: Which): nat {
    if jobs == [] then 0
    else Number(jobs[..|jobs| - 1], which) + (if which.Picks(jobs[|jobs| - 1]) then 1 else 0)
  }

  lemma {:induction false} NumberAny(jobs: seq<Job>)
    ensures Number(jobs, Any) == |jobs|
  {
    if jobs != [] {
      NumberAny(jobs[..|jobs| - 1]);
    }
  }

  lemma {:induction false} NumberOne(jobs: seq<Job>, j: Job)
    ensures Number(jobs, One(j)) == multiset(jobs)[j]
  {
    if jobs != [] {
      NumberOne(jobs[..|jobs| - 1], j);
      assert jobs == jobs[..|jobs| - 1] + [jobs[|jobs| - 1]];
    }
  }

  lemma {:induction false} DistinctOnce(jobs: seq<Job>, j: Job)
    requires Distinct(jobs)
    ensures Number(jobs, One(j)) == if j in jobs then 1 else 0
  {
    if jobs != [] {
      var init := jobs[..|jobs| - 1];
      DistinctOnce(init, j);
      assert jobs == init + [jobs[|jobs| - 1]];
    }
  }

  /** Counts by bucket add up to the length of the list. */
  lemma {:induction false} BucketsAddUp(jobs: seq<Job>, counts: seq<nat>)
    requires InRange(jobs, |counts|)
    requires forall b | 0 <= b < |counts| :: counts[b] == Number(jobs, InBucket(b))
    ensures Total(counts) == |jobs|
  {
    if jobs == [] {
      assert counts == NoFailures(|counts|);
      TotalZero(|counts|);
    } else {
      var init, c := jobs[..|jobs| - 1], jobs[|jobs| - 1].bucket;
      var before := counts[c := Number(init, InBucket(c))];
      BucketsAddUp(init, before);
      TotalUpdate(before, c);
      assert counts == before[c := before[c] + 1];
    }
  }

  /** What a worker has still to do for its job. */
  datatype Stage = Untried | Unsettled | Unwritten | Uncounted | Untotalled {
    predicate At(w: Worker) {
      match this
      case Untried => w.Putting? && w.attempt == 0
      case Unsettled => w.Putting?
      case Unwritten => w.Landed?
      case Uncounted => w.Lost?
      case Untotalled => w.Lost? || w.Counted?
    }
  }

  function Weight(w: Worker, stage: Stage, which: Which): nat {
    if stage.At(w) && which.Picks(w.job) then 1 else 0
  }

  /** Workers at a stage of a job that is meant. */
  function Hands(workers: seq<Worker>, stage: Stage, which: Which): nat {
    if workers == [] then 0 else Weight(workers[0], stage, which) + Hands(workers[1..], stage, which)
  }

  lemma {:induction false} HandsMove(workers: seq<Worker>, w: nat, x: Worker, stage: Stage, which: Which)
    requires w < |workers|
    ensures Hands(workers[w := x], stage, which)
         == Hands(workers, stage, which) - Weight(workers[w], stage, which) + Weight(x, stage, which)
  {
    if w == 0 {
      assert workers[w := x][1..] == workers[1..];
    } else {
      HandsMove(workers[1..], w - 1, x, stage, which);
      assert workers[w := x][1..] == workers[1..][w - 1 := x];
    }
  }

  lemma {:induction false} HandsEmpty(workers: seq<Worker>, stage: Stage, which: Which)
    requires AllFree(workers)
    ensures Hands(workers, stage, which) == 0
  {
    if workers != [] {
      HandsEmpty(workers[1..], stage, which);
    }
  }

  // ---- the books ----

  predicate InRange(jobs: seq<Job>, n: nat) {
    forall i | 0 <= i < |jobs| :: jobs[i].bucket < n
  }

  /** Jobs taken are tried or about to be; and acknowledged, given up or still in hand. */
  predicate Balanced(taken: seq<Job>, workers: seq<Worker>, log: Log, which: Which) {
    && Number(log.tried, which) + Hands(workers, Untried, which) == Number(taken, which)
    && Number(log.acked, which) + Number(log.gaveUp, which) + Hands(workers, Unsettled, which) == Number(taken, which)
  }

  /** The counter of bucket b lags behind the log by what the workers have still to count for it. */
  predicate BucketBalanced(workers: seq<Worker>, failures: seq<nat>, gaveUp: seq<Job>, b: nat) {
    b < |failures| ==> failures[b] + Hands(workers, Uncounted, InBucket(b)) == Number(gaveUp, InBucket(b))
  }

  /** So do the totals. */
  predicate TotalsBalanced(workers: seq<Worker>, written: nat, failed: nat, log: Log) {
    && written + Hands(workers, Unwritten, Any) == Number(log.acked, Any)
    && failed + Hands(workers, Untotalled, Any) == Number(log.gaveUp, Any)
  }

  predicate WorkersInRange(workers: seq<Worker>, n: nat) {
    forall w | 0 <= w < |workers| && !workers[w].Free? :: workers[w].job.bucket < n
  }

  /** The accounts of the pool: every job taken, every counter. */
  ghost predicate Accounts(taken: seq<Job>, workers: seq<Worker>, failures: seq<nat>, written: nat, failed: nat,
                           log: Log)
  {
    && (forall which :: Balanced(taken, workers, log, which))
    && (forall b: nat :: BucketBalanced(workers, failures, log.gaveUp, b))
    && TotalsBalanced(workers, written, failed, log)
    && InRange(taken, |failures|) && InRange(log.gaveUp, |failures|) && WorkersInRange(workers, |failures|)
  }

  ghost predicate PoolBooks(p: Phase, log: Log, n: nat)
    requires p.Pumping?
  {
    && p.taken <= |p.plan| && |p.failures| == n && InRange(p.plan, n)
    && Accounts(p.plan[..p.taken], p.workers, p.failures, p.written, p.failed, log)
  }

  predicate NothingTried(log: Log) {
    log.tried == [] && log.acked == [] && log.gaveUp == []
  }

  ghost predicate Books(t: Traced) {
    match t.run.phase
    case Checking(next, todo) => t.log == EMPTY_LOG && BucketsOk(todo, next) && next <= t.run.o.bucketCount
    case Listing(buckets, present, done) =>
      && t.run.o.repair && BucketsOk(buckets, t.run.o.bucketCount) && NothingTried(t.log)
      && forall b: nat :: BucketListed(present, done, t.log.pages, b)
    case Pumping(buckets, plan, taken, workers, failures, written, failed) =>
      && BucketsOk(buckets, t.run.o.bucketCount) && Planned(t.run.o, t.log.pages, buckets, plan)
      && PoolBooks(t.run.phase, t.log, t.run.o.bucketCount)
    case _ => true
  }

  lemma FreshPool(o: Options, log: Log, buckets: seq<nat>, plan: seq<Job>)
    requires NothingTried(log) && Planned(o, log.pages, buckets, plan)
    requires BucketsOk(buckets, o.bucketCount) && JobsOk(plan, buckets)
    ensures Books(Traced(Run(o, Pump(o, buckets, plan)), log))
  {
    var workers := seq(o.concurrency, _ => Free);
    forall stage, which ensures Hands(workers, stage, which) == 0 {
      HandsEmpty(workers, stage, which);
    }
    assert plan[..0] == [];
  }

  lemma BeginBooks(o: Options, buckets: seq<nat>)
    requires BucketsOk(buckets, o.bucketCount)
    ensures Books(Traced(Run(o, Begin(o, buckets)), EMPTY_LOG))
  {
    if !o.repair {
      PlanDistinct(o, map[], buckets);
      PlanIsDue(o, map[], map[], buckets);
      FreshPool(o, EMPTY_LOG, buckets, PlanJobs(o, map[], buckets));
    }
  }

  lemma ListedBooks(t: Traced)
    requires t.run.phase.Listing? && Books(t) && forall b :: b in t.run.phase.buckets ==> b in t.run.phase.done
    ensures var p := t.run.phase;
      Books(Traced(Run(t.run.o, AfterListing(t.run.o, p.buckets, p.present)), t.log))
  {
    var o, p := t.run.o, t.run.phase;
    PlanDistinct(o, p.present, p.buckets);
    assert forall b | b in p.buckets :: BucketListed(p.present, p.done, t.log.pages, b);
    PlanIsDue(o, p.present, t.log.pages, p.buckets);
    FreshPool(o, t.log, p.buckets, PlanJobs(o, p.present, p.buckets));
  }

  // ---- a worker moves on ----

  /** Only worker w changes, to x. */
  predicate Moves(workers: seq<Worker>, after: seq<Worker>, w: nat, x: Worker) {
    w < |workers| && after == workers[w := x]
  }

  lemma TakenJob(taken: seq<Job>, workers: seq<Worker>, after: seq<Worker>, log: Log, w: nat, j: Job, which: Which)
    requires Moves(workers, after, w, Putting(j, 0)) && workers[w].Free? && Balanced(taken, workers, log, which)
    ensures Balanced(taken + [j], after, log, which)
  {
    HandsMove(workers, w, Putting(j, 0), Untried, which);
    HandsMove(workers, w, Putting(j, 0), Unsettled, which);
  }

  lemma TakenCounters(workers: seq<Worker>, after: seq<Worker>, failures: seq<nat>, written: nat, failed: nat, log: Log,
                      w: nat, j: Job)
    requires Moves(workers, after, w, Putting(j, 0)) && workers[w].Free?
    requires TotalsBalanced(workers, written, failed, log)
    requires forall b: nat :: BucketBalanced(workers, failures, log.gaveUp, b)
    ensures TotalsBalanced(after, written, failed, log)
    ensures forall b: nat :: BucketBalanced(after, failures, log.gaveUp, b)
  {
    HandsMove(workers, w, Putting(j, 0), Unwritten, Any);
    HandsMove(workers, w, Putting(j, 0), Untotalled, Any);
    forall b: nat ensures BucketBalanced(after, failures, log.gaveUp, b) {
      assert BucketBalanced(workers, failures, log.gaveUp, b);
      HandsMove(workers, w, Putting(j, 0), Uncounted, InBucket(b));
    }
  }

  lemma TakeAccounts(taken: seq<Job>, workers: seq<Worker>, after: seq<Worker>, failures: seq<nat>,
                     written: nat, failed: nat, log: Log, w: nat, j: Job)
    requires Accounts(taken, workers, failures, written, failed, log)
    requires Moves(workers, after, w, Putting(j, 0)) && workers[w].Free? && j.bucket < |failures|
    ensures Accounts(taken + [j], after, failures, written, failed, log)
  {
    var more := taken + [j];
    forall which ensures Balanced(more, after, log, which) {
      assert Balanced(taken, workers, log, which);
      TakenJob(taken, workers, after, log, w, j, which);
    }
    TakenCounters(workers, after, failures, written, failed, log, w, j);
  }

  lemma FirstAttempt(taken: seq<Job>, workers: seq<Worker>, w: nat, outcome: Outcome, tried: seq<Job>, which: Which)
    requires w < |workers| && workers[w].Putting?
    requires Number(tried, which) + Hands(workers, Untried, which) == Number(taken, which)
    ensures Number(AddIf(tried, workers[w].job, workers[w].attempt == 0), which)
         + Hands(workers[w := WorkerAttempt(workers[w], outcome)], Untried, which) == Number(taken, which)
  {
    HandsMove(workers, w, WorkerAttempt(workers[w], outcome), Untried, which);
  }

  lemma AttemptHands(workers: seq<Worker>, w: nat, outcome: Outcome, which: Which)
    requires w < |workers| && workers[w].Putting?
    ensures var y, x := workers[w], WorkerAttempt(workers[w], outcome);
      Hands(workers[w := x], Unsettled, which)
      == Hands(workers, Unsettled, which) - (if (outcome.Acked? || x.Lost?) && which.Picks(y.job) then 1 else 0)
  {
    HandsMove(workers, w, WorkerAttempt(workers[w], outcome), Unsettled, which);
  }

  lemma AttemptNumbers(y: Worker, outcome: Outcome, acked: seq<Job>, gaveUp: seq<Job>, which: Which)
    requires y.Putting?
    ensures var x := WorkerAttempt(y, outcome);
      Number(AddIf(acked, y.job, outcome.Acked?), which) + Number(AddIf(gaveUp, y.job, x.Lost?), which)
      == Number(acked, which) + Number(gaveUp, which)
         + (if (outcome.Acked? || x.Lost?) && which.Picks(y.job) then 1 else 0)
  {
  }

  /** A first attempt is noted as such; the job stays in hand until it is acknowledged or given up. */
  lemma AttemptedJob(taken: seq<Job>, workers: seq<Worker>, after: seq<Worker>, log: Log, w: nat,
                     outcome: Outcome, which: Which)
    requires w < |workers| && workers[w].Putting? && Moves(workers, after, w, WorkerAttempt(workers[w], outcome))
    requires Balanced(taken, workers, log, which)
    ensures Balanced(taken, after, AfterAttempt(log, workers[w], outcome), which)
  {
    FirstAttempt(taken, workers, w, outcome, log.tried, which);
    AttemptHands(workers, w, outcome, which);
    AttemptNumbers(workers[w], outcome, log.acked, log.gaveUp, which);
  }

  lemma AttemptWeights(y: Worker, outcome: Outcome, which: Which)
    requires y.Putting?
    ensures var x := WorkerAttempt(y, outcome);
      var n := if which.Picks(y.job) then 1 else 0;
      && Weight(y, Untried, which) == (if y.attempt == 0 then n else 0) && Weight(x, Untried, which) == 0
      && Weight(y, Unsettled, which) == n
      && Weight(x, Unsettled, which) == (if outcome.Acked? || x.Lost? then 0 else n)
      && Weight(y, Unwritten, which) == 0 && Weight(x, Unwritten, which) == (if outcome.Acked? then n else 0)
      && Weight(y, Untotalled, which) == 0 && Weight(x, Untotalled, which) == (if x.Lost? then n else 0)
      && !(outcome.Acked? && x.Lost?)
  {
  }

  lemma AttemptTotals(workers: seq<Worker>, after: seq<Worker>, w: nat, outcome: Outcome, written: nat, failed: nat,
                      log: Log)
    requires w < |workers| && workers[w].Putting? && Moves(workers, after, w, WorkerAttempt(workers[w], outcome))
    requires TotalsBalanced(workers, written, failed, log)
    ensures TotalsBalanced(after, written, failed, AfterAttempt(log, workers[w], outcome))
  {
    var y, x := workers[w], WorkerAttempt(workers[w], outcome);
    AttemptWeights(y, outcome, Any);
    HandsMove(workers, w, x, Unwritten, Any);
    HandsMove(workers, w, x, Untotalled, Any);
  }

  lemma AttemptBucket(workers: seq<Worker>, after: seq<Worker>, w: nat, outcome: Outcome, failures: seq<nat>,
                      log: Log, b: nat)
    requires w < |workers| && workers[w].Putting? && Moves(workers, after, w, WorkerAttempt(workers[w], outcome))
    requires BucketBalanced(workers, failures, log.gaveUp, b)
    ensures BucketBalanced(after, failures, AfterAttempt(log, workers[w], outcome).gaveUp, b)
  {
    var y, x := workers[w], WorkerAttempt(workers[w], outcome);
    HandsMove(workers, w, x, Uncounted, InBucket(b));
  }

  lemma AttemptBuckets(workers: seq<Worker>, after: seq<Worker>, w: nat, outcome: Outcome, failures: seq<nat>, log: Log)
    requires w < |workers| && workers[w].Putting? && Moves(workers, after, w, WorkerAttempt(workers[w], outcome))
    requires forall b: nat :: BucketBalanced(workers, failures, log.gaveUp, b)
    ensures forall b: nat :: BucketBalanced(after, failures, AfterAttempt(log, workers[w], outcome).gaveUp, b)
  {
    var gaveUp := AfterAttempt(log, workers[w], outcome).gaveUp;
    forall b: nat ensures BucketBalanced(after, failures, gaveUp, b) {
      assert BucketBalanced(workers, failures, log.gaveUp, b);
      AttemptBucket(workers, after, w, outcome, failures, log, b);
    }
  }

  lemma AttemptJobs(taken: seq<Job>, workers: seq<Worker>, after: seq<Worker>, log: Log, w: nat, outcome: Outcome)
    requires w < |workers| && workers[w].Putting? && Moves(workers, after, w, WorkerAttempt(workers[w], outcome))
    requires forall which :: Balanced(taken, workers, log, which)
    ensures forall which :: Balanced(taken, after, AfterAttempt(log, workers[w], outcome), which)
  {
    var log2 := AfterAttempt(log, workers[w], outcome);
    forall which ensures Balanced(taken, after, log2, which) {
      assert Balanced(taken, workers, log, which);
      AttemptedJob(taken, workers, after, log, w, outcome, which);
    }
  }

  lemma AttemptRange(workers: seq<Worker>, after: seq<Worker>, w: nat, outcome: Outcome, log: Log, n: nat)
    requires w < |workers| && workers[w].Putting? && Moves(workers, after, w, WorkerAttempt(workers[w], outcome))
    requires InRange(log.gaveUp, n) && WorkersInRange(workers, n)
    ensures InRange(AfterAttempt(log, workers[w], outcome).gaveUp, n) && WorkersInRange(after, n)
  {
    assert workers[w].job.bucket < n;
  }

  lemma AttemptAccounts(taken: seq<Job>, workers: seq<Worker>, after: seq<Worker>, failures: seq<nat>,
                        written: nat, failed: nat, log: Log, w: nat, outcome: Outcome)
    requires w < |workers| && workers[w].Putting? && Moves(workers, after, w, WorkerAttempt(workers[w], outcome))
    requires Accounts(taken, workers, failures, written, failed, log)
    ensures Accounts(taken, after, failures, written, failed, AfterAttempt(log, workers[w], outcome))
  {
    AttemptJobs(taken, workers, after, log, w, outcome);
    AttemptBuckets(workers, after, w, outcome, failures, log);
    AttemptTotals(workers, after, w, outcome, written, failed, log);
    AttemptRange(workers, after, w, outcome, log, |failures|);
  }

  /** Giving up in a backoff does to the books what a failed last attempt does. */
  lemma CancelAccounts(taken: seq<Job>, workers: seq<Worker>, failures: seq<nat>, written: nat, failed: nat, log: Log,
                       w: nat)
    requires Accounts(taken, workers, failures, written, failed, log)
    requires w < |workers| && workers[w].Putting? && workers[w].attempt > 0
    ensures Accounts(taken, workers[w := Lost(workers[w].job)], failures, written, failed,
                     log.(gaveUp := log.gaveUp + [workers[w].job]))
  {
    var last := workers[w].(attempt := ATTEMPTS);
    var same := workers[w := last];
    forall stage, which ensures Hands(same, stage, which) == Hands(workers, stage, which) {
      HandsMove(workers, w, last, stage, which);
    }
    forall which ensures Balanced(taken, same, log, which) {
      assert Balanced(taken, workers, log, which);
    }
    forall b: nat ensures BucketBalanced(same, failures, log.gaveUp, b) {
      assert BucketBalanced(workers, failures, log.gaveUp, b);
    }
    AttemptAccounts(taken, same, same[w := Lost(last.job)], failures, written, failed, log, w, NotStored);
    assert same[w := Lost(last.job)] == workers[w := Lost(workers[w].job)];
  }

  lemma SettledJob(taken: seq<Job>, workers: seq<Worker>, after: seq<Worker>, log: Log, w: nat, x: Worker, which: Which)
    requires Moves(workers, after, w, x) && !workers[w].Putting? && !x.Putting? && Balanced(taken, workers, log, which)
    ensures Balanced(taken, after, log, which)
  {
    HandsMove(workers, w, x, Untried, which);
    HandsMove(workers, w, x, Unsettled, which);
  }

  /** Acknowledged or given up: what the worker turns to once it has counted its job. */
  predicate Settling(w: Worker, x: Worker) {
    (w.Landed? || w.Lost? || w.Counted?) && x == if w.Lost? then Counted(w.job) else Free
  }

  lemma SettledTotals(workers: seq<Worker>, after: seq<Worker>, w: nat, x: Worker, written: nat, failed: nat, log: Log)
    requires Moves(workers, after, w, x) && Settling(workers[w], x) && TotalsBalanced(workers, written, failed, log)
    ensures TotalsBalanced(after, if workers[w].Landed? then written + 1 else written,
                           if workers[w].Counted? then failed + 1 else failed, log)
  {
    HandsMove(workers, w, x, Unwritten, Any);
    HandsMove(workers, w, x, Untotalled, Any);
  }

  function CountFor(failures: seq<nat>, worker: Worker): seq<nat> {
    if worker.Lost? && worker.job.bucket < |failures|
    then failures[worker.job.bucket := failures[worker.job.bucket] + 1] else failures
  }

  lemma SettledBucket(workers: seq<Worker>, after: seq<Worker>, w: nat, x: Worker, failures: seq<nat>,
                      gaveUp: seq<Job>, b: nat)
    requires Moves(workers, after, w, x) && !x.Lost? && BucketBalanced(workers, failures, gaveUp, b)
    requires workers[w].Lost? ==> workers[w].job.bucket < |failures|
    ensures BucketBalanced(after, CountFor(failures, workers[w]), gaveUp, b)
  {
    HandsMove(workers, w, x, Uncounted, InBucket(b));
  }

  lemma SettleAccounts(taken: seq<Job>, workers: seq<Worker>, after: seq<Worker>, failures: seq<nat>,
                       written: nat, failed: nat, log: Log, w: nat, x: Worker)
    requires Accounts(taken, workers, failures, written, failed, log)
    requires Moves(workers, after, w, x) && Settling(workers[w], x)
    ensures Accounts(taken, after, CountFor(failures, workers[w]), if workers[w].Landed? then written + 1 else written,
                     if workers[w].Counted? then failed + 1 else failed, log)
  {
    var counted := CountFor(failures, workers[w]);
    forall which ensures Balanced(taken, after, log, which) {
      assert Balanced(taken, workers, log, which);
      SettledJob(taken, workers, after, log, w, x, which);
    }
    forall b: nat ensures BucketBalanced(after, counted, log.gaveUp, b) {
      assert BucketBalanced(workers, failures, log.gaveUp, b);
      SettledBucket(workers, after, w, x, failures, log.gaveUp, b);
    }
    SettledTotals(workers, after, w, x, written, failed, log);
  }

  // ---- every step keeps the books ----

  lemma TakeBooks(store: Store, t: Traced, w: nat)
    requires t.run.phase.Pumping? && Books(t)
    ensures Books(TracedStep(store, t, Take(w)))
  {
    var p := t.run.phase;
    if w < |p.workers| && p.workers[w].Free? && p.taken < |p.plan| {
      var j := p.plan[p.taken];
      TakeAccounts(p.plan[..p.taken], p.workers, p.workers[w := Putting(j, 0)], p.failures, p.written, p.failed,
                   t.log, w, j);
      assert p.plan[..p.taken + 1] == p.plan[..p.taken] + [j];
    }
  }

  lemma AttemptBooks(store: Store, t: Traced, w: nat, body: string, outcome: Outcome)
    requires t.run.phase.Pumping? && Books(t)
    ensures Books(TracedStep(store, t, Attempt(w, body, outcome)))
  {
    var p := t.run.phase;
    if Puts(t.run, w) {
      AttemptAccounts(p.plan[..p.taken], p.workers, p.workers[w := WorkerAttempt(p.workers[w], outcome)], p.failures,
                      p.written, p.failed, t.log, w, outcome);
    }
  }

  lemma CancelBooks(store: Store, t: Traced, w: nat)
    requires t.run.phase.Pumping? && Books(t)
    ensures Books(TracedStep(store, t, Cancel(w)))
  {
    var p := t.run.phase;
    if Puts(t.run, w) && p.workers[w].attempt > 0 {
      CancelAccounts(p.plan[..p.taken], p.workers, p.failures, p.written, p.failed, t.log, w);
    }
  }

  lemma SettleBooks(store: Store, t: Traced, w: nat)
    requires t.run.phase.Pumping? && Books(t)
    ensures Books(TracedStep(store, t, Settle(w)))
  {
    var p := t.run.phase;
    if w < |p.workers| && !p.workers[w].Free? && !p.workers[w].Putting? {
      var x := if p.workers[w].Lost? then Counted(p.workers[w].job) else Free;
      SettleAccounts(p.plan[..p.taken], p.workers, p.workers[w := x], p.failures, p.written, p.failed, t.log, w, x);
    }
  }

  lemma CheckBooks(store: Store, t: Traced, read: SentinelRead)
    requires t.run.phase.Checking? && Books(t)
    ensures Books(TracedStep(store, t, Check(read)))
  {
  }

  lemma AdvanceBooks(store: Store, t: Traced)
    requires Books(t) && !t.run.phase.Pumping?
    ensures Books(TracedStep(store, t, Advance))
  {
    var o := t.run.o;
    match t.run.phase
    case Checking(next, todo) =>
      BeginBooks(o, AllKeys(o.bucketCount));
      if next >= o.bucketCount {
        BeginBooks(o, todo);
      }
    case Listing(buckets, present, done) =>
      if forall b :: b in buckets ==> b in done {
        ListedBooks(t);
      }
    case _ =>
  }

  lemma PoolStepBooks(store: Store, t: Traced, e: Event)
    requires t.run.phase.Pumping? && Books(t)
    ensures Books(TracedStep(store, t, e))
  {
    match e
    case Take(w) => TakeBooks(store, t, w);
    case Attempt(w, body, outcome) => AttemptBooks(store, t, w, body, outcome);
    case Cancel(w) => CancelBooks(store, t, w);
    case Settle(w) => SettleBooks(store, t, w);
    case _ =>
  }

  lemma StepBooks(store: Store, t: Traced, e: Event)
    requires Books(t)
    ensures Books(TracedStep(store, t, e)) && TracedStep(store, t, e).run.o == t.run.o
  {
    if t.run.phase.Pumping? {
      PoolStepBooks(store, t, e);
    } else if e.Advance? {
      AdvanceBooks(store, t);
    } else if e.Check? && t.run.phase.Checking? {
      CheckBooks(store, t, e.read);
    } else if e.ListPage? && t.run.phase.Listing? {
      ListBooks(store, t, e.bucket, e.page);
    }
  }

  lemma {:induction false} RunBooks(t: Traced, steps: seq<(Store, Event)>)
    requires Books(t)
    ensures Books(RunSteps(t, steps)) && RunSteps(t, steps).run.o == t.run.o
    decreases |steps|
  {
    if steps != [] {
      StepBooks(steps[0].0, t, steps[0].1);
      RunBooks(TracedStep(steps[0].0, t, steps[0].1), steps[1..]);
    }
  }

  // ---- what the books say ----

  /** At any moment, interrupted or not, no job has been tried twice and every job tried was due. */
  lemma NeverTwice(o: Options, steps: seq<(Store, Event)>, j: Job)
    requires RunSteps(Launched(o), steps).run.phase.Pumping?
    ensures var t := RunSteps(Launched(o), steps);
      && multiset(t.log.tried)[j] <= 1
      && (j in t.log.tried ==> j.bucket in t.run.phase.buckets && Due(o, t.log.pages, j.bucket, j.key))
  {
    RunBooks(Launched(o), steps);
    var t := RunSteps(Launched(o), steps);
    var p := t.run.phase;
    assert Balanced(p.plan[..p.taken], p.workers, t.log, One(j));
    NumberOne(t.log.tried, j);
    DistinctOnce(p.plan[..p.taken], j);
    assert j in p.plan[..p.taken] ==> j in p.plan;
    assert j == Job(j.bucket, j.key);
  }

  ghost predicate Drained(t: Traced) {
    t.run.phase.Pumping? && t.run.phase.taken >= |t.run.phase.plan| && AllFree(t.run.phase.workers)
  }

  /**
   When the pool drains, each due key of each chosen bucket was tried exactly once and nothing else was;
   in repair the due keys are those on none of the pages the run read of that bucket, to the end.
   */
  lemma TriedExactlyOnce(o: Options, steps: seq<(Store, Event)>, b: nat, k: nat)
    requires Drained(RunSteps(Launched(o), steps))
    ensures var t := RunSteps(Launched(o), steps);
      && multiset(t.log.tried)[Job(b, k)] == (if b in t.run.phase.buckets && Due(o, t.log.pages, b, k) then 1 else 0)
      && (o.repair && b in t.run.phase.buckets ==> Complete(PagesOf(t.log.pages, b)))
  {
    RunBooks(Launched(o), steps);
    var t := RunSteps(Launched(o), steps);
    var p := t.run.phase;
    assert p.plan[..p.taken] == p.plan;
    assert Balanced(p.plan, p.workers, t.log, One(Job(b, k)));
    HandsEmpty(p.workers, Untried, One(Job(b, k)));
    NumberOne(t.log.tried, Job(b, k));
    DistinctOnce(p.plan, Job(b, k));
  }

  lemma DrainedBalance(t: Traced, j: Job)
    requires Books(t) && Drained(t)
    ensures var l, plan := t.log, t.run.phase.plan;
      && multiset(l.tried)[j] == multiset(plan)[j]
      && multiset(l.acked)[j] + multiset(l.gaveUp)[j] == multiset(plan)[j]
  {
    var p := t.run.phase;
    assert p.plan[..p.taken] == p.plan;
    assert Balanced(p.plan, p.workers, t.log, One(j));
    HandsEmpty(p.workers, Untried, One(j));
    HandsEmpty(p.workers, Unsettled, One(j));
    NumberOne(t.log.tried, j);
    NumberOne(t.log.acked, j);
    NumberOne(t.log.gaveUp, j);
    NumberOne(p.plan, j);
  }

  lemma DrainedJobs(t: Traced)
    requires Books(t) && Drained(t)
    ensures var l, plan := t.log, t.run.phase.plan;
      && multiset(l.tried) == multiset(plan)
      && multiset(l.acked) + multiset(l.gaveUp) == multiset(plan)
      && |l.acked| + |l.gaveUp| == |plan|
  {
    var l, plan := t.log, t.run.phase.plan;
    var tried, settled, planned := multiset(l.tried), multiset(l.acked) + multiset(l.gaveUp), multiset(plan);
    forall j ensures tried[j] == planned[j] && settled[j] == planned[j] {
      DrainedBalance(t, j);
    }
    assert settled == planned;
    assert |settled| == |l.acked| + |l.gaveUp| && |planned| == |plan|;
  }

  lemma DrainedCounters(t: Traced)
    requires Books(t) && Drained(t)
    ensures var p := t.run.phase;
      && p.written == |t.log.acked| && p.failed == |t.log.gaveUp|
      && |p.failures| == t.run.o.bucketCount
      && (forall b: nat | b < |p.failures| :: p.failures[b] == Number(t.log.gaveUp, InBucket(b)))
      && Total(p.failures) == p.failed
  {
    var p := t.run.phase;
    HandsEmpty(p.workers, Unwritten, Any);
    HandsEmpty(p.workers, Untotalled, Any);
    NumberAny(t.log.acked);
    NumberAny(t.log.gaveUp);
    forall b: nat | b < |p.failures| ensures p.failures[b] == Number(t.log.gaveUp, InBucket(b)) {
      assert BucketBalanced(p.workers, p.failures, t.log.gaveUp, b);
      HandsEmpty(p.workers, Uncounted, InBucket(b));
    }
    BucketsAddUp(t.log.gaveUp, p.failures);
  }

  /**
   When the pool drains, the jobs tried are the planned ones, once each; each was acknowledged or given
   up; written and failed count the two, each bucket's failures are its own jobs given up, and the
   failures of all buckets add up to failed.
   */
  lemma PoolDrained(o: Options, steps: seq<(Store, Event)>)
    requires Drained(RunSteps(Launched(o), steps))
    ensures var t := RunSteps(Launched(o), steps);
      var p := t.run.phase;
      && Planned(o, t.log.pages, p.buckets, p.plan)
      && multiset(t.log.tried) == multiset(p.plan)
      && multiset(t.log.acked) + multiset(t.log.gaveUp) == multiset(p.plan)
      && p.written == |t.log.acked| && p.failed == |t.log.gaveUp| && p.written + p.failed == |p.plan|
      && (forall b: nat | b < |p.failures| :: p.failures[b] == Number(t.log.gaveUp, InBucket(b)))
      && Total(p.failures) == p.failed
  {
    RunBooks(Launched(o), steps);
    var t := RunSteps(Launched(o), steps);
    var p := t.run.phase;
    DrainedCounters(t);
    DrainedJobs(t);
  }
}
