/**
 Any number of seeder runs over one object store, step by step: sentinel checks, listing pages,
 a pool of workers that interleave single PUT attempts and counter updates, sentinel writes. A
 run that is interrupted simply takes no further step; runs may also overlap.
 */
module SeederRuns {
  import opened Naming
  import opened Seeder

  datatype Options = Options(layout: Layout, bucketCount: nat, objectSize: nat, concurrency: nat,
                             force: bool, repair: bool, dryRun: bool)

  /** Where a worker is with its job. */
  datatype Worker =
    | Free
    | Putting(job: Job, attempt: nat)  // attempts 0..5
    | Landed(job: Job)                 // acknowledged, not yet counted
    | Lost(job: Job)                   // given up, not yet counted for its bucket
    | Counted(job: Job)                // counted for its bucket, not yet in the total

  datatype Phase =
    | Checking(next: nat, todo: seq<nat>)
    | Listing(buckets: seq<nat>, present: map<nat, set<string>>, done: set<nat>)
    | Pumping(buckets: seq<nat>, plan: seq<Job>, taken: nat, workers: seq<Worker>,
              failures: seq<nat>, written: nat, failed: nat)
    | Stamping(buckets: seq<nat>, failures: seq<nat>, next: nat, attempt: nat)
    | Over

  datatype Run = Run(o: Options, phase: Phase)

  datatype Event =
    | Check(read: SentinelRead)
    | ListPage(bucket: nat, page: Page)
    | Take(worker: nat)
    | Attempt(worker: nat, body: string, outcome: Outcome)
    | Cancel(worker: nat)              // the run is cancelled during the worker's backoff
    | Settle(worker: nat)
    | StampPut(outcome: Outcome)
    | StampCancel
    | Advance

  // ---- planning ----

  function AllKeys(n: nat): seq<nat> {
    seq(n, k => k)
  }

  function Seen(present: map<nat, set<string>>, b: nat): set<string> {
    if b in present then present[b] else {}
  }

  /** Keys to write for one bucket: what listing did not show, or everything. */
  function KeysFor(o: Options, present: map<nat, set<string>>, b: nat): seq<nat> {
    if o.repair then Missing(o.layout, Seen(present, b), o.layout.keyspace) else AllKeys(o.layout.keyspace)
  }

  function JobsOf(b: nat, keys: seq<nat>): seq<Job> {
    seq(|keys|, i requires 0 <= i < |keys| => Job(b, keys[i]))
  }

  function PlanJobs(o: Options, present: map<nat, set<string>>, buckets: seq<nat>): seq<Job> {
    if buckets == [] then []
    else JobsOf(buckets[0], KeysFor(o, present, buckets[0])) + PlanJobs(o, present, buckets[1..])
  }

  function NoFailures(n: nat): seq<nat> {
    seq(n, _ => 0)
  }

  function Pump(o: Options, buckets: seq<nat>, plan: seq<Job>): Phase {
    Pumping(buckets, plan, 0, seq(o.concurrency, _ => Free), NoFailures(o.bucketCount), 0, 0)
  }

  /** After bucketsToSeed. */
  function Begin(o: Options, buckets: seq<nat>): Phase {
    if buckets == [] then Over
    else if o.repair then Listing(buckets, map[], {})
    else Pump(o, buckets, PlanJobs(o, map[], buckets))
  }

  /** After every bucket has been listed. */
  function AfterListing(o: Options, buckets: seq<nat>, present: map<nat, set<string>>): Phase {
    var plan := PlanJobs(o, present, buckets);
    if o.dryRun then Over
    else if plan == [] then Stamping(buckets, NoFailures(o.bucketCount), 0, 0)
    else Pump(o, buckets, plan)
  }

  // ---- steps ----

  function WorkerAttempt(w: Worker, outcome: Outcome): Worker
    requires w.Putting?
  {
    if outcome.Acked? then Landed(w.job)
    else if w.attempt + 1 < ATTEMPTS then w.(attempt := w.attempt + 1)
    else Lost(w.job)
  }

  predicate AllFree(workers: seq<Worker>) {
    forall w | 0 <= w < |workers| :: workers[w].Free?
  }

  /** One step of one run; an event the run is not ready for changes nothing. */
  function Step(store: Store, r: Run, e: Event): (Store, Run) {
    var o := r.o;
    match (e, r.phase)
    case (Check(read), Checking(next, todo)) =>
      if o.force || next >= o.bucketCount
         || (read.Body? && !((o.layout.BucketName(next), o.layout.SentinelKey()) in store
                              && store[(o.layout.BucketName(next), o.layout.SentinelKey())] == read.text))
      then (store, r)
      else (store, r.(phase := Checking(next + 1,
        if read == Body(o.layout.SentinelBody(o.objectSize)) then todo else todo + [next])))
    case (Advance, Checking(next, todo)) =>
      if o.force then (store, r.(phase := Begin(o, AllKeys(o.bucketCount))))
      else if next >= o.bucketCount then (store, r.(phase := Begin(o, todo)))
      else (store, r)
    case (ListPage(b, page), Listing(buckets, present, done)) =>
      if b !in buckets || b in done then (store, r)
      else if page.PageError? then (store, r.(phase := Over))
      else if exists k :: k in page.keys && (o.layout.BucketName(b), k) !in store then (store, r)
      else (store, r.(phase := Listing(buckets, present[b := Seen(present, b) + (set k | k in page.keys)],
                                       if page.Last() then done + {b} else done)))
    case (Advance, Listing(buckets, present, done)) =>
      if forall b :: b in buckets ==> b in done then (store, r.(phase := AfterListing(o, buckets, present)))
      else (store, r)
    case (Take(w), Pumping(_, plan, taken, workers, _, _, _)) =>
      if w < |workers| && workers[w].Free? && taken < |plan|
      then (store, r.(phase := r.phase.(taken := taken + 1, workers := workers[w := Putting(plan[taken], 0)])))
      else (store, r)
    case (Attempt(w, body, outcome), Pumping(_, _, _, workers, _, _, _)) =>
      if w < |workers| && workers[w].Putting? then
        (Stored(store, o.layout.BucketName(workers[w].job.bucket), o.layout.ObjectKey(workers[w].job.key),
                body, outcome),
         r.(phase := r.phase.(workers := workers[w := WorkerAttempt(workers[w], outcome)])))
      else (store, r)
    case (Cancel(w), Pumping(_, _, _, workers, _, _, _)) =>
      if w < |workers| && workers[w].Putting? && workers[w].attempt > 0
      then (store, r.(phase := r.phase.(workers := workers[w := Lost(workers[w].job)])))
      else (store, r)
    case (Settle(w), Pumping(_, _, _, workers, failures, written, failed)) =>
      if w >= |workers| then (store, r)
      else
        (match workers[w]
         case Landed(job) => (store, r.(phase := r.phase.(written := written + 1, workers := workers[w := Free])))
         case Lost(job) =>
           if job.bucket < |failures|
           then (store, r.(phase := r.phase.(failures := failures[job.bucket := failures[job.bucket] + 1],
                                             workers := workers[w := Counted(job)])))
           else (store, r)
         case Counted(job) => (store, r.(phase := r.phase.(failed := failed + 1, workers := workers[w := Free])))
         case _ => (store, r))
    case (Advance, Pumping(buckets, plan, taken, workers, failures, _, _)) =>
      if taken >= |plan| && AllFree(workers) then (store, r.(phase := Stamping(buckets, failures, 0, 0)))
      else (store, r)
    case (StampPut(outcome), Stamping(buckets, failures, next, attempt)) =>
      if next < |buckets| && buckets[next] < |failures| && failures[buckets[next]] == 0 then
        (Stored(store, o.layout.BucketName(buckets[next]), o.layout.SentinelKey(),
                o.layout.SentinelBody(o.objectSize), outcome),
         r.(phase := if outcome.Acked? then Stamping(buckets, failures, next + 1, 0)
                     else if attempt + 1 < ATTEMPTS then Stamping(buckets, failures, next, attempt + 1)
                     else Over))
      else (store, r)
    case (StampCancel, Stamping(_, _, _, attempt)) =>
      if attempt > 0 then (store, r.(phase := Over)) else (store, r)
    case (Advance, Stamping(buckets, failures, next, _)) =>
      if next >= |buckets| then (store, r.(phase := Over))
      else if buckets[next] < |failures| && failures[buckets[next]] > 0
      then (store, r.(phase := Stamping(buckets, failures, next + 1, 0)))
      else (store, r)
    case _ => (store, r)
  }

  // ---- the promise ----

  /** A sentinel body that matches a layout means all of that layout's objects are there. */
  ghost predicate Honest(store: Store, bucket: string, layout: Layout, size: nat) {
    (bucket, layout.SentinelKey()) in store && store[(bucket, layout.SentinelKey())] == layout.SentinelBody(size)
    ==> forall k: nat | k < layout.keyspace :: (bucket, layout.ObjectKey(k)) in store
  }

  ghost predicate SentinelsHonest(store: Store) {
    forall bucket, layout, size :: Honest(store, bucket, layout, size)
  }

  predicate HasObject(store: Store, o: Options, b: nat, k: nat) {
    (o.layout.BucketName(b), o.layout.ObjectKey(k)) in store
  }

  ghost predicate Queued(p: Phase, j: Job)
    requires p.Pumping?
  {
    exists i :: p.taken <= i < |p.plan| && p.plan[i] == j
  }

  ghost predicate InHand(p: Phase, j: Job)
    requires p.Pumping?
  {
    exists w :: 0 <= w < |p.workers| && (p.workers[w] == Lost(j) || (p.workers[w].Putting? && p.workers[w].job == j))
  }

  /** A key of a bucket being pumped is stored, still to be tried, in some worker's hands, or counted as failed. */
  ghost predicate Handled(store: Store, r: Run, b: nat, k: nat)
    requires r.phase.Pumping?
  {
    || HasObject(store, r.o, b, k)
    || Queued(r.phase, Job(b, k))
    || InHand(r.phase, Job(b, k))
    || (b < |r.phase.failures| && r.phase.failures[b] > 0)
  }

  ghost predicate ListedExists(store: Store, o: Options, present: map<nat, set<string>>, b: nat) {
    forall k | k in Seen(present, b) :: (o.layout.BucketName(b), k) in store
  }

  ghost predicate RunOk(store: Store, r: Run) {
    match r.phase
    case Listing(buckets, present, done) => forall b :: ListedExists(store, r.o, present, b)
    case Pumping(buckets, plan, taken, workers, failures, written, failed) =>
      && (forall b, k: nat | b in buckets && k < r.o.layout.keyspace :: Handled(store, r, b, k))
      && (forall w | 0 <= w < |workers| && workers[w].Landed? ::
            HasObject(store, r.o, workers[w].job.bucket, workers[w].job.key))
    case Stamping(buckets, failures, next, attempt) =>
      forall b, k: nat | b in buckets && k < r.o.layout.keyspace ::
        HasObject(store, r.o, b, k) || (b < |failures| && failures[b] > 0)
    case _ => true
  }

  predicate Grows(a: Store, b: Store) {
    a.Keys <= b.Keys
  }

  /** What holds of a run keeps holding while others add to the store. */
  lemma RunOkStable(a: Store, b: Store, r: Run)
    requires Grows(a, b) && RunOk(a, r)
    ensures RunOk(b, r)
  {
    match r.phase
    case Listing(buckets, present, done) =>
      forall n: nat ensures ListedExists(b, r.o, present, n) {
        assert ListedExists(a, r.o, present, n);
        forall k | k in Seen(present, n) ensures (r.o.layout.BucketName(n), k) in b {
          assert (r.o.layout.BucketName(n), k) in a.Keys;
        }
      }
    case Pumping(buckets, plan, taken, workers, failures, written, failed) =>
      forall n, k: nat | n in buckets && k < r.o.layout.keyspace ensures Handled(b, r, n, k) {
        assert Handled(a, r, n, k);
        if HasObject(a, r.o, n, k) {
          assert (r.o.layout.BucketName(n), r.o.layout.ObjectKey(k)) in a.Keys;
        }
      }
      forall w | 0 <= w < |workers| && workers[w].Landed?
        ensures HasObject(b, r.o, workers[w].job.bucket, workers[w].job.key)
      {
        assert (r.o.layout.BucketName(workers[w].job.bucket), r.o.layout.ObjectKey(workers[w].job.key)) in a.Keys;
      }
    case Stamping(buckets, failures, next, attempt) =>
      forall n, k: nat | n in buckets && k < r.o.layout.keyspace
        ensures HasObject(b, r.o, n, k) || (n < |failures| && failures[n] > 0)
      {
        if HasObject(a, r.o, n, k) {
          assert (r.o.layout.BucketName(n), r.o.layout.ObjectKey(k)) in a.Keys;
        }
      }
    case _ =>
  }
}
