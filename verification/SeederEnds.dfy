/**
 How a run ends. Marks record which sentinels its checks found matching, which it tried to write, which
 were acknowledged, and whether it was cut short; a run that comes to its end uncut has dealt with
 every bucket, and what it stamped is still there while runs that share its keys share its shape.
 */
module SeederEnds {
  import opened Sums
  import opened Naming
  import opened Seeder
  import opened SeederRuns
  import opened SeederSafety
  import opened SeederBooks
  import opened SeederWhole

  datatype Marks = Marks(matched: set<nat>, put: set<nat>, stamped: set<nat>, cut: bool)

  function SentinelAt(o: Options, b: nat): (string, string) {
    (o.layout.BucketName(b), o.layout.SentinelKey())
  }

  predicate HoldsSentinel(store: Store, o: Options, b: nat) {
    SentinelAt(o, b) in store && store[SentinelAt(o, b)] == o.layout.SentinelBody(o.objectSize)
  }

  /** A failed listing, a dry run, a sentinel refused six times and a cancelled backoff cut a run short. */
  function Mark(m: Marks, store: Store, r: Run, e: Event): Marks {
    match (e, r.phase)
    case (Check(read), Checking(next, todo)) =>
      if !r.o.force && next < r.o.bucketCount && HoldsSentinel(store, r.o, next)
         && read == Body(r.o.layout.SentinelBody(r.o.objectSize))
      then m.(matched := m.matched + {next}) else m
    case (ListPage(b, page), Listing(buckets, present, done)) =>
      if b in buckets && b !in done && page.PageError? then m.(cut := true) else m
    case (Advance, Listing(buckets, present, done)) =>
      if r.o.dryRun && forall b :: b in buckets ==> b in done then m.(cut := true) else m
    case (StampPut(outcome), Stamping(buckets, failures, next, attempt)) =>
      if next < |buckets| && buckets[next] < |failures| && failures[buckets[next]] == 0 then
        Marks(m.matched, m.put + {buckets[next]}, if outcome.Acked? then m.stamped + {buckets[next]} else m.stamped,
              m.cut || (!outcome.Acked? && attempt + 1 >= 6))
      else m
    case (StampCancel, Stamping(buckets, failures, next, attempt)) =>
      if attempt > 0 then m.(cut := true) else m
    case _ => m
  }

  datatype Marked = Marked(t: Traced, m: Marks)

  function MarkedStep(store: Store, x: Marked, e: Event): Marked {
    Marked(TracedStep(store, x.t, e), Mark(x.m, store, x.t.run, e))
  }

  function MarkedSteps(x: Marked, steps: seq<(Store, Event)>): Marked
    decreases |steps|
  {
    if steps == [] then x else MarkedSteps(MarkedStep(steps[0].0, x, steps[0].1), steps[1..])
  }

  function Beginning(o: Options): Marked {
    Marked(Launched(o), Marks({}, {}, {}, false))
  }

  lemma {:induction false} MarkedIsTraced(x: Marked, steps: seq<(Store, Event)>)
    ensures MarkedSteps(x, steps).t == RunSteps(x.t, steps)
    decreases |steps|
  {
    if steps != [] {
      MarkedIsTraced(MarkedStep(steps[0].0, x, steps[0].1), steps[1..]);
    }
  }

  // ---- what the marks say ----

  /** Jobs of bucket b the run gave up. */
  function GivenUp(x: Marked, b: nat): nat {
    Number(x.t.log.gaveUp, InBucket(b))
  }

  /** The buckets being seeded are those whose sentinel was not found to match. */
  ghost predicate Chosen(x: Marked, buckets: seq<nat>) {
    forall b: nat :: b in buckets <==> b < x.t.run.o.bucketCount && b !in x.m.matched
  }

  ghost predicate Counts(x: Marked, failures: seq<nat>) {
    |failures| == x.t.run.o.bucketCount && forall b: nat | b < |failures| :: failures[b] == GivenUp(x, b)
  }

  /** A sentinel is only ever tried for a bucket of which nothing was given up. */
  ghost predicate PutsClean(x: Marked) {
    && x.m.stamped <= x.m.put
    && forall b: nat | b in x.m.put :: b < x.t.run.o.bucketCount && b !in x.m.matched && GivenUp(x, b) == 0
  }

  predicate Settled(x: Marked, b: nat) {
    b in x.m.matched || b in x.m.stamped || GivenUp(x, b) > 0
  }

  ghost predicate Ends(x: Marked) {
    PutsClean(x) &&
    match x.t.run.phase
    case Checking(next, todo) =>
      && !x.m.cut && x.m.put == {} && (x.t.run.o.force ==> next == 0)
      && (forall b: nat :: b in todo <==> b < next && b !in x.m.matched)
      && (forall b: nat | b in x.m.matched :: b < next)
    case Listing(buckets, present, done) => !x.m.cut && x.m.put == {} && Chosen(x, buckets)
    case Pumping(buckets, plan, taken, workers, failures, written, failed) =>
      !x.m.cut && x.m.put == {} && Chosen(x, buckets)
    case Stamping(buckets, failures, next, attempt) =>
      && !x.m.cut && Chosen(x, buckets) && Counts(x, failures) && next <= |buckets|
      && forall k: nat | k < next :: Settled(x, buckets[k])
    case Over => !x.m.cut ==> forall b: nat | b < x.t.run.o.bucketCount :: Settled(x, b)
  }

  lemma ChooseEnds(x: Marked, buckets: seq<nat>)
    requires PutsClean(x) && !x.m.cut && x.m.put == {} && Chosen(x, buckets)
    requires x.t.run.phase == Begin(x.t.run.o, buckets)
    ensures Ends(x)
  {
    if buckets == [] {
      forall b: nat | b < x.t.run.o.bucketCount ensures Settled(x, b) {
        assert b !in buckets;
      }
    }
  }

  lemma AllBelow(n: nat)
    ensures forall b: nat :: b in AllKeys(n) <==> b < n
  {
    forall b: nat | b < n ensures b in AllKeys(n) {
      assert AllKeys(n)[b] == b;
    }
  }

  lemma CheckingEnds(store: Store, x: Marked, e: Event)
    requires x.t.run.phase.Checking? && Books(x.t) && Ends(x)
    ensures Ends(MarkedStep(store, x, e))
  {
    var o, p, y := x.t.run.o, x.t.run.phase, MarkedStep(store, x, e);
    if e.Advance? && o.force {
      AllBelow(o.bucketCount);
      ChooseEnds(y, AllKeys(o.bucketCount));
    } else if e.Advance? && p.next >= o.bucketCount {
      ChooseEnds(y, p.todo);
    }
  }

  lemma NothingGivenUp(n: nat)
    ensures |NoFailures(n)| == n && forall b: nat | b < n :: NoFailures(n)[b] == 0
  {
  }

  lemma ListingEnds(store: Store, x: Marked, e: Event)
    requires x.t.run.phase.Listing? && Books(x.t) && Ends(x)
    ensures Ends(MarkedStep(store, x, e))
  {
    NothingGivenUp(x.t.run.o.bucketCount);
  }

  lemma PumpingEnds(store: Store, x: Marked, e: Event)
    requires x.t.run.phase.Pumping? && Books(x.t) && Ends(x)
    ensures Ends(MarkedStep(store, x, e))
  {
    if Drained(x.t) {
      DrainedCounters(x.t);
    }
  }

  /** The bucket at hand is passed over or its sentinel tried. */
  lemma StampedOn(store: Store, x: Marked, e: Event)
    requires x.t.run.phase.Stamping? && x.t.run.phase.next < |x.t.run.phase.buckets| && Ends(x)
    ensures Ends(MarkedStep(store, x, e))
  {
    var p, y := x.t.run.phase, MarkedStep(store, x, e);
    assert p.buckets[p.next] in p.buckets;
    assert forall k: nat | k < p.next :: Settled(x, p.buckets[k]) ==> Settled(y, p.buckets[k]);
  }

  lemma StampingEnds(store: Store, x: Marked, e: Event)
    requires x.t.run.phase.Stamping? && Ends(x)
    ensures Ends(MarkedStep(store, x, e))
  {
    var p, y := x.t.run.phase, MarkedStep(store, x, e);
    if p.next < |p.buckets| {
      StampedOn(store, x, e);
    } else if e.Advance? {
      forall b: nat | b < x.t.run.o.bucketCount ensures Settled(y, b) {
        if b !in x.m.matched {
          assert b in p.buckets;
          var k: nat :| k < |p.buckets| && p.buckets[k] == b;
          assert Settled(x, p.buckets[k]);
        }
      }
    }
  }

  lemma {:induction false} StepsEnd(x: Marked, steps: seq<(Store, Event)>)
    requires Books(x.t) && Ends(x)
    ensures Ends(MarkedSteps(x, steps)) && Books(MarkedSteps(x, steps).t)
    ensures MarkedSteps(x, steps).t.run.o == x.t.run.o
    decreases |steps|
  {
    if steps != [] {
      var store, e := steps[0].0, steps[0].1;
      StepBooks(store, x.t, e);
      match x.t.run.phase {
        case Checking(_, _) => CheckingEnds(store, x, e);
        case Listing(_, _, _) => ListingEnds(store, x, e);
        case Pumping(_, _, _, _, _, _, _) => PumpingEnds(store, x, e);
        case Stamping(_, _, _, _) => StampingEnds(store, x, e);
        case Over =>
      }
      StepsEnd(MarkedStep(store, x, e), steps[1..]);
    }
  }

  /**
   At its end a run that was not cut short has settled every bucket: its check found the sentinel matching,
   or it gave up some job of it and never tried its sentinel, or its sentinel was acknowledged.
   */
  lemma EverySentinelSettled(o: Options, steps: seq<(Store, Event)>, b: nat)
    requires MarkedSteps(Beginning(o), steps).t.run.phase.Over? && !MarkedSteps(Beginning(o), steps).m.cut
    requires b < o.bucketCount
    ensures var x := MarkedSteps(Beginning(o), steps);
      && (b in x.m.stamped <==> b !in x.m.matched && GivenUp(x, b) == 0)
      && (b in x.m.put <==> b in x.m.stamped)
  {
    StepsEnd(Beginning(o), steps);
    var x := MarkedSteps(Beginning(o), steps);
    assert Settled(x, b);
  }

  /** At any moment of any run, cut short or not, no sentinel was tried of a bucket with a job given up. */
  lemma FailedNeverStamped(o: Options, steps: seq<(Store, Event)>, b: nat)
    requires GivenUp(MarkedSteps(Beginning(o), steps), b) > 0
    ensures b !in MarkedSteps(Beginning(o), steps).m.put
  {
    StepsEnd(Beginning(o), steps);
  }

  // ---- among other runs ----

  /** Runs that share the key prefix share keyspace and object size. */
  predicate SameShape(o: Options, other: Options) {
    other.layout.keyPrefix == o.layout.keyPrefix ==>
      other.layout.keyspace == o.layout.keyspace && other.objectSize == o.objectSize
  }

  ghost predicate Neighbours(s: Sys, actions: seq<Action>, o: Options) {
    && (forall id | id in s.runs :: SameShape(o, s.runs[id].o))
    && (forall i | 0 <= i < |actions| && actions[i].Launch? :: SameShape(o, actions[i].o))
  }

  lemma SentinelStays(store: Store, r: Run, e: Event, o: Options, b: nat)
    requires SameShape(o, r.o) && HoldsSentinel(store, o, b)
    ensures HoldsSentinel(Step(store, r, e).0, o, b)
  {
    if e.Attempt? && r.phase.Pumping? && e.worker < |r.phase.workers| && r.phase.workers[e.worker].Putting? {
      SentinelIsNoObject(r.o.layout, o.layout, r.phase.workers[e.worker].job.key);
    } else if e.StampPut? && r.o.layout.SentinelKey() == o.layout.SentinelKey() {
      SentinelKeyInjective(r.o.layout, o.layout);
    }
  }

  /** The sentinels found matching and those acknowledged are in the store. */
  ghost predicate Held(store: Store, x: Marked) {
    forall b: nat | b in x.m.matched || b in x.m.stamped :: HoldsSentinel(store, x.t.run.o, b)
  }

  lemma OwnStepHeld(store: Store, x: Marked, e: Event)
    requires Held(store, x)
    ensures Held(Step(store, x.t.run, e).0, MarkedStep(store, x, e))
  {
    var y := MarkedStep(store, x, e);
    forall b: nat | b in y.m.matched || b in y.m.stamped
      ensures HoldsSentinel(Step(store, x.t.run, e).0, y.t.run.o, b)
    {
      if b in x.m.matched || b in x.m.stamped {
        SentinelStays(store, x.t.run, e, x.t.run.o, b);
      }
    }
  }

  lemma OtherStepHeld(store: Store, x: Marked, r: Run, e: Event)
    requires Held(store, x) && SameShape(x.t.run.o, r.o)
    ensures Held(Step(store, r, e).0, x)
  {
    forall b: nat | b in x.m.matched || b in x.m.stamped ensures HoldsSentinel(Step(store, r, e).0, x.t.run.o, b) {
      SentinelStays(store, r, e, x.t.run.o, b);
    }
  }

  lemma KeepsOptions(store: Store, r: Run, e: Event)
    ensures Step(store, r, e).1.o == r.o
  {
  }

  lemma {:induction false} RunHeld(s: Sys, actions: seq<Action>, id: nat, x: Marked)
    requires id in s.runs && s.runs[id] == x.t.run && Held(s.store, x) && Neighbours(s, actions, x.t.run.o)
    ensures Held(Exec(s, actions).store, MarkedSteps(x, StepsOf(s, actions, id)))
    decreases |actions|
  {
    if actions != [] {
      var a, n := actions[0], Next(s, actions[0]);
      var y := if a.Do? && a.id == id then MarkedStep(s.store, x, a.event) else x;
      if a.Do? && a.id in s.runs {
        KeepsOptions(s.store, s.runs[a.id], a.event);
        if a.id == id {
          OwnStepHeld(s.store, x, a.event);
          assert StepsOf(s, actions, id)[1..] == StepsOf(n, actions[1..], id);
        } else {
          OtherStepHeld(s.store, x, s.runs[a.id], a.event);
        }
      }
      assert forall i | 0 <= i < |actions[1..]| :: actions[1..][i] == actions[i + 1];
      RunHeld(n, actions[1..], id, y);
    }
  }

  /** The run launched under id, with its marks, after these further actions of all runs. */
  function MarkedRun(s: Sys, o: Options, id: nat, actions: seq<Action>): Marked {
    MarkedSteps(Beginning(o), StepsOf(Next(s, Launch(id, o)), actions, id))
  }

  /**
   A run that has ended uncut, among other runs that share its shape wherever they share its keys, leaves
   every bucket of which it gave nothing up sentinelled and complete in the store they share; a bucket of
   which it gave a job up got no sentinel from it.
   */
  lemma SeededBuckets(s: Sys, o: Options, id: nat, actions: seq<Action>, b: nat)
    requires Safe(s) && id !in s.runs && Neighbours(Next(s, Launch(id, o)), actions, o)
    requires MarkedRun(s, o, id, actions).t.run.phase.Over? && !MarkedRun(s, o, id, actions).m.cut
    requires b < o.bucketCount
    ensures var x, after := MarkedRun(s, o, id, actions), Exec(Next(s, Launch(id, o)), actions);
      && id in after.runs && after.runs[id] == x.t.run
      && (GivenUp(x, b) == 0 ==> HoldsSentinel(after.store, o, b))
      && (GivenUp(x, b) == 0 ==> forall k: nat | k < o.layout.keyspace :: HasObject(after.store, o, b, k))
      && (GivenUp(x, b) > 0 ==> b !in x.m.put)
  {
    var start, x := Next(s, Launch(id, o)), MarkedRun(s, o, id, actions);
    var after := Exec(start, actions);
    StepsEnd(Beginning(o), StepsOf(start, actions, id));
    MarkedIsTraced(Beginning(o), StepsOf(start, actions, id));
    EverySentinelSettled(o, StepsOf(start, actions, id), b);
    LoggedRun(s, o, id, actions);
    NextSafe(s, Launch(id, o));
    ExecSafe(start, actions);
    RunHeld(start, actions, id, Beginning(o));
    if GivenUp(x, b) == 0 {
      assert HoldsSentinel(after.store, o, b);
      assert Honest(after.store, o.layout.BucketName(b), o.layout, o.objectSize);
    }
  }

  /** The next run of that shape that reads the sentinel skips the bucket. */
  lemma NextRunSkips(store: Store, o: Options, next: Options, b: nat, todo: seq<nat>)
    requires HoldsSentinel(store, o, b) && !next.force && b < next.bucketCount
    requires next.layout == o.layout && next.objectSize == o.objectSize
    ensures Step(store, Run(next, Checking(b, todo)), Check(Body(store[SentinelAt(o, b)])))
      == (store, Run(next, Checking(b + 1, todo)))
  {
  }

  // ---- dry runs ----

  lemma {:induction false} DryPhases(t: Traced, steps: seq<(Store, Event)>)
    requires t.run.o.repair && t.run.o.dryRun && (t.run.phase.Checking? || t.run.phase.Listing? || t.run.phase.Over?)
    ensures var p := RunSteps(t, steps).run.phase;
      p.Checking? || p.Listing? || p.Over?
    decreases |steps|
  {
    if steps != [] {
      KeepsOptions(steps[0].0, t.run, steps[0].1);
      DryPhases(TracedStep(steps[0].0, t, steps[0].1), steps[1..]);
    }
  }

  /** No step of a dry repair changes the store. */
  lemma DryRunWritesNothing(o: Options, steps: seq<(Store, Event)>, store: Store, e: Event)
    requires o.repair && o.dryRun
    ensures Step(store, RunSteps(Launched(o), steps).run, e).0 == store
  {
    DryPhases(Launched(o), steps);
  }
}
