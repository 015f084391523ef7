/**
 A run can always be brought to its end: from wherever it is, some further steps finish it, whatever
 other runs do to the store in between.
 */
module SeederProgress {
  import opened Seeder
  import opened SeederRuns
  import opened SeederSafety
  import opened SeederBooks
  import opened SeederEnds

  const LAST_PAGE := Page([], false, "")

  /** Steps that go the same way whatever is stored, with every request answered. */
  predicate Blind(e: Event) {
    match e
    case Check(read) => read.Unreadable?
    case ListPage(_, page) => page == LAST_PAGE
    case Attempt(_, _, outcome) => outcome.Acked?
    case StampPut(outcome) => outcome.Acked?
    case Take(_) => true
    case Settle(_) => true
    case Advance => true
    case _ => false
  }

  lemma BlindSame(a: Store, b: Store, x: Marked, e: Event)
    requires Blind(e)
    ensures MarkedStep(a, x, e) == MarkedStep(b, x, e)
  {
  }

  function Paired(stores: seq<Store>, events: seq<Event>): seq<(Store, Event)>
    requires |stores| == |events|
  {
    seq(|events|, i requires 0 <= i < |events| => (stores[i], events[i]))
  }

  /** Whatever stores they meet, these steps end the run, and do not cut it short. */
  ghost predicate Finishes(x: Marked, events: seq<Event>) {
    forall stores: seq<Store> | |stores| == |events| ::
      var y := MarkedSteps(x, Paired(stores, events));
      y.t.run.phase.Over? && !y.m.cut
  }

  lemma OneMore(x: Marked, e: Event, rest: seq<Event>)
    requires Blind(e) && Finishes(MarkedStep(map[], x, e), rest)
    ensures Finishes(x, [e] + rest)
  {
    forall stores: seq<Store> | |stores| == |[e] + rest|
      ensures var y := MarkedSteps(x, Paired(stores, [e] + rest));
        y.t.run.phase.Over? && !y.m.cut
    {
      BlindSame(stores[0], map[], x, e);
      assert Paired(stores, [e] + rest)[1..] == Paired(stores[1..], rest);
    }
  }

  lemma AtTheEnd(x: Marked)
    requires x.t.run.phase.Over? && !x.m.cut
    ensures Finishes(x, [])
  {
  }

  // ---- stamping ----

  lemma {:induction false} StampingFinishes(x: Marked) returns (events: seq<Event>)
    requires x.t.run.phase.Stamping? && Ends(x)
    ensures Finishes(x, events)
    decreases |x.t.run.phase.buckets| - x.t.run.phase.next
  {
    var p := x.t.run.phase;
    assert p.next < |p.buckets| ==> p.buckets[p.next] in p.buckets;
    var e := if p.next < |p.buckets| && p.failures[p.buckets[p.next]] == 0 then StampPut(Acked) else Advance;
    var y, rest := MarkedStep(map[], x, e), [];
    StampingEnds(map[], x, e);
    if p.next < |p.buckets| {
      rest := StampingFinishes(y);
    } else {
      AtTheEnd(y);
    }
    OneMore(x, e, rest);
    events := [e] + rest;
  }

  // ---- the pool ----

  function Work(w: Worker): nat {
    match w
    case Free => 0
    case Putting(_, _) => 2
    case Landed(_) => 1
    case Lost(_) => 2
    case Counted(_) => 1
  }

  function WorkLeft(workers: seq<Worker>): nat {
    if workers == [] then 0 else Work(workers[0]) + WorkLeft(workers[1..])
  }

  lemma {:induction false} WorkMoves(workers: seq<Worker>, w: nat, x: Worker)
    requires w < |workers|
    ensures WorkLeft(workers[w := x]) == WorkLeft(workers) - Work(workers[w]) + Work(x)
  {
    if w == 0 {
      assert workers[w := x][1..] == workers[1..];
    } else {
      WorkMoves(workers[1..], w - 1, x);
      assert workers[w := x][1..] == workers[1..][w - 1 := x];
    }
  }

  /** What the pool has still to do. */
  function PoolLeft(p: Phase): nat
    requires p.Pumping?
  {
    (if p.taken < |p.plan| then 3 * (|p.plan| - p.taken) else 0) + WorkLeft(p.workers)
  }

  /** A worker with a job goes on with it. */
  lemma WorkerStep(x: Marked, w: nat) returns (e: Event)
    requires x.t.run.phase.Pumping? && Books(x.t) && w < |x.t.run.phase.workers| && !x.t.run.phase.workers[w].Free?
    ensures Blind(e) && !e.Advance?
    ensures var p := MarkedStep(map[], x, e).t.run.phase;
      p.Pumping? && p.workers != [] && PoolLeft(p) < PoolLeft(x.t.run.phase)
  {
    var p := x.t.run.phase;
    e := if p.workers[w].Putting? then Attempt(w, "", Acked) else Settle(w);
    assert p.workers[w].job.bucket < |p.failures|;
    var q := MarkedStep(map[], x, e).t.run.phase;
    WorkMoves(p.workers, w, q.workers[w]);
    assert q.workers == p.workers[w := q.workers[w]];
  }

  /** Some worker, or the hand-over of the next job, can go on. */
  lemma PoolStep(x: Marked) returns (e: Event)
    requires x.t.run.phase.Pumping? && x.t.run.phase.workers != [] && Books(x.t) && !Drained(x.t)
    ensures Blind(e) && !e.Advance?
    ensures var p := MarkedStep(map[], x, e).t.run.phase;
      p.Pumping? && p.workers != [] && PoolLeft(p) < PoolLeft(x.t.run.phase)
  {
    var p := x.t.run.phase;
    if w: nat :| w < |p.workers| && !p.workers[w].Free? {
      e := WorkerStep(x, w);
    } else {
      e := Take(0);
      WorkMoves(p.workers, 0, Putting(p.plan[p.taken], 0));
    }
  }

  lemma {:induction false} PumpingFinishes(x: Marked) returns (events: seq<Event>)
    requires x.t.run.phase.Pumping? && x.t.run.phase.workers != [] && Books(x.t) && Ends(x)
    ensures Finishes(x, events)
    decreases PoolLeft(x.t.run.phase)
  {
    var e, rest := Advance, [];
    if Drained(x.t) {
      PumpingEnds(map[], x, e);
      rest := StampingFinishes(MarkedStep(map[], x, e));
    } else {
      e := PoolStep(x);
      PumpingEnds(map[], x, e);
      StepBooks(map[], x.t, e);
      rest := PumpingFinishes(MarkedStep(map[], x, e));
    }
    OneMore(x, e, rest);
    events := [e] + rest;
  }

  // ---- listing and checking ----

  /** The run writes, and there is a worker to do it. */
  predicate Equipped(o: Options) {
    o.concurrency > 0 && !(o.repair && o.dryRun)
  }

  /** Wherever it is after its listing, the run can end. */
  lemma LaterFinishes(x: Marked) returns (events: seq<Event>)
    requires !x.t.run.phase.Checking? && !x.t.run.phase.Listing? && Books(x.t) && Ends(x) && !x.m.cut
    requires x.t.run.phase.Pumping? ==> x.t.run.phase.workers != []
    ensures Finishes(x, events)
  {
    match x.t.run.phase
    case Pumping(_, _, _, _, _, _, _) => events := PumpingFinishes(x);
    case Stamping(_, _, _, _) => events := StampingFinishes(x);
    case Over => events := []; AtTheEnd(x);
  }

  lemma {:induction false} ListingFinishes(x: Marked, left: set<nat>) returns (events: seq<Event>)
    requires x.t.run.phase.Listing? && Equipped(x.t.run.o) && Books(x.t) && Ends(x)
    requires forall b: nat :: b in left <==> b in x.t.run.phase.buckets && b !in x.t.run.phase.done
    ensures Finishes(x, events)
    decreases left
  {
    var e, rest := Advance, [];
    if b :| b in left {
      e := ListPage(b, LAST_PAGE);
      ListingEnds(map[], x, e);
      StepBooks(map[], x.t, e);
      rest := ListingFinishes(MarkedStep(map[], x, e), left - {b});
    } else {
      ListingEnds(map[], x, e);
      StepBooks(map[], x.t, e);
      rest := LaterFinishes(MarkedStep(map[], x, e));
    }
    OneMore(x, e, rest);
    events := [e] + rest;
  }

  lemma ChosenFinishes(x: Marked) returns (events: seq<Event>)
    requires !x.t.run.phase.Checking? && Equipped(x.t.run.o) && Books(x.t) && Ends(x) && !x.m.cut
    requires x.t.run.phase.Pumping? ==> x.t.run.phase.workers != []
    ensures Finishes(x, events)
  {
    if x.t.run.phase.Listing? {
      var p := x.t.run.phase;
      events := ListingFinishes(x, set b | b in p.buckets && b !in p.done);
    } else {
      events := LaterFinishes(x);
    }
  }

  /** The checks are over. */
  lemma CheckedFinishes(x: Marked) returns (rest: seq<Event>)
    requires x.t.run.phase.Checking? && Equipped(x.t.run.o) && Books(x.t) && Ends(x)
    requires x.t.run.o.force || x.t.run.phase.next >= x.t.run.o.bucketCount
    ensures Finishes(MarkedStep(map[], x, Advance), rest)
  {
    CheckingEnds(map[], x, Advance);
    StepBooks(map[], x.t, Advance);
    rest := ChosenFinishes(MarkedStep(map[], x, Advance));
  }

  lemma CheckGoesOn(x: Marked)
    requires x.t.run.phase.Checking? && Equipped(x.t.run.o) && Books(x.t) && Ends(x)
    requires !x.t.run.o.force && x.t.run.phase.next < x.t.run.o.bucketCount
    ensures var y := MarkedStep(map[], x, Check(Unreadable));
      && y.t.run.phase.Checking? && y.t.run.o == x.t.run.o && Books(y.t) && Ends(y)
      && y.t.run.phase.next == x.t.run.phase.next + 1
  {
    CheckingEnds(map[], x, Check(Unreadable));
    StepBooks(map[], x.t, Check(Unreadable));
  }

  lemma {:induction false} CheckingFinishes(x: Marked) returns (events: seq<Event>)
    requires x.t.run.phase.Checking? && Equipped(x.t.run.o) && Books(x.t) && Ends(x)
    ensures Finishes(x, events)
    decreases x.t.run.o.bucketCount - x.t.run.phase.next
  {
    if x.t.run.o.force || x.t.run.phase.next >= x.t.run.o.bucketCount {
      var rest := CheckedFinishes(x);
      OneMore(x, Advance, rest);
      events := [Advance] + rest;
    } else {
      CheckGoesOn(x);
      var rest := CheckingFinishes(MarkedStep(map[], x, Check(Unreadable)));
      OneMore(x, Check(Unreadable), rest);
      events := [Check(Unreadable)] + rest;
    }
  }

  // ---- from wherever a run is ----

  predicate Crewed(r: Run) {
    r.phase.Pumping? ==> |r.phase.workers| == r.o.concurrency
  }

  lemma {:induction false} StaysCrewed(t: Traced, steps: seq<(Store, Event)>)
    requires Crewed(t.run)
    ensures Crewed(RunSteps(t, steps).run)
    decreases |steps|
  {
    if steps != [] {
      StaysCrewed(TracedStep(steps[0].0, t, steps[0].1), steps[1..]);
    }
  }

  /**
   Whatever a run has met so far, if it has a worker, is no dry run and was not cut short, there are steps
   that bring it to its end uncut, over any stores other runs leave it.
   */
  lemma RunsCanEnd(o: Options, steps: seq<(Store, Event)>) returns (events: seq<Event>)
    requires Equipped(o) && !MarkedSteps(Beginning(o), steps).m.cut
    ensures Finishes(MarkedSteps(Beginning(o), steps), events)
  {
    var x := MarkedSteps(Beginning(o), steps);
    StepsEnd(Beginning(o), steps);
    MarkedIsTraced(Beginning(o), steps);
    StaysCrewed(Launched(o), steps);
    if x.t.run.phase.Checking? {
      events := CheckingFinishes(x);
    } else {
      events := ChosenFinishes(x);
    }
  }
}
