/**
 The seeder's loops and the step machine agree: a loop whose steps run with nothing in between does to
 the run and the store what `Seeder` says of it.
 */
module SeederRefinement {
  import opened Seeder
  import opened SeederRuns

  /** Steps of one run with no other run in between. */
  function Act(store: Store, r: Run, events: seq<Event>): (Store, Run)
    decreases |events|
  {
    if events == [] then (store, r)
    else
      var (next, t) := Step(store, r, events[0]);
      Act(next, t, events[1..])
  }

  lemma ActFirst(store: Store, r: Run, e: Event, rest: seq<Event>)
    ensures Act(store, r, [e] + rest) == Act(Step(store, r, e).0, Step(store, r, e).1, rest)
  {
    assert ([e] + rest)[1..] == rest;
  }

  lemma {:induction false} ActSplit(store: Store, r: Run, a: seq<Event>, b: seq<Event>)
    ensures Act(store, r, a + b) == Act(Act(store, r, a).0, Act(store, r, a).1, b)
    decreases |a|
  {
    if a == [] {
      assert a + b == b;
    } else {
      assert a + b == [a[0]] + (a[1..] + b) && a == [a[0]] + a[1..];
      ActFirst(store, r, a[0], a[1..] + b);
      ActSplit(Step(store, r, a[0]).0, Step(store, r, a[0]).1, a[1..], b);
    }
  }

  // ---- one job ----

  /** The attempts of one call of putWithRetry; the last event only matters if the call was cancelled. */
  function TryEvents(w: nat, body: string, outcomes: seq<Outcome>): seq<Event> {
    if outcomes == [] then [Cancel(w)] else [Attempt(w, body, outcomes[0])] + TryEvents(w, body, outcomes[1..])
  }

  /** The pool with worker w replaced. */
  function WithWorker(r: Run, w: nat, x: Worker): Run
    requires r.phase.Pumping? && w < |r.phase.workers|
  {
    r.(phase := r.phase.(workers := r.phase.workers[w := x]))
  }

  lemma {:induction false} Idle(store: Store, r: Run, w: nat, body: string, outcomes: seq<Outcome>)
    requires r.phase.Pumping? && w < |r.phase.workers| && !r.phase.workers[w].Putting?
    ensures Act(store, r, TryEvents(w, body, outcomes)) == (store, r)
    decreases |outcomes|
  {
    if outcomes == [] {
      assert [Cancel(w)] == [Cancel(w)] + [];
      ActFirst(store, r, Cancel(w), []);
    } else {
      ActFirst(store, r, Attempt(w, body, outcomes[0]), TryEvents(w, body, outcomes[1..]));
      Idle(store, r, w, body, outcomes[1..]);
    }
  }

  lemma WorkerTwice(r: Run, w: nat, x: Worker, y: Worker)
    requires r.phase.Pumping? && w < |r.phase.workers|
    ensures WithWorker(WithWorker(r, w, x), w, y) == WithWorker(r, w, y)
  {
    assert r.phase.workers[w := x][w := y] == r.phase.workers[w := y];
  }

  lemma AttemptStep(store: Store, r: Run, w: nat, body: string, outcome: Outcome)
    requires r.phase.Pumping? && w < |r.phase.workers| && r.phase.workers[w].Putting?
    ensures var j := r.phase.workers[w].job;
      Step(store, r, Attempt(w, body, outcome))
      == (Stored(store, r.o.layout.BucketName(j.bucket), r.o.layout.ObjectKey(j.key), body, outcome),
          WithWorker(r, w, WorkerAttempt(r.phase.workers[w], outcome)))
  {
  }

  /** The attempts of a job, alone, are TryPuts: same store, and the worker knows whether it succeeded. */
  lemma {:induction false} AttemptsAlone(store: Store, r: Run, w: nat, j: Job, a: nat, body: string,
                                         outcomes: seq<Outcome>)
    requires r.phase.Pumping? && w < |r.phase.workers| && r.phase.workers[w] == Putting(j, a)
    requires a + |outcomes| <= ATTEMPTS && (a == 0 ==> outcomes != []) && a < ATTEMPTS
    ensures var (after, ok) :=
        TryPuts(store, r.o.layout.BucketName(j.bucket), r.o.layout.ObjectKey(j.key), body, outcomes);
      Act(store, r, TryEvents(w, body, outcomes)) == (after, WithWorker(r, w, if ok then Landed(j) else Lost(j)))
    decreases |outcomes|
  {
    if outcomes == [] {
      assert [Cancel(w)] == [Cancel(w)] + [];
      ActFirst(store, r, Cancel(w), []);
    } else {
      var e := Attempt(w, body, outcomes[0]);
      var x := WorkerAttempt(Putting(j, a), outcomes[0]);
      var next, t := Step(store, r, e).0, WithWorker(r, w, x);
      AttemptStep(store, r, w, body, outcomes[0]);
      ActFirst(store, r, e, TryEvents(w, body, outcomes[1..]));
      if x.Putting? {
        AttemptsAlone(next, t, w, j, a + 1, body, outcomes[1..]);
        WorkerTwice(r, w, x, Landed(j));
        WorkerTwice(r, w, x, Lost(j));
      } else {
        Idle(next, t, w, body, outcomes[1..]);
      }
    }
  }

  /** A worker after these attempts. */
  function AfterAttempts(worker: Worker, outcomes: seq<Outcome>): Worker
    decreases |outcomes|
  {
    if outcomes == [] || !worker.Putting? then worker
    else AfterAttempts(WorkerAttempt(worker, outcomes[0]), outcomes[1..])
  }

  /** A job none of whose attempts is acknowledged is given up at the sixth and not before. */
  lemma {:induction false} SixAttempts(j: Job, a: nat, outcomes: seq<Outcome>)
    requires a < 6 && a + |outcomes| <= 6 && Acked !in outcomes
    ensures AfterAttempts(Putting(j, a), outcomes)
      == if a + |outcomes| == 6 then Lost(j) else Putting(j, a + |outcomes|)
    decreases |outcomes|
  {
    if outcomes != [] && a < 5 {
      SixAttempts(j, a + 1, outcomes[1..]);
    }
  }

  /** Counting the outcome: one step when the job landed, two when it was lost. */
  lemma SettleAlone(store: Store, r: Run, w: nat, j: Job)
    requires r.phase.Pumping? && w < |r.phase.workers| && j.bucket < |r.phase.failures|
    requires r.phase.workers[w] == Landed(j) || r.phase.workers[w] == Lost(j)
    ensures var p := r.phase;
      var (after, t) := Act(store, r, [Settle(w), Settle(w)]);
      && after == store && t.o == r.o && t.phase.Pumping? && t.phase.workers == p.workers[w := Free]
      && (if p.workers[w].Landed?
          then t.phase.written == p.written + 1 && t.phase.failed == p.failed && t.phase.failures == p.failures
          else && t.phase.written == p.written && t.phase.failed == p.failed + 1
               && t.phase.failures == p.failures[j.bucket := p.failures[j.bucket] + 1])
  {
    assert [Settle(w), Settle(w)] == [Settle(w)] + ([Settle(w)] + []);
    ActFirst(store, r, Settle(w), [Settle(w)] + []);
    var t := Step(store, r, Settle(w)).1;
    ActFirst(store, t, Settle(w), []);
  }

  /** One iteration of a worker, alone: what `BucketSeeder.DoJob` promises of the store and the counters. */
  lemma JobAlone(store: Store, r: Run, w: nat, j: Job, body: string, outcomes: seq<Outcome>)
    requires r.phase.Pumping? && w < |r.phase.workers| && r.phase.workers[w] == Putting(j, 0)
    requires Tries(outcomes) && j.bucket < |r.phase.failures|
    ensures var p := r.phase;
      var (stored, ok) := TryPuts(store, r.o.layout.BucketName(j.bucket), r.o.layout.ObjectKey(j.key), body, outcomes);
      var (after, t) := Act(store, r, TryEvents(w, body, outcomes) + [Settle(w), Settle(w)]);
      && after == stored && t.phase.Pumping? && t.phase.workers == p.workers[w := Free]
      && (if ok
          then t.phase.written == p.written + 1 && t.phase.failed == p.failed && t.phase.failures == p.failures
          else && t.phase.written == p.written && t.phase.failed == p.failed + 1
               && t.phase.failures == p.failures[j.bucket := p.failures[j.bucket] + 1])
  {
    var events := TryEvents(w, body, outcomes);
    AttemptsAlone(store, r, w, j, 0, body, outcomes);
    ActSplit(store, r, events, [Settle(w), Settle(w)]);
    WorkerTwice(r, w, Landed(j), Free);
    WorkerTwice(r, w, Lost(j), Free);
    SettleAlone(Act(store, r, events).0, Act(store, r, events).1, w, j);
  }

  // ---- listing one bucket ----

  function ListEvents(b: nat, pages: seq<Page>): seq<Event> {
    if pages == [] then [] else [ListPage(b, pages[0])] + ListEvents(b, pages[1..])
  }

  /** The pages name only keys that exist. */
  predicate PagesTrue(store: Store, o: Options, b: nat, pages: seq<Page>) {
    forall i, k :: 0 <= i < |pages| && k in pages[i].Keys() ==> (o.layout.BucketName(b), k) in store
  }

  lemma {:induction false} ListedNoMore(store: Store, r: Run, b: nat, pages: seq<Page>)
    requires r.phase.Over? || (r.phase.Listing? && b in r.phase.done)
    ensures Act(store, r, ListEvents(b, pages)) == (store, r)
    decreases |pages|
  {
    if pages != [] {
      ActFirst(store, r, ListPage(b, pages[0]), ListEvents(b, pages[1..]));
      ListedNoMore(store, r, b, pages[1..]);
    }
  }

  lemma {:induction false} KeysOnTail(pages: seq<Page>, n: nat)
    requires pages != [] && 1 <= n <= |pages|
    ensures KeysOn(pages, n) == pages[0].Keys() + KeysOn(pages[1..], n - 1)
  {
    if n > 1 {
      KeysOnTail(pages, n - 1);
      assert pages[n - 1] == pages[1..][n - 2];
    } else {
      assert KeysOn(pages, 0) == {} && KeysOn(pages[1..], 0) == {};
    }
  }

  lemma PageStep(store: Store, r: Run, b: nat, page: Page)
    requires r.phase.Listing? && b in r.phase.buckets && b !in r.phase.done && page.Page?
    requires forall k :: k in page.Keys() ==> (r.o.layout.BucketName(b), k) in store
    ensures Step(store, r, ListPage(b, page)) == (store, r.(phase := Listing(r.phase.buckets,
      r.phase.present[b := Seen(r.phase.present, b) + page.Keys()],
      if page.Last() then r.phase.done + {b} else r.phase.done)))
  {
    assert forall k :: k in page.keys ==> k in page.Keys();
    assert (set k | k in page.keys) == page.Keys();
  }

  /** The bucket is done with the keys of the consumed pages added, or a page failed and the run is over. */
  ghost predicate Listed(r: Run, t: Run, b: nat, pages: seq<Page>)
    requires r.phase.Listing? && 0 < Consumed(pages)
  {
    && t.o == r.o
    && (if pages[Consumed(pages) - 1].PageError? then t.phase.Over?
        else && t.phase.Listing? && t.phase.done == r.phase.done + {b}
             && Seen(t.phase.present, b) == Seen(r.phase.present, b) + KeysOn(pages, Consumed(pages)))
  }

  lemma LastPageAlone(store: Store, r: Run, b: nat, pages: seq<Page>)
    requires r.phase.Listing? && b in r.phase.buckets && b !in r.phase.done
    requires pages != [] && pages[0].Last() && PagesTrue(store, r.o, b, pages)
    ensures Act(store, r, ListEvents(b, pages)).0 == store && Listed(r, Act(store, r, ListEvents(b, pages)).1, b, pages)
  {
    var e := ListPage(b, pages[0]);
    var t := Step(store, r, e).1;
    ActFirst(store, r, e, ListEvents(b, pages[1..]));
    if pages[0].Page? {
      assert forall k :: k in pages[0].Keys() ==> (r.o.layout.BucketName(b), k) in store;
      PageStep(store, r, b, pages[0]);
    }
    ListedNoMore(store, t, b, pages[1..]);
    KeysOnTail(pages, 1);
  }

  /**
   A finite chain of pages, alone: the bucket is done with the keys of exactly the consumed pages seen, or
   the run is over if the last of those failed.
   */
  lemma {:induction false} ListAlone(store: Store, r: Run, b: nat, pages: seq<Page>)
    requires r.phase.Listing? && b in r.phase.buckets && b !in r.phase.done
    requires PagesTrue(store, r.o, b, pages) && exists i :: 0 <= i < |pages| && pages[i].Last()
    ensures 0 < Consumed(pages) && Act(store, r, ListEvents(b, pages)).0 == store
    ensures Listed(r, Act(store, r, ListEvents(b, pages)).1, b, pages)
    decreases |pages|
  {
    if pages[0].Last() {
      LastPageAlone(store, r, b, pages);
    } else {
      var e, rest := ListPage(b, pages[0]), pages[1..];
      assert forall k :: k in pages[0].Keys() ==> (r.o.layout.BucketName(b), k) in store;
      PageStep(store, r, b, pages[0]);
      ActFirst(store, r, e, ListEvents(b, rest));
      var i :| 0 <= i < |pages| && pages[i].Last();
      assert rest[i - 1] == pages[i];
      ListAlone(store, Step(store, r, e).1, b, rest);
      KeysOnTail(pages, Consumed(pages));
    }
  }

  /** Hence the keys a repair plans for the bucket are those `MissingKeys` returns for these pages. */
  lemma RepairPlansMissing(store: Store, r: Run, b: nat, pages: seq<Page>)
    requires r.phase.Listing? && b in r.phase.buckets && b !in r.phase.done && b !in r.phase.present && r.o.repair
    requires PagesTrue(store, r.o, b, pages) && exists i :: 0 <= i < |pages| && pages[i].Last()
    ensures var t := Act(store, r, ListEvents(b, pages)).1;
      t.phase.Listing? ==>
        KeysFor(r.o, t.phase.present, b)
        == Missing(r.o.layout, KeysOn(pages, Consumed(pages)), r.o.layout.keyspace)
  {
    ListAlone(store, r, b, pages);
    var t := Act(store, r, ListEvents(b, pages)).1;
    if t.phase.Listing? {
      assert Seen(t.phase.present, b) == KeysOn(pages, Consumed(pages));
    }
  }

  // ---- checking sentinels ----

  function CheckEvents(answers: seq<SentinelRead>): seq<Event> {
    if answers == [] then [] else [Check(answers[0])] + CheckEvents(answers[1..])
  }

  /** Sentinel answers that fail or give the stored body. */
  predicate ReadsTrue(store: Store, o: Options, answers: seq<SentinelRead>, from: nat) {
    forall i | 0 <= i < |answers| && answers[i].Body? ::
      var at := (o.layout.BucketName(from + i), o.layout.SentinelKey());
      at in store && store[at] == answers[i].text
  }

  /** Bucket b, read by these checks, needs seeding. */
  predicate Unseeded(o: Options, answers: seq<SentinelRead>, from: nat, b: nat) {
    from <= b < from + |answers| && answers[b - from] != Body(o.layout.SentinelBody(o.objectSize))
  }

  lemma CheckStep(store: Store, o: Options, next: nat, todo: seq<nat>, answer: SentinelRead)
    requires !o.force && next < o.bucketCount && ReadsTrue(store, o, [answer], next)
    ensures Step(store, Run(o, Checking(next, todo)), Check(answer)) == (store, Run(o, Checking(next + 1,
      if answer == Body(o.layout.SentinelBody(o.objectSize)) then todo else todo + [next])))
  {
    assert answer.Body? ==> [answer][0].Body? && o.layout.BucketName(next + 0) == o.layout.BucketName(next);
  }

  lemma LaterReads(store: Store, o: Options, answers: seq<SentinelRead>, from: nat)
    requires answers != [] && ReadsTrue(store, o, answers, from)
    ensures ReadsTrue(store, o, [answers[0]], from) && ReadsTrue(store, o, answers[1..], from + 1)
  {
    forall i | 0 <= i < |answers| - 1 && answers[1..][i].Body?
      ensures (o.layout.BucketName(from + 1 + i), o.layout.SentinelKey()) in store
           && store[(o.layout.BucketName(from + 1 + i), o.layout.SentinelKey())] == answers[1..][i].text
    {
      assert answers[i + 1] == answers[1..][i] && from + (i + 1) == from + 1 + i;
    }
  }

  /** The checks, alone: exactly the buckets `BucketsToSeed` would name, in increasing order. */
  lemma {:induction false} ChecksAlone(store: Store, o: Options, next: nat, todo: seq<nat>, answers: seq<SentinelRead>)
    requires !o.force && next + |answers| == o.bucketCount && ReadsTrue(store, o, answers, next)
    requires Increasing(todo) && forall i | 0 <= i < |todo| :: todo[i] < next
    ensures var (after, t) := Act(store, Run(o, Checking(next, todo)), CheckEvents(answers));
      && after == store && t.o == o && t.phase.Checking? && t.phase.next == o.bucketCount
      && Increasing(t.phase.todo)
      && forall b: nat :: b in t.phase.todo <==> b in todo || Unseeded(o, answers, next, b)
    decreases |answers|
  {
    if answers != [] {
      var r := Run(o, Checking(next, todo));
      ActFirst(store, r, Check(answers[0]), CheckEvents(answers[1..]));
      LaterReads(store, o, answers, next);
      CheckStep(store, o, next, todo, answers[0]);
      var more := if answers[0] == Body(o.layout.SentinelBody(o.objectSize)) then todo else todo + [next];
      ChecksAlone(store, o, next + 1, more, answers[1..]);
      forall b: nat ensures Unseeded(o, answers, next, b) <==>
        (b == next && answers[0] != Body(o.layout.SentinelBody(o.objectSize))) || Unseeded(o, answers[1..], next + 1, b)
      {
      }
    }
  }

  // ---- stamping ----

  /** The attempts of one sentinel; nothing follows an acknowledgement. */
  function PutEvents(outcomes: seq<Outcome>): seq<Event> {
    if outcomes == [] then [StampCancel]
    else [StampPut(outcomes[0])] + (if outcomes[0].Acked? then [] else PutEvents(outcomes[1..]))
  }

  function Stamps(o: Options, buckets: seq<nat>, failures: seq<nat>, n: nat, attempt: nat): Run {
    Run(o, Stamping(buckets, failures, n, attempt))
  }

  lemma {:induction false} OverStaysOver(store: Store, o: Options, outcomes: seq<Outcome>)
    ensures Act(store, Run(o, Over), PutEvents(outcomes)) == (store, Run(o, Over))
    decreases |outcomes|
  {
    var r := Run(o, Over);
    if outcomes == [] {
      assert [StampCancel] == [StampCancel] + [];
      ActFirst(store, r, StampCancel, []);
    } else if outcomes[0].Acked? {
      ActFirst(store, r, StampPut(outcomes[0]), []);
    } else {
      ActFirst(store, r, StampPut(outcomes[0]), PutEvents(outcomes[1..]));
      OverStaysOver(store, o, outcomes[1..]);
    }
  }

  lemma StampStep(store: Store, o: Options, buckets: seq<nat>, failures: seq<nat>, n: nat, a: nat, outcome: Outcome)
    requires n < |buckets| && buckets[n] < |failures| && failures[buckets[n]] == 0
    ensures Step(store, Stamps(o, buckets, failures, n, a), StampPut(outcome))
      == (Stored(store, o.layout.BucketName(buckets[n]), o.layout.SentinelKey(),
                 o.layout.SentinelBody(o.objectSize), outcome),
          if outcome.Acked? then Stamps(o, buckets, failures, n + 1, 0)
          else if a + 1 < ATTEMPTS then Stamps(o, buckets, failures, n, a + 1)
          else Run(o, Over))
  {
  }

  /** The attempts of one sentinel, alone, are TryPuts; a refused sentinel ends the run. */
  lemma {:induction false} SentinelAlone(store: Store, o: Options, buckets: seq<nat>, failures: seq<nat>, n: nat,
                                        a: nat, outcomes: seq<Outcome>)
    requires n < |buckets| && buckets[n] < |failures| && failures[buckets[n]] == 0
    requires a + |outcomes| <= ATTEMPTS && (a == 0 ==> outcomes != []) && a < ATTEMPTS
    ensures var (after, ok) := TryPuts(store, o.layout.BucketName(buckets[n]), o.layout.SentinelKey(),
                                       o.layout.SentinelBody(o.objectSize), outcomes);
      Act(store, Stamps(o, buckets, failures, n, a), PutEvents(outcomes))
      == (after, if ok then Stamps(o, buckets, failures, n + 1, 0) else Run(o, Over))
    decreases |outcomes|
  {
    var r := Stamps(o, buckets, failures, n, a);
    if outcomes == [] {
      assert [StampCancel] == [StampCancel] + [];
      ActFirst(store, r, StampCancel, []);
    } else {
      StampStep(store, o, buckets, failures, n, a, outcomes[0]);
      var next := Step(store, r, StampPut(outcomes[0])).0;
      if outcomes[0].Acked? {
        ActFirst(store, r, StampPut(outcomes[0]), []);
      } else {
        ActFirst(store, r, StampPut(outcomes[0]), PutEvents(outcomes[1..]));
        if a + 1 < ATTEMPTS {
          SentinelAlone(next, o, buckets, failures, n, a + 1, outcomes[1..]);
        } else {
          OverStaysOver(next, o, outcomes[1..]);
        }
      }
    }
  }

  predicate PassedOver(failures: seq<nat>, b: nat) {
    b < |failures| && failures[b] > 0
  }

  /** What one bucket of the list takes. */
  function BucketEvents(failures: seq<nat>, b: nat, outcomes: seq<Outcome>): seq<Event> {
    if PassedOver(failures, b) then [Advance] else PutEvents(outcomes)
  }

  /** The loop over the buckets; nothing follows a refused sentinel. */
  function StampEvents(failures: seq<nat>, buckets: seq<nat>, outcomes: seq<seq<Outcome>>): seq<Event>
    requires |outcomes| == |buckets|
  {
    if buckets == [] then []
    else
      BucketEvents(failures, buckets[0], outcomes[0])
      + (if PassedOver(failures, buckets[0]) || Acked in outcomes[0]
         then StampEvents(failures, buckets[1..], outcomes[1..]) else [])
  }

  lemma {:induction false} PutsSucceedIff(store: Store, bucket: string, key: string, body: string,
                                          outcomes: seq<Outcome>)
    ensures TryPuts(store, bucket, key, body, outcomes).1 <==> Acked in outcomes
    decreases |outcomes|
  {
    if outcomes != [] {
      PutsSucceedIff(Stored(store, bucket, key, body, outcomes[0]), bucket, key, body, outcomes[1..]);
    }
  }

  lemma BucketAlone(store: Store, o: Options, buckets: seq<nat>, failures: seq<nat>, n: nat, outcomes: seq<Outcome>)
    requires n < |buckets| && buckets[n] < |failures| && Tries(outcomes)
    ensures var (after, ok) :=
        if failures[buckets[n]] > 0 then (store, true)
        else TryPuts(store, o.layout.BucketName(buckets[n]), o.layout.SentinelKey(),
                     o.layout.SentinelBody(o.objectSize), outcomes);
      Act(store, Stamps(o, buckets, failures, n, 0), BucketEvents(failures, buckets[n], outcomes))
      == (after, if ok then Stamps(o, buckets, failures, n + 1, 0) else Run(o, Over))
  {
    if failures[buckets[n]] > 0 {
      assert [Advance] == [Advance] + [];
      ActFirst(store, Stamps(o, buckets, failures, n, 0), Advance, []);
    } else {
      SentinelAlone(store, o, buckets, failures, n, 0, outcomes);
    }
  }

  /** Stamping, alone, is Stamp: same store, and the run ends early exactly when it reports an error. */
  lemma {:induction false} StampAlone(store: Store, o: Options, buckets: seq<nat>, failures: seq<nat>, n: nat,
                                      outcomes: seq<seq<Outcome>>)
    requires n <= |buckets| && |outcomes| == |buckets| - n
    requires forall m | 0 <= m < |buckets| :: buckets[m] < |failures|
    requires forall m | 0 <= m < |outcomes| :: Tries(outcomes[m])
    ensures var (after, ok) := Stamp(store, o.layout, o.objectSize, failures, buckets[n..], outcomes);
      Act(store, Stamps(o, buckets, failures, n, 0), StampEvents(failures, buckets[n..], outcomes))
      == (after, if ok then Stamps(o, buckets, failures, |buckets|, 0) else Run(o, Over))
    decreases |outcomes|
  {
    if n < |buckets| {
      var r, b := Stamps(o, buckets, failures, n, 0), buckets[n];
      assert buckets[n..][1..] == buckets[n + 1..];
      BucketAlone(store, o, buckets, failures, n, outcomes[0]);
      PutsSucceedIff(store, o.layout.BucketName(b), o.layout.SentinelKey(), o.layout.SentinelBody(o.objectSize),
                     outcomes[0]);
      var (next, t) := Act(store, r, BucketEvents(failures, b, outcomes[0]));
      if PassedOver(failures, b) || Acked in outcomes[0] {
        ActSplit(store, r, BucketEvents(failures, b, outcomes[0]),
                 StampEvents(failures, buckets[n + 1..], outcomes[1..]));
        StampAlone(next, o, buckets, failures, n + 1, outcomes[1..]);
      } else {
        assert BucketEvents(failures, b, outcomes[0]) + [] == BucketEvents(failures, b, outcomes[0]);
      }
    }
  }
}
