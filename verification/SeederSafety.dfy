/** The seeder's promise: over any runs, a sentinel that matches a layout means its objects are there. */
module SeederSafety {
  import opened Naming
  import opened Seeder
  import opened SeederRuns

  // ---- writes keep sentinels honest ----

  lemma ObjectPutHonest(store: Store, bucket: string, layout: Layout, k: nat, body: string)
    requires SentinelsHonest(store)
    ensures SentinelsHonest(store[(bucket, layout.ObjectKey(k)) := body])
  {
    var after := store[(bucket, layout.ObjectKey(k)) := body];
    forall bkt, l, size ensures Honest(after, bkt, l, size) {
      assert Honest(store, bkt, l, size);
      SentinelIsNoObject(layout, l, k);
    }
  }

  lemma SentinelPutHonest(store: Store, bucket: string, layout: Layout, size: nat)
    requires SentinelsHonest(store)
    requires forall k: nat | k < layout.keyspace :: (bucket, layout.ObjectKey(k)) in store
    ensures SentinelsHonest(store[(bucket, layout.SentinelKey()) := layout.SentinelBody(size)])
  {
    var after := store[(bucket, layout.SentinelKey()) := layout.SentinelBody(size)];
    forall bkt, l, sz ensures Honest(after, bkt, l, sz) {
      if bkt == bucket && l.SentinelKey() == layout.SentinelKey() {
        SentinelKeyInjective(l, layout);
        if layout.SentinelBody(size) == l.SentinelBody(sz) {
          SentinelBodyInjective(layout, size, l, sz);
          assert forall k: nat :: l.ObjectKey(k) == layout.ObjectKey(k);
        }
      } else {
        assert Honest(store, bkt, l, sz);
      }
    }
  }

  lemma StepHonest(store: Store, r: Run, e: Event)
    requires SentinelsHonest(store) && RunOk(store, r)
    ensures SentinelsHonest(Step(store, r, e).0)
  {
    if e.Attempt? && r.phase.Pumping? && e.worker < |r.phase.workers| && r.phase.workers[e.worker].Putting? {
      var job := r.phase.workers[e.worker].job;
      ObjectPutHonest(store, r.o.layout.BucketName(job.bucket), r.o.layout, job.key, e.body);
    } else if e.StampPut? && r.phase.Stamping? && r.phase.next < |r.phase.buckets| {
      var b := r.phase.buckets[r.phase.next];
      if b < |r.phase.failures| && r.phase.failures[b] == 0 {
        assert b in r.phase.buckets;
        forall k: nat | k < r.o.layout.keyspace
          ensures (r.o.layout.BucketName(b), r.o.layout.ObjectKey(k)) in store
        {
          assert HasObject(store, r.o, b, k);
        }
        SentinelPutHonest(store, r.o.layout.BucketName(b), r.o.layout, r.o.objectSize);
      }
    }
  }

  // ---- a plan covers what is missing ----

  /** The plan holds exactly the keys of the chosen buckets: all of them, or in repair those listing missed. */
  lemma {:induction false} PlanExact(o: Options, present: map<nat, set<string>>, buckets: seq<nat>, b: nat, k: nat)
    ensures Job(b, k) in PlanJobs(o, present, buckets) <==>
      b in buckets && k < o.layout.keyspace && (o.repair ==> o.layout.ObjectKey(k) !in Seen(present, b))
  {
    MissingExact(o.layout, Seen(present, b), o.layout.keyspace);
    assert k in KeysFor(o, present, b) <==>
      k < o.layout.keyspace && (o.repair ==> o.layout.ObjectKey(k) !in Seen(present, b)) by {
      assert k < o.layout.keyspace ==> AllKeys(o.layout.keyspace)[k] == k;
    }
    if buckets != [] {
      PlanExact(o, present, buckets[1..], b, k);
      var keys := KeysFor(o, present, buckets[0]);
      assert Job(b, k) in JobsOf(buckets[0], keys) <==> b == buckets[0] && k in keys by {
        if b == buckets[0] && k in keys {
          var i :| 0 <= i < |keys| && keys[i] == k;
          assert JobsOf(b, keys)[i] == Job(b, k);
        }
      }
    }
  }

  /** A key that listing saw exists; any other key of the bucket is in the plan. */
  lemma PlanCovers(store: Store, o: Options, present: map<nat, set<string>>, buckets: seq<nat>, b: nat, k: nat)
    requires b in buckets && k < o.layout.keyspace && ListedExists(store, o, present, b)
    ensures HasObject(store, o, b, k) || Job(b, k) in PlanJobs(o, present, buckets)
  {
    PlanExact(o, present, buckets, b, k);
  }

  lemma PumpOk(store: Store, o: Options, present: map<nat, set<string>>, buckets: seq<nat>)
    requires forall b :: ListedExists(store, o, present, b)
    ensures RunOk(store, Run(o, Pump(o, buckets, PlanJobs(o, present, buckets))))
  {
    var r := Run(o, Pump(o, buckets, PlanJobs(o, present, buckets)));
    forall b, k: nat | b in buckets && k < o.layout.keyspace ensures Handled(store, r, b, k) {
      assert ListedExists(store, o, present, b);
      PlanCovers(store, o, present, buckets, b, k);
      if Job(b, k) in r.phase.plan {
        assert Queued(r.phase, Job(b, k));
      }
    }
  }

  lemma EmptyPlanOk(store: Store, o: Options, present: map<nat, set<string>>, buckets: seq<nat>)
    requires forall b :: ListedExists(store, o, present, b)
    requires PlanJobs(o, present, buckets) == []
    ensures RunOk(store, Run(o, Stamping(buckets, NoFailures(o.bucketCount), 0, 0)))
  {
    forall b, k: nat | b in buckets && k < o.layout.keyspace ensures HasObject(store, o, b, k) {
      assert ListedExists(store, o, present, b);
      PlanCovers(store, o, present, buckets, b, k);
    }
  }

  // ---- steps keep a run's bookkeeping ----

  lemma ListStepOk(store: Store, r: Run, b: nat, page: Page)
    requires r.phase.Listing? && RunOk(store, r)
    ensures RunOk(store, Step(store, r, ListPage(b, page)).1)
  {
    var t := Step(store, r, ListPage(b, page)).1;
    if t != r && t.phase.Listing? {
      forall n: nat ensures ListedExists(store, r.o, t.phase.present, n) {
        assert ListedExists(store, r.o, r.phase.present, n);
      }
    }
  }

  lemma BeginOk(store: Store, o: Options, buckets: seq<nat>)
    ensures RunOk(store, Run(o, Begin(o, buckets)))
  {
    assert forall b :: ListedExists(store, o, map[], b);
    PumpOk(store, o, map[], buckets);
  }

  lemma TakeOk(store: Store, r: Run, w: nat)
    requires r.phase.Pumping? && RunOk(store, r)
    ensures RunOk(store, Step(store, r, Take(w)).1)
  {
    var t := Step(store, r, Take(w)).1;
    if t != r {
      var p := r.phase;
      forall b, k: nat | b in p.buckets && k < r.o.layout.keyspace ensures Handled(store, t, b, k) {
        assert Handled(store, r, b, k);
        var j := Job(b, k);
        if Queued(p, j) {
          var i :| p.taken <= i < |p.plan| && p.plan[i] == j;
          if i == p.taken {
            assert t.phase.workers[w].Putting? && t.phase.workers[w].job == j;
            assert InHand(t.phase, j);
          } else {
            assert Queued(t.phase, j);
          }
        } else if InHand(p, j) {
          var v :| 0 <= v < |p.workers|
            && (p.workers[v] == Lost(j) || (p.workers[v].Putting? && p.workers[v].job == j));
          assert t.phase.workers[v] == p.workers[v];
          assert InHand(t.phase, j);
        }
      }
    }
  }

  /** Worker w moves on with its job; every key it leaves behind is stored or counted. */
  lemma HandOver(store: Store, after: Store, r: Run, t: Run, w: nat, b: nat, k: nat)
    requires r.phase.Pumping? && t.phase.Pumping? && t.o == r.o && Grows(store, after)
    requires w < |r.phase.workers| && Handled(store, r, b, k)
    requires t.phase.plan == r.phase.plan && t.phase.taken == r.phase.taken
    requires |t.phase.workers| == |r.phase.workers|
    requires forall v | 0 <= v < |r.phase.workers| && v != w :: t.phase.workers[v] == r.phase.workers[v]
    requires b < |r.phase.failures| && r.phase.failures[b] > 0 ==> b < |t.phase.failures| && t.phase.failures[b] > 0
    requires (|| r.phase.workers[w] == Lost(Job(b, k))
              || (r.phase.workers[w].Putting? && r.phase.workers[w].job == Job(b, k)))
      ==> HasObject(after, r.o, b, k) || t.phase.workers[w] == Lost(Job(b, k))
          || (t.phase.workers[w].Putting? && t.phase.workers[w].job == Job(b, k))
          || (b < |t.phase.failures| && t.phase.failures[b] > 0)
    ensures Handled(after, t, b, k)
  {
    var j := Job(b, k);
    var p := r.phase;
    if HasObject(store, r.o, b, k) {
      assert (r.o.layout.BucketName(b), r.o.layout.ObjectKey(k)) in store.Keys;
    } else if Queued(p, j) {
      assert Queued(t.phase, j);
    } else if InHand(p, j) {
      var v :| 0 <= v < |p.workers| && (p.workers[v] == Lost(j) || (p.workers[v].Putting? && p.workers[v].job == j));
      if v != w {
        assert t.phase.workers[v] == p.workers[v];
        assert InHand(t.phase, j);
      } else if t.phase.workers[w] == Lost(j) || (t.phase.workers[w].Putting? && t.phase.workers[w].job == j) {
        assert InHand(t.phase, j);
      }
    }
  }

  lemma AttemptOk(store: Store, r: Run, w: nat, body: string, outcome: Outcome)
    requires r.phase.Pumping? && RunOk(store, r)
    ensures RunOk(Step(store, r, Attempt(w, body, outcome)).0, Step(store, r, Attempt(w, body, outcome)).1)
  {
    var (after, t) := Step(store, r, Attempt(w, body, outcome));
    var p := r.phase;
    if w < |p.workers| && p.workers[w].Putting? {
      forall b, k: nat | b in p.buckets && k < r.o.layout.keyspace ensures Handled(after, t, b, k) {
        HandOver(store, after, r, t, w, b, k);
      }
      RunOkStable(store, after, r);
    }
  }

  lemma CancelOk(store: Store, r: Run, w: nat)
    requires r.phase.Pumping? && RunOk(store, r)
    ensures RunOk(store, Step(store, r, Cancel(w)).1)
  {
    var t := Step(store, r, Cancel(w)).1;
    if t != r {
      forall b, k: nat | b in r.phase.buckets && k < r.o.layout.keyspace ensures Handled(store, t, b, k) {
        HandOver(store, store, r, t, w, b, k);
      }
    }
  }

  lemma SettleOk(store: Store, r: Run, w: nat)
    requires r.phase.Pumping? && RunOk(store, r)
    ensures RunOk(store, Step(store, r, Settle(w)).1)
  {
    var t := Step(store, r, Settle(w)).1;
    var p := r.phase;
    if t != r {
      forall b, k: nat | b in p.buckets && k < r.o.layout.keyspace ensures Handled(store, t, b, k) {
        HandOver(store, store, r, t, w, b, k);
      }
    }
  }

  lemma DrainedOk(store: Store, r: Run)
    requires r.phase.Pumping? && RunOk(store, r) && r.phase.taken >= |r.phase.plan| && AllFree(r.phase.workers)
    ensures RunOk(store, r.(phase := Stamping(r.phase.buckets, r.phase.failures, 0, 0)))
  {
    forall b, k: nat | b in r.phase.buckets && k < r.o.layout.keyspace
      ensures HasObject(store, r.o, b, k) || (b < |r.phase.failures| && r.phase.failures[b] > 0)
    {
      assert Handled(store, r, b, k);
    }
  }

  lemma ListedOk(store: Store, o: Options, present: map<nat, set<string>>, buckets: seq<nat>)
    requires forall b :: ListedExists(store, o, present, b)
    ensures RunOk(store, Run(o, AfterListing(o, buckets, present)))
  {
    PumpOk(store, o, present, buckets);
    if PlanJobs(o, present, buckets) == [] {
      EmptyPlanOk(store, o, present, buckets);
    }
  }

  lemma PoolStepOk(store: Store, r: Run, e: Event)
    requires r.phase.Pumping? && RunOk(store, r)
    ensures RunOk(Step(store, r, e).0, Step(store, r, e).1)
  {
    match e
    case Take(w) => TakeOk(store, r, w);
    case Attempt(w, body, outcome) => AttemptOk(store, r, w, body, outcome);
    case Cancel(w) => CancelOk(store, r, w);
    case Settle(w) => SettleOk(store, r, w);
    case Advance =>
      if r.phase.taken >= |r.phase.plan| && AllFree(r.phase.workers) {
        DrainedOk(store, r);
      }
    case _ =>
  }

  lemma CheckingStepOk(store: Store, r: Run, e: Event)
    requires r.phase.Checking?
    ensures RunOk(Step(store, r, e).0, Step(store, r, e).1)
  {
    BeginOk(store, r.o, AllKeys(r.o.bucketCount));
    BeginOk(store, r.o, r.phase.todo);
  }

  lemma ListingStepOk(store: Store, r: Run, e: Event)
    requires r.phase.Listing? && RunOk(store, r)
    ensures RunOk(Step(store, r, e).0, Step(store, r, e).1)
  {
    match e
    case ListPage(b, page) => ListStepOk(store, r, b, page);
    case Advance => ListedOk(store, r.o, r.phase.present, r.phase.buckets);
    case _ =>
  }

  lemma StampingStepOk(store: Store, r: Run, e: Event)
    requires r.phase.Stamping? && RunOk(store, r)
    ensures RunOk(Step(store, r, e).0, Step(store, r, e).1)
  {
    if e.StampPut? {
      RunOkStable(store, Step(store, r, e).0, r);
    }
  }

  lemma StepRunOk(store: Store, r: Run, e: Event)
    requires RunOk(store, r)
    ensures RunOk(Step(store, r, e).0, Step(store, r, e).1)
  {
    match r.phase
    case Checking(_, _) => CheckingStepOk(store, r, e);
    case Listing(_, _, _) => ListingStepOk(store, r, e);
    case Pumping(_, _, _, _, _, _, _) => PoolStepOk(store, r, e);
    case Stamping(_, _, _, _) => StampingStepOk(store, r, e);
    case Over =>
  }

  // ---- any number of runs ----

  datatype Sys = Sys(store: Store, runs: map<nat, Run>)

  datatype Action = Launch(id: nat, o: Options) | Do(id: nat, event: Event)

  function Next(s: Sys, a: Action): Sys {
    match a
    case Launch(id, o) =>
      if id in s.runs then s else s.(runs := s.runs[id := Run(o, Checking(0, []))])
    case Do(id, event) =>
      if id !in s.runs then s
      else
        var (store, run) := Step(s.store, s.runs[id], event);
        Sys(store, s.runs[id := run])
  }

  function Exec(s: Sys, actions: seq<Action>): Sys
    decreases |actions|
  {
    if actions == [] then s else Exec(Next(s, actions[0]), actions[1..])
  }

  ghost predicate RunAt(s: Sys, id: nat) {
    id in s.runs ==> RunOk(s.store, s.runs[id])
  }

  ghost predicate Safe(s: Sys) {
    SentinelsHonest(s.store) && forall id: nat :: RunAt(s, id)
  }

  lemma NextSafe(s: Sys, a: Action)
    requires Safe(s)
    ensures Safe(Next(s, a))
  {
    var t := Next(s, a);
    if a.Do? && a.id in s.runs {
      assert RunAt(s, a.id);
      StepHonest(s.store, s.runs[a.id], a.event);
      StepRunOk(s.store, s.runs[a.id], a.event);
    }
    forall id: nat ensures RunAt(t, id) {
      assert RunAt(s, id);
      if a.Do? && a.id in s.runs && id in s.runs && id != a.id {
        RunOkStable(s.store, t.store, s.runs[id]);
      }
    }
  }

  lemma {:induction false} ExecSafe(s: Sys, actions: seq<Action>)
    requires Safe(s)
    ensures Safe(Exec(s, actions))
    decreases |actions|
  {
    if actions != [] {
      NextSafe(s, actions[0]);
      ExecSafe(Next(s, actions[0]), actions[1..]);
    }
  }

  /**
   Over any runs, with any options, each interrupted anywhere, any interleaving and any PUT outcomes:
   a sentinel whose body is that of keyspace K and prefix P means every object 0..K-1 under P exists.
   */
  lemma SentinelPromise(store: Store, actions: seq<Action>, bucket: string, layout: Layout, size: nat, k: nat)
    requires SentinelsHonest(store)
    requires var after := Exec(Sys(store, map[]), actions).store;
      && (bucket, layout.SentinelKey()) in after
      && after[(bucket, layout.SentinelKey())] == layout.SentinelBody(size)
    requires k < layout.keyspace
    ensures (bucket, layout.ObjectKey(k)) in Exec(Sys(store, map[]), actions).store
  {
    ExecSafe(Sys(store, map[]), actions);
    assert Honest(Exec(Sys(store, map[]), actions).store, bucket, layout, size);
  }

  /** In particular from an empty store, for runs of the seeder alone. */
  lemma SentinelPromiseFromEmpty(actions: seq<Action>, bucket: string, layout: Layout, size: nat, k: nat)
    requires var after := Exec(Sys(map[], map[]), actions).store;
      && (bucket, layout.SentinelKey()) in after
      && after[(bucket, layout.SentinelKey())] == layout.SentinelBody(size)
    requires k < layout.keyspace
    ensures (bucket, layout.ObjectKey(k)) in Exec(Sys(map[], map[]), actions).store
  {
    SentinelPromise(map[], actions, bucket, layout, size, k);
  }

  /** A bucket that a later run skips because its sentinel matches is complete for that run. */
  lemma SkippedIsComplete(s: Sys, id: nat, read: SentinelRead, k: nat)
    requires Safe(s) && id in s.runs && s.runs[id].phase.Checking?
    requires k < s.runs[id].o.layout.keyspace
    requires var n := Next(s, Do(id, Check(read)));
      && n.runs[id].phase.Checking? && n.runs[id].phase.next == s.runs[id].phase.next + 1
      && n.runs[id].phase.todo == s.runs[id].phase.todo
    ensures HasObject(s.store, s.runs[id].o, s.runs[id].phase.next, k)
  {
    var r := s.runs[id];
    assert |r.phase.todo + [r.phase.next]| != |r.phase.todo|;
    assert Honest(s.store, r.o.layout.BucketName(r.phase.next), r.o.layout, r.o.objectSize);
  }
}
