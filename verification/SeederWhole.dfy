/**
 A run among others: what the log of a run says is true of the store all runs share. Any number of
 runs interleave over one store; each of them, seen alone, is a run over the stores it met.
 */
module SeederWhole {
  import opened Sums
  import opened Naming
  import opened Seeder
  import opened SeederRuns
  import opened SeederSafety
  import opened SeederBooks

  /** The steps one run takes, each with the store it met. */
  function StepsOf(s: Sys, actions: seq<Action>, id: nat): seq<(Store, Event)>
    decreases |actions|
  {
    if actions == [] then []
    else
      var rest := StepsOf(Next(s, actions[0]), actions[1..], id);
      if actions[0].Do? && actions[0].id == id && id in s.runs then [(s.store, actions[0].event)] + rest else rest
  }

  /** What the log of a run records depends on its own steps alone. */
  lemma {:induction false} RunAmongOthers(s: Sys, actions: seq<Action>, id: nat, log: Log)
    requires id in s.runs
    ensures id in Exec(s, actions).runs
    ensures Exec(s, actions).runs[id] == RunSteps(Traced(s.runs[id], log), StepsOf(s, actions, id)).run
    decreases |actions|
  {
    if actions != [] {
      var a, n := actions[0], Next(s, actions[0]);
      if a.Do? && a.id == id {
        var t := TracedStep(s.store, Traced(s.runs[id], log), a.event);
        RunAmongOthers(n, actions[1..], id, t.log);
        assert StepsOf(s, actions, id)[1..] == StepsOf(n, actions[1..], id);
      } else {
        RunAmongOthers(n, actions[1..], id, log);
      }
    }
  }

  /** The run launched under id, with its log, after these further actions. */
  function Logged(s: Sys, o: Options, id: nat, actions: seq<Action>): Traced {
    RunSteps(Launched(o), StepsOf(Next(s, Launch(id, o)), actions, id))
  }

  lemma LoggedRun(s: Sys, o: Options, id: nat, actions: seq<Action>)
    requires id !in s.runs
    ensures id in Exec(Next(s, Launch(id, o)), actions).runs
    ensures Exec(Next(s, Launch(id, o)), actions).runs[id] == Logged(s, o, id, actions).run
  {
    RunAmongOthers(Next(s, Launch(id, o)), actions, id, EMPTY_LOG);
  }

  // ---- names instead of indices ----

  function NameOf(o: Options, j: Job): (string, string) {
    (o.layout.BucketName(j.bucket), o.layout.ObjectKey(j.key))
  }

  lemma NameInjective(o: Options, j: Job, k: Job)
    requires NameOf(o, j) == NameOf(o, k)
    ensures j == k
  {
    BucketNameInjective(o.layout, j.bucket, k.bucket);
    ObjectKeyInjective(o.layout, j.key, k.key);
  }

  function Names(o: Options, jobs: seq<Job>): seq<(string, string)> {
    if jobs == [] then [] else Names(o, jobs[..|jobs| - 1]) + [NameOf(o, jobs[|jobs| - 1])]
  }

  lemma NameIff(o: Options, j: Job, k: Job)
    ensures NameOf(o, j) == NameOf(o, k) <==> j == k
  {
    if NameOf(o, j) == NameOf(o, k) {
      NameInjective(o, j, k);
    }
  }

  lemma CountLast<T>(s: seq<T>, x: T)
    requires s != []
    ensures multiset(s)[x] == multiset(s[..|s| - 1])[x] + (if s[|s| - 1] == x then 1 else 0)
  {
    assert s == s[..|s| - 1] + [s[|s| - 1]];
  }

  /** An object is named as often as its job is listed. */
  lemma {:induction false} NamesCount(o: Options, jobs: seq<Job>, j: Job)
    ensures multiset(Names(o, jobs))[NameOf(o, j)] == multiset(jobs)[j]
  {
    if jobs != [] {
      var init := jobs[..|jobs| - 1];
      NamesCount(o, init, j);
      NameIff(o, jobs[|jobs| - 1], j);
      CountLast(jobs, j);
      CountLast(Names(o, jobs), NameOf(o, j));
      assert Names(o, jobs)[..|Names(o, jobs)| - 1] == Names(o, init);
    }
  }

  // ---- objects put and stored ----

  /** No other run's steps are in the way: `Safe` and the books hold of the same run. */
  lemma SafeAndBooked(s: Sys, o: Options, id: nat, actions: seq<Action>)
    requires Safe(s) && id !in s.runs
    ensures var after := Exec(Next(s, Launch(id, o)), actions);
      && id in after.runs && after.runs[id] == Logged(s, o, id, actions).run && after.runs[id].o == o
      && RunOk(after.store, after.runs[id]) && SentinelsHonest(after.store)
      && Books(Logged(s, o, id, actions))
  {
    NextSafe(s, Launch(id, o));
    ExecSafe(Next(s, Launch(id, o)), actions);
    LoggedRun(s, o, id, actions);
    RunBooks(Launched(o), StepsOf(Next(s, Launch(id, o)), actions, id));
    assert RunAt(Exec(Next(s, Launch(id, o)), actions), id);
  }

  /**
   When the pool of a run drains, whatever other runs did meanwhile: every due object of a chosen bucket was
   put by this run in exactly one retry loop and no other object in any.
   */
  lemma ObjectsTriedOnce(s: Sys, o: Options, id: nat, actions: seq<Action>, b: nat, k: nat)
    requires Safe(s) && id !in s.runs && Drained(Logged(s, o, id, actions))
    ensures var t := Logged(s, o, id, actions);
      && multiset(Names(o, t.log.tried))[NameOf(o, Job(b, k))]
         == (if b in t.run.phase.buckets && Due(o, t.log.pages, b, k) then 1 else 0)
      && (o.repair && b in t.run.phase.buckets ==> Complete(PagesOf(t.log.pages, b)))
  {
    TriedExactlyOnce(o, StepsOf(Next(s, Launch(id, o)), actions, id), b, k);
    NamesCount(o, Logged(s, o, id, actions).log.tried, Job(b, k));
  }

  /**
   At the same moment every object of a chosen bucket is in the shared store, unless the run gave up an
   object of that bucket; and exactly in that case the bucket has failures and will not be stamped.
   */
  lemma DrainedBuckets(s: Sys, o: Options, id: nat, actions: seq<Action>, b: nat)
    requires Safe(s) && id !in s.runs && Drained(Logged(s, o, id, actions))
    requires b in Logged(s, o, id, actions).run.phase.buckets
    ensures var t := Logged(s, o, id, actions);
      var p, store := t.run.phase, Exec(Next(s, Launch(id, o)), actions).store;
      && b < |p.failures| == o.bucketCount && p.failures[b] == Number(t.log.gaveUp, InBucket(b))
      && (p.failures[b] == 0 ==> forall k: nat | k < o.layout.keyspace :: NameOf(o, Job(b, k)) in store)
  {
    var t := Logged(s, o, id, actions);
    var p, store := t.run.phase, Exec(Next(s, Launch(id, o)), actions).store;
    SafeAndBooked(s, o, id, actions);
    DrainedCounters(t);
    if p.failures[b] == 0 {
      forall k: nat | k < o.layout.keyspace ensures NameOf(o, Job(b, k)) in store {
        assert Handled(store, t.run, b, k);
      }
    }
  }
}
