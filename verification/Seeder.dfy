/**
 The seeder's own steps (cmd/seeder/main.go): which buckets to seed, which keys a listing shows to
 be missing, a PUT with retries, one worker's loop and the stamping of sentinels. What the
 object store does to a request is an input.
 */
module Seeder {
  import opened Naming

  /** (bucket name, key) to body. */
  type Store = map<(string, string), string>

  /** What became of one PUT attempt; a failed attempt may still have been stored. */
  datatype Outcome = Acked | StoredUnacked | NotStored

  const ATTEMPTS := 6

  /** The fate of each attempt; fewer than six when the run is cancelled during a backoff. */
  predicate Tries(outcomes: seq<Outcome>) {
    0 < |outcomes| <= ATTEMPTS
  }

  function Stored(store: Store, bucket: string, key: string, body: string, o: Outcome): Store {
    if o.NotStored? then store else store[(bucket, key) := body]
  }

  /** The first acknowledged attempt ends the loop; running out of attempts ends it with an error. */
  function TryPuts(store: Store, bucket: string, key: string, body: string, outcomes: seq<Outcome>): (Store, bool)
    decreases |outcomes|
  {
    if outcomes == [] then (store, false)
    else
      var after := Stored(store, bucket, key, body, outcomes[0]);
      if outcomes[0].Acked? then (after, true) else TryPuts(after, bucket, key, body, outcomes[1..])
  }

  method PutWithRetry(store: Store, bucket: string, key: string, body: string, outcomes: seq<Outcome>)
    returns (after: Store, ok: bool)
    requires Tries(outcomes)
    ensures (after, ok) == TryPuts(store, bucket, key, body, outcomes)
    ensures ok <==> Acked in outcomes
    ensures ok ==> (bucket, key) in after && after[(bucket, key)] == body
    ensures after == store || after == store[(bucket, key) := body]
  {
    after := store;
    var attempt := 0;
    while attempt < ATTEMPTS
      invariant 0 <= attempt <= |outcomes|
      invariant TryPuts(store, bucket, key, body, outcomes) == TryPuts(after, bucket, key, body, outcomes[attempt..])
      invariant after == store || after == store[(bucket, key) := body]
      invariant Acked !in outcomes[..attempt]
    {
      if attempt > 0 && attempt == |outcomes| {
        break;  // cancelled during the backoff
      }
      assert outcomes[attempt..][1..] == outcomes[attempt + 1..];
      assert outcomes[..attempt + 1] == outcomes[..attempt] + [outcomes[attempt]];
      after := Stored(after, bucket, key, body, outcomes[attempt]);
      if outcomes[attempt].Acked? {
        return after, true;
      }
      attempt := attempt + 1;
    }
    assert outcomes[..attempt] == outcomes;
    ok := false;
  }

  // ---- listing ----

  datatype Page = PageError | Page(keys: seq<string>, truncated: bool, token: string) {
    /** The listing loop stops at this page. */
    predicate Last() {
      PageError? || !truncated || token == ""
    }

    function Keys(): set<string> {
      if PageError? then {} else set k | k in keys
    }
  }

  /** Pages the listing loop reads: up to the first at which it stops. */
  function Consumed(pages: seq<Page>): (n: nat)
    ensures n <= |pages|
  {
    if pages == [] then 0 else if pages[0].Last() then 1 else 1 + Consumed(pages[1..])
  }

  lemma {:induction false} ConsumedIs(pages: seq<Page>, n: nat)
    requires n < |pages| && pages[n].Last() && forall i | 0 <= i < n :: !pages[i].Last()
    ensures Consumed(pages) == n + 1
  {
    if n > 0 {
      ConsumedIs(pages[1..], n - 1);
    }
  }

  /** Keys on the first n pages. */
  function KeysOn(pages: seq<Page>, n: nat): set<string>
    requires n <= |pages|
  {
    if n == 0 then {} else KeysOn(pages, n - 1) + pages[n - 1].Keys()
  }

  /** Indices below n whose object key is not in the set, in increasing order. */
  function Missing(layout: Layout, present: set<string>, n: nat): seq<nat> {
    if n == 0 then []
    else Missing(layout, present, n - 1) + (if layout.ObjectKey(n - 1) in present then [] else [n - 1])
  }

  predicate Increasing(s: seq<nat>) {
    forall i, j | 0 <= i < j < |s| :: s[i] < s[j]
  }

  lemma {:induction false} MissingExact(layout: Layout, present: set<string>, n: nat)
    ensures Increasing(Missing(layout, present, n))
    ensures forall k: nat :: k in Missing(layout, present, n) <==> k < n && layout.ObjectKey(k) !in present
  {
    if n > 0 {
      MissingExact(layout, present, n - 1);
      var m := Missing(layout, present, n - 1);
      assert forall i | 0 <= i < |m| :: m[i] in m;
    }
  }

  datatype MissingResult = ListFailed | Found(missing: seq<nat>)

  /** The second loop of missingKeys. */
  method CollectMissing(layout: Layout, present: set<string>) returns (missing: seq<nat>)
    ensures missing == Missing(layout, present, layout.keyspace)
  {
    missing := [];
    var k := 0;
    while k < layout.keyspace
      invariant 0 <= k <= layout.keyspace && missing == Missing(layout, present, k)
    {
      if layout.ObjectKey(k) !in present {
        missing := missing + [k];
      }
      k := k + 1;
    }
  }

  /**
   missingKeys over the pages its requests are answered with; `pages` holds a finite token chain.
   The answer is the strictly increasing list of exactly the indices whose key is on no page
   consumed, or the error of the page that failed.
   */
  method MissingKeys(layout: Layout, pages: seq<Page>) returns (r: MissingResult)
    requires exists i :: 0 <= i < |pages| && pages[i].Last()
    ensures Consumed(pages) > 0 && (r.ListFailed? <==> pages[Consumed(pages) - 1].PageError?)
    ensures r.Found? ==> Increasing(r.missing) && forall k: nat ::
      k in r.missing <==> k < layout.keyspace && layout.ObjectKey(k) !in KeysOn(pages, Consumed(pages))
    ensures r.Found? ==> r.missing == Missing(layout, KeysOn(pages, Consumed(pages)), layout.keyspace)
  {
    var present: set<string> := {};
    var p := 0;
    while true
      invariant 0 <= p < |pages| && present == KeysOn(pages, p)
      invariant forall i | 0 <= i < p :: !pages[i].Last()
      decreases |pages| - p
    {
      if pages[p].PageError? {
        ConsumedIs(pages, p);
        return ListFailed;
      }
      present := present + pages[p].Keys();
      if !pages[p].truncated || pages[p].token == "" {
        break;
      }
      p := p + 1;
    }
    ConsumedIs(pages, p);
    MissingExact(layout, present, layout.keyspace);
    var missing := CollectMissing(layout, present);
    r := Found(missing);
  }

  /** Listing the sentinel never hides an object. */
  lemma SentinelNotCounted(layout: Layout, present: set<string>, n: nat)
    ensures Missing(layout, present + {layout.SentinelKey()}, n) == Missing(layout, present, n)
  {
    if n > 0 {
      SentinelNotCounted(layout, present, n - 1);
      SentinelIsNoObject(layout, layout, n - 1);
    }
  }

  // ---- the seeder object ----

  datatype Job = Job(bucket: nat, key: nat)

  class BucketSeeder {
    const layout: Layout
    const bucketCount: nat
    const objectSize: nat
    const force: bool
    var written: nat
    var failed: nat
    const failedPerBucket: array<nat>

    ghost predicate Valid()
      reads this, failedPerBucket
    {
      failedPerBucket.Length == bucketCount
    }

    constructor (layout: Layout, bucketCount: nat, objectSize: nat, force: bool)
      ensures Valid() && fresh(failedPerBucket)
      ensures this.layout == layout && this.bucketCount == bucketCount
      ensures this.objectSize == objectSize && this.force == force
      ensures written == 0 && failed == 0 && forall b | 0 <= b < bucketCount :: failedPerBucket[b] == 0
    {
      this.layout, this.bucketCount, this.objectSize, this.force := layout, bucketCount, objectSize, force;
      written, failed := 0, 0;
      failedPerBucket := new nat[bucketCount](_ => 0);
    }

    /**
     bucketsToSeed: with force every bucket, otherwise those whose sentinel could not be read
     (None) or has another body; always in increasing order.
     */
    method BucketsToSeed(bodies: seq<SentinelRead>) returns (todo: seq<nat>)
      requires |bodies| == bucketCount
      ensures Increasing(todo)
      ensures forall b: nat :: b in todo <==>
        b < bucketCount && (force || bodies[b] != Body(layout.SentinelBody(objectSize)))
    {
      todo := [];
      var i := 0;
      while i < bucketCount
        invariant 0 <= i <= bucketCount
        invariant Increasing(todo)
        invariant forall b: nat :: b in todo <==> b < i && (force || bodies[b] != Body(layout.SentinelBody(objectSize)))
        invariant forall n | 0 <= n < |todo| :: todo[n] < i
      {
        if force || bodies[i] != Body(layout.SentinelBody(objectSize)) {
          todo := todo + [i];
        }
        i := i + 1;
      }
    }

    /** One iteration of a worker: the PUT and its bookkeeping. */
    method DoJob(store: Store, j: Job, body: string, outcomes: seq<Outcome>) returns (after: Store)
      requires Valid() && j.bucket < bucketCount && Tries(outcomes)
      modifies this`written, this`failed, failedPerBucket
      ensures Valid()
      ensures after == TryPuts(store, layout.BucketName(j.bucket), layout.ObjectKey(j.key), body, outcomes).0
      ensures Acked in outcomes ==>
        && written == old(written) + 1 && failed == old(failed)
        && failedPerBucket[..] == old(failedPerBucket[..])
        && (layout.BucketName(j.bucket), layout.ObjectKey(j.key)) in after
      ensures Acked !in outcomes ==>
        && written == old(written) && failed == old(failed) + 1
        && failedPerBucket[..] == old(failedPerBucket[..][j.bucket := failedPerBucket[j.bucket] + 1])
    {
      var ok: bool;
      after, ok := PutWithRetry(store, layout.BucketName(j.bucket), layout.ObjectKey(j.key), body, outcomes);
      if !ok {
        failedPerBucket[j.bucket] := failedPerBucket[j.bucket] + 1;
        failed := failed + 1;
        return;
      }
      written := written + 1;
    }

    /**
     writeSentinels: buckets with failures are passed over; the first sentinel that cannot be
     written ends the loop with an error. What that does to the store is `Stamped`.
     */
    method WriteSentinels(store: Store, buckets: seq<nat>, outcomes: seq<seq<Outcome>>)
      returns (after: Store, ok: bool)
      requires Valid() && |outcomes| == |buckets|
      requires forall n | 0 <= n < |buckets| :: buckets[n] < bucketCount && Tries(outcomes[n])
      ensures (after, ok) == Stamp(store, layout, objectSize, failedPerBucket[..], buckets, outcomes)
      ensures ok <==> forall n | 0 <= n < |buckets| :: !Refused(failedPerBucket[..], buckets, outcomes, n)
      ensures ok ==> Stamped(store, after, layout, objectSize, failedPerBucket[..], buckets, |buckets|)
      ensures !ok ==> exists m ::
        && FirstRefused(failedPerBucket[..], buckets, outcomes, m)
        && Stamped(store, after, layout, objectSize, failedPerBucket[..], buckets, m)
    {
      after := store;
      var n := 0;
      while n < |buckets|
        invariant 0 <= n <= |buckets|
        invariant forall m | 0 <= m < n :: !Refused(failedPerBucket[..], buckets, outcomes, m)
        invariant Stamped(store, after, layout, objectSize, failedPerBucket[..], buckets, n)
        invariant Stamp(store, layout, objectSize, failedPerBucket[..], buckets, outcomes)
               == Stamp(after, layout, objectSize, failedPerBucket[..], buckets[n..], outcomes[n..])
      {
        var b := buckets[n];
        assert buckets[n..][1..] == buckets[n + 1..] && outcomes[n..][1..] == outcomes[n + 1..];
        ghost var before := after;
        if failedPerBucket[b] == 0 {
          var put: bool;
          after, put := PutWithRetry(after, layout.BucketName(b), layout.SentinelKey(),
                                     layout.SentinelBody(objectSize), outcomes[n]);
          SentinelPut(store, before, after, layout, objectSize, failedPerBucket[..], buckets, n);
          if !put {
            assert Refused(failedPerBucket[..], buckets, outcomes, n);
            return after, false;
          }
        }
        NextBucket(store, after, layout, objectSize, failedPerBucket[..], buckets, n);
        n := n + 1;
      }
      ok := true;
    }
  }

  /** Bucket n of the list is clean and its sentinel PUT is never acknowledged. */
  predicate Refused(failures: seq<nat>, buckets: seq<nat>, outcomes: seq<seq<Outcome>>, n: int) {
    && 0 <= n < |buckets| == |outcomes| && buckets[n] < |failures|
    && failures[buckets[n]] == 0 && Acked !in outcomes[n]
  }

  predicate FirstRefused(failures: seq<nat>, buckets: seq<nat>, outcomes: seq<seq<Outcome>>, n: nat) {
    Refused(failures, buckets, outcomes, n) && forall m | 0 <= m < n :: !Refused(failures, buckets, outcomes, m)
  }

  /** The key is the sentinel of a clean bucket among the listed ones up to and including n. */
  predicate CleanSentinel(at: (string, string), layout: Layout, failures: seq<nat>, buckets: seq<nat>, n: nat) {
    exists m :: 0 <= m <= n && m < |buckets| && buckets[m] < |failures| && failures[buckets[m]] == 0
      && at == (layout.BucketName(buckets[m]), layout.SentinelKey())
  }

  /** The key holds what it held, or it is such a sentinel and now holds the layout's body. */
  predicate StampedAt(store: Store, after: Store, layout: Layout, size: nat, failures: seq<nat>, buckets: seq<nat>,
                      n: nat, at: (string, string)) {
    if at in after && (at !in store || after[at] != store[at])
    then CleanSentinel(at, layout, failures, buckets, n) && after[at] == layout.SentinelBody(size)
    else at in store ==> at in after
  }

  /**
   The clean ones of the first n buckets hold their sentinel, that of bucket n may have been written,
   and nothing else has changed.
   */
  ghost predicate Stamped(store: Store, after: Store, layout: Layout, size: nat, failures: seq<nat>,
                          buckets: seq<nat>, n: nat)
    requires n <= |buckets| && forall m | 0 <= m < |buckets| :: buckets[m] < |failures|
  {
    && (forall m | 0 <= m < n && failures[buckets[m]] == 0 ::
          var at := (layout.BucketName(buckets[m]), layout.SentinelKey());
          at in after && after[at] == layout.SentinelBody(size))
    && (forall at :: StampedAt(store, after, layout, size, failures, buckets, n, at))
  }

  lemma SentinelPut(store: Store, before: Store, after: Store, layout: Layout, size: nat, failures: seq<nat>,
                    buckets: seq<nat>, n: nat)
    requires n < |buckets| && forall m | 0 <= m < |buckets| :: buckets[m] < |failures|
    requires failures[buckets[n]] == 0 && Stamped(store, before, layout, size, failures, buckets, n)
    requires var at := (layout.BucketName(buckets[n]), layout.SentinelKey());
      after == before || after == before[at := layout.SentinelBody(size)]
    ensures Stamped(store, after, layout, size, failures, buckets, n)
  {
    forall at ensures StampedAt(store, after, layout, size, failures, buckets, n, at) {
      assert StampedAt(store, before, layout, size, failures, buckets, n, at);
    }
  }

  lemma NextBucket(store: Store, after: Store, layout: Layout, size: nat, failures: seq<nat>, buckets: seq<nat>, n: nat)
    requires n < |buckets| && forall m | 0 <= m < |buckets| :: buckets[m] < |failures|
    requires Stamped(store, after, layout, size, failures, buckets, n)
    requires failures[buckets[n]] == 0 ==>
      var at := (layout.BucketName(buckets[n]), layout.SentinelKey());
      at in after && after[at] == layout.SentinelBody(size)
    ensures Stamped(store, after, layout, size, failures, buckets, n + 1)
  {
    var next := n + 1;
    forall at ensures StampedAt(store, after, layout, size, failures, buckets, next, at) {
      assert StampedAt(store, after, layout, size, failures, buckets, n, at);
    }
  }

  /** What a GET of the sentinel gave. */
  datatype SentinelRead = Unreadable | Body(text: string)

  function Stamp(store: Store, layout: Layout, size: nat, failures: seq<nat>, buckets: seq<nat>,
                 outcomes: seq<seq<Outcome>>): (Store, bool)
    requires |outcomes| == |buckets|
    requires forall n | 0 <= n < |buckets| :: buckets[n] < |failures| && Tries(outcomes[n])
    decreases |buckets|
  {
    if buckets == [] then (store, true)
    else if failures[buckets[0]] > 0 then Stamp(store, layout, size, failures, buckets[1..], outcomes[1..])
    else
      var (next, put) := TryPuts(store, layout.BucketName(buckets[0]), layout.SentinelKey(),
                                 layout.SentinelBody(size), outcomes[0]);
      if put then Stamp(next, layout, size, failures, buckets[1..], outcomes[1..]) else (next, false)
  }
}
