/**
 Percentiles of a tick whose snapshots are read while workers write. Each bucket's delta counts the adds
 to its own cell between that cell's two reads; the reported percentile is that of the latencies those
 adds stand for.
 */
module TornQuantiles {
  import opened Bits
  import opened Buckets
  import opened Quantiles
  import opened Counters
  import opened Reports

  /** An add and, for an add to the histogram, the latency it records. */
  datatype Tagged = Tagged(add: Add, latency: Word)

  /** As ObserveSuccess and ObserveError perform them: one count in the latency's own bucket. */
  predicate TrueTag(t: Tagged) {
    t.add.cell >= BUCKETS ==> t.add == Add(BucketCell(t.latency), 1)
  }

  predicate TrueTags(ts: seq<Tagged>) {
    forall i | 0 <= i < |ts| :: TrueTag(ts[i])
  }

  function Untag(ts: seq<Tagged>): seq<Add> {
    seq(|ts|, i requires 0 <= i < |ts| => ts[i].add)
  }

  function TagAll(adds: seq<Add>, latency: Word): seq<Tagged> {
    seq(|adds|, i requires 0 <= i < |adds| => Tagged(adds[i], latency))
  }

  /** Every add of an observation is truly tagged with its latency. */
  lemma ObsTrueTags(o: Obs)
    requires o.Success? || o.Error?
    ensures TrueTags(TagAll(Adds(o), o.latency)) && Untag(TagAll(Adds(o), o.latency)) == Adds(o)
  {
  }

  /** Latencies recorded in one cell. */
  function InCell(ts: seq<Tagged>, c: nat): (xs: seq<nat>)
    ensures Words(xs)
  {
    if ts == [] then []
    else (if ts[0].add.cell == c then [ts[0].latency] else []) + InCell(ts[1..], c)
  }

  predicate AllOf(xs: seq<nat>, i: nat) {
    forall k | 0 <= k < |xs| :: BucketIndex(xs[k]) == i
  }

  /** The cell of bucket i is given one for each latency recorded in it, all of that bucket. */
  lemma {:induction false} CellCounts(ts: seq<Tagged>, i: nat)
    requires TrueTags(ts) && i < NUM_BUCKETS
    ensures Total(Untag(ts), BUCKETS + i) == |InCell(ts, BUCKETS + i)|
    ensures AllOf(InCell(ts, BUCKETS + i), i)
  {
    if ts != [] {
      CellCounts(ts[1..], i);
      assert TrueTag(ts[0]);
      assert Untag(ts)[1..] == Untag(ts[1..]);
    }
  }

  /** spans[i] are the tagged adds between the two reads of bucket i's cell. */
  predicate Spans(spans: seq<seq<Tagged>>) {
    |spans| == NUM_BUCKETS && forall i | 0 <= i < NUM_BUCKETS :: TrueTags(spans[i])
  }

  /** The latencies the first n buckets were given in their spans. */
  function Recorded(spans: seq<seq<Tagged>>, n: nat): (xs: seq<nat>)
    requires n <= |spans|
    ensures Words(xs)
  {
    if n == 0 then [] else Recorded(spans, n - 1) + InCell(spans[n - 1], BUCKETS + (n - 1))
  }

  lemma {:induction false} InBucketSplit(a: seq<nat>, b: seq<nat>, i: nat)
    ensures InBucket(a + b, i) == InBucket(a, i) + InBucket(b, i)
  {
    if a == [] {
      assert a + b == b;
    } else {
      InBucketSplit(a[1..], b, i);
      assert (a + b)[1..] == a[1..] + b;
    }
  }

  lemma {:induction false} AllInBucket(xs: seq<nat>, j: nat, i: nat)
    requires AllOf(xs, j)
    ensures InBucket(xs, i) == if i == j then |xs| else 0
  {
    if xs != [] {
      AllInBucket(xs[1..], j, i);
    }
  }

  lemma CellBucket(ts: seq<Tagged>, j: nat, i: nat)
    requires TrueTags(ts) && j < NUM_BUCKETS
    ensures InBucket(InCell(ts, BUCKETS + j), i) == if i == j then Total(Untag(ts), BUCKETS + j) else 0
  {
    CellCounts(ts, j);
    AllInBucket(InCell(ts, BUCKETS + j), j, i);
  }

  /** Bucket i of the recorded latencies is what its cell was given. */
  lemma {:induction false} RecordedBucket(spans: seq<seq<Tagged>>, n: nat, i: nat)
    requires Spans(spans) && n <= NUM_BUCKETS && i < NUM_BUCKETS
    ensures InBucket(Recorded(spans, n), i) == if i < n then Total(Untag(spans[i]), BUCKETS + i) else 0
  {
    if n > 0 {
      var last := n - 1;
      RecordedBucket(spans, last, i);
      CellBucket(spans[last], last, i);
      InBucketSplit(Recorded(spans, last), InCell(spans[last], BUCKETS + last), i);
    }
  }

  /** The spans of a tick of the reporting loop. */
  ghost predicate SpansOfTick(work: seq<seq<seq<Add>>>, n: nat, spans: seq<seq<Tagged>>)
    requires n < |work| && Ticks(work)
  {
    Spans(spans) && forall i: nat | i < NUM_BUCKETS :: SpanOk(work, n, spans, i)
  }

  predicate SpanOk(work: seq<seq<seq<Add>>>, n: nat, spans: seq<seq<Tagged>>, i: nat)
    requires n < |work| && Ticks(work) && |spans| == NUM_BUCKETS && i < NUM_BUCKETS
  {
    Untag(spans[i]) == Interval(work, n, BUCKETS + i)
  }

  lemma DeltaBucket(work: seq<seq<seq<Add>>>, n: nat, r: Report, spans: seq<seq<Tagged>>, i: nat)
    requires n < |work| && Ticks(work) && ReportOk(work, n, r) && SpansOfTick(work, n, spans)
    requires i < NUM_BUCKETS && |Recorded(spans, NUM_BUCKETS)| < WORD
    ensures r.delta[BUCKETS..][i] == InBucket(Recorded(spans, NUM_BUCKETS), i)
  {
    assert CellOk(work, n, r, BUCKETS + i) && SpanOk(work, n, spans, i);
    RecordedBucket(spans, NUM_BUCKETS, i);
    FewInBucket(Recorded(spans, NUM_BUCKETS), i);
    NothingTruncated(InBucket(Recorded(spans, NUM_BUCKETS), i));
  }

  /** The histogram of a report's delta is that of the latencies recorded between the reads. */
  lemma TornHistogram(work: seq<seq<seq<Add>>>, n: nat, r: Report, spans: seq<seq<Tagged>>)
    requires n < |work| && Ticks(work) && ReportOk(work, n, r) && SpansOfTick(work, n, spans)
    requires |Recorded(spans, NUM_BUCKETS)| < WORD
    ensures r.delta[BUCKETS..] == Quantiles.Histogram(Recorded(spans, NUM_BUCKETS))
  {
    var shown, histogram := r.delta[BUCKETS..], Quantiles.Histogram(Recorded(spans, NUM_BUCKETS));
    forall i | 0 <= i < NUM_BUCKETS ensures shown[i] == histogram[i] {
      DeltaBucket(work, n, r, spans, i);
    }
  }

  /**
   A reported percentile, snapshots torn or not, is the bucket bound of a sorted latency among those
   recorded between the two reads of their own cell: the t-th, t the integer part of q times their number.
   */
  lemma TornPercentile(work: seq<seq<seq<Add>>>, n: nat, r: Report, spans: seq<seq<Tagged>>,
                       sorted: seq<nat>, q: real, t: int, at: nat)
    requires n < |work| && Ticks(work) && ReportOk(work, n, r) && SpansOfTick(work, n, spans)
    requires |Recorded(spans, NUM_BUCKETS)| < WORD
    requires Words(sorted) && Sorted(sorted) && multiset(Recorded(spans, NUM_BUCKETS)) == multiset(sorted)
    requires 0.0 <= q <= 1.0 && IsRank(q, |Recorded(spans, NUM_BUCKETS)|, t)
    requires t >= 1 && StopsAt(r.delta[BUCKETS..], t, at)
    ensures Cum(r.delta[BUCKETS..], NUM_BUCKETS) == |Recorded(spans, NUM_BUCKETS)|
    ensures t <= |sorted| && NearRank(sorted, t, at)
  {
    var xs := Recorded(spans, NUM_BUCKETS);
    TornHistogram(work, n, r, spans);
    TotalIsCount(xs);
    RankBounds(q, |xs|, t);
    RankAmong(xs, sorted, t, at);
  }
}
