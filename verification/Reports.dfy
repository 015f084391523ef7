/**
 The agent's reporting loop and its final flush: interval deltas telescope to the cumulative
 snapshot whatever was delivered, and each interval's quantiles are those of its own latencies.
 */
module Reports {
  import opened Bits
  import opened Buckets
  import opened Quantiles
  import opened Counters

  /** The two snapshots buildReport draws every field from. */
  datatype Report = Report(tick: int, delta: Snapshot, cumulative: Snapshot)

  // ---- any sequence of snapshots ----

  function Deltas(prev: Snapshot, snaps: seq<Snapshot>): seq<Snapshot>
    decreases |snaps|
  {
    if snaps == [] then [] else [Sub(snaps[0], prev)] + Deltas(snaps[0], snaps[1..])
  }

  function SumAll(deltas: seq<Snapshot>): Snapshot {
    if deltas == [] then Zero() else Plus(deltas[0], SumAll(deltas[1..]))
  }

  function LastOr(prev: Snapshot, snaps: seq<Snapshot>): Snapshot {
    if snaps == [] then prev else snaps[|snaps| - 1]
  }

  lemma WordTelescope(a: Word, b: Word, c: Word)
    ensures (WordSub(b, a) + WordSub(c, b)) % WORD == WordSub(c, a)
  {
  }

  /** Deltas add up to the last snapshot less the first, torn or not, wrapped or not. */
  lemma {:induction false} DeltasTelescope(prev: Snapshot, snaps: seq<Snapshot>)
    ensures SumAll(Deltas(prev, snaps)) == Sub(LastOr(prev, snaps), prev)
    decreases |snaps|
  {
    if snaps == [] {
      assert SumAll([]) == Sub(prev, prev);
    } else {
      DeltasTelescope(snaps[0], snaps[1..]);
      assert LastOr(prev, snaps) == LastOr(snaps[0], snaps[1..]);
      var d := Deltas(prev, snaps);
      assert d[0] == Sub(snaps[0], prev) && d[1..] == Deltas(snaps[0], snaps[1..]);
      forall c | 0 <= c < CELLS ensures SumAll(d)[c] == Sub(LastOr(prev, snaps), prev)[c] {
        WordTelescope(prev[c], snaps[0][c], LastOr(prev, snaps)[c]);
      }
    }
  }

  lemma {:induction false} SumAllSnoc(deltas: seq<Snapshot>, last: Snapshot)
    ensures SumAll(deltas + [last]) == Plus(SumAll(deltas), last)
  {
    if deltas == [] {
      assert SumAll([last]) == Plus(last, SumAll([]));
      assert [] + [last] == [last];
      assert Plus(last, Zero()) == Plus(Zero(), last);
    } else {
      SumAllSnoc(deltas[1..], last);
      assert (deltas + [last])[1..] == deltas[1..] + [last];
      PlusAssoc(deltas[0], SumAll(deltas[1..]), last);
    }
  }

  lemma PlusAssoc(a: Snapshot, b: Snapshot, c: Snapshot)
    ensures Plus(a, Plus(b, c)) == Plus(Plus(a, b), c)
  {
    forall k | 0 <= k < CELLS ensures Plus(a, Plus(b, c))[k] == Plus(Plus(a, b), c)[k] {
      WordAssoc(a[k], b[k], c[k]);
    }
  }

  lemma WordAssoc(a: Word, b: Word, c: Word)
    ensures (a + (b + c) % WORD) % WORD == ((a + b) % WORD + c) % WORD
  {
  }

  lemma WordAddIff(a: Word, b: Word)
    ensures (a + b) % WORD == b <==> a == 0
    ensures WordSub(a, 0) == a
  {
  }

  /**
   The flush at tick -1 reports the whole cumulative snapshot as its interval, so the intervals of
   all reports add up to the final total in a cell exactly when no tick had reported anything in it.
   */
  lemma FlushRepeatsTotal(snaps: seq<Snapshot>, final: Snapshot, c: Cell)
    ensures var all := SumAll(Deltas(Zero(), snaps) + [final]);
      && all[c] == (LastOr(Zero(), snaps)[c] + final[c]) % WORD
      && (all[c] == final[c] <==> LastOr(Zero(), snaps)[c] == 0)
  {
    WordAddIff(LastOr(Zero(), snaps)[c], final[c]);
    DeltasTelescope(Zero(), snaps);
    SumAllSnoc(Deltas(Zero(), snaps), final);
  }

  // ---- the loop ----

  /** work[n][c] are the adds between the read of cell c at tick n and the read before it. */
  predicate Ticks(work: seq<seq<seq<Add>>>) {
    forall n | 0 <= n < |work| :: |work[n]| == CELLS
  }

  /** All adds before the snapshot of tick n begins. */
  function Before(work: seq<seq<seq<Add>>>, n: nat): seq<Add>
    requires n <= |work|
  {
    if n == 0 then [] else Before(work, n - 1) + Flat(work[n - 1])
  }

  /** The adds between the reads of cell c at ticks n-1 and n. */
  function Interval(work: seq<seq<seq<Add>>>, n: nat, c: Cell): seq<Add>
    requires n < |work| && Ticks(work)
  {
    (if n == 0 then [] else Flat(work[n - 1][c + 1..])) + Flat(work[n][..c + 1])
  }

  /** What cell c had been given when tick n read it. */
  function Given(work: seq<seq<seq<Add>>>, n: nat, c: Cell): seq<Add>
    requires n < |work| && Ticks(work)
  {
    Before(work, n) + Flat(work[n][..c + 1])
  }

  /** The adds a cell is given before tick n are those before tick n-1 and those of the interval. */
  lemma IntervalFollows(work: seq<seq<seq<Add>>>, n: nat, c: Cell)
    requires n < |work| && Ticks(work)
    ensures Given(work, n, c) == GivenBefore(work, n, c) + Interval(work, n, c)
  {
    if n > 0 {
      FlatSplit(work[n - 1], c + 1);
    }
  }

  /** The cell's delta counts exactly the adds between its two reads. */
  predicate CellOk(work: seq<seq<seq<Add>>>, n: nat, r: Report, c: Cell)
    requires n < |work| && Ticks(work)
  {
    && r.delta[c] == Total(Interval(work, n, c), c) % WORD
    && r.cumulative[c] == Total(Given(work, n, c), c) % WORD
  }

  ghost predicate ReportOk(work: seq<seq<seq<Add>>>, n: nat, r: Report)
    requires n < |work| && Ticks(work)
  {
    r.tick == n && forall c: Cell :: CellOk(work, n, r, c)
  }

  /** The snapshot of tick n, or the zero value before the first. */
  function SnapshotAt(work: seq<seq<seq<Add>>>, n: int): Snapshot
    requires -1 <= n < |work| && Ticks(work)
  {
    if n < 0 then Zero() else Read(Before(work, n), work[n])
  }

  function GivenBefore(work: seq<seq<seq<Add>>>, n: nat, c: Cell): seq<Add>
    requires n < |work| && Ticks(work)
  {
    if n == 0 then [] else Given(work, n - 1, c)
  }

  lemma ReadCell(log: seq<Add>, during: seq<seq<Add>>, c: Cell)
    requires |during| == CELLS
    ensures Read(log, during)[c] == Total(log + Flat(during[..c + 1]), c) % WORD
  {
  }

  lemma ZeroCell(c: Cell)
    ensures Zero()[c] == Total([], c) % WORD
  {
  }

  lemma SnapshotCell(work: seq<seq<seq<Add>>>, n: nat, c: Cell)
    requires n < |work| && Ticks(work)
    ensures SnapshotAt(work, n)[c] == Total(Given(work, n, c), c) % WORD
    ensures SnapshotAt(work, n - 1)[c] == Total(GivenBefore(work, n, c), c) % WORD
  {
    ReadCell(Before(work, n), work[n], c);
    if n == 0 {
      ZeroCell(c);
    } else {
      ReadCell(Before(work, n - 1), work[n - 1], c);
    }
  }

  lemma DeltaOf(a: seq<Add>, b: seq<Add>, c: Cell)
    ensures WordSub(Total(a + b, c) % WORD, Total(a, c) % WORD) == Total(b, c) % WORD
  {
    TotalSplit(a, b, c);
    WordDelta(Total(a, c), Total(b, c));
  }

  lemma SubCell(s: Snapshot, prev: Snapshot, c: Cell)
    ensures Sub(s, prev)[c] == WordSub(s[c], prev[c])
  {
  }

  lemma TickOk(work: seq<seq<seq<Add>>>, n: nat, r: Report)
    requires n < |work| && Ticks(work)
    requires r == Report(n, Sub(SnapshotAt(work, n), SnapshotAt(work, n - 1)), SnapshotAt(work, n))
    ensures ReportOk(work, n, r)
  {
    forall c: Cell ensures CellOk(work, n, r, c) {
      SubCell(SnapshotAt(work, n), SnapshotAt(work, n - 1), c);
      SnapshotCell(work, n, c);
      IntervalFollows(work, n, c);
      DeltaOf(GivenBefore(work, n, c), Interval(work, n, c), c);
    }
  }

  // ---- what the reports add up to ----

  function DeltasOf(reports: seq<Report>): seq<Snapshot> {
    seq(|reports|, i requires 0 <= i < |reports| => reports[i].delta)
  }

  lemma AddBack(prev: Snapshot, cur: Snapshot)
    ensures Plus(prev, Sub(cur, prev)) == cur
  {
    forall c | 0 <= c < CELLS ensures Plus(prev, Sub(cur, prev))[c] == cur[c] {
      WordAddBack(prev[c], cur[c]);
    }
  }

  lemma WordAddBack(a: Word, b: Word)
    ensures (a + WordSub(b, a)) % WORD == b
  {
  }

  /** The deltas of the first n reports add up to this snapshot. */
  predicate SumsTo(reports: seq<Report>, n: nat, s: Snapshot) {
    n <= |reports| && SumAll(DeltasOf(reports[..n])) == s
  }

  lemma SumKept(reports: seq<Report>, r: Report, n: nat, s: Snapshot)
    requires SumsTo(reports, n, s)
    ensures SumsTo(reports + [r], n, s)
  {
    assert (reports + [r])[..n] == reports[..n];
  }

  lemma SumNext(reports: seq<Report>, r: Report, prev: Snapshot, cur: Snapshot)
    requires SumsTo(reports, |reports|, prev) && r.delta == Sub(cur, prev)
    ensures SumsTo(reports + [r], |reports| + 1, cur)
  {
    assert reports[..|reports|] == reports && (reports + [r])[..|reports| + 1] == reports + [r];
    assert DeltasOf(reports + [r]) == DeltasOf(reports) + [r.delta];
    SumAllSnoc(DeltasOf(reports), r.delta);
    AddBack(prev, cur);
  }

  /** The deltas of the first n reports add up to shot n, for every n. */
  ghost predicate Telescopes(shots: seq<Snapshot>, reports: seq<Report>) {
    |reports| < |shots| && forall n: nat | n <= |reports| :: SumsTo(reports, n, shots[n])
  }

  lemma NextTelescopes(shots: seq<Snapshot>, reports: seq<Report>, r: Report)
    requires Telescopes(shots, reports) && |reports| + 1 < |shots|
    requires r.delta == Sub(shots[|reports| + 1], shots[|reports|])
    ensures Telescopes(shots, reports + [r])
  {
    var more, k := reports + [r], |reports|;
    SumNext(reports, r, shots[k], shots[k + 1]);
    forall n: nat | n <= |more| ensures SumsTo(more, n, shots[n]) {
      if n <= k {
        SumKept(reports, r, n, shots[n]);
      }
    }
  }

  /** The zero value the loop starts from, then the snapshot of each tick. */
  function Shots(work: seq<seq<seq<Add>>>): seq<Snapshot>
    requires Ticks(work)
  {
    seq(|work| + 1, n requires 0 <= n <= |work| => SnapshotAt(work, n - 1))
  }

  /** One turn of the loop: snapshot, difference, report. */
  method ReportTick(m: Metrics, work: seq<seq<seq<Add>>>, tick: nat, prev: Snapshot) returns (report: Report)
    requires tick < |work| && Ticks(work) && m.Valid() && m.log == Before(work, tick)
    requires prev == Shots(work)[tick]
    modifies m.cells, m`log
    ensures m.Valid() && m.log == Before(work, tick + 1)
    ensures ReportOk(work, tick, report)
    ensures report.cumulative == Shots(work)[tick + 1] && report.delta == Sub(report.cumulative, prev)
  {
    var cur := m.TakeSnapshot(work[tick]);
    report := Report(tick, Sub(cur, prev), cur);
    TickOk(work, tick, report);
  }

  /**
   reportLoop over any number of ticks, its snapshots read while the workers write. In every report each
   counter's delta is what was added to it between its two reads, and its cumulative part all that was
   added before; the deltas up to each tick add up to that tick's snapshot, whether or not the reports got
   through.
   */
  method ReportLoop(m: Metrics, work: seq<seq<seq<Add>>>, delivered: seq<bool>)
    returns (reports: seq<Report>, failures: nat)
    requires Ticks(work) && m.Valid() && m.log == [] && |delivered| == |work|
    modifies m.cells, m`log
    ensures m.Valid() && m.log == Before(work, |work|)
    ensures |reports| == |work| && failures <= |work|
    ensures forall n: nat | n < |work| :: ReportOk(work, n, reports[n])
    ensures Telescopes(Shots(work), reports)
  {
    var prev := Zero();
    var tick := 0;
    reports, failures := [], 0;
    assert DeltasOf([]) == [];
    while tick < |work|
      invariant 0 <= tick <= |work| && |reports| == tick && failures <= tick
      invariant m.Valid() && m.log == Before(work, tick) && prev == Shots(work)[tick]
      invariant forall n: nat | n < tick :: ReportOk(work, n, reports[n])
      invariant Telescopes(Shots(work), reports)
    {
      var report := ReportTick(m, work, tick, prev);
      NextTelescopes(Shots(work), reports, report);
      reports := reports + [report];
      if !delivered[tick] {
        failures := failures + 1;
      }
      prev := report.cumulative;
      tick := tick + 1;
    }
  }

  /**
   The reporting half of execute: the loop, the workers' last adds, and the flush at tick -1 once all have
   joined. With the flush the deltas add up to the last tick's snapshot plus the final total, hence to the
   final total in a cell exactly when no tick had reported anything in it.
   */
  method ReportRun(m: Metrics, work: seq<seq<seq<Add>>>, rest: seq<Add>, delivered: seq<bool>)
    returns (reports: seq<Report>)
    requires Ticks(work) && m.Valid() && m.log == [] && |delivered| == |work|
    modifies m.cells, m`log
    ensures m.Valid() && m.log == Before(work, |work|) + rest
    ensures |reports| == |work| + 1 && Telescopes(Shots(work), reports[..|work|])
    ensures forall n: nat | n < |work| :: ReportOk(work, n, reports[n])
    ensures var final := Shown(Before(work, |work|) + rest);
      && reports[|work|] == Report(-1, final, final)
      && FlushRepeats(SnapshotAt(work, |work| - 1), final, SumAll(DeltasOf(reports)))
  {
    var failures: nat;
    reports, failures := ReportLoop(m, work, delivered);
    m.Perform(rest);
    var quiet: seq<seq<Add>> := seq(CELLS, _ => []);
    QuietRead(m.log, quiet);
    NoAdds(quiet);
    var final := m.TakeSnapshot(quiet);
    var flush := Report(-1, final, final);
    FlushSum(work, reports, flush);
    reports := reports + [flush];
  }

  /** What the flush does to the sum of the deltas: `last` is repeated. */
  ghost predicate FlushRepeats(last: Snapshot, final: Snapshot, all: Snapshot) {
    forall c: Cell :: all[c] == (last[c] + final[c]) % WORD && (all[c] == final[c] <==> last[c] == 0)
  }

  lemma PlusRepeats(last: Snapshot, final: Snapshot)
    ensures FlushRepeats(last, final, Plus(last, final))
  {
    forall c: Cell
      ensures Plus(last, final)[c] == (last[c] + final[c]) % WORD
      ensures Plus(last, final)[c] == final[c] <==> last[c] == 0
    {
      WordAddIff(last[c], final[c]);
    }
  }

  lemma FlushSum(work: seq<seq<seq<Add>>>, reports: seq<Report>, flush: Report)
    requires Ticks(work) && |reports| == |work| && Telescopes(Shots(work), reports)
    ensures FlushRepeats(SnapshotAt(work, |work| - 1), flush.delta, SumAll(DeltasOf(reports + [flush])))
  {
    assert SumsTo(reports, |work|, Shots(work)[|work|]) && reports[..|work|] == reports;
    assert DeltasOf(reports + [flush]) == DeltasOf(reports) + [flush.delta];
    SumAllSnoc(DeltasOf(reports), flush.delta);
    PlusRepeats(SnapshotAt(work, |work| - 1), flush.delta);
  }

  /** A tick whose snapshot is read between the observations `os` and the next ones. */
  predicate QuietTick(during: seq<seq<Add>>, os: seq<Obs>) {
    |during| == CELLS && during[0] == AllAdds(os) && forall c | 0 < c < CELLS :: during[c] == []
  }

  lemma {:induction false} NoAdds(chunks: seq<seq<Add>>)
    requires forall c | 0 <= c < |chunks| :: chunks[c] == []
    ensures Flat(chunks) == []
  {
    if chunks != [] {
      NoAdds(chunks[..|chunks| - 1]);
    }
  }

  lemma QuietInterval(work: seq<seq<seq<Add>>>, n: nat, earlier: seq<Obs>, os: seq<Obs>, c: Cell)
    requires n < |work| && Ticks(work)
    requires QuietTick(work[n], os) && (n > 0 ==> QuietTick(work[n - 1], earlier))
    ensures Interval(work, n, c) == AllAdds(os)
  {
    FlatOfOne(work[n][..c + 1]);
    if n > 0 {
      NoAdds(work[n - 1][c + 1..]);
    }
  }

  /** Between two such ticks a report's delta is the snapshot of the interval's own observations. */
  lemma QuietDelta(work: seq<seq<seq<Add>>>, n: nat, earlier: seq<Obs>, os: seq<Obs>, r: Report)
    requires n < |work| && Ticks(work) && ReportOk(work, n, r)
    requires QuietTick(work[n], os) && (n > 0 ==> QuietTick(work[n - 1], earlier))
    ensures r.delta == Shown(AllAdds(os))
  {
    forall c: Cell ensures r.delta[c] == Shown(AllAdds(os))[c] {
      assert CellOk(work, n, r, c);
      QuietInterval(work, n, earlier, os, c);
    }
  }

  // ---- quantiles of an interval ----

  lemma {:induction false} FewInBucket(xs: seq<nat>, i: nat)
    ensures InBucket(xs, i) <= |xs|
  {
    if xs != [] {
      FewInBucket(xs[1..], i);
    }
  }

  lemma IntervalBucket(os: seq<Obs>, i: nat)
    requires |Latencies(os)| < WORD && i < NUM_BUCKETS
    ensures Total(AllAdds(os), BUCKETS + i) == InBucket(Latencies(os), i) < WORD
  {
    BucketsAreHistogram(os, i);
    FewInBucket(Latencies(os), i);
  }

  lemma ShownBucket(log: seq<Add>, i: nat)
    requires i < NUM_BUCKETS && Total(log, BUCKETS + i) < WORD
    ensures Shown(log)[BUCKETS..][i] == Total(log, BUCKETS + i)
  {
  }

  /** The histogram part of an interval's snapshot is the histogram of its latencies. */
  lemma IntervalHistogram(os: seq<Obs>)
    requires |Latencies(os)| < WORD
    ensures Shown(AllAdds(os))[BUCKETS..] == Quantiles.Histogram(Latencies(os))
  {
    var shown, histogram := Shown(AllAdds(os))[BUCKETS..], Quantiles.Histogram(Latencies(os));
    forall i | 0 <= i < NUM_BUCKETS ensures shown[i] == histogram[i] {
      IntervalBucket(os, i);
      ShownBucket(AllAdds(os), i);
    }
  }

  /**
   A reported percentile is the bucket bound of a sorted latency of its interval: the t-th, t the integer
   part of q times their number.
   */
  lemma ReportedPercentile(os: seq<Obs>, sorted: seq<nat>, q: real, t: int, at: nat)
    requires |Latencies(os)| < WORD
    requires Words(sorted) && Sorted(sorted) && multiset(Latencies(os)) == multiset(sorted)
    requires 0.0 <= q <= 1.0 && IsRank(q, |Latencies(os)|, t)
    requires t >= 1 && StopsAt(Shown(AllAdds(os))[BUCKETS..], t, at)
    ensures Cum(Shown(AllAdds(os))[BUCKETS..], NUM_BUCKETS) == |Latencies(os)|
    ensures t <= |sorted| && NearRank(sorted, t, at)
  {
    IntervalHistogram(os);
    TotalIsCount(Latencies(os));
    RankBounds(q, |Latencies(os)|, t);
    RankAmong(Latencies(os), sorted, t, at);
  }
}
