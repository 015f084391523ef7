/**
 The lock-free counter set of cmd/agent/metrics.go. Its twelve counters and 256 buckets are the
 cells of one array of 64-bit words, in the order Snapshot reads them; an observation is the
 list of atomic adds its method performs, in source order.
 */
module Counters {
  import opened Bits
  import opened Buckets
  import opened Quantiles

  const COUNT := 0
  const ERRORS := 1
  const BYTES := 2
  const LAT_SUM := 3
  const STATUS_OK := 4
  const STATUS_4X := 5
  const STATUS_5X := 6
  const TIMEOUTS := 7
  const NEW_CONNS := 8
  const REUSED_CONNS := 9
  const WIRE_SUM := 10
  const WIRE_COUNT := 11
  const BUCKETS := 12
  const CELLS := 268

  type Cell = c: nat | c < CELLS

  /** One atomic add. */
  datatype Add = Add(cell: Cell, n: nat)

  datatype Obs =
    | Success(latency: Word, bytes: nat, status: int)
    | Error(latency: Word, timeout: bool)
    | Wire(micros: nat)
    | Conn(reused: bool)

  function BucketCell(latency: Word): (c: Cell)
    ensures c == BUCKETS + BucketIndex(latency)
  {
    BUCKETS + BucketIndex(latency)
  }

  function StatusCell(status: int): Cell {
    if status < 400 then STATUS_OK else if status < 500 then STATUS_4X else STATUS_5X
  }

  /** The adds of one observation, in the order the method performs them. */
  function Adds(o: Obs): seq<Add> {
    match o
    case Success(latency, bytes, status) =>
      [Add(COUNT, 1), Add(LAT_SUM, latency), Add(BYTES, bytes),
       Add(BucketCell(latency), 1), Add(StatusCell(status), 1)]
    case Error(latency, timeout) =>
      [Add(ERRORS, 1), Add(LAT_SUM, latency), Add(BucketCell(latency), 1)]
      + (if timeout then [Add(TIMEOUTS, 1)] else [])
    case Wire(micros) => [Add(WIRE_SUM, micros), Add(WIRE_COUNT, 1)]
    case Conn(reused) => [Add(if reused then REUSED_CONNS else NEW_CONNS, 1)]
  }

  function AllAdds(os: seq<Obs>): seq<Add> {
    if os == [] then [] else Adds(os[0]) + AllAdds(os[1..])
  }

  // ---- totals ----

  /** True total of one cell over a log of adds. */
  function Total(log: seq<Add>, c: nat): nat {
    if log == [] then 0 else Total(log[1..], c) + (if log[0].cell == c then log[0].n else 0)
  }

  lemma {:induction false} TotalSplit(a: seq<Add>, b: seq<Add>, c: nat)
    ensures Total(a + b, c) == Total(a, c) + Total(b, c)
  {
    if a == [] {
      assert a + b == b;
    } else {
      TotalSplit(a[1..], b, c);
      assert (a + b)[1..] == a[1..] + b;
    }
  }

  type Snapshot = s: seq<Word> | |s| == CELLS witness seq(CELLS, _ => 0)

  /** The zero value of a Snapshot. */
  function Zero(): Snapshot {
    seq(CELLS, _ => 0)
  }

  /** What a quiet Snapshot() reads after a log of adds. */
  function Shown(log: seq<Add>): Snapshot {
    seq(CELLS, c requires 0 <= c < CELLS => Total(log, c) % WORD)
  }

  /** Subtraction of 64-bit words. */
  function WordSub(a: int, b: int): Word {
    (a - b) % WORD
  }

  function Sub(s: Snapshot, prev: Snapshot): Snapshot {
    seq(CELLS, c requires 0 <= c < CELLS => WordSub(s[c], prev[c]))
  }

  function Plus(a: Snapshot, b: Snapshot): Snapshot {
    seq(CELLS, c requires 0 <= c < CELLS => (a[c] + b[c]) % WORD)
  }

  lemma WordDelta(x: nat, y: nat)
    ensures WordSub((x + y) % WORD, x % WORD) == y % WORD
  {
  }

  /**
   The snapshot after A then B, minus the snapshot after A, is the snapshot of B alone, histogram
   included: even when counters wrapped.
   */
  lemma SnapshotHomomorphism(a: seq<Add>, b: seq<Add>)
    ensures Sub(Shown(a + b), Shown(a)) == Shown(b)
  {
    forall c | 0 <= c < CELLS ensures Sub(Shown(a + b), Shown(a))[c] == Shown(b)[c] {
      TotalSplit(a, b, c);
      WordDelta(Total(a, c), Total(b, c));
    }
  }

  /** An interval delta is the true count of the interval exactly when that fits a word. */
  lemma DeltaIsTrueIff(a: seq<Add>, b: seq<Add>, c: Cell)
    ensures Sub(Shown(a + b), Shown(a))[c] == Total(b, c) <==> Total(b, c) < WORD
  {
    SnapshotHomomorphism(a, b);
  }

  // ---- the histogram holds the latencies ----

  function Latencies(os: seq<Obs>): (xs: seq<nat>)
    ensures Words(xs)
  {
    if os == [] then []
    else if os[0].Success? || os[0].Error? then [os[0].latency] + Latencies(os[1..])
    else Latencies(os[1..])
  }

  lemma {:induction false} NoBucketAdds(log: seq<Add>, i: nat)
    requires forall k | 0 <= k < |log| :: log[k].cell < BUCKETS
    ensures Total(log, BUCKETS + i) == 0
  {
    if log != [] {
      NoBucketAdds(log[1..], i);
    }
  }

  /** One add to a bucket amid adds to plain counters. */
  lemma OneBucketAdd(before: seq<Add>, a: Add, after: seq<Add>, i: nat)
    requires forall k | 0 <= k < |before| :: before[k].cell < BUCKETS
    requires forall k | 0 <= k < |after| :: after[k].cell < BUCKETS
    ensures Total(before + ([a] + after), BUCKETS + i) == if a.cell == BUCKETS + i then a.n else 0
  {
    NoBucketAdds(before, i);
    NoBucketAdds(after, i);
    TotalSplit(before, [a] + after, BUCKETS + i);
    TotalSplit([a], after, BUCKETS + i);
  }

  lemma ObsBucket(o: Obs, i: nat)
    requires i < NUM_BUCKETS
    ensures Total(Adds(o), BUCKETS + i) ==
      if (o.Success? || o.Error?) && BucketIndex(o.latency) == i then 1 else 0
  {
    match o
    case Success(latency, bytes, status) =>
      var before := [Add(COUNT, 1), Add(LAT_SUM, latency), Add(BYTES, bytes)];
      OneBucketAdd(before, Add(BucketCell(latency), 1), [Add(StatusCell(status), 1)], i);
      assert Adds(o) == before + ([Add(BucketCell(latency), 1)] + [Add(StatusCell(status), 1)]);
    case Error(latency, timeout) =>
      var before := [Add(ERRORS, 1), Add(LAT_SUM, latency)];
      var after := if timeout then [Add(TIMEOUTS, 1)] else [];
      OneBucketAdd(before, Add(BucketCell(latency), 1), after, i);
      assert Adds(o) == before + ([Add(BucketCell(latency), 1)] + after);
    case _ =>
      NoBucketAdds(Adds(o), i);
  }

  /** Each bucket cell counts the latencies observed in its bucket, errors included. */
  lemma {:induction false} BucketsAreHistogram(os: seq<Obs>, i: nat)
    requires i < NUM_BUCKETS
    ensures Total(AllAdds(os), BUCKETS + i) == InBucket(Latencies(os), i)
  {
    if os != [] {
      if os[0].Success? || os[0].Error? {
        assert Latencies(os)[0] == os[0].latency;
        assert Latencies(os)[1..] == Latencies(os[1..]);
      }
      BucketsAreHistogram(os[1..], i);
      ObsBucket(os[0], i);
      TotalSplit(Adds(os[0]), AllAdds(os[1..]), BUCKETS + i);
    }
  }

  // ---- every cell ----

  /** What one observation adds to a cell. */
  function Contribution(o: Obs, c: Cell): nat {
    if c == COUNT then (if o.Success? then 1 else 0)
    else if c == ERRORS then (if o.Error? then 1 else 0)
    else if c == BYTES then (if o.Success? then o.bytes else 0)
    else if c == LAT_SUM then (if o.Success? || o.Error? then o.latency else 0)
    else if c == STATUS_OK then (if o.Success? && o.status < 400 then 1 else 0)
    else if c == STATUS_4X then (if o.Success? && 400 <= o.status < 500 then 1 else 0)
    else if c == STATUS_5X then (if o.Success? && 500 <= o.status then 1 else 0)
    else if c == TIMEOUTS then (if o.Error? && o.timeout then 1 else 0)
    else if c == NEW_CONNS then (if o.Conn? && !o.reused then 1 else 0)
    else if c == REUSED_CONNS then (if o.Conn? && o.reused then 1 else 0)
    else if c == WIRE_SUM then (if o.Wire? then o.micros else 0)
    else if c == WIRE_COUNT then (if o.Wire? then 1 else 0)
    else if (o.Success? || o.Error?) && BucketIndex(o.latency) == c - BUCKETS then 1
    else 0
  }

  function Contributions(os: seq<Obs>, c: Cell): nat {
    if os == [] then 0 else Contribution(os[0], c) + Contributions(os[1..], c)
  }

  function AddedTo(a: Add, c: Cell): nat {
    if a.cell == c then a.n else 0
  }

  lemma TotalUpToFive(log: seq<Add>, c: Cell)
    requires |log| <= 5
    ensures Total(log, c) ==
      (if |log| > 0 then AddedTo(log[0], c) else 0) + (if |log| > 1 then AddedTo(log[1], c) else 0)
      + (if |log| > 2 then AddedTo(log[2], c) else 0) + (if |log| > 3 then AddedTo(log[3], c) else 0)
      + (if |log| > 4 then AddedTo(log[4], c) else 0)
    decreases |log|
  {
    if log != [] {
      TotalUpToFive(log[1..], c);
    }
  }

  lemma ObsCell(o: Obs, c: Cell)
    ensures Total(Adds(o), c) == Contribution(o, c)
  {
    TotalUpToFive(Adds(o), c);
  }

  /** Every counter is the sum of what the observations contribute to it, cell by cell. */
  lemma {:induction false} CellsCount(os: seq<Obs>, c: Cell)
    ensures Total(AllAdds(os), c) == Contributions(os, c)
  {
    if os != [] {
      CellsCount(os[1..], c);
      ObsCell(os[0], c);
      TotalSplit(Adds(os[0]), AllAdds(os[1..]), c);
    }
  }

  // ---- the counter object ----

  class Metrics {
    const cells: array<Word>
    ghost var log: seq<Add>

    /** Every word shows the true total of its cell modulo 2^64. */
    ghost predicate Valid()
      reads this, cells
    {
      cells.Length == CELLS && cells[..] == Shown(log)
    }

    constructor ()
      ensures Valid() && log == [] && fresh(cells)
    {
      cells := new Word[CELLS](_ => 0);
      log := [];
    }

    method AtomicAdd(c: Cell, n: nat)
      requires Valid()
      modifies cells, this`log
      ensures Valid() && log == old(log) + [Add(c, n)]
    {
      ghost var before := cells[..];
      cells[c] := (cells[c] + n) % WORD;
      log := log + [Add(c, n)];
      ShownAfter(old(log), Add(c, n));
      assert cells[..] == before[c := (before[c] + n) % WORD];
    }

    method ObserveSuccess(latency: Word, bytes: nat, status: int)
      requires Valid()
      modifies cells, this`log
      ensures Valid() && log == old(log) + Adds(Success(latency, bytes, status))
    {
      AtomicAdd(COUNT, 1);
      AtomicAdd(LAT_SUM, latency);
      AtomicAdd(BYTES, bytes);
      AtomicAdd(BucketCell(latency), 1);
      if status < 400 {
        AtomicAdd(STATUS_OK, 1);
      } else if status < 500 {
        AtomicAdd(STATUS_4X, 1);
      } else {
        AtomicAdd(STATUS_5X, 1);
      }
    }

    method ObserveError(latency: Word, timeout: bool)
      requires Valid()
      modifies cells, this`log
      ensures Valid() && log == old(log) + Adds(Error(latency, timeout))
    {
      AtomicAdd(ERRORS, 1);
      AtomicAdd(LAT_SUM, latency);
      AtomicAdd(BucketCell(latency), 1);
      if timeout {
        AtomicAdd(TIMEOUTS, 1);
      }
    }

    method ObserveWire(micros: nat)
      requires Valid()
      modifies cells, this`log
      ensures Valid() && log == old(log) + Adds(Wire(micros))
    {
      AtomicAdd(WIRE_SUM, micros);
      AtomicAdd(WIRE_COUNT, 1);
    }

    method ObserveConn(reused: bool)
      requires Valid()
      modifies cells, this`log
      ensures Valid() && log == old(log) + Adds(Conn(reused))
    {
      if reused {
        AtomicAdd(REUSED_CONNS, 1);
        return;
      }
      AtomicAdd(NEW_CONNS, 1);
    }

    /** Adds other goroutines perform meanwhile. */
    method Perform(adds: seq<Add>)
      requires Valid()
      modifies cells, this`log
      ensures Valid() && log == old(log) + adds
    {
      var i := 0;
      while i < |adds|
        invariant 0 <= i <= |adds|
        invariant Valid() && log == old(log) + adds[..i]
      {
        AtomicAdd(adds[i].cell, adds[i].n);
        assert adds[..i + 1] == adds[..i] + [adds[i]];
        i := i + 1;
      }
      assert adds[..i] == adds;
    }

    /**
     Snapshot reads the cells one by one while others write: `during[c]` are the adds that fall between
     the read of cell c and the one before it. Each cell shows the total it had when it was read.
     */
    method TakeSnapshot(during: seq<seq<Add>>) returns (s: Snapshot)
      requires Valid() && |during| == CELLS
      modifies cells, this`log
      ensures Valid() && log == old(log) + Flat(during)
      ensures s == Read(old(log), during)
    {
      var read: seq<Word> := [];
      assert during[..0] == [];
      while |read| < CELLS
        invariant |read| <= CELLS && Valid() && log == old(log) + Flat(during[..|read|])
        invariant read == Read(old(log), during)[..|read|]
      {
        var c := |read|;
        Perform(during[c]);
        FlatNext(during, c);
        read := read + [cells[c]];
      }
      assert during[..CELLS] == during;
      s := read;
    }
  }

  // ---- snapshots taken while others write ----

  function Flat(chunks: seq<seq<Add>>): seq<Add> {
    if chunks == [] then [] else Flat(chunks[..|chunks| - 1]) + chunks[|chunks| - 1]
  }

  lemma FlatNext(chunks: seq<seq<Add>>, n: nat)
    requires n < |chunks|
    ensures Flat(chunks[..n + 1]) == Flat(chunks[..n]) + chunks[n]
  {
    assert chunks[..n + 1][..n] == chunks[..n];
  }

  lemma {:induction false} FlatSplit(chunks: seq<seq<Add>>, n: nat)
    requires n <= |chunks|
    ensures Flat(chunks) == Flat(chunks[..n]) + Flat(chunks[n..])
  {
    if n == |chunks| {
      assert chunks[..n] == chunks && chunks[n..] == [];
    } else {
      var init, last := chunks[..|chunks| - 1], chunks[|chunks| - 1];
      FlatSplit(init, n);
      assert init[..n] == chunks[..n] && chunks[n..][..|chunks| - n - 1] == init[n..];
      assert Flat(chunks) == Flat(chunks[..n]) + (Flat(init[n..]) + last);
    }
  }

  /** The snapshot of a log that grows by these chunks while it is read. */
  function Read(log: seq<Add>, during: seq<seq<Add>>): Snapshot
    requires |during| == CELLS
  {
    seq(CELLS, c requires 0 <= c < CELLS => Total(log + Flat(during[..c + 1]), c) % WORD)
  }

  lemma {:induction false} FlatOfOne(chunks: seq<seq<Add>>)
    requires chunks != [] && forall c | 0 < c < |chunks| :: chunks[c] == []
    ensures Flat(chunks) == chunks[0]
  {
    if |chunks| > 1 {
      FlatOfOne(chunks[..|chunks| - 1]);
    } else {
      assert Flat(chunks[..0]) == [];
    }
  }

  /** With nothing written between its reads, a snapshot shows one moment. */
  lemma QuietRead(log: seq<Add>, during: seq<seq<Add>>)
    requires |during| == CELLS && forall c | 0 < c < CELLS :: during[c] == []
    ensures Read(log, during) == Shown(log + during[0])
  {
    forall c | 0 <= c < CELLS ensures Read(log, during)[c] == Shown(log + during[0])[c] {
      FlatOfOne(during[..c + 1]);
    }
  }

  lemma ShownAfter(log: seq<Add>, a: Add)
    ensures Shown(log + [a]) == Shown(log)[a.cell := (Shown(log)[a.cell] + a.n) % WORD]
  {
    forall c | 0 <= c < CELLS
      ensures Shown(log + [a])[c] == Shown(log)[a.cell := (Shown(log)[a.cell] + a.n) % WORD][c]
    {
      TotalSplit(log, [a], c);
    }
  }
}
