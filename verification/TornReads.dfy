/**
 Snapshots taken while workers write. Any number of workers perform their observations one atomic
 add at a time; the reporter reads the cells one at a time, in Snapshot's order, in between.
 Cells hold true totals here; `WordsOfTotals` relates them to the 64-bit words.
 */
module TornReads {
  import opened Bits
  import opened Counters

  /** `left[w]` is what worker w has still to add; `partial` what the reporter has read so far. */
  datatype State = State(cells: seq<nat>, left: seq<seq<Add>>, partial: seq<nat>, snaps: seq<seq<nat>>)

  datatype Event =
    | StartObs(worker: nat, o: Obs)   // the worker's method begins
    | DoAdd(worker: nat)              // its next atomic add
    | ConnHook(reused: bool)          // httptrace callback, possibly on another goroutine
    | Read                            // the reporter reads one more cell

  function Bump(cells: seq<nat>, a: Add): seq<nat>
    requires |cells| == CELLS
  {
    cells[a.cell := cells[a.cell] + a.n]
  }

  predicate Shaped(s: State) {
    |s.cells| == CELLS && |s.partial| < CELLS
  }

  function Step(s: State, e: Event): (t: State)
    requires Shaped(s)
    ensures Shaped(t) && |t.left| == |s.left|
  {
    match e
    case StartObs(w, o) =>
      if w < |s.left| && s.left[w] == [] then s.(left := s.left[w := Adds(o)]) else s
    case DoAdd(w) =>
      if w < |s.left| && s.left[w] != [] then
        s.(cells := Bump(s.cells, s.left[w][0]), left := s.left[w := s.left[w][1..]])
      else s
    case ConnHook(reused) => s.(cells := Bump(s.cells, Adds(Conn(reused))[0]))
    case Read =>
      var read := s.partial + [s.cells[|s.partial|]];
      if |read| < CELLS then s.(partial := read) else s.(partial := [], snaps := s.snaps + [read])
  }

  // ---- weights: what an add does to the two balances ----

  /** Requests begun minus histogram entries. */
  function HistWeight(c: Cell): int {
    if c == COUNT || c == ERRORS then 1 else if c >= BUCKETS then -1 else 0
  }

  /** Successes begun minus statuses classified. */
  function StatusWeight(c: Cell): int {
    if c == COUNT then 1 else if c == STATUS_OK || c == STATUS_4X || c == STATUS_5X then -1 else 0
  }

  function HistOwed(adds: seq<Add>): int {
    if adds == [] then 0 else HistWeight(adds[0].cell) * adds[0].n + HistOwed(adds[1..])
  }

  function StatusOwed(adds: seq<Add>): int {
    if adds == [] then 0 else StatusWeight(adds[0].cell) * adds[0].n + StatusOwed(adds[1..])
  }

  /** At every point of an observation at most one entry is still owed to each side. */
  predicate Bounded(adds: seq<Add>) {
    && -1 <= HistOwed(adds) <= 0 && -1 <= StatusOwed(adds) <= 0
    && (adds != [] ==> Bounded(adds[1..]))
  }

  lemma Unfold(a: Add, rest: seq<Add>)
    ensures HistOwed([a] + rest) == HistWeight(a.cell) * a.n + HistOwed(rest)
    ensures StatusOwed([a] + rest) == StatusWeight(a.cell) * a.n + StatusOwed(rest)
    ensures Bounded([a] + rest) <==>
      Bounded(rest) && -1 <= HistOwed([a] + rest) <= 0 && -1 <= StatusOwed([a] + rest) <= 0
  {
    assert ([a] + rest)[1..] == rest;
  }

  predicate Balanced(adds: seq<Add>) {
    Bounded(adds) && HistOwed(adds) == 0 && StatusOwed(adds) == 0
  }

  lemma SuccessBalanced(latency: Word, bytes: nat, status: int)
    ensures Balanced(Adds(Success(latency, bytes, status)))
  {
    var e := Add(StatusCell(status), 1);
    var d := Add(BucketCell(latency), 1);
    var c, b, a := Add(BYTES, bytes), Add(LAT_SUM, latency), Add(COUNT, 1);
    Unfold(e, []);
    Unfold(d, [e]);
    Unfold(c, [d] + [e]);
    Unfold(b, [c] + ([d] + [e]));
    Unfold(a, [b] + ([c] + ([d] + [e])));
    assert [e] + [] == [e];
    assert Adds(Success(latency, bytes, status)) == [a] + ([b] + ([c] + ([d] + [e])));
  }

  lemma ErrorBalanced(latency: Word, timeout: bool)
    ensures Balanced(Adds(Error(latency, timeout)))
  {
    var tail := if timeout then [Add(TIMEOUTS, 1)] else [];
    var c, b, a := Add(BucketCell(latency), 1), Add(LAT_SUM, latency), Add(ERRORS, 1);
    if timeout {
      Unfold(Add(TIMEOUTS, 1), []);
      assert [Add(TIMEOUTS, 1)] + [] == tail;
    }
    Unfold(c, tail);
    Unfold(b, [c] + tail);
    Unfold(a, [b] + ([c] + tail));
    assert Adds(Error(latency, timeout)) == [a] + ([b] + ([c] + tail));
  }

  lemma ObsBalanced(o: Obs)
    ensures Balanced(Adds(o))
  {
    match o
    case Success(latency, bytes, status) => SuccessBalanced(latency, bytes, status);
    case Error(latency, timeout) => ErrorBalanced(latency, timeout);
    case Wire(micros) =>
      Unfold(Add(WIRE_COUNT, 1), []);
      Unfold(Add(WIRE_SUM, micros), [Add(WIRE_COUNT, 1)]);
      assert Adds(o) == [Add(WIRE_SUM, micros)] + [Add(WIRE_COUNT, 1)];
      assert [Add(WIRE_COUNT, 1)] + [] == [Add(WIRE_COUNT, 1)];
    case Conn(reused) =>
      Unfold(Adds(o)[0], []);
      assert Adds(o) == [Adds(o)[0]] + [];
  }

  // ---- the balances of a vector of cells ----

  /** cells[n] + cells[n+1] + ... : the histogram total when n is BUCKETS. */
  function SumFrom(v: seq<nat>, n: nat): nat
    requires n <= |v|
    decreases |v| - n
  {
    if n == |v| then 0 else v[n] + SumFrom(v, n + 1)
  }

  function HistBalance(v: seq<nat>): int
    requires |v| == CELLS
  {
    v[COUNT] + v[ERRORS] - SumFrom(v, BUCKETS)
  }

  function StatusBalance(v: seq<nat>): int
    requires |v| == CELLS
  {
    var count: int := v[COUNT];
    count - (v[STATUS_OK] + v[STATUS_4X] + v[STATUS_5X])
  }

  lemma {:induction false} SumFromUpdate(v: seq<nat>, n: nat, c: nat, x: nat)
    requires n <= |v| && c < |v|
    ensures SumFrom(v[c := v[c] + x], n) == SumFrom(v, n) + (if n <= c then x else 0)
    decreases |v| - n
  {
    if n < |v| {
      SumFromUpdate(v, n + 1, c, x);
    }
  }

  lemma {:induction false} SumFromMonotone(a: seq<nat>, b: seq<nat>, n: nat)
    requires n <= |a| == |b| && forall c | n <= c < |a| :: a[c] <= b[c]
    ensures SumFrom(a, n) <= SumFrom(b, n)
    decreases |a| - n
  {
    if n < |a| {
      SumFromMonotone(a, b, n + 1);
    }
  }

  lemma BumpBalances(v: seq<nat>, a: Add)
    requires |v| == CELLS
    ensures HistBalance(Bump(v, a)) == HistBalance(v) + HistWeight(a.cell) * a.n
    ensures StatusBalance(Bump(v, a)) == StatusBalance(v) + StatusWeight(a.cell) * a.n
  {
    SumFromUpdate(v, BUCKETS, a.cell, a.n);
  }

  // ---- all workers ----

  function Owed(left: seq<seq<Add>>, owed: seq<Add> -> int): int {
    if left == [] then 0 else owed(left[0]) + Owed(left[1..], owed)
  }

  lemma {:induction false} OwedUpdate(left: seq<seq<Add>>, owed: seq<Add> -> int, w: nat, adds: seq<Add>)
    requires w < |left|
    ensures Owed(left[w := adds], owed) == Owed(left, owed) - owed(left[w]) + owed(adds)
  {
    if w > 0 {
      OwedUpdate(left[1..], owed, w - 1, adds);
      assert left[w := adds][1..] == left[1..][w - 1 := adds];
    } else {
      assert left[w := adds][1..] == left[1..];
    }
  }

  lemma {:induction false} OwedBounds(left: seq<seq<Add>>)
    requires forall w | 0 <= w < |left| :: Bounded(left[w])
    ensures -|left| <= Owed(left, HistOwed) <= 0 && -|left| <= Owed(left, StatusOwed) <= 0
  {
    if left != [] {
      assert Bounded(left[0]);
      OwedBounds(left[1..]);
    }
  }

  lemma {:induction false} NothingOwed(left: seq<seq<Add>>)
    requires forall w | 0 <= w < |left| :: left[w] == []
    ensures Owed(left, HistOwed) == 0 && Owed(left, StatusOwed) == 0
  {
    if left != [] {
      NothingOwed(left[1..]);
    }
  }

  /** Conservation: what the cells are out of balance by is exactly what the workers still owe. */
  predicate Conserved(s: State) {
    && |s.cells| == CELLS
    && (forall w | 0 <= w < |s.left| :: Bounded(s.left[w]))
    && HistBalance(s.cells) + Owed(s.left, HistOwed) == 0
    && StatusBalance(s.cells) + Owed(s.left, StatusOwed) == 0
  }

  // ---- the torn snapshot ----

  /** What the snapshot in progress would be if it were finished now. */
  function Splice(s: State): seq<nat>
    requires |s.cells| == CELLS && |s.partial| <= CELLS
  {
    s.partial + s.cells[|s.partial|..]
  }

  /** Count + Errors and Count run ahead of the histogram and the statuses by at most `slack`. */
  predicate Within(v: seq<nat>, slack: nat)
    requires |v| == CELLS
  {
    HistBalance(v) <= slack && StatusBalance(v) <= slack
  }

  predicate Below(a: seq<nat>, b: seq<nat>) {
    |a| <= |b| && forall c | 0 <= c < |a| :: a[c] <= b[c]
  }

  /** Snapshots that never decrease, each within the slack. */
  predicate Rising(snaps: seq<seq<nat>>, slack: nat) {
    && (forall i | 0 <= i < |snaps| :: |snaps[i]| == CELLS && Within(snaps[i], slack))
    && (forall i | 0 <= i < |snaps| - 1 :: Below(snaps[i], snaps[i + 1]))
  }

  /** The snapshots so far increase, and the one in progress continues them. */
  predicate Climbing(s: State)
    requires |s.cells| == CELLS && |s.partial| < CELLS
  {
    && Rising(s.snaps, |s.left|)
    && (s.snaps != [] ==> Below(s.snaps[|s.snaps| - 1], Splice(s)))
  }

  predicate Inv(s: State) {
    && Conserved(s) && |s.partial| < CELLS
    && Below(s.partial, s.cells)
    && Within(Splice(s), |s.left|)
    && Climbing(s)
  }

  lemma CellsWithin(s: State)
    requires Conserved(s)
    ensures Within(s.cells, |s.left|) && HistBalance(s.cells) >= 0 && StatusBalance(s.cells) >= 0
  {
    OwedBounds(s.left);
  }

  /** Growth of the unread cells keeps the snapshot in progress within the slack. */
  lemma SpliceGrows(s: State, t: State)
    requires |s.cells| == |t.cells| == CELLS && t.partial == s.partial && |s.partial| < CELLS
    requires Below(s.cells, t.cells) && Below(s.partial, s.cells)
    requires Within(Splice(s), |s.left|) && Within(t.cells, |s.left|)
    ensures Below(Splice(s), Splice(t)) && Within(Splice(t), |s.left|)
  {
    var a, b := Splice(s), Splice(t);
    var r := |s.partial|;
    if r <= BUCKETS {
      // The histogram is still live: compare with the cells themselves.
      assert b[BUCKETS..] == t.cells[BUCKETS..];
      SumFromMonotone(t.cells, b, BUCKETS);
    }
    SumFromMonotone(a, b, BUCKETS);
  }

  lemma AddKeepsInv(s: State, t: State)
    requires Inv(s) && Conserved(t) && t.partial == s.partial && t.snaps == s.snaps && |t.left| == |s.left|
    requires Below(s.cells, t.cells)
    ensures Inv(t)
  {
    CellsWithin(t);
    SpliceGrows(s, t);
    if s.snaps != [] {
      var last := s.snaps[|s.snaps| - 1];
      assert Below(last, Splice(s)) && Below(Splice(s), Splice(t));
    }
  }

  lemma ReadSplices(s: State)
    requires Inv(s)
    ensures var read := s.partial + [s.cells[|s.partial|]];
      && Splice(s) == read + s.cells[|read|..]
      && Below(read, s.cells)
      && (|read| == CELLS ==> read == Splice(s))
  {
  }

  lemma RisingNext(snaps: seq<seq<nat>>, read: seq<nat>, slack: nat)
    requires Rising(snaps, slack) && |read| == CELLS && Within(read, slack)
    requires snaps != [] ==> Below(snaps[|snaps| - 1], read)
    ensures Rising(snaps + [read], slack)
  {
    var more := snaps + [read];
    forall i | 0 <= i < |more| - 1 ensures Below(more[i], more[i + 1]) {
      assert i < |snaps| - 1 ==> more[i + 1] == snaps[i + 1];
    }
  }

  /** The snapshot completed by the last read joins the list. */
  lemma SnapshotDone(s: State, t: State, read: seq<nat>)
    requires Inv(s) && read == Splice(s) && Below(read, s.cells) && |read| == CELLS
    requires t == s.(partial := [], snaps := s.snaps + [read])
    ensures Inv(t)
  {
    assert Splice(t) == s.cells;
    CellsWithin(s);
    RisingNext(s.snaps, read, |s.left|);
  }

  lemma ReadKeepsInv(s: State)
    requires Inv(s)
    ensures Inv(Step(s, Read))
  {
    ReadSplices(s);
    var read := s.partial + [s.cells[|s.partial|]];
    if |read| < CELLS {
      assert Splice(Step(s, Read)) == Splice(s);
    } else {
      SnapshotDone(s, Step(s, Read), read);
    }
  }

  lemma DoAddConserves(s: State, w: nat)
    requires Conserved(s) && |s.partial| < CELLS && w < |s.left| && s.left[w] != []
    ensures Conserved(Step(s, DoAdd(w)))
  {
    var adds := s.left[w];
    assert Bounded(adds) && Bounded(adds[1..]);
    BumpBalances(s.cells, adds[0]);
    OwedUpdate(s.left, HistOwed, w, adds[1..]);
    OwedUpdate(s.left, StatusOwed, w, adds[1..]);
  }

  lemma StartConserves(s: State, w: nat, o: Obs)
    requires Conserved(s) && |s.partial| < CELLS && w < |s.left| && s.left[w] == []
    ensures Conserved(Step(s, StartObs(w, o)))
  {
    ObsBalanced(o);
    OwedUpdate(s.left, HistOwed, w, Adds(o));
    OwedUpdate(s.left, StatusOwed, w, Adds(o));
  }

  lemma StepKeepsInv(s: State, e: Event)
    requires Inv(s)
    ensures Inv(Step(s, e))
  {
    var t := Step(s, e);
    match e {
      case StartObs(w, o) =>
        if w < |s.left| && s.left[w] == [] {
          StartConserves(s, w, o);
          AddKeepsInv(s, t);
        }
      case DoAdd(w) =>
        if w < |s.left| && s.left[w] != [] {
          DoAddConserves(s, w);
          AddKeepsInv(s, t);
        }
      case ConnHook(reused) =>
        BumpBalances(s.cells, Adds(Conn(reused))[0]);
        AddKeepsInv(s, t);
      case Read =>
        ReadKeepsInv(s);
    }
  }

  function Exec(s: State, events: seq<Event>): State
    requires Shaped(s)
    decreases |events|
  {
    if events == [] then s else Exec(Step(s, events[0]), events[1..])
  }

  lemma {:induction false} ExecKeepsInv(s: State, events: seq<Event>)
    requires Inv(s)
    ensures Inv(Exec(s, events)) && |Exec(s, events).left| == |s.left|
    decreases |events|
  {
    if events != [] {
      StepKeepsInv(s, events[0]);
      ExecKeepsInv(Step(s, events[0]), events[1..]);
    }
  }

  function Fresh(workers: nat): State {
    State(seq(CELLS, _ => 0), seq(workers, _ => []), [], [])
  }

  lemma {:induction false} ZeroSum(v: seq<nat>, n: nat)
    requires n <= |v| && forall c | n <= c < |v| :: v[c] == 0
    ensures SumFrom(v, n) == 0
    decreases |v| - n
  {
    if n < |v| {
      ZeroSum(v, n + 1);
    }
  }

  lemma FreshInv(workers: nat)
    ensures Inv(Fresh(workers))
  {
    var s := Fresh(workers);
    NothingOwed(s.left);
    ZeroSum(s.cells, BUCKETS);
    assert Splice(s) == s.cells;
  }

  /**
   With W workers and every interleaving, each snapshot has Count + Errors <= sum of buckets + W and
   Count <= StatusOK + Status4x + Status5x + W, and each is componentwise at least the one before.
   */
  lemma TornSnapshots(workers: nat, events: seq<Event>, i: nat)
    requires i < |Exec(Fresh(workers), events).snaps|
    ensures var snap := Exec(Fresh(workers), events).snaps[i];
      && |snap| == CELLS
      && snap[COUNT] + snap[ERRORS] <= SumFrom(snap, BUCKETS) + workers
      && snap[COUNT] <= snap[STATUS_OK] + snap[STATUS_4X] + snap[STATUS_5X] + workers
    ensures i > 0 ==> Below(Exec(Fresh(workers), events).snaps[i - 1], Exec(Fresh(workers), events).snaps[i])
  {
    var s := Exec(Fresh(workers), events);
    FreshInv(workers);
    ExecKeepsInv(Fresh(workers), events);
    assert Within(s.snaps[i], |s.left|);
    if i > 0 {
      var k := i - 1;
      assert Below(s.snaps[k], s.snaps[k + 1]);
    }
  }

  /** Once the workers have joined, both relations are equalities in the cells. */
  lemma JoinedExact(s: State)
    requires Inv(s) && forall w | 0 <= w < |s.left| :: s.left[w] == []
    ensures s.cells[COUNT] + s.cells[ERRORS] == SumFrom(s.cells, BUCKETS)
    ensures s.cells[COUNT] == s.cells[STATUS_OK] + s.cells[STATUS_4X] + s.cells[STATUS_5X]
  {
    NothingOwed(s.left);
  }

  lemma {:induction false} QuietReads(s: State, n: nat)
    requires Inv(s) && s.partial == s.cells[..|s.partial|] && n == CELLS - |s.partial|
    ensures Exec(s, seq(n, _ => Read)).snaps == s.snaps + [s.cells]
    decreases n
  {
    StepKeepsInv(s, Read);
    var quiet := seq(n, _ => Read);
    assert quiet[1..] == seq(n - 1, _ => Read);
    if n > 1 {
      QuietReads(Step(s, Read), n - 1);
    } else {
      assert s.partial + [s.cells[|s.partial|]] == s.cells;
      assert quiet[1..] == [];
    }
  }

  /** The final snapshot, read after the join, therefore meets both equalities itself. */
  lemma FinalSnapshotExact(s: State)
    requires Inv(s) && s.partial == [] && forall w | 0 <= w < |s.left| :: s.left[w] == []
    ensures var final := Exec(s, seq(CELLS, _ => Read)).snaps;
      && final == s.snaps + [s.cells]
      && s.cells[COUNT] + s.cells[ERRORS] == SumFrom(s.cells, BUCKETS)
      && s.cells[COUNT] == s.cells[STATUS_OK] + s.cells[STATUS_4X] + s.cells[STATUS_5X]
  {
    QuietReads(s, CELLS);
    JoinedExact(s);
  }

  lemma WordsOfTotals(a: nat, b: nat)
    requires a <= b
    ensures WordSub(b % WORD, a % WORD) == b - a <==> b - a < WORD
  {
  }

  /**
   Between successive snapshots of any run every counter has grown or stayed, and the 64-bit difference
   Sub computes is its growth exactly when that is below 2^64.
   */
  lemma TornDeltas(workers: nat, events: seq<Event>, i: nat, c: Cell)
    requires i + 1 < |Exec(Fresh(workers), events).snaps|
    ensures var snaps := Exec(Fresh(workers), events).snaps;
      && |snaps[i]| == |snaps[i + 1]| == CELLS && snaps[i][c] <= snaps[i + 1][c]
      && (WordSub(snaps[i + 1][c] % WORD, snaps[i][c] % WORD) == snaps[i + 1][c] - snaps[i][c]
          <==> snaps[i + 1][c] - snaps[i][c] < WORD)
  {
    var s := Exec(Fresh(workers), events);
    FreshInv(workers);
    ExecKeepsInv(Fresh(workers), events);
    assert Rising(s.snaps, |s.left|);
    assert Below(s.snaps[i], s.snaps[i + 1]);
    WordsOfTotals(s.snaps[i][c], s.snaps[i + 1][c]);
  }
}
