/**
 The two models of a snapshot agree. Along any run of the machine of `TornReads`, noting between which
 reads each add fell, the machine's snapshots are, modulo 2^64, those `Counters.Read` gives for these
 adds: the snapshots of the reporting loop of `Reports`.
 */
module TornRefinement {
  import opened Bits
  import opened Counters
  import opened Reports
  import T = TornReads

  /** The adds of finished snapshots, and of the one in progress; the last chunk of `open` is growing. */
  datatype Notes = Notes(work: seq<seq<seq<Add>>>, open: seq<seq<Add>>)

  const NO_NOTES := Notes([], [[]])

  function Grow(open: seq<seq<Add>>, a: Add): seq<seq<Add>>
    requires open != []
  {
    open[..|open| - 1] + [open[|open| - 1] + [a]]
  }

  function Note(notes: Notes, s: T.State, e: T.Event): Notes
    requires notes.open != []
  {
    match e
    case DoAdd(w) =>
      if w < |s.left| && s.left[w] != [] then notes.(open := Grow(notes.open, s.left[w][0])) else notes
    case ConnHook(reused) => notes.(open := Grow(notes.open, Adds(Conn(reused))[0]))
    case Read =>
      if |s.partial| + 1 < CELLS then notes.(open := notes.open + [[]])
      else Notes(notes.work + [notes.open], [[]])
    case StartObs(_, _) => notes
  }

  // ---- what the notes record ----

  /** All adds so far. */
  function Log(notes: Notes): seq<Add> {
    Before(notes.work, |notes.work|) + Flat(notes.open)
  }

  /** Cell c shows the total of all adds so far. */
  predicate CellMatches(notes: Notes, cells: seq<nat>, c: Cell) {
    c < |cells| && cells[c] == Total(Log(notes), c)
  }

  /** A cell read so far shows the total when it was read. */
  predicate PartialMatches(notes: Notes, partial: seq<nat>, c: Cell) {
    c < |partial| ==>
      |notes.open| > c && partial[c] == Total(Before(notes.work, |notes.work|) + Flat(notes.open[..c + 1]), c)
  }

  predicate SnapMatches(notes: Notes, snaps: seq<seq<nat>>, i: nat, c: Cell)
    requires Ticks(notes.work)
  {
    i < |snaps| && i < |notes.work| ==> |snaps[i]| == CELLS && snaps[i][c] == Total(Given(notes.work, i, c), c)
  }

  ghost predicate Matches(notes: Notes, s: T.State) {
    && T.Shaped(s) && |notes.open| == |s.partial| + 1 && |notes.work| == |s.snaps| && Ticks(notes.work)
    && (forall c: Cell :: CellMatches(notes, s.cells, c))
    && (forall c: Cell :: PartialMatches(notes, s.partial, c))
    && (forall i: nat, c: Cell :: SnapMatches(notes, s.snaps, i, c))
  }

  // ---- one more add ----

  lemma FlatSnoc(init: seq<seq<Add>>, chunk: seq<Add>)
    ensures Flat(init + [chunk]) == Flat(init) + chunk
  {
    assert (init + [chunk])[..|init|] == init;
  }

  lemma FlatGrow(open: seq<seq<Add>>, a: Add)
    requires open != []
    ensures Flat(Grow(open, a)) == Flat(open) + [a]
  {
    var init, chunk := open[..|open| - 1], open[|open| - 1];
    FlatSnoc(init, chunk);
    FlatSnoc(init, chunk + [a]);
    assert open == init + [chunk];
    assert Flat(init) + (chunk + [a]) == (Flat(init) + chunk) + [a];
  }

  lemma GrowKeeps(open: seq<seq<Add>>, a: Add, n: nat)
    requires n < |open|
    ensures Grow(open, a)[..n] == open[..n]
  {
  }

  lemma AddMatches(notes: Notes, s: T.State, a: Add, left: seq<seq<Add>>)
    requires Matches(notes, s) && |left| == |s.left|
    ensures Matches(notes.(open := Grow(notes.open, a)), s.(cells := T.Bump(s.cells, a), left := left))
  {
    var after, t := notes.(open := Grow(notes.open, a)), s.(cells := T.Bump(s.cells, a), left := left);
    FlatGrow(notes.open, a);
    assert Log(after) == Log(notes) + [a];
    forall c: Cell ensures CellMatches(after, t.cells, c) {
      assert CellMatches(notes, s.cells, c);
      TotalSplit(Log(notes), [a], c);
    }
    forall c: Cell ensures PartialMatches(after, t.partial, c) {
      assert PartialMatches(notes, s.partial, c);
      if c < |s.partial| {
        GrowKeeps(notes.open, a, c + 1);
      }
    }
    forall i: nat, c: Cell ensures SnapMatches(after, t.snaps, i, c) {
      assert SnapMatches(notes, s.snaps, i, c);
    }
  }

  // ---- one more read ----

  lemma ReadOn(notes: Notes, s: T.State)
    requires Matches(notes, s) && |s.partial| + 1 < CELLS
    ensures Matches(notes.(open := notes.open + [[]]), T.Step(s, T.Read))
  {
    var after, t := notes.(open := notes.open + [[]]), T.Step(s, T.Read);
    FlatSnoc(notes.open, []);
    assert Log(after) == Log(notes);
    forall c: Cell ensures CellMatches(after, t.cells, c) {
      assert CellMatches(notes, s.cells, c);
    }
    forall c: Cell ensures PartialMatches(after, t.partial, c) {
      assert PartialMatches(notes, s.partial, c) && CellMatches(notes, s.cells, c);
      if c < |t.partial| {
        assert after.open[..c + 1] == notes.open[..c + 1];
        assert notes.open[..|notes.open|] == notes.open;
      }
    }
    forall i: nat, c: Cell ensures SnapMatches(after, t.snaps, i, c) {
      assert SnapMatches(notes, s.snaps, i, c);
    }
  }

  lemma {:induction false} BeforePrefix(work: seq<seq<seq<Add>>>, last: seq<seq<Add>>, n: nat)
    requires n <= |work|
    ensures Before(work + [last], n) == Before(work, n)
  {
    if n > 0 {
      BeforePrefix(work, last, n - 1);
    }
  }

  lemma GivenPrefix(work: seq<seq<seq<Add>>>, last: seq<seq<Add>>, i: nat, c: Cell)
    requires Ticks(work) && |last| == CELLS && i <= |work|
    ensures Ticks(work + [last])
    ensures Given(work + [last], i, c)
      == if i < |work| then Given(work, i, c) else Before(work, i) + Flat(last[..c + 1])
  {
    BeforePrefix(work, last, i);
  }

  lemma EarlierSnapshot(notes: Notes, snap: seq<nat>, s: T.State, i: nat, c: Cell)
    requires Ticks(notes.work) && |notes.open| == CELLS && i < |notes.work| == |s.snaps|
    requires SnapMatches(notes, s.snaps, i, c)
    ensures Ticks(notes.work + [notes.open])
    ensures SnapMatches(Notes(notes.work + [notes.open], [[]]), s.snaps + [snap], i, c)
  {
    GivenPrefix(notes.work, notes.open, i, c);
  }

  /** What is read last joins what was read before: the snapshot of the open chunks. */
  lemma FinishedSnapshot(notes: Notes, s: T.State, c: Cell)
    requires T.Shaped(s) && |s.partial| + 1 == CELLS == |notes.open|
    requires PartialMatches(notes, s.partial, c) && CellMatches(notes, s.cells, c)
    ensures (s.partial + [s.cells[|s.partial|]])[c]
      == Total(Before(notes.work, |notes.work|) + Flat(notes.open[..c + 1]), c)
  {
    assert notes.open[..|notes.open|] == notes.open;
  }

  lemma SnapshotMatches(notes: Notes, s: T.State, i: nat, c: Cell)
    requires Matches(notes, s) && |s.partial| + 1 == CELLS
    ensures Ticks(notes.work + [notes.open])
    ensures SnapMatches(Notes(notes.work + [notes.open], [[]]), T.Step(s, T.Read).snaps, i, c)
  {
    var snap := s.partial + [s.cells[|s.partial|]];
    if i < |notes.work| {
      assert SnapMatches(notes, s.snaps, i, c);
      EarlierSnapshot(notes, snap, s, i, c);
    } else if i == |notes.work| {
      assert PartialMatches(notes, s.partial, c) && CellMatches(notes, s.cells, c);
      FinishedSnapshot(notes, s, c);
      GivenPrefix(notes.work, notes.open, i, c);
    }
  }

  lemma SameLog(notes: Notes)
    ensures Log(Notes(notes.work + [notes.open], [[]])) == Log(notes)
  {
    var work := notes.work + [notes.open];
    BeforePrefix(notes.work, notes.open, |notes.work|);
    FlatSnoc([], []);
    assert [] + [[]] == NO_NOTES.open;
  }

  /** The read that completes a snapshot. */
  lemma ReadLast(notes: Notes, s: T.State)
    requires Matches(notes, s) && |s.partial| + 1 == CELLS
    ensures Matches(Notes(notes.work + [notes.open], [[]]), T.Step(s, T.Read))
  {
    var after, t := Notes(notes.work + [notes.open], [[]]), T.Step(s, T.Read);
    SameLog(notes);
    forall c: Cell ensures CellMatches(after, t.cells, c) {
      assert CellMatches(notes, s.cells, c);
    }
    SnapshotMatches(notes, s, 0, 0);
    forall i: nat, c: Cell ensures SnapMatches(after, t.snaps, i, c) {
      SnapshotMatches(notes, s, i, c);
    }
  }

  // ---- any run ----

  lemma StepMatches(notes: Notes, s: T.State, e: T.Event)
    requires Matches(notes, s)
    ensures Matches(Note(notes, s, e), T.Step(s, e))
  {
    match e
    case DoAdd(w) =>
      if w < |s.left| && s.left[w] != [] {
        AddMatches(notes, s, s.left[w][0], s.left[w := s.left[w][1..]]);
      }
    case ConnHook(reused) => AddMatches(notes, s, Adds(Conn(reused))[0], s.left);
    case Read =>
      if |s.partial| + 1 < CELLS {
        ReadOn(notes, s);
      } else {
        ReadLast(notes, s);
      }
    case StartObs(w, o) => StartMatches(notes, s, w, o);
  }

  lemma StartMatches(notes: Notes, s: T.State, w: nat, o: Obs)
    requires Matches(notes, s)
    ensures Matches(notes, T.Step(s, T.StartObs(w, o)))
  {
    var t := T.Step(s, T.StartObs(w, o));
    assert t.cells == s.cells && t.partial == s.partial && t.snaps == s.snaps;
  }

  function NotesOf(notes: Notes, s: T.State, events: seq<T.Event>): Notes
    requires T.Shaped(s) && notes.open != []
    decreases |events|
  {
    if events == [] then notes else NotesOf(Note(notes, s, events[0]), T.Step(s, events[0]), events[1..])
  }

  lemma {:induction false} RunMatches(notes: Notes, s: T.State, events: seq<T.Event>)
    requires Matches(notes, s)
    ensures Matches(NotesOf(notes, s, events), T.Exec(s, events))
    decreases |events|
  {
    if events != [] {
      StepMatches(notes, s, events[0]);
      RunMatches(Note(notes, s, events[0]), T.Step(s, events[0]), events[1..]);
    }
  }

  lemma FreshMatches(workers: nat)
    ensures Matches(NO_NOTES, T.Fresh(workers))
  {
    assert NO_NOTES.open[..0] == [];
    assert Log(NO_NOTES) == [];
  }

  /**
   Snapshot i of any run of the machine is, modulo 2^64, the snapshot the reporting loop takes at tick i
   over the adds as they fell between the reads.
   */
  lemma MachineIsRead(workers: nat, events: seq<T.Event>, i: nat, c: Cell)
    requires i < |T.Exec(T.Fresh(workers), events).snaps|
    ensures var work := NotesOf(NO_NOTES, T.Fresh(workers), events).work;
      var snap := T.Exec(T.Fresh(workers), events).snaps[i];
      && Ticks(work) && i < |work| && |snap| == CELLS
      && SnapshotAt(work, i) == Read(Before(work, i), work[i])
      && snap[c] % WORD == SnapshotAt(work, i)[c]
  {
    var notes, s := NotesOf(NO_NOTES, T.Fresh(workers), events), T.Exec(T.Fresh(workers), events);
    FreshMatches(workers);
    RunMatches(NO_NOTES, T.Fresh(workers), events);
    assert SnapMatches(notes, s.snaps, i, c);
    SnapshotCell(notes.work, i, c);
  }

  // ---- one method with nothing in between ----

  function Times(e: T.Event, n: nat): seq<T.Event> {
    seq(n, _ => e)
  }

  lemma TimesStep(s: T.State, e: T.Event, n: nat)
    requires T.Shaped(s) && n > 0
    ensures T.Exec(s, Times(e, n)) == T.Exec(T.Step(s, e), Times(e, n - 1))
  {
    assert Times(e, n)[1..] == Times(e, n - 1);
  }

  /** A worker's remaining adds, alone, end its observation and give each cell its part of them. */
  lemma {:induction false} AddsAlone(s: T.State, w: nat, c: Cell)
    requires T.Shaped(s) && w < |s.left|
    ensures var t := T.Exec(s, Times(T.DoAdd(w), |s.left[w]|));
      && t.left == s.left[w := []] && t.partial == s.partial && t.snaps == s.snaps && |t.cells| == CELLS
      && t.cells[c] == s.cells[c] + Total(s.left[w], c)
    decreases |s.left[w]|
  {
    var adds := s.left[w];
    if adds != [] {
      var n := T.Step(s, T.DoAdd(w));
      TimesStep(s, T.DoAdd(w), |adds|);
      AddsAlone(n, w, c);
      assert n.left[w := []] == s.left[w := []];
    } else {
      assert s.left[w := []] == s.left;
    }
  }

  /** An observation, alone: an idle worker ends idle, and each cell has what the method adds to it. */
  lemma ObservationAlone(s: T.State, w: nat, o: Obs, c: Cell)
    requires T.Shaped(s) && w < |s.left| && s.left[w] == []
    ensures var t := T.Exec(s, [T.StartObs(w, o)] + Times(T.DoAdd(w), |Adds(o)|));
      && t.left == s.left && t.partial == s.partial && t.snaps == s.snaps && |t.cells| == CELLS
      && t.cells[c] == s.cells[c] + Contribution(o, c)
  {
    var n := T.Step(s, T.StartObs(w, o));
    assert ([T.StartObs(w, o)] + Times(T.DoAdd(w), |Adds(o)|))[1..] == Times(T.DoAdd(w), |Adds(o)|);
    AddsAlone(n, w, c);
    ObsCell(o, c);
    assert n.left[w := []] == s.left;
  }

  /** The reads still to do, alone, end the snapshot: one of the cells as they are. */
  lemma {:induction false} SnapshotAlone(s: T.State)
    requires T.Shaped(s) && s.partial == s.cells[..|s.partial|]
    ensures T.Exec(s, Times(T.Read, CELLS - |s.partial|)) == s.(partial := [], snaps := s.snaps + [s.cells])
    decreases CELLS - |s.partial|
  {
    var n := T.Step(s, T.Read);
    TimesStep(s, T.Read, CELLS - |s.partial|);
    assert s.partial + [s.cells[|s.partial|]] == s.cells[..|s.partial| + 1];
    if |s.partial| + 1 < CELLS {
      SnapshotAlone(n);
    } else {
      assert s.cells[..CELLS] == s.cells;
    }
  }
}
