/**
 The signing-key cache shared by any number of goroutines (internal/r2/sigv4.go). Every lock
 operation, comparison, load and store is one step, and a schedule picks whose step is next.
 */
module KeyCache {
  import opened Signing

  /** How far one call of signingKey has come. */
  datatype Call =
    | Idle
    | WantRead(date: string)
    | Comparing(date: string)
    | Loading(date: string)
    | Loaded(date: string, key: Bytes)
    | Missed(date: string)
    | WantWrite(date: string)
    | Rechecking(date: string)
    | Deriving(date: string)
    | KeyStored(date: string)
    | Returning(date: string)
    | Returned(date: string, key: Bytes)
  {
    predicate Reads() {
      Comparing? || Loading? || Loaded? || Missed?
    }

    predicate Writes() {
      Rechecking? || Deriving? || KeyStored? || Returning? || Returned?
    }
  }

  datatype Answer = Answer(date: string, key: Bytes)

  /** `readers` and `writers` are the holders of the lock; `derived` lists the dates keys were derived for. */
  datatype State = State(
    cachedDate: string, cachedKey: Bytes, readers: set<nat>, writers: set<nat>, calls: seq<Call>,
    derived: seq<string>, answers: seq<Answer>)

  /** A new signer and n goroutines. */
  function Fresh(n: nat): State {
    State("", [], {}, {}, seq(n, _ => Idle), [], [])
  }

  /** Goroutine g takes its next step; a step that must wait for the lock leaves everything as it is. */
  function Step(c: Crypto, id: Identity, s: State, g: nat, date: string): State
    requires g < |s.calls|
  {
    match s.calls[g]
    case Idle => s.(calls := s.calls[g := WantRead(date)])
    case WantRead(d) =>
      if s.writers != {} then s
      else s.(readers := s.readers + {g}, calls := s.calls[g := Comparing(d)])
    case Comparing(d) =>
      s.(calls := s.calls[g := if s.cachedDate == d then Loading(d) else Missed(d)])
    case Loading(d) => s.(calls := s.calls[g := Loaded(d, s.cachedKey)])
    case Loaded(d, k) =>
      s.(readers := s.readers - {g}, calls := s.calls[g := Idle], answers := s.answers + [Answer(d, k)])
    case Missed(d) => s.(readers := s.readers - {g}, calls := s.calls[g := WantWrite(d)])
    case WantWrite(d) =>
      if s.writers != {} || s.readers != {} then s
      else s.(writers := {g}, calls := s.calls[g := Rechecking(d)])
    case Rechecking(d) =>
      s.(calls := s.calls[g := if s.cachedDate == d then Returning(d) else Deriving(d)])
    case Deriving(d) =>
      s.(cachedKey := DeriveKey(c, id, d), derived := s.derived + [d], calls := s.calls[g := KeyStored(d)])
    case KeyStored(d) => s.(cachedDate := d, calls := s.calls[g := Returning(d)])
    case Returning(d) => s.(calls := s.calls[g := Returned(d, s.cachedKey)])
    case Returned(d, k) =>
      s.(writers := s.writers - {g}, calls := s.calls[g := Idle], answers := s.answers + [Answer(d, k)])
  }

  datatype Turn = Turn(g: nat, date: string)

  /** Goroutines that exist, and dates with characters in them (eight digits in the source). */
  predicate Schedule(n: nat, turns: seq<Turn>) {
    forall i :: 0 <= i < |turns| ==> turns[i].g < n && turns[i].date != ""
  }

  function Run(c: Crypto, id: Identity, n: nat, turns: seq<Turn>): (s: State)
    requires Schedule(n, turns)
    ensures |s.calls| == n
  {
    if turns == [] then Fresh(n)
    else
      var last := turns[|turns| - 1];
      Step(c, id, Run(c, id, n, turns[..|turns| - 1]), last.g, last.date)
  }

  // ---- the invariant ----

  predicate CacheOk(c: Crypto, id: Identity, s: State) {
    if s.derived == [] then s.cachedDate == ""
    else s.cachedDate == s.derived[|s.derived| - 1] != "" && s.cachedKey == DeriveKey(c, id, s.cachedDate)
  }

  predicate CallOk(c: Crypto, id: Identity, s: State, g: nat)
    requires g < |s.calls|
  {
    var p := s.calls[g];
    && (p.Reads() ==> g in s.readers)
    && (p.Writes() ==> g in s.writers)
    && (!p.Idle? ==> p.date != "")
    && match p {
      case Loading(d) => s.cachedDate == d
      case Returning(d) => s.cachedDate == d
      case Loaded(d, k) => k == DeriveKey(c, id, d)
      case Returned(d, k) => k == DeriveKey(c, id, d)
      case Deriving(d) => s.cachedDate != d
      case KeyStored(d) =>
        s.derived != [] && s.derived[|s.derived| - 1] == d && s.cachedKey == DeriveKey(c, id, d)
      case _ => true
    }
  }

  predicate LockOk(s: State) {
    && (s.writers != {} ==> s.readers == {})
    && (forall g, h :: g in s.writers && h in s.writers ==> g == h)
  }

  predicate AnswersOk(c: Crypto, id: Identity, s: State) {
    forall a <- s.answers :: a.key == DeriveKey(c, id, a.date)
  }

  predicate NoneTwice(derived: seq<string>) {
    forall i :: 0 <= i < |derived| - 1 ==> derived[i] != derived[i + 1]
  }

  predicate Between(s: State, g: nat) {
    g < |s.calls| && s.calls[g].KeyStored?
  }

  /** Only inside the two stores of a writer may the cached date and key disagree. */
  ghost predicate Inv(c: Crypto, id: Identity, s: State) {
    && LockOk(s) && AnswersOk(c, id, s) && NoneTwice(s.derived)
    && (forall g: nat | g < |s.calls| :: CallOk(c, id, s, g))
    && ((forall g: nat :: !Between(s, g)) ==> CacheOk(c, id, s))
  }

  /** With a goroutine inside the lock and not between its two stores, the cache is consistent. */
  lemma HolderSeesConsistent(c: Crypto, id: Identity, s: State, g: nat)
    requires Inv(c, id, s) && g < |s.calls| && (s.calls[g].Reads() || s.calls[g].Writes())
    ensures !s.calls[g].KeyStored? ==> CacheOk(c, id, s)
  {
    if !s.calls[g].KeyStored? {
      forall h: nat ensures !Between(s, h) {
        assert CallOk(c, id, s, g);
        if h < |s.calls| {
          assert CallOk(c, id, s, h);
        }
      }
    }
  }

  lemma CallsKept(c: Crypto, id: Identity, s: State, g: nat, date: string)
    requires Inv(c, id, s) && g < |s.calls| && date != ""
    ensures var t := Step(c, id, s, g, date);
      LockOk(t) && forall h: nat | h < |t.calls| :: CallOk(c, id, t, h)
  {
    var t := Step(c, id, s, g, date);
    assert CallOk(c, id, s, g);
    if s.calls[g].Reads() || s.calls[g].Writes() {
      HolderSeesConsistent(c, id, s, g);
    }
    forall h: nat | h < |t.calls| ensures CallOk(c, id, t, h) {
      assert CallOk(c, id, s, h);
    }
  }

  lemma CacheKept(c: Crypto, id: Identity, s: State, g: nat, date: string)
    requires Inv(c, id, s) && g < |s.calls| && date != ""
    ensures var t := Step(c, id, s, g, date);
      NoneTwice(t.derived) && ((forall h: nat :: !Between(t, h)) ==> CacheOk(c, id, t))
  {
    var t := Step(c, id, s, g, date);
    assert CallOk(c, id, s, g);
    if s.calls[g].Deriving? {
      HolderSeesConsistent(c, id, s, g);
      assert Between(t, g);
    } else if !s.calls[g].KeyStored? && forall h: nat :: !Between(t, h) {
      forall h: nat ensures !Between(s, h) {
        assert !Between(t, h);
      }
    }
  }

  lemma StepKeeps(c: Crypto, id: Identity, s: State, g: nat, date: string)
    requires Inv(c, id, s) && g < |s.calls| && date != ""
    ensures Inv(c, id, Step(c, id, s, g, date))
  {
    assert CallOk(c, id, s, g);
    CallsKept(c, id, s, g, date);
    CacheKept(c, id, s, g, date);
  }

  lemma {:induction false} RunKeeps(c: Crypto, id: Identity, n: nat, turns: seq<Turn>)
    requires Schedule(n, turns)
    ensures Inv(c, id, Run(c, id, n, turns))
  {
    if turns != [] {
      var last := turns[|turns| - 1];
      RunKeeps(c, id, n, turns[..|turns| - 1]);
      StepKeeps(c, id, Run(c, id, n, turns[..|turns| - 1]), last.g, last.date);
    }
  }

  // ---- what callers get ----

  /** In every interleaving, every key handed out is the key derived from scratch for the date asked. */
  lemma KeysAreDerived(c: Crypto, id: Identity, n: nat, turns: seq<Turn>, a: Answer)
    requires Schedule(n, turns) && a in Run(c, id, n, turns).answers
    ensures a.key == DeriveKey(c, id, a.date)
  {
    RunKeeps(c, id, n, turns);
  }

  /** So, however the calls interleave, every signature is that of the uncached reference. */
  lemma SignaturesAgree(c: Crypto, id: Identity, n: nat, turns: seq<Turn>, a: Answer,
                         r: Request, hash: string, amzDate: string)
    requires Schedule(n, turns) && a in Run(c, id, n, turns).answers
    requires |amzDate| >= 8 && a.date == amzDate[..8]
    ensures SignWith(c, id, r, hash, amzDate, a.key) == ReferenceSign(c, id, r, hash, amzDate)
  {
    KeysAreDerived(c, id, n, turns, a);
  }

  /** Never the same date twice in a row: what the second comparison, under the write lock, is for. */
  lemma NeverDerivedTwiceRunning(c: Crypto, id: Identity, n: nat, turns: seq<Turn>, i: nat)
    requires Schedule(n, turns) && i + 1 < |Run(c, id, n, turns).derived|
    ensures var d := Run(c, id, n, turns).derived; d[i] != d[i + 1]
  {
    RunKeeps(c, id, n, turns);
  }

  /** Only one day has been asked for. */
  predicate OneDay(s: State, day: string) {
    && (forall g | 0 <= g < |s.calls| :: s.calls[g].Idle? || s.calls[g].date == day)
    && (forall i | 0 <= i < |s.derived| :: s.derived[i] == day)
  }

  lemma {:induction false} DerivedWereAsked(c: Crypto, id: Identity, n: nat, turns: seq<Turn>, day: string)
    requires Schedule(n, turns) && forall i | 0 <= i < |turns| :: turns[i].date == day
    ensures OneDay(Run(c, id, n, turns), day)
  {
    if turns != [] {
      var last := turns[|turns| - 1];
      DerivedWereAsked(c, id, n, turns[..|turns| - 1], day);
      StepKeepsDay(c, id, Run(c, id, n, turns[..|turns| - 1]), last.g, day);
    }
  }

  lemma StepKeepsDay(c: Crypto, id: Identity, s: State, g: nat, day: string)
    requires OneDay(s, day) && g < |s.calls|
    ensures OneDay(Step(c, id, s, g, day), day)
  {
  }

  /** Within one day the key is derived at most once, however many goroutines start at the same moment. */
  lemma OncePerDay(c: Crypto, id: Identity, n: nat, turns: seq<Turn>, day: string)
    requires Schedule(n, turns) && forall i | 0 <= i < |turns| :: turns[i].date == day
    ensures |Run(c, id, n, turns).derived| <= 1
  {
    DerivedWereAsked(c, id, n, turns, day);
    if |Run(c, id, n, turns).derived| > 1 {
      NeverDerivedTwiceRunning(c, id, n, turns, 0);
    }
  }
}
