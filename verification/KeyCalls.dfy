/** No call of signingKey is lost or stuck: the locks are released, and every call can be brought to its answer. */
module KeyCalls {
  import opened Signing
  import opened KeyCache

  /** The holders of the lock are exactly the calls between acquiring and releasing it. */
  ghost predicate LocksExact(s: State) {
    forall g: nat :: LockExact(s, g)
  }

  predicate LockExact(s: State, g: nat) {
    && (g in s.readers <==> g < |s.calls| && s.calls[g].Reads())
    && (g in s.writers <==> g < |s.calls| && s.calls[g].Writes())
  }

  lemma StepLocks(c: Crypto, id: Identity, s: State, g: nat, date: string)
    requires LocksExact(s) && g < |s.calls|
    ensures LocksExact(Step(c, id, s, g, date))
  {
    var t := Step(c, id, s, g, date);
    forall h: nat ensures LockExact(t, h) {
      assert LockExact(s, h) && LockExact(s, g);
    }
  }

  lemma {:induction false} RunLocks(c: Crypto, id: Identity, n: nat, turns: seq<Turn>)
    requires Schedule(n, turns)
    ensures LocksExact(Run(c, id, n, turns))
  {
    if turns != [] {
      var last := turns[|turns| - 1];
      RunLocks(c, id, n, turns[..|turns| - 1]);
      StepLocks(c, id, Run(c, id, n, turns[..|turns| - 1]), last.g, last.date);
    }
  }

  // ---- every call is answered once ----

  predicate For(call: Call, date: string) {
    !call.Idle? && call.date == date
  }

  /** Calls under way for a date. */
  function Pending(calls: seq<Call>, date: string): nat {
    if calls == [] then 0 else (if For(calls[0], date) then 1 else 0) + Pending(calls[1..], date)
  }

  /** Keys handed out for it. */
  function Answered(answers: seq<Answer>, date: string): nat {
    if answers == [] then 0
    else Answered(answers[..|answers| - 1], date) + (if answers[|answers| - 1].date == date then 1 else 0)
  }

  /** Calls made for it: an idle goroutine's turn begins one. */
  function Asked(c: Crypto, id: Identity, n: nat, turns: seq<Turn>, date: string): nat
    requires Schedule(n, turns)
  {
    if turns == [] then 0
    else
      var init, last := turns[..|turns| - 1], turns[|turns| - 1];
      Asked(c, id, n, init, date)
      + (if Run(c, id, n, init).calls[last.g].Idle? && last.date == date then 1 else 0)
  }

  lemma {:induction false} PendingMoves(calls: seq<Call>, g: nat, x: Call, date: string)
    requires g < |calls|
    ensures Pending(calls[g := x], date)
      == Pending(calls, date) - (if For(calls[g], date) then 1 else 0) + (if For(x, date) then 1 else 0)
  {
    if g == 0 {
      assert calls[g := x][1..] == calls[1..];
    } else {
      PendingMoves(calls[1..], g - 1, x, date);
      assert calls[g := x][1..] == calls[1..][g - 1 := x];
    }
  }

  lemma {:induction false} NonePending(calls: seq<Call>, date: string)
    requires forall g | 0 <= g < |calls| :: calls[g].Idle?
    ensures Pending(calls, date) == 0
  {
    if calls != [] {
      NonePending(calls[1..], date);
    }
  }

  lemma OneCallMoves(c: Crypto, id: Identity, s: State, g: nat, date: string)
    requires g < |s.calls|
    ensures Step(c, id, s, g, date).calls == s.calls[g := Step(c, id, s, g, date).calls[g]]
  {
  }

  /** What a step does to the answers: a call that ends adds its own. */
  lemma StepAnswers(c: Crypto, id: Identity, s: State, g: nat, date: string)
    requires g < |s.calls|
    ensures var t := Step(c, id, s, g, date);
      if !s.calls[g].Idle? && t.calls[g].Idle?
      then exists key :: t.answers == s.answers + [Answer(s.calls[g].date, key)]
      else t.answers == s.answers && t.calls[g] != Idle
           && t.calls[g].date == if s.calls[g].Idle? then date else s.calls[g].date
  {
  }

  lemma StepCalls(c: Crypto, id: Identity, s: State, g: nat, date: string, d: string)
    requires g < |s.calls|
    ensures var t := Step(c, id, s, g, date);
      Answered(t.answers, d) + Pending(t.calls, d) == Answered(s.answers, d) + Pending(s.calls, d)
        + (if s.calls[g].Idle? && date == d then 1 else 0)
  {
    var t := Step(c, id, s, g, date);
    OneCallMoves(c, id, s, g, date);
    PendingMoves(s.calls, g, t.calls[g], d);
    StepAnswers(c, id, s, g, date);
    if t.answers != s.answers {
      assert t.answers[..|t.answers| - 1] == s.answers;
    }
  }

  /** In every interleaving the calls made for a date are those answered for it and those under way. */
  lemma {:induction false} CallsAccounted(c: Crypto, id: Identity, n: nat, turns: seq<Turn>, date: string)
    requires Schedule(n, turns)
    ensures Asked(c, id, n, turns, date)
      == Answered(Run(c, id, n, turns).answers, date) + Pending(Run(c, id, n, turns).calls, date)
  {
    if turns == [] {
      NonePending(Fresh(n).calls, date);
    } else {
      var init, last := turns[..|turns| - 1], turns[|turns| - 1];
      CallsAccounted(c, id, n, init, date);
      StepCalls(c, id, Run(c, id, n, init), last.g, last.date, date);
    }
  }

  // ---- no call is stuck ----

  /** Steps a call may still need. */
  function Left(call: Call): nat {
    match call
    case Idle => 0
    case WantRead(_) => 10
    case Comparing(_) => 9
    case Loading(_) => 2
    case Loaded(_, _) => 1
    case Missed(_) => 8
    case WantWrite(_) => 7
    case Rechecking(_) => 6
    case Deriving(_) => 5
    case KeyStored(_) => 4
    case Returning(_) => 3
    case Returned(_, _) => 1
  }

  function TotalLeft(calls: seq<Call>): nat {
    if calls == [] then 0 else Left(calls[0]) + TotalLeft(calls[1..])
  }

  lemma {:induction false} LeftMoves(calls: seq<Call>, g: nat, x: Call)
    requires g < |calls|
    ensures TotalLeft(calls[g := x]) == TotalLeft(calls) - Left(calls[g]) + Left(x)
  {
    if g == 0 {
      assert calls[g := x][1..] == calls[1..];
    } else {
      LeftMoves(calls[1..], g - 1, x);
      assert calls[g := x][1..] == calls[1..][g - 1 := x];
    }
  }

  /** While a call is under way, some call can take a step. */
  lemma SomeoneMoves(c: Crypto, id: Identity, s: State, g: nat) returns (h: nat)
    requires LocksExact(s) && g < |s.calls| && !s.calls[g].Idle?
    ensures h < |s.calls| && !s.calls[h].Idle?
    ensures Left(Step(c, id, s, h, "-").calls[h]) < Left(s.calls[h])
  {
    h := g;
    if r :| r in s.readers {
      h := r;
      assert LockExact(s, r);
    } else if w :| w in s.writers {
      h := w;
      assert LockExact(s, w);
    }
  }

  lemma OneTurn(c: Crypto, id: Identity, n: nat, turns: seq<Turn>, h: nat, date: string)
    requires Schedule(n, turns) && h < n && !Run(c, id, n, turns).calls[h].Idle?
    ensures Schedule(n, turns + [Turn(h, "-")])
    ensures Run(c, id, n, turns + [Turn(h, "-")]) == Step(c, id, Run(c, id, n, turns), h, "-")
    ensures Asked(c, id, n, turns + [Turn(h, "-")], date) == Asked(c, id, n, turns, date)
  {
    assert (turns + [Turn(h, "-")])[..|turns|] == turns;
  }

  lemma SomeTurn(c: Crypto, id: Identity, n: nat, turns: seq<Turn>, g: nat, date: string) returns (h: nat)
    requires Schedule(n, turns) && g < n && !Run(c, id, n, turns).calls[g].Idle?
    ensures h < n && Schedule(n, turns + [Turn(h, "-")])
    ensures Asked(c, id, n, turns + [Turn(h, "-")], date) == Asked(c, id, n, turns, date)
    ensures TotalLeft(Run(c, id, n, turns + [Turn(h, "-")]).calls) < TotalLeft(Run(c, id, n, turns).calls)
  {
    var s := Run(c, id, n, turns);
    RunLocks(c, id, n, turns);
    h := SomeoneMoves(c, id, s, g);
    OneTurn(c, id, n, turns, h, date);
    OneCallMoves(c, id, s, h, "-");
    LeftMoves(s.calls, h, Step(c, id, s, h, "-").calls[h]);
  }

  lemma AllAnswered(c: Crypto, id: Identity, n: nat, turns: seq<Turn>, date: string)
    requires Schedule(n, turns) && forall g | 0 <= g < n :: Run(c, id, n, turns).calls[g].Idle?
    ensures Answered(Run(c, id, n, turns).answers, date) == Asked(c, id, n, turns, date)
  {
    CallsAccounted(c, id, n, turns, date);
    NonePending(Run(c, id, n, turns).calls, date);
  }

  /**
   Any interleaving can be continued so that the calls under way all come to their ends, without further
   calls; every call made for a date has then been answered for it.
   */
  lemma {:induction false} CallsReturn(c: Crypto, id: Identity, n: nat, turns: seq<Turn>, date: string)
    returns (on: seq<Turn>)
    requires Schedule(n, turns)
    ensures turns <= on && Schedule(n, on)
    ensures forall g | 0 <= g < n :: Run(c, id, n, on).calls[g].Idle?
    ensures Answered(Run(c, id, n, on).answers, date) == Asked(c, id, n, turns, date)
    decreases TotalLeft(Run(c, id, n, turns).calls)
  {
    if g: nat :| g < n && !Run(c, id, n, turns).calls[g].Idle? {
      var h := SomeTurn(c, id, n, turns, g, date);
      on := CallsReturn(c, id, n, turns + [Turn(h, "-")], date);
    } else {
      on := turns;
      AllAnswered(c, id, n, turns, date);
    }
  }
}
