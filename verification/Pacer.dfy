/**
 The open-loop pacer of cmd/agent/runner.go. Credit is kept in units of 1/200 token, one per
 5 ms tick and request per second, so every quantity is an integer. The machine below lets
 the ticker, the single sends of one tick and the consumers interleave freely; the class at
 the end is the tick itself.
 */
module Pacer {

  const TICKS_PER_SECOND := 200

  /** About 20 ms of tokens, at least one. */
  function Capacity(rps: nat): nat {
    if rps * 4 / TICKS_PER_SECOND < 1 then 1 else rps * 4 / TICKS_PER_SECOND
  }

  /** `pending` counts the tokens the running tick has still to send. */
  datatype State = State(credit: nat, pending: nat, buffered: nat, issued: nat, received: nat, ticks: nat)

  const START := State(0, 0, 0, 0, 0, 0)

  datatype Event = Fire | Send | Receive

  function Step(rps: nat, s: State, e: Event): State {
    match e
    case Fire =>
      if s.pending > 0 then s  // the loop has not come back to the ticker
      else
        var credit := s.credit + rps;
        s.(credit := credit % TICKS_PER_SECOND, pending := credit / TICKS_PER_SECOND, ticks := s.ticks + 1)
    case Send =>
      if s.pending == 0 then s
      else if s.buffered < Capacity(rps) then
        s.(pending := s.pending - 1, buffered := s.buffered + 1, issued := s.issued + 1)
      else s.(credit := 0, pending := 0)  // consumers are saturated: drop the rest of the tick
    case Receive =>
      if s.buffered == 0 then s
      else s.(buffered := s.buffered - 1, received := s.received + 1)
  }

  function Exec(rps: nat, s: State, events: seq<Event>): State
    decreases |events|
  {
    if events == [] then s else Exec(rps, Step(rps, s, events[0]), events[1..])
  }

  predicate Valid(rps: nat, s: State) {
    s.credit < TICKS_PER_SECOND && s.buffered <= Capacity(rps) && s.issued == s.received + s.buffered
  }

  /** Over any interleaving: credit below one token, a bounded buffer, every token accounted for. */
  lemma {:induction false} AlwaysValid(rps: nat, s: State, events: seq<Event>)
    requires Valid(rps, s)
    ensures Valid(rps, Exec(rps, s, events))
    decreases |events|
  {
    if events != [] {
      AlwaysValid(rps, Step(rps, s, events[0]), events[1..]);
    }
  }

  // ---- conservation ----

  /** Credit granted by the ticks so far and neither issued, pending nor kept. */
  function Lost(rps: nat, s: State): int {
    rps * s.ticks - (TICKS_PER_SECOND * (s.issued + s.pending) + s.credit)
  }

  predicate Drops(rps: nat, s: State, e: Event) {
    e == Send && s.pending > 0 && s.buffered >= Capacity(rps)
  }

  /** Credit is lost by a send into a full channel and by nothing else. */
  lemma LostStep(rps: nat, s: State, e: Event)
    ensures Lost(rps, Step(rps, s, e)) == Lost(rps, s) +
      (if Drops(rps, s, e) then TICKS_PER_SECOND * s.pending + s.credit else 0)
  {
    var t := Step(rps, s, e);
    if e == Fire && s.pending == 0 {
      assert rps * t.ticks == rps * s.ticks + rps;
    }
  }

  lemma {:induction false} LostGrows(rps: nat, s: State, events: seq<Event>)
    ensures Lost(rps, Exec(rps, s, events)) >= Lost(rps, s)
    ensures Exec(rps, s, events).ticks >= s.ticks
    decreases |events|
  {
    if events != [] {
      LostStep(rps, s, events[0]);
      LostGrows(rps, Step(rps, s, events[0]), events[1..]);
    }
  }

  lemma IssuedSince(rps: nat, s: State, t: State)
    requires s.pending == 0 && t.ticks >= s.ticks && Lost(rps, t) >= Lost(rps, s)
    ensures TICKS_PER_SECOND * (t.issued - s.issued) <= s.credit + (t.ticks - s.ticks) * rps
  {
    assert rps * t.ticks - rps * s.ticks == (t.ticks - s.ticks) * rps;
  }

  /** From any tick boundary, k more ticks let consumers receive at most capacity + floor(credit + k*rps/200). */
  lemma BurstBound(rps: nat, s: State, events: seq<Event>)
    requires Valid(rps, s) && s.pending == 0
    ensures var t := Exec(rps, s, events);
      t.received - s.received <= Capacity(rps) + (s.credit + (t.ticks - s.ticks) * rps) / TICKS_PER_SECOND
    ensures var t := Exec(rps, s, events);
      t.issued - s.issued <= (s.credit + (t.ticks - s.ticks) * rps) / TICKS_PER_SECOND
  {
    var t := Exec(rps, s, events);
    LostGrows(rps, s, events);
    AlwaysValid(rps, s, events);
    IssuedSince(rps, s, t);
    QuotientBound(t.issued - s.issued, s.credit + (t.ticks - s.ticks) * rps);
  }

  lemma QuotientBound(q: int, total: int)
    requires TICKS_PER_SECOND * q <= total
    ensures q <= total / TICKS_PER_SECOND
  {
  }

  lemma CapacityIs(rps: nat)
    ensures Capacity(rps) == if rps < 50 then 1 else rps / 50
  {
  }

  lemma InMillis(q: int, credit: nat, grant: int, k: nat, rps: nat)
    requires q <= (credit + grant) / TICKS_PER_SECOND && credit < TICKS_PER_SECOND && grant == k * rps
    ensures 1000 * q < 1000 + (5 * k) * rps
  {
    assert (5 * k) * rps == 5 * grant;
  }

  /**
   In wall-clock terms: never more than 20 ms of tokens, at least one, are banked, and in the ms
   milliseconds of any ticks consumers receive fewer than that many and ms*rps/1000 + 1.
   */
  lemma BurstInMillis(rps: nat, s: State, events: seq<Event>)
    requires Valid(rps, s) && s.pending == 0
    ensures var t, banked := Exec(rps, s, events), if rps < 50 then 1 else rps / 50;
      && t.buffered <= banked
      && t.ticks >= s.ticks
      && var ms := 5 * (t.ticks - s.ticks);
         1000 * (t.received - s.received - banked) < 1000 + ms * rps
  {
    var t := Exec(rps, s, events);
    CapacityIs(rps);
    AlwaysValid(rps, s, events);
    LostGrows(rps, s, events);
    BurstBound(rps, s, events);
    InMillis(t.received - s.received - Capacity(rps), s.credit, (t.ticks - s.ticks) * rps, t.ticks - s.ticks, rps);
  }

  // ---- consumers that keep up ----

  /** A tick never wants to send more than the channel holds. */
  lemma EmitFits(rps: nat, credit: nat)
    requires rps >= 1 && credit < TICKS_PER_SECOND
    ensures (credit + rps) / TICKS_PER_SECOND <= Capacity(rps)
  {
  }

  /** The channel is empty whenever the ticker fires. */
  predicate Drained(rps: nat, s: State, events: seq<Event>)
    decreases |events|
  {
    events == [] ||
    (&& (events[0] == Fire ==> s.buffered == 0)
     && Drained(rps, Step(rps, s, events[0]), events[1..]))
  }

  lemma {:induction false} NothingLost(rps: nat, s: State, events: seq<Event>)
    requires rps >= 1 && Valid(rps, s) && s.buffered + s.pending <= Capacity(rps) && Lost(rps, s) == 0
    requires Drained(rps, s, events)
    ensures Lost(rps, Exec(rps, s, events)) == 0
    decreases |events|
  {
    if events != [] {
      LostStep(rps, s, events[0]);
      if events[0] == Fire && s.pending == 0 {
        EmitFits(rps, s.credit);
      }
      NothingLost(rps, Step(rps, s, events[0]), events[1..]);
    }
  }

  /** Drained between ticks, the pacer drops nothing and n ticks issue exactly floor(n*rps/200) tokens. */
  lemma ExactRate(rps: nat, events: seq<Event>)
    requires rps >= 1 && Drained(rps, START, events)
    requires Exec(rps, START, events).pending == 0
    ensures var t := Exec(rps, START, events);
      t.issued == t.ticks * rps / TICKS_PER_SECOND && t.credit == t.ticks * rps % TICKS_PER_SECOND
  {
    var t := Exec(rps, START, events);
    NothingLost(rps, START, events);
    AlwaysValid(rps, START, events);
    DivMod(t.ticks * rps, t.issued, t.credit);
  }

  lemma DivMod(total: nat, q: nat, r: nat)
    requires total == TICKS_PER_SECOND * q + r && r < TICKS_PER_SECOND
    ensures total / TICKS_PER_SECOND == q && total % TICKS_PER_SECOND == r
  {
  }

  // ---- one tick as the source runs it ----

  function Sends(n: nat): seq<Event> {
    seq(n, _ => Send)
  }

  class TokenPacer {
    const rps: nat
    const capacity: nat
    var credit: nat
    var buffered: nat
    var issued: nat
    var received: nat
    var ticks: nat

    function View(): State
      reads this
    {
      State(credit, 0, buffered, issued, received, ticks)
    }

    ghost predicate Ok()
      reads this
    {
      capacity == Capacity(rps) && Valid(rps, View())
    }

    constructor (rps: nat)
      ensures Ok() && this.rps == rps && View() == START
    {
      this.rps := rps;
      capacity := if rps * 4 / TICKS_PER_SECOND < 1 then 1 else rps * 4 / TICKS_PER_SECOND;
      credit, buffered, issued, received, ticks := 0, 0, 0, 0, 0;
    }

    /** The sends of one tick; the first that finds the channel full drops the rest. */
    method SendTokens(emit: nat)
      requires Ok()
      modifies this`credit, this`buffered, this`issued
      ensures Ok() && View() == Exec(rps, old(View()).(pending := emit), Sends(emit))
      ensures if old(buffered) + emit <= capacity
        then buffered == old(buffered) + emit && credit == old(credit)
        else buffered == capacity && credit == 0
    {
      ghost var s0 := View();
      var i := 0;
      ghost var full := false;
      while i < emit
        invariant issued == s0.issued + buffered - s0.buffered
        invariant !full ==> 0 <= i <= emit && buffered == s0.buffered + i <= capacity && credit == s0.credit
        invariant !full ==>
          Exec(rps, s0.(pending := emit), Sends(emit)) == Exec(rps, View().(pending := emit - i), Sends(emit - i))
        invariant full ==> i > emit && buffered == capacity && credit == 0 && s0.buffered + emit > capacity
        invariant full ==> Exec(rps, s0.(pending := emit), Sends(emit)) == View()
      {
        SendOnce(rps, View().(pending := emit - i), emit - i);
        if buffered < capacity {
          buffered, issued := buffered + 1, issued + 1;
        } else {
          // Consumers are saturated: the token is dropped and the loop ends.
          IdleSends(rps, View().(credit := 0), emit - i - 1);
          credit := 0;
          full := true;
          i := emit;
        }
        i := i + 1;
      }
    }

    /**
     The body of the ticker case. It is the machine's Fire followed by its sends; tokens are
     dropped exactly when the tick does not fit beside what is buffered.
     */
    method Tick()
      requires Ok()
      modifies this`credit, this`buffered, this`issued, this`ticks
      ensures Ok()
      ensures var emit := (old(credit) + rps) / TICKS_PER_SECOND;
        && View() == Exec(rps, old(View()), [Fire] + Sends(emit))
        && (if old(buffered) + emit <= capacity
            then buffered == old(buffered) + emit && credit == (old(credit) + rps) % TICKS_PER_SECOND
            else buffered == capacity && credit == 0)
    {
      ghost var s0 := View();
      var grant := credit + rps;
      var emit := grant / TICKS_PER_SECOND;
      credit := grant - emit * TICKS_PER_SECOND;
      ticks := ticks + 1;
      assert Step(rps, s0, Fire) == View().(pending := emit);
      assert ([Fire] + Sends(emit))[1..] == Sends(emit);
      SendTokens(emit);
    }

    /** A worker takes a token. */
    method Take() returns (ok: bool)
      requires Ok()
      modifies this`buffered, this`received
      ensures Ok() && View() == Step(rps, old(View()), Receive) && (ok <==> old(buffered) > 0)
    {
      ok := buffered > 0;
      if ok {
        buffered, received := buffered - 1, received + 1;
      }
    }
  }

  lemma SendOnce(rps: nat, s: State, n: nat)
    requires n > 0
    ensures Exec(rps, s, Sends(n)) == Exec(rps, Step(rps, s, Send), Sends(n - 1))
  {
    assert Sends(n)[1..] == Sends(n - 1);
  }

  lemma {:induction false} IdleSends(rps: nat, s: State, n: nat)
    requires s.pending == 0
    ensures Exec(rps, s, Sends(n)) == s
  {
    if n > 0 {
      SendOnce(rps, s, n);
      IdleSends(rps, s, n - 1);
    }
  }
}
