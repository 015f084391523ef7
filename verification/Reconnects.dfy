/** What an agent that polls again is told, over runs of whole requests. */
module Reconnects {
  import opened Tables
  import opened Handlers
  import opened Invariants
  import opened Polls
  import opened Lifecycle

  lemma EventEvolves(db: Db, e: Event)
    requires Sound(db) && Quiet(db)
    ensures Evolves(db, Apply(db, e))
  {
    if e.OnPoll? {
      if db.OldestOpen(e.pick) {
        PollAnswers(db, e.pick, e.agent, e.now);
        PollEvolves(db, e);
      }
    } else if !e.OnStart? {
      UpdateEventKeeps(db, e);
    }
  }

  lemma PollEvolves(db: Db, e: Event)
    requires Sound(db) && e.OnPoll? && db.OldestOpen(e.pick)
    requires PollSays(db, Apply(db, e), e.pick, e.agent, e.now, PollAnswer(db, e))
    ensures Evolves(db, Apply(db, e))
  {
    if SpawnIdOf(e.pick, e.agent) in db.spawns {
      OwnRow(db, e.pick, e.agent);
    }
  }

  lemma AfterNext(run: seq<Event>, k: nat)
    requires k < |run|
    ensures After(run[..k + 1]) == Apply(After(run[..k]), run[k])
  {
    assert run[..k + 1][..k] == run[..k];
  }

  lemma NextEvolves(run: seq<Event>, k: nat)
    requires k < |run|
    ensures Evolves(After(run[..k]), After(run[..k + 1]))
  {
    RunKeeps(run[..k]);
    EventEvolves(After(run[..k]), run[k]);
    AfterNext(run, k);
  }

  lemma {:induction false} Chain(states: seq<Db>, i: nat, k: nat)
    requires i <= k < |states| && forall m | 0 <= m < |states| - 1 :: Evolves(states[m], states[m + 1])
    ensures Evolves(states[i], states[k])
    decreases k
  {
    if i < k {
      Chain(states, i, k - 1);
      EvolvesTrans(states[i], states[k - 1], states[k]);
    }
  }

  function States(run: seq<Event>): seq<Db> {
    seq(|run| + 1, m requires 0 <= m <= |run| => After(run[..m]))
  }

  lemma StatesEvolve(run: seq<Event>, m: nat)
    requires m < |run|
    ensures Evolves(States(run)[m], States(run)[m + 1])
  {
    NextEvolves(run, m);
  }

  /** Nothing is lost and no plan or slot changes between two moments of a run. */
  lemma RunEvolves(run: seq<Event>, i: nat, k: nat)
    requires i <= k <= |run|
    ensures Evolves(After(run[..i]), After(run[..k]))
  {
    var states := States(run);
    forall m | 0 <= m < |states| - 1 ensures Evolves(states[m], states[m + 1]) {
      StatesEvolve(run, m);
    }
    Chain(states, i, k);
  }

  /** Poll k is the same agent's, finds the same job, and comes before the window of its earlier order ends. */
  predicate PollsAgain(run: seq<Event>, i: nat, k: nat) {
    && i < k < |run| && run[i].OnPoll? && run[k].OnPoll?
    && run[k].pick == run[i].pick && run[k].agent == run[i].agent
    && After(run[..k]).OldestOpen(run[k].pick)
    && var first := PollAnswer(After(run[..i]), run[i]);
       first.Run? && run[k].now < first.order.stopAt
  }

  /**
   An agent that was handed a slot and polls the job again before its window ends gets the same order
   exactly when its row is still RUNNING, and is then seen now; with a row that has ended it is sent away.
   */
  lemma SameOrderAgain(run: seq<Event>, i: nat, k: nat)
    requires PollsAgain(run, i, k)
    ensures var first, again := PollAnswer(After(run[..i]), run[i]), PollAnswer(After(run[..k]), run[k]);
      var db, id := After(run[..k]), first.order.spawn;
      && id in db.spawns
      && (if db.spawns[id].status == RUNNING
          then again == first && Apply(db, run[k]).spawns == db.spawns[id := db.spawns[id].(lastSeen := run[k].now)]
          else again == Idle && Apply(db, run[k]) == db)
  {
    var j, agent := run[i].pick, run[i].agent;
    var a, b := After(run[..i]), After(run[..k]);
    RunKeeps(run[..i]);
    RunKeeps(run[..k]);
    PollAnswers(a, j, agent, run[i].now);
    PollAnswers(b, j, agent, run[k].now);
    AfterNext(run, i);
    RunEvolves(run, i + 1, k);
    assert JobEvolves(After(run[..i + 1]), b, j) && SpawnEvolves(After(run[..i + 1]), b, SpawnIdOf(j, agent));
    OwnRow(b, j, agent);
  }
}
