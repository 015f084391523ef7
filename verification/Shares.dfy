/** The split of a job's target rate over its slots (rps_for_slot). */
module Shares {
  import opened Sums

  function RpsForSlot(target: nat, agents: int, slot: nat): nat {
    if agents <= 0 then 0
    else target / agents + (if slot < target % agents then 1 else 0)
  }

  function Share(target: nat, agents: int): nat -> nat {
    slot => RpsForSlot(target, agents, slot)
  }

  function Min(a: int, b: int): int {
    if a < b then a else b
  }

  lemma {:induction false} SumClosed(target: nat, agents: int, n: nat)
    requires agents > 0
    ensures SumFirst(Share(target, agents), n) == n * (target / agents) + Min(n, target % agents)
  {
    if n > 0 {
      SumClosed(target, agents, n - 1);
      var base := target / agents;
      assert n * base == (n - 1) * base + base;
    }
  }

  lemma ScaleLe(a: nat, b: nat, k: nat)
    requires a <= b
    ensures a * k <= b * k
  {
    assert (b - a) * k >= 0;
  }

  /** The slices of any claimed prefix stay within the target and the full fleet's add up to it. */
  lemma SharesSum(target: nat, agents: int, n: nat)
    requires agents > 0 && n <= agents
    ensures SumFirst(Share(target, agents), n) <= target
    ensures SumFirst(Share(target, agents), agents) == target
  {
    SumClosed(target, agents, n);
    SumClosed(target, agents, agents);
    ScaleLe(n, agents, target / agents);
  }

  /** A share is zero exactly for the slots past a target smaller than the fleet. */
  lemma ZeroShareIff(target: nat, agents: int, slot: nat)
    requires agents > 0
    ensures RpsForSlot(target, agents, slot) == 0 <==> target < agents && target <= slot
  {
    if target < agents {
      assert target / agents == 0 && target % agents == target;
    } else {
      ScaleLe(1, target / agents, agents);
    }
  }
}
