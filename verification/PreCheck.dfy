/** The fill-or-kill pre-check: a read-only walk over the passive side's lists. */
module PreCheck {
  import opened Types
  import opened RefModel
  import opened OrderIndexing
  import opened BookRep
  import opened SideRep
  import opened Sides
  import opened SlotPools
  import opened HalfBook
  import opened Liquidity

  /** The k-th slot of level i and its successor, as the arrays hold them. */
  lemma WalkStep(side: Side, other: Side, slots: SlotPool, index: OrderIndex, onBids: bool, i: nat, k: nat)
    requires Intact(side, other, slots, index) && Consistent(side, other, slots, index, onBids)
    requires i < side.count && k < |side.chains[i]|
    ensures |side.chains[i]| == |side.queues[i].queue|
    ensures var x, ro := side.chains[i][k], side.queues[i].queue[k];
            && x < slots.ids.Length && x != NULL_IDX
            && slots.accounts[x] == ro.account && slots.qtys[x] == ro.rem && slots.nexts[x] == NextIn(side.chains[i], k)
  {
    assert LevelAt(slots.view, TagOf(onBids), side.State(), i);
    var x := side.chains[i][k];
    assert Node(slots.view, side.chains[i], k);
    assert slots.view[x].account == slots.accounts[x];
  }

  lemma LevelRead(side: Side, other: Side, slots: SlotPool, index: OrderIndex, onBids: bool, i: nat)
    requires Intact(side, other, slots, index) && Consistent(side, other, slots, index, onBids) && i < side.count
    ensures side.prices[i] == side.queues[i].price && side.heads[i] == HeadOf(side.chains[i])
    ensures |side.chains[i]| == |side.queues[i].queue|
    ensures forall k :: 0 <= k < |side.chains[i]| ==> side.chains[i][k] < slots.ids.Length <= NULL_IDX
  {
    assert LevelAt(slots.view, TagOf(onBids), side.State(), i);
    assert side.levels[i].price == side.prices[i];
  }

  /** Walk one level's list; `done` when the answer is known. */
  method WalkLevel(side: Side, other: Side, slots: SlotPool, index: OrderIndex, onBids: bool, o: Order, i: nat,
                   start: nat)
    returns (total: nat, done: bool)
    requires Intact(side, other, slots, index) && Consistent(side, other, slots, index, onBids) && i < side.count
    ensures var all := start + LevelLiquidity(o, side.queues[i].queue, side.queues[i + 1..]);
            if done then total == all || (o.qty <= total <= all)
            else total + SideLiquidity(o, side.queues[i + 1..]) == all
  {
    LevelRead(side, other, slots, index, onBids, i);
    ghost var q, rest, k := side.queues[i].queue, side.queues[i + 1..], 0;
    total, done := start, false;
    var idx := side.heads[i];
    while idx != NULL_IDX
      invariant 0 <= k <= |q| && idx == if k < |q| then side.chains[i][k] else NULL_IDX
      invariant total + LevelLiquidity(o, q[k..], rest) == start + LevelLiquidity(o, q, rest)
      decreases |q| - k
    {
      WalkStep(side, other, slots, index, onBids, i, k);
      LevelStep(o, q[k..], rest);
      assert q[k..][1..] == q[k + 1..];
      if SelfTrade(o, slots.accounts[idx]) {
        return total, true;
      }
      total := total + slots.qtys[idx];
      if total >= o.qty {
        return total, true;
      }
      idx, k := slots.nexts[idx], k + 1;
    }
    LevelStep(o, q[k..], rest);
  }

  /** The pre-check answers "less than the order" exactly when the obtainable quantity is less than the order. */
  method AvailableLiquidity(side: Side, other: Side, slots: SlotPool, index: OrderIndex, onBids: bool, o: Order)
    returns (r: nat)
    requires Intact(side, other, slots, index) && Consistent(side, other, slots, index, onBids)
    ensures r <= 0xFFFF_FFFF
    ensures r < o.qty <==> SideLiquidity(o, side.queues) < o.qty
  {
    var total: nat := 0;
    assert side.queues[0..] == side.queues;
    for i := 0 to side.count
      invariant total + SideLiquidity(o, side.queues[i..]) == SideLiquidity(o, side.queues)
    {
      LevelRead(side, other, slots, index, onBids, i);
      assert side.queues[i..][1..] == side.queues[i + 1..];
      if Beyond(o, side.prices[i]) {
        break;
      }
      var done;
      total, done := WalkLevel(side, other, slots, index, onBids, o, i, total);
      if done {
        return Min(total, UINT32_MAX);
      }
    }
    return Min(total, UINT32_MAX);
  }
}
