/** The quantity an aggressor can obtain before its limit or one of its own orders, without the 32-bit clamp. */
module Liquidity {
  import opened Types
  import opened RefModel
  import opened BookRep

  predicate Walled(o: Order, q: seq<RefOrder>) {
    exists k :: 0 <= k < |q| && SelfTrade(o, q[k].account)
  }

  function QueueLiquidity(o: Order, q: seq<RefOrder>): nat {
    if q == [] || SelfTrade(o, q[0].account) then 0 else q[0].rem + QueueLiquidity(o, q[1..])
  }

  function SideLiquidity(o: Order, qs: seq<Level>): nat
    decreases |qs|, 0
  {
    if qs == [] || Beyond(o, qs[0].price) then 0 else LevelLiquidity(o, qs[0].queue, qs[1..])
  }

  /** What a queue gives, and what the levels behind it give unless an own order walls them off. */
  function LevelLiquidity(o: Order, q: seq<RefOrder>, rest: seq<Level>): nat
    decreases |rest|, 1
  {
    QueueLiquidity(o, q) + if Walled(o, q) then 0 else SideLiquidity(o, rest)
  }

  lemma LevelStep(o: Order, q: seq<RefOrder>, rest: seq<Level>)
    ensures q == [] ==> LevelLiquidity(o, q, rest) == SideLiquidity(o, rest)
    ensures q != [] && SelfTrade(o, q[0].account) ==> LevelLiquidity(o, q, rest) == 0
    ensures q != [] && !SelfTrade(o, q[0].account) ==>
              LevelLiquidity(o, q, rest) == q[0].rem + LevelLiquidity(o, q[1..], rest)
  {
    if q != [] && !SelfTrade(o, q[0].account) && Walled(o, q) {
      var k :| 0 <= k < |q| && SelfTrade(o, q[k].account);
      assert q[1..][k - 1] == q[k];
    }
  }

  // ----- the clamp never matters

  lemma {:induction false} ClampedIsMin(q: seq<RefOrder>, total: nat)
    requires total <= UINT32_MAX
    ensures ClampedSum(q, total) == Min(total + QueueTotal(q), UINT32_MAX)
  {
    if q != [] {
      ClampedIsMin(q[1..], Min(total + q[0].rem, UINT32_MAX));
      TotalFirst(q);
    }
  }

  lemma TotalFirst(q: seq<RefOrder>)
    requires q != []
    ensures QueueTotal(q) == q[0].rem + QueueTotal(q[1..])
  {
    TotalSplit(q, 0);
    assert RemoveAt(q, 0) == q[1..];
  }

  lemma {:induction false} QueueUpToWall(o: Order, q: seq<RefOrder>)
    ensures QueueTotal(q[..WallIn(o, q)]) == QueueLiquidity(o, q)
    ensures Walled(o, q) <==> WallIn(o, q) < |q|
  {
    if q != [] && !SelfTrade(o, q[0].account) {
      QueueUpToWall(o, q[1..]);
      var k := WallIn(o, q);
      TotalFirst(q[..k]);
      assert q[..k][1..] == q[1..][..k - 1];
    }
  }

  /** The reference's running clamp gives the exact liquidity, clamped once. */
  lemma {:induction false} AvailableIsClamped(o: Order, qs: seq<Level>, total: nat)
    requires total <= UINT32_MAX
    ensures Available(o, qs, total) == Min(total + SideLiquidity(o, qs), UINT32_MAX)
  {
    if qs != [] && !Beyond(o, qs[0].price) {
      var q := qs[0].queue;
      QueueUpToWall(o, q);
      var k := WallIn(o, q);
      ClampedIsMin(q[..k], total);
      if k == |q| {
        AvailableIsClamped(o, qs[1..], ClampedSum(q[..k], total));
      }
    }
  }
}
