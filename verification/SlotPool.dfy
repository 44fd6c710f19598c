/** The slot pool: parallel arrays of order slots, with a free list threaded through an array of its own. */
module SlotPools {
  import opened Types
  import opened RefModel
  import opened BookRep

  /** The free list starting at head, linked through nexts, is exactly `free`. */
  ghost predicate FreeList(nexts: seq<nat>, head: nat, free: Chain) {
    && head == HeadOf(free)
    && Distinct(free)
    && (forall k :: 0 <= k < |free| ==> free[k] < |nexts|)
    && (forall k {:trigger FreeLink(nexts, free, k)} :: 0 <= k < |free| ==> FreeLink(nexts, free, k))
  }

  ghost predicate FreeLink(nexts: seq<nat>, free: Chain, k: nat)
    requires k < |free| && free[k] < |nexts|
  {
    nexts[free[k]] == NextIn(free, k)
  }

  lemma FreshList(nexts: seq<nat>, free: Chain)
    requires |free| == |nexts| > 0 && forall k :: 0 <= k < |free| ==> free[k] == k
    requires forall k :: 0 <= k < |nexts| ==> nexts[k] == if k + 1 < |nexts| then k + 1 else NULL_IDX
    ensures FreeList(nexts, 0, free) && forall t :: 0 <= t < |free| ==> t in free
  {
    forall k | 0 <= k < |free|
      ensures FreeLink(nexts, free, k) && k in free
    {
      assert free[k] == k;
    }
  }

  lemma PopFree(nexts: seq<nat>, head: nat, free: Chain)
    requires FreeList(nexts, head, free) && free != []
    ensures FreeList(nexts, nexts[head], free[1..])
  {
    assert FreeLink(nexts, free, 0);
    forall k | 0 <= k < |free| - 1
      ensures FreeLink(nexts, free[1..], k)
    {
      assert FreeLink(nexts, free, k + 1);
    }
  }

  lemma PushFree(nexts: seq<nat>, head: nat, free: Chain, x: nat)
    requires FreeList(nexts, head, free) && x < |nexts| && x !in free
    ensures FreeList(nexts[x := head], x, [x] + free)
  {
    var nexts', free' := nexts[x := head], [x] + free;
    forall k | 0 <= k < |free'|
      ensures FreeLink(nexts', free', k)
    {
      if k > 0 {
        assert FreeLink(nexts, free, k - 1) && free[k - 1] != x;
      }
    }
  }

  lemma {:induction false} DistinctBound(s: Chain, n: nat)
    requires Distinct(s) && forall k :: 0 <= k < |s| ==> s[k] < n
    ensures |s| <= n
  {
    if s != [] {
      assert s[0] < n;
      if n - 1 in s {
        var k :| 0 <= k < |s| && s[k] == n - 1;
        DistinctBound(RemoveAt(s, k), n - 1);
      } else {
        DistinctBound(s, n - 1);
      }
    }
  }

  class SlotPool {
    const ids: array<nat>
    const qtys: array<nat>
    const nexts: array<nat>
    const prevs: array<nat>
    const freeNexts: array<nat>
    const prices: array<int>
    const accounts: array<nat>
    var freeHead: nat
    var used: nat
    /** The slot arrays as records, each with its tag: the list its slot belongs to. */
    ghost var view: Pool
    ghost var tags: seq<Tag>
    ghost var free: Chain

    ghost predicate Arrays() {
      && ids.Length == qtys.Length == nexts.Length == prevs.Length == freeNexts.Length
      && ids.Length == prices.Length == accounts.Length
      && ids.Length <= NULL_IDX
      && ids != qtys && ids != nexts && ids != prevs && ids != freeNexts && ids != accounts
      && qtys != nexts && qtys != prevs && qtys != freeNexts && qtys != accounts
      && nexts != prevs && nexts != freeNexts && nexts != accounts
      && prevs != freeNexts && prevs != accounts && freeNexts != accounts
    }

    /** The records are what the arrays and the tags hold. */
    ghost predicate Shaped()
      reads `view, `tags, ids, qtys, nexts, prevs, prices, accounts
    {
      && Arrays()
      && |view| == |tags| == ids.Length
      && forall t {:trigger ids[t]} {:trigger qtys[t]} {:trigger nexts[t]} {:trigger prevs[t]} {:trigger prices[t]}
                {:trigger accounts[t]} {:trigger tags[t]} ::
           0 <= t < |view| ==> view[t] == Slot(ids[t], qtys[t], nexts[t], prevs[t], prices[t], accounts[t], tags[t])
    }

    /** The free list holds exactly the slots tagged Free, and `used` counts the others. */
    ghost predicate FreeOk()
      reads `tags, `free, `freeHead, `used, freeNexts
    {
      && Arrays() && |tags| == ids.Length
      && FreeList(freeNexts[..], freeHead, free)
      && used + |free| == ids.Length
      && (forall t :: 0 <= t < |tags| ==> (tags[t] == Free <==> t in free))
    }

    constructor (maxOrders: nat)
      requires 0 < maxOrders <= NULL_IDX
      ensures Shaped() && FreeOk() && ids.Length == maxOrders && used == 0
      ensures fresh(ids) && fresh(qtys) && fresh(nexts) && fresh(prevs) && fresh(freeNexts) && fresh(prices)
      ensures fresh(accounts)
      ensures forall t :: 0 <= t < maxOrders ==> view[t].tag == Free
    {
      ids := new nat[maxOrders](_ => 0);
      qtys := new nat[maxOrders](_ => 0);
      nexts := new nat[maxOrders](_ => 0);
      prevs := new nat[maxOrders](_ => 0);
      freeNexts := new nat[maxOrders](_ => 0);
      prices := new int[maxOrders](_ => 0);
      accounts := new nat[maxOrders](_ => 0);
      new;
      view := seq(maxOrders, _ => Slot(0, 0, 0, 0, 0, 0, Free));
      tags := seq(maxOrders, _ => Free);
      Init();
    }

    /** Chain all slots into the free list in index order. */
    method Init()
      requires Arrays() && 0 < ids.Length == |tags| && forall t :: 0 <= t < |tags| ==> tags[t] == Free
      modifies `freeHead, `used, `free, freeNexts
      ensures FreeOk() && used == 0
    {
      var n := ids.Length;
      for i := 0 to n - 1
        invariant forall j :: 0 <= j < i ==> freeNexts[j] == j + 1
      {
        freeNexts[i] := i + 1;
      }
      freeNexts[n - 1] := NULL_IDX;
      freeHead := 0;
      used := 0;
      free := seq(n, i => i);
      FreshList(freeNexts[..], free);
    }

    /** Take the first free slot; the slot is tagged for the list it is about to join. */
    method Alloc(ghost tag: Tag) returns (idx: nat)
      requires Shaped() && FreeOk() && tag != Free
      modifies this
      ensures Shaped() && FreeOk()
      ensures old(used) == ids.Length ==> idx == NULL_IDX && view == old(view) && used == old(used)
      ensures old(used) < ids.Length ==>
        && idx < ids.Length && used == old(used) + 1 && old(view)[idx].tag == Free
        && view == old(view)[idx := old(view)[idx].(tag := tag)]
    {
      if freeHead == NULL_IDX {
        return NULL_IDX;
      }
      idx := freeHead;
      assert free[0] == idx && idx in free && tags[idx] == Free;
      PopFree(freeNexts[..], freeHead, free);
      freeHead := freeNexts[idx];
      used := used + 1;
      view, tags := view[idx := view[idx].(tag := tag)], tags[idx := tag];
      free := free[1..];
    }

    method FreeSlot(idx: nat)
      requires Shaped() && FreeOk() && idx < ids.Length && view[idx].tag != Free
      modifies this, freeNexts
      ensures Shaped() && FreeOk() && used == old(used) - 1 && view == old(view)[idx := old(view)[idx].(tag := Free)]
    {
      assert tags[idx] != Free;
      PushFree(freeNexts[..], freeHead, free, idx);
      ghost var fn := freeNexts[..];
      freeNexts[idx] := freeHead;
      assert freeNexts[..] == fn[idx := freeHead];
      DistinctBound([idx] + free, ids.Length);
      freeHead := idx;
      used := used - 1;
      view, tags := view[idx := view[idx].(tag := Free)], tags[idx := Free];
      free := [idx] + free;
    }

    // ----- single writes

    method SetNext(i: nat, v: nat)
      requires Shaped() && i < ids.Length
      modifies nexts, `view
      ensures Shaped() && view == old(view)[i := old(view)[i].(next := v)]
    {
      nexts[i] := v;
      view := view[i := view[i].(next := v)];
    }

    method SetPrev(i: nat, v: nat)
      requires Shaped() && i < ids.Length
      modifies prevs, `view
      ensures Shaped() && view == old(view)[i := old(view)[i].(prev := v)]
    {
      prevs[i] := v;
      view := view[i := view[i].(prev := v)];
    }

    method SetLinks(i: nat, next: nat, prev: nat)
      requires Shaped() && i < ids.Length
      modifies nexts, prevs, `view
      ensures Shaped() && view == old(view)[i := old(view)[i].(next := next, prev := prev)]
    {
      nexts[i], prevs[i] := next, prev;
      view := view[i := view[i].(next := next, prev := prev)];
    }

    method SetQty(i: nat, v: nat)
      requires Shaped() && i < ids.Length
      modifies qtys, `view
      ensures Shaped() && view == old(view)[i := old(view)[i].(qty := v)]
    {
      qtys[i] := v;
      view := view[i := view[i].(qty := v)];
    }

    /** Write the order data of a slot that is about to be linked. */
    method SetData(i: nat, id: nat, account: nat, qty: nat, price: int)
      requires Shaped() && i < ids.Length
      modifies ids, accounts, qtys, nexts, prices, `view
      ensures Shaped()
      ensures var s := old(view)[i];
              view == old(view)[i := s.(id := id, account := account, qty := qty, next := NULL_IDX, price := price)]
    {
      ids[i], accounts[i], qtys[i], nexts[i], prices[i] := id, account, qty, NULL_IDX, price;
      view := view[i := view[i].(id := id, account := account, qty := qty, next := NULL_IDX, price := price)];
    }
  }
}
