/** One side of a book: five parallel level arrays, best price first, shifted as levels come and go. */
module Sides {
  import opened Types
  import opened RefModel
  import opened BookRep
  import opened SideRep
  import LevelSearch

  /** Move n elements within an array, as if through a temporary copy. */
  method MemMove<T>(a: array<T>, dst: nat, src: nat, n: nat)
    requires dst + n <= a.Length && src + n <= a.Length
    modifies a
    ensures forall k :: dst <= k < dst + n ==> a[k] == old(a[src + k - dst])
    ensures forall k :: 0 <= k < dst || dst + n <= k < a.Length ==> a[k] == old(a[k])
  {
    forall k | dst <= k < dst + n {
      a[k] := a[src + k - dst];
    }
  }

  class Side {
    const prices: array<int>
    const qtys: array<nat>
    const counts: array<nat>
    const heads: array<nat>
    const tails: array<nat>
    var count: nat
    /** The live range of the five arrays as records. */
    ghost var levels: seq<LevelRep>
    ghost var chains: seq<Chain>
    ghost var queues: seq<Level>

    ghost predicate Arrays() {
      && prices.Length == qtys.Length == counts.Length == heads.Length == tails.Length
      && qtys != counts && qtys != heads && qtys != tails && counts != heads && counts != tails && heads != tails
    }

    ghost function Row(j: nat): LevelRep
      requires Arrays() && j < prices.Length
      reads prices, qtys, counts, heads, tails
    {
      LevelRep(prices[j], qtys[j], counts[j], heads[j], tails[j])
    }

    /** The records are what the arrays hold. */
    ghost predicate Coupled()
      reads `count, `levels, prices, qtys, counts, heads, tails
    {
      && Arrays()
      && |levels| == count <= prices.Length
      && forall i {:trigger prices[i]} {:trigger qtys[i]} {:trigger counts[i]} {:trigger heads[i]}
                  {:trigger tails[i]} ::
           0 <= i < count ==> levels[i] == LevelRep(prices[i], qtys[i], counts[i], heads[i], tails[i])
    }

    ghost predicate Valid()
      reads this, prices, qtys, counts, heads, tails
    {
      Coupled() && |chains| == |queues| == count
    }

    ghost function State(): SideState
      reads this
    {
      SideState(levels, chains, queues)
    }

    constructor (maxLevels: nat)
      ensures Valid() && prices.Length == maxLevels && State() == SideState([], [], [])
      ensures fresh(prices) && fresh(qtys) && fresh(counts) && fresh(heads) && fresh(tails)
    {
      prices := new int[maxLevels](_ => 0);
      qtys := new nat[maxLevels](_ => 0);
      counts := new nat[maxLevels](_ => 0);
      heads := new nat[maxLevels](_ => 0);
      tails := new nat[maxLevels](_ => 0);
      count := 0;
      levels, chains, queues := [], [], [];
    }

    method FindLevel(p: int) returns (r: int)
      requires Valid()
      ensures -1 <= r < count
      ensures r >= 0 ==> levels[r].price == p
      ensures r < 0 ==> forall i :: 0 <= i < |levels| ==> levels[i].price != p
    {
      r := LevelSearch.VectorSearch(prices, count, p);
      forall i | 0 <= i < count
        ensures prices[..count][i] == levels[i].price
      {
        assert levels[i].price == prices[i];
      }
    }

    /** Open an empty level in front of the first price that does not come before p; -1 when all levels are in use. */
    method InsertLevel(p: int, descending: bool) returns (r: int)
      requires Valid()
      modifies this, prices, qtys, counts, heads, tails
      ensures Valid()
      ensures old(count) == prices.Length ==> r == -1 && State() == old(State())
      ensures old(count) < prices.Length ==>
        && 0 <= r <= old(count) && State() == old(State()).Open(r, p)
        && (forall j :: 0 <= j < r ==> Before(descending, old(levels)[j].price, p))
        && (r < old(count) ==> !Before(descending, old(levels)[r].price, p))
    {
      if count >= prices.Length {
        return -1;
      }
      var pos := 0;
      while pos < count && Before(descending, prices[pos], p)
        invariant 0 <= pos <= count
        invariant forall j :: 0 <= j < pos ==> Before(descending, levels[j].price, p)
      {
        assert levels[pos].price == prices[pos];
        pos := pos + 1;
      }
      assert pos < count ==> levels[pos].price == prices[pos];
      OpenAt(pos, p);
      r := pos;
    }

    method OpenAt(pos: nat, p: int)
      requires Valid() && pos <= count < prices.Length
      modifies this, prices, qtys, counts, heads, tails
      ensures Valid() && State() == old(State()).Open(pos, p)
    {
      ghost var s := State().Open(pos, p);
      ShiftUp(pos);
      label shifted:
      prices[pos], qtys[pos], counts[pos], heads[pos], tails[pos] := p, 0, 0, NULL_IDX, NULL_IDX;
      count := count + 1;
      levels, chains, queues := s.reps, s.chains, s.qs;
      forall j | 0 <= j < count
        ensures levels[j] == Row(j)
      {
        assert j != pos ==> Row(j) == old@shifted(Row(j));
      }
    }

    /** Make room at position pos in all five arrays. */
    method ShiftUp(pos: nat)
      requires Valid() && pos <= count < prices.Length
      modifies prices, qtys, counts, heads, tails
      ensures forall j :: 0 <= j < pos ==> Row(j) == levels[j]
      ensures forall j :: pos < j <= count ==> Row(j) == levels[j - 1]
    {
      var n := count - pos;
      MemMove(prices, pos + 1, pos, n);
      MemMove(qtys, pos + 1, pos, n);
      MemMove(counts, pos + 1, pos, n);
      MemMove(heads, pos + 1, pos, n);
      MemMove(tails, pos + 1, pos, n);
    }

    /** Close the gap at position idx in all five arrays. */
    method ShiftDown(idx: nat)
      requires Valid() && idx < count
      modifies prices, qtys, counts, heads, tails
      ensures forall j :: 0 <= j < idx ==> Row(j) == levels[j]
      ensures forall j :: idx <= j < count - 1 ==> Row(j) == levels[j + 1]
    {
      var n := count - idx - 1;
      MemMove(prices, idx, idx + 1, n);
      MemMove(qtys, idx, idx + 1, n);
      MemMove(counts, idx, idx + 1, n);
      MemMove(heads, idx, idx + 1, n);
      MemMove(tails, idx, idx + 1, n);
    }

    method RemoveLevel(idx: nat)
      requires Valid() && idx < count
      modifies this, prices, qtys, counts, heads, tails
      ensures Valid() && State() == old(State()).Close(idx)
    {
      ghost var s := State().Close(idx);
      ShiftDown(idx);
      count := count - 1;
      levels, chains, queues := s.reps, s.chains, s.qs;
      assert forall j :: 0 <= j < count ==> levels[j] == Row(j);
    }

    // ----- single writes

    method SetHead(i: nat, v: nat)
      requires Coupled() && i < count
      modifies heads, `levels
      ensures Coupled() && levels == old(levels)[i := old(levels)[i].(head := v)]
    {
      heads[i] := v;
      levels := levels[i := levels[i].(head := v)];
    }

    method SetTail(i: nat, v: nat)
      requires Coupled() && i < count
      modifies tails, `levels
      ensures Coupled() && levels == old(levels)[i := old(levels)[i].(tail := v)]
    {
      tails[i] := v;
      levels := levels[i := levels[i].(tail := v)];
    }

    method SetEnds(i: nat, head: nat, tail: nat)
      requires Coupled() && i < count
      modifies heads, tails, `levels
      ensures Coupled() && levels == old(levels)[i := old(levels)[i].(head := head, tail := tail)]
    {
      heads[i], tails[i] := head, tail;
      levels := levels[i := levels[i].(head := head, tail := tail)];
    }

    /** Change both aggregates of a level; the quantity counter wraps at 32 bits. */
    method Tally(i: nat, change: int, orders: nat)
      requires Coupled() && i < count
      modifies qtys, counts, `levels
      ensures Coupled()
      ensures var rep := old(levels)[i];
              levels == old(levels)[i := rep.(total := (rep.total + change) % U32, orders := orders)]
    {
      qtys[i], counts[i] := (qtys[i] + change) % U32, orders;
      levels := levels[i := levels[i].(total := qtys[i], orders := orders)];
    }

    /** Add to a level's 32-bit quantity counter, wrapping. */
    method AddQty(i: nat, change: int)
      requires Coupled() && i < count
      modifies qtys, `levels
      ensures Coupled() && levels == old(levels)[i := old(levels)[i].(total := (old(levels)[i].total + change) % U32)]
    {
      qtys[i] := (qtys[i] + change) % U32;
      levels := levels[i := levels[i].(total := qtys[i])];
    }

    method SetCount(i: nat, v: nat)
      requires Coupled() && i < count
      modifies counts, `levels
      ensures Coupled() && levels == old(levels)[i := old(levels)[i].(orders := v)]
    {
      counts[i] := v;
      levels := levels[i := levels[i].(orders := v)];
    }
  }
}
