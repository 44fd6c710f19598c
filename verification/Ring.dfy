/** Positions on a ring of `cap` cells, for both queues. */
module Ring {

  /** The cell of position k: positions go round the ring. */
  function Cell(cap: nat, k: nat): (c: nat)
    requires cap > 0
    ensures c < cap
  {
    if k < cap then k else Cell(cap, k - cap)
  }

  /** Two distinct positions of one window of the ring's width have distinct cells. */
  lemma {:induction false} Apart(cap: nat, base: nat, a: nat, b: nat)
    requires cap > 0 && base <= a < base + cap && base <= b < base + cap && a != b
    ensures Cell(cap, a) != Cell(cap, b)
    decreases a
  {
    if a >= cap && b >= cap {
      Apart(cap, if base >= cap then base - cap else 0, a - cap, b - cap);
    }
  }

  // ----- the mask

  function Pow2(n: nat): (p: nat)
    ensures p > 0
  {
    if n == 0 then 1 else 2 * Pow2(n - 1)
  }

  /** Bitwise and. */
  function BitAnd(a: nat, b: nat): nat {
    if a == 0 || b == 0 then 0 else (if a % 2 == 1 && b % 2 == 1 then 1 else 0) + 2 * BitAnd(a / 2, b / 2)
  }

  /** In a ring twice as large, a position keeps its last bit and is halved. */
  lemma {:induction false} CellHalves(c: nat, k: nat)
    requires c > 0
    ensures Cell(2 * c, k) == k % 2 + 2 * Cell(c, k / 2)
    decreases k
  {
    if k >= 2 * c {
      CellHalves(c, k - 2 * c);
      assert (k - 2 * c) / 2 == k / 2 - c;
    }
  }

  /** For a capacity that is a power of two, masking a position with the capacity less one gives its cell. */
  lemma {:induction false} MaskIsCell(n: nat, k: nat)
    ensures BitAnd(k, Pow2(n) - 1) == Cell(Pow2(n), k)
    decreases n, k
  {
    if n == 0 {
      CellOfOne(k);
    } else {
      CellHalves(Pow2(n - 1), k);
      MaskIsCell(n - 1, k / 2);
      var m := Pow2(n) - 1;
      assert m % 2 == 1 && m / 2 == Pow2(n - 1) - 1;
    }
  }

  lemma {:induction false} CellOfOne(k: nat)
    ensures Cell(1, k) == 0
  {
    if k > 0 {
      CellOfOne(k - 1);
    }
  }

  /** Advancing a cell by one, as both queues do, is the cell of the next position. */
  lemma {:induction false} CellNext(cap: nat, k: nat)
    requires cap > 1
    ensures Cell(cap, Cell(cap, k) + 1) == Cell(cap, k + 1)
    decreases k
  {
    if k >= cap {
      CellNext(cap, k - cap);
    }
  }

  /** Among the positions from `base` on, up to a ring away, only one has a given cell. */
  lemma CellFinds(cap: nat, base: nat, a: nat, b: nat)
    requires cap > 1 && base <= a < base + cap && base <= b <= base + cap
    ensures Cell(cap, a) == Cell(cap, b) <==> a == b || (a == base && b == base + cap)
  {
    if b == base + cap {
      if a != base {
        Apart(cap, base, base, a);
      }
    } else if a != b {
      Apart(cap, base, a, b);
    }
  }
}
