/**
 The representation of a book as values: the slot pool and the level arrays of one side, seen as sequences of
 records, and the invariant that ties them to the reference queues. The lemmas say what each group of array
 writes of the program does to that invariant.
 */
module BookRep {
  import opened Types
  import opened RefModel

  /** The list a slot belongs to. */
  datatype Tag = Free | OnBids | OnAsks

  datatype Slot = Slot(id: nat, qty: nat, next: nat, prev: nat, price: int, account: nat, tag: Tag)

  datatype LevelRep = LevelRep(price: int, total: nat, orders: nat, head: nat, tail: nat)

  type Pool = seq<Slot>

  type Chain = seq<nat>

  function TagOf(onBids: bool): Tag {
    if onBids then OnBids else OnAsks
  }

  ghost predicate Distinct<T>(s: seq<T>) {
    forall i, j :: 0 <= i < j < |s| ==> s[i] != s[j]
  }

  // ----- one level

  function HeadOf(chain: Chain): nat {
    if chain == [] then NULL_IDX else chain[0]
  }

  function TailOf(chain: Chain): nat {
    if chain == [] then NULL_IDX else chain[|chain| - 1]
  }

  function NextIn(chain: Chain, k: nat): nat {
    if k + 1 < |chain| then chain[k + 1] else NULL_IDX
  }

  function PrevIn(chain: Chain, k: nat): nat
    requires k < |chain|
  {
    if k == 0 then NULL_IDX else chain[k - 1]
  }

  /** head, tail, next and prev encode exactly the acyclic list `chain`. */
  ghost predicate Links(p: Pool, chain: Chain, head: nat, tail: nat) {
    && head == HeadOf(chain)
    && tail == TailOf(chain)
    && Distinct(chain)
    && (forall k :: 0 <= k < |chain| ==> chain[k] < |p|)
    && (forall k {:trigger Node(p, chain, k)} :: 0 <= k < |chain| ==> Node(p, chain, k))
  }

  /** The k-th slot of the chain points to its neighbours in the chain. */
  ghost predicate Node(p: Pool, chain: Chain, k: nat)
    requires k < |chain| && chain[k] < |p|
  {
    p[chain[k]].next == NextIn(chain, k) && p[chain[k]].prev == PrevIn(chain, k)
  }

  predicate Carries(s: Slot, tag: Tag, price: int, ro: RefOrder) {
    s.id == ro.id && s.qty == ro.rem && s.account == ro.account && s.price == price && s.tag == tag
  }

  /** The slots of the chain carry the orders of the queue, in order. */
  ghost predicate Content(p: Pool, tag: Tag, chain: Chain, lvl: Level) {
    && |chain| == |lvl.queue|
    && (forall k :: 0 <= k < |chain| ==> chain[k] < |p| && Carries(p[chain[k]], tag, lvl.price, lvl.queue[k]))
  }

  /** The per-level aggregates: the order count, and the quantity sum modulo 2^32. */
  predicate Totals(rep: LevelRep, queue: seq<RefOrder>) {
    rep.orders == |queue| && rep.total == QueueTotal(queue) % U32
  }

  ghost predicate LevelOk(p: Pool, tag: Tag, rep: LevelRep, chain: Chain, lvl: Level) {
    && rep.price == lvl.price
    && Links(p, chain, rep.head, rep.tail)
    && Content(p, tag, chain, lvl)
    && Totals(rep, lvl.queue)
  }

  lemma LevelFrame(p: Pool, p': Pool, tag: Tag, rep: LevelRep, chain: Chain, lvl: Level)
    requires LevelOk(p, tag, rep, chain, lvl) && |p'| == |p|
    requires forall t :: t in chain ==> t < |p| && p'[t] == p[t]
    ensures LevelOk(p', tag, rep, chain, lvl)
  {
    assert forall k :: 0 <= k < |chain| ==> chain[k] in chain;
    assert forall k {:trigger Node(p', chain, k)} :: 0 <= k < |chain| && Node(p, chain, k) ==> Node(p', chain, k);
  }

  // ----- linking and unlinking

  /** The writes that put slot s behind the tail of a list. */
  function Append(p: Pool, head: nat, tail: nat, s: nat): Pool
    requires s < |p| && (head == NULL_IDX || tail < |p|)
  {
    var p1 := p[s := p[s].(next := NULL_IDX, prev := tail)];
    if head == NULL_IDX then p1 else p1[tail := p1[tail].(next := s)]
  }

  lemma AppendLinks(p: Pool, chain: Chain, head: nat, tail: nat, s: nat)
    requires |p| <= NULL_IDX && s < |p| && s !in chain && Links(p, chain, head, tail)
    ensures Links(Append(p, head, tail, s), chain + [s], if head == NULL_IDX then s else head, s)
  {
    var c, p' := chain + [s], Append(p, head, tail, s);
    forall k | 0 <= k < |c|
      ensures Node(p', c, k)
    {
      if k < |chain| {
        assert chain[k] != s && Node(p, chain, k);
      }
    }
  }

  /** The writes that take slot s out of its list. */
  function Unlink(p: Pool, s: nat): Pool
    requires s < |p| && (p[s].prev == NULL_IDX || p[s].prev < |p|) && (p[s].next == NULL_IDX || p[s].next < |p|)
  {
    var x := p[s];
    var p1 := if x.prev == NULL_IDX then p else p[x.prev := p[x.prev].(next := x.next)];
    if x.next == NULL_IDX then p1 else p1[x.next := p1[x.next].(prev := x.prev)]
  }

  lemma UnlinkDefined(p: Pool, chain: Chain, head: nat, tail: nat, k: nat)
    requires |p| <= NULL_IDX && k < |chain| && Links(p, chain, head, tail)
    ensures var s := chain[k];
            && s < |p|
            && (p[s].prev == NULL_IDX || (p[s].prev < |p| && p[s].prev in chain && p[s].prev != s))
            && (p[s].next == NULL_IDX || (p[s].next < |p| && p[s].next in chain && p[s].next != s))
            && (p[s].prev == NULL_IDX <==> k == 0)
            && (p[s].next == NULL_IDX <==> k == |chain| - 1)
  {
    assert Node(p, chain, k);
    if k > 0 {
      assert chain[k - 1] in chain;
    }
  }

  /** After unlinking chain[k], its neighbours point past it and every other link is as before. */
  lemma UnlinkAt(p: Pool, chain: Chain, head: nat, tail: nat, k: nat, j: nat)
    requires |p| <= NULL_IDX && k < |chain| && j < |chain| && j != k && Links(p, chain, head, tail)
    requires Unlink.requires(p, chain[k])
    ensures chain[j] < |p|
    ensures var y := Unlink(p, chain[k])[chain[j]];
            && y.next == (if j + 1 == k then NextIn(chain, k) else NextIn(chain, j))
            && y.prev == (if j == k + 1 then PrevIn(chain, k) else PrevIn(chain, j))
            && y == p[chain[j]].(next := y.next, prev := y.prev)
  {
    assert Node(p, chain, k) && Node(p, chain, j);
  }

  lemma RemoveDistinct(chain: Chain, k: nat)
    requires k < |chain| && Distinct(chain)
    ensures Distinct(RemoveAt(chain, k)) && chain[k] !in RemoveAt(chain, k)
  {
  }

  lemma UnlinkNode(p: Pool, chain: Chain, head: nat, tail: nat, k: nat, j: nat)
    requires |p| <= NULL_IDX && k < |chain| && j < |chain| - 1 && Links(p, chain, head, tail)
    requires Unlink.requires(p, chain[k])
    ensures RemoveAt(chain, k)[j] < |p| && Node(Unlink(p, chain[k]), RemoveAt(chain, k), j)
  {
    UnlinkAt(p, chain, head, tail, k, if j < k then j else j + 1);
  }

  lemma UnlinkEnds(p: Pool, chain: Chain, head: nat, tail: nat, k: nat)
    requires |p| <= NULL_IDX && k < |chain| && Links(p, chain, head, tail)
    ensures var x := p[chain[k]];
            && HeadOf(RemoveAt(chain, k)) == (if x.prev == NULL_IDX then x.next else head)
            && TailOf(RemoveAt(chain, k)) == (if x.next == NULL_IDX then x.prev else tail)
  {
    assert Node(p, chain, k);
  }

  lemma UnlinkLinks(p: Pool, chain: Chain, head: nat, tail: nat, k: nat)
    requires |p| <= NULL_IDX && k < |chain| && Links(p, chain, head, tail)
    requires Unlink.requires(p, chain[k])
    ensures var x := p[chain[k]];
            Links(Unlink(p, chain[k]), RemoveAt(chain, k),
                  if x.prev == NULL_IDX then x.next else head,
                  if x.next == NULL_IDX then x.prev else tail)
  {
    var c, p' := RemoveAt(chain, k), Unlink(p, chain[k]);
    forall j | 0 <= j < |c|
      ensures c[j] < |p'| && Node(p', c, j)
    {
      UnlinkNode(p, chain, head, tail, k, j);
    }
    RemoveDistinct(chain, k);
    UnlinkEnds(p, chain, head, tail, k);
  }

  // ----- aggregates

  lemma {:induction false} TotalSplit(q: seq<RefOrder>, k: nat)
    requires k < |q|
    ensures QueueTotal(q) == QueueTotal(RemoveAt(q, k)) + q[k].rem
  {
    if k == |q| - 1 {
      assert RemoveAt(q, k) == q[..k];
    } else {
      var r, n := RemoveAt(q, k), |q| - 1;
      TotalSplit(q[..n], k);
      assert r[..|r| - 1] == RemoveAt(q[..n], k);
    }
  }

  lemma TotalUpdate(q: seq<RefOrder>, k: nat, ro: RefOrder)
    requires k < |q|
    ensures QueueTotal(q[k := ro]) == QueueTotal(q) - q[k].rem + ro.rem
  {
    TotalSplit(q, k);
    TotalSplit(q[k := ro], k);
    assert RemoveAt(q[k := ro], k) == RemoveAt(q, k);
  }

  lemma TotalAppend(q: seq<RefOrder>, ro: RefOrder)
    ensures QueueTotal(q + [ro]) == QueueTotal(q) + ro.rem
  {
    assert (q + [ro])[..|q|] == q;
  }
}
