/** The four ways a book changes a queue: enlist a new order, delist one, change a quantity, requeue. */
module BookOps {
  import opened Types
  import opened RefModel
  import opened OrderIndexing
  import opened BookRep
  import opened SideRep

  lemma ModAdd(a: int, b: int)
    ensures (a % U32 + b) % U32 == (a + b) % U32
  {
  }

  /** At most slot x changed its tag or its id. */
  ghost predicate TagsBut(p: Pool, p': Pool, x: nat) {
    |p'| == |p| && forall t :: 0 <= t < |p| && t != x ==> p'[t].tag == p[t].tag && p'[t].id == p[t].id
  }

  // ----- enlist

  function Enlisted(p: Pool, rep: LevelRep, x: nat, data: Slot): Pool
    requires x < |p| && (rep.head == NULL_IDX || rep.tail < |p|)
  {
    Append(p[x := data], rep.head, rep.tail, x)
  }

  function EnlistRep(rep: LevelRep, x: nat, qty: nat): LevelRep {
    rep.(total := (rep.total + qty) % U32, orders := rep.orders + 1,
    head := if rep.head == NULL_IDX then x else rep.head, tail := x)
  }

  lemma EnlistLevel(p: Pool, tag: Tag, rep: LevelRep, chain: Chain, lvl: Level, x: nat, data: Slot, ro: RefOrder)
    requires |p| <= NULL_IDX && x < |p| && p[x].tag != tag && LevelOk(p, tag, rep, chain, lvl)
    requires Carries(data, tag, lvl.price, ro)
    ensures rep.head == NULL_IDX || rep.tail < |p|
    ensures LevelOk(Enlisted(p, rep, x, data), tag, EnlistRep(rep, x, ro.rem), chain + [x],
                    lvl.(queue := lvl.queue + [ro]))
    ensures Touches(p, Enlisted(p, rep, x, data), chain, x) && TagsBut(p, Enlisted(p, rep, x, data), x)
    ensures Carries(Enlisted(p, rep, x, data)[x], tag, lvl.price, ro)
  {
    var p1 := p[x := data];
    assert x !in chain;
    LevelFrame(p, p1, tag, rep, chain, lvl);
    AppendLinks(p1, chain, rep.head, rep.tail, x);
    TotalAppend(lvl.queue, ro);
    ModAdd(QueueTotal(lvl.queue), ro.rem);
  }

  lemma EnlistOk(p: Pool, tag: Tag, s: SideState, i: nat, x: nat, data: Slot, ro: RefOrder)
    requires |p| <= NULL_IDX && SideOk(p, tag, s) && i < |s.qs| && x < |p| && p[x].tag != tag
    requires Carries(data, tag, s.qs[i].price, ro)
    ensures s.reps[i].head == NULL_IDX || s.reps[i].tail < |p|
    ensures var p' := Enlisted(p, s.reps[i], x, data);
            && SideOk(p', tag, s.Put(i, EnlistRep(s.reps[i], x, ro.rem), s.chains[i] + [x],
                                     s.qs[i].(queue := s.qs[i].queue + [ro])))
            && Touches(p, p', s.chains[i], x) && TagsBut(p, p', x) && Carries(p'[x], tag, s.qs[i].price, ro)
  {
    assert LevelAt(p, tag, s, i);
    EnlistLevel(p, tag, s.reps[i], s.chains[i], s.qs[i], x, data, ro);
    SideUpdate(p, Enlisted(p, s.reps[i], x, data), tag, s, i, x, EnlistRep(s.reps[i], x, ro.rem),
               s.chains[i] + [x], s.qs[i].(queue := s.qs[i].queue + [ro]));
  }

  // ----- unlinking, used by delist and requeue

  function UnlinkRep(rep: LevelRep, x: Slot): LevelRep {
    rep.(head := if x.prev == NULL_IDX then x.next else rep.head,
    tail := if x.next == NULL_IDX then x.prev else rep.tail)
  }

  lemma UnlinkLevel(p: Pool, tag: Tag, rep: LevelRep, chain: Chain, lvl: Level, k: nat)
    requires |p| <= NULL_IDX && k < |chain| && LevelOk(p, tag, rep, chain, lvl)
    ensures Unlink.requires(p, chain[k])
    ensures var rep', c, p' := UnlinkRep(rep, p[chain[k]]), RemoveAt(chain, k), Unlink(p, chain[k]);
            && chain[k] !in c
            && Links(p', c, rep'.head, rep'.tail)
            && Content(p', tag, c, lvl.(queue := RemoveAt(lvl.queue, k)))
            && Touches(p, p', chain, chain[k])
            && SameTags(p, p')
            && p'[chain[k]] == p[chain[k]]
  {
    UnlinkDefined(p, chain, rep.head, rep.tail, k);
    UnlinkLinks(p, chain, rep.head, rep.tail, k);
    RemoveDistinct(chain, k);
    var c, p' := RemoveAt(chain, k), Unlink(p, chain[k]);
    forall j | 0 <= j < |c|
      ensures c[j] < |p'| && Carries(p'[c[j]], tag, lvl.price, RemoveAt(lvl.queue, k)[j])
    {
      UnlinkAt(p, chain, rep.head, rep.tail, k, if j < k then j else j + 1);
    }
  }

  // ----- delist

  function Delisted(p: Pool, x: nat): Pool
    requires Unlink.requires(p, x)
  {
    var p1 := Unlink(p, x);
    p1[x := p1[x].(tag := Free)]
  }

  function DelistRep(rep: LevelRep, x: Slot): LevelRep
    requires rep.orders > 0
  {
    UnlinkRep(rep, x).(total := (rep.total - x.qty) % U32, orders := rep.orders - 1)
  }

  lemma DelistTotals(rep: LevelRep, slot: Slot, q: seq<RefOrder>, k: nat)
    requires Totals(rep, q) && k < |q| && slot.qty == q[k].rem
    ensures Totals(DelistRep(rep, slot), RemoveAt(q, k))
  {
    TotalSplit(q, k);
    ModAdd(QueueTotal(q), 0 - q[k].rem);
  }

  lemma DelistLevel(p: Pool, tag: Tag, rep: LevelRep, chain: Chain, lvl: Level, k: nat)
    requires |p| <= NULL_IDX && k < |chain| && tag != Free && LevelOk(p, tag, rep, chain, lvl)
    ensures Unlink.requires(p, chain[k]) && rep.orders > 0
    ensures var p' := Delisted(p, chain[k]);
            && LevelOk(p', tag, DelistRep(rep, p[chain[k]]), RemoveAt(chain, k), lvl.(queue := RemoveAt(lvl.queue, k)))
            && Touches(p, p', chain, chain[k]) && TagsBut(p, p', chain[k]) && p'[chain[k]].tag == Free
  {
    UnlinkLevel(p, tag, rep, chain, lvl, k);
    DelistTotals(rep, p[chain[k]], lvl.queue, k);
    var x, p1, p' := chain[k], Unlink(p, chain[k]), Delisted(p, chain[k]);
    var c, rep' := RemoveAt(chain, k), DelistRep(rep, p[chain[k]]);
    LevelFrame(p1, p', tag, rep', c, lvl.(queue := RemoveAt(lvl.queue, k)));
  }

  lemma DelistOk(p: Pool, tag: Tag, s: SideState, i: nat, k: nat)
    requires |p| <= NULL_IDX && tag != Free && SideOk(p, tag, s) && i < |s.qs| && k < |s.chains[i]|
    ensures Unlink.requires(p, s.chains[i][k]) && s.reps[i].orders == |s.qs[i].queue| == |s.chains[i]|
    ensures var x := s.chains[i][k]; var p' := Delisted(p, x);
            && SideOk(p', tag, s.Put(i, DelistRep(s.reps[i], p[x]), RemoveAt(s.chains[i], k),
                                     s.qs[i].(queue := RemoveAt(s.qs[i].queue, k))))
            && Touches(p, p', s.chains[i], x) && TagsBut(p, p', x) && p'[x].tag == Free
  {
    assert LevelAt(p, tag, s, i);
    DelistLevel(p, tag, s.reps[i], s.chains[i], s.qs[i], k);
    var x := s.chains[i][k];
    RemoveKeeps(s.chains[i], k);
    SideUpdate(p, Delisted(p, x), tag, s, i, x, DelistRep(s.reps[i], p[x]), RemoveAt(s.chains[i], k),
               s.qs[i].(queue := RemoveAt(s.qs[i].queue, k)));
  }

  lemma RemoveKeeps(chain: Chain, k: nat)
    requires k < |chain|
    ensures forall t :: t in chain && t != chain[k] ==> t in RemoveAt(chain, k)
  {
    forall t | t in chain && t != chain[k]
      ensures t in RemoveAt(chain, k)
    {
      var j :| 0 <= j < |chain| && chain[j] == t;
      assert RemoveAt(chain, k)[if j < k then j else j - 1] == t;
    }
  }

  // ----- change a quantity in place

  function Requantified(p: Pool, x: nat, qty: nat): Pool
    requires x < |p|
  {
    p[x := p[x].(qty := qty)]
  }

  function QtyRep(rep: LevelRep, change: int): LevelRep {
    rep.(total := (rep.total + change) % U32)
  }

  lemma QtyTotals(rep: LevelRep, q: seq<RefOrder>, k: nat, qty: nat)
    requires Totals(rep, q) && k < |q|
    ensures Totals(QtyRep(rep, qty - q[k].rem), q[k := q[k].(rem := qty)])
  {
    TotalUpdate(q, k, q[k].(rem := qty));
    ModAdd(QueueTotal(q), qty - q[k].rem);
  }

  /** A quantity write disturbs no link. */
  lemma QtyLinks(p: Pool, chain: Chain, head: nat, tail: nat, x: nat, qty: nat)
    requires Links(p, chain, head, tail) && x < |p|
    ensures Links(Requantified(p, x, qty), chain, head, tail)
  {
    var p' := Requantified(p, x, qty);
    assert forall j {:trigger Node(p', chain, j)} :: 0 <= j < |chain| && Node(p, chain, j) ==> Node(p', chain, j);
  }

  lemma QtyLevel(p: Pool, tag: Tag, rep: LevelRep, chain: Chain, lvl: Level, k: nat, qty: nat)
    requires k < |chain| && LevelOk(p, tag, rep, chain, lvl)
    ensures chain[k] < |p|
    ensures LevelOk(Requantified(p, chain[k], qty), tag, QtyRep(rep, qty - p[chain[k]].qty), chain,
                    lvl.(queue := lvl.queue[k := lvl.queue[k].(rem := qty)]))
  {
    QtyTotals(rep, lvl.queue, k, qty);
    QtyLinks(p, chain, rep.head, rep.tail, chain[k], qty);
  }

  lemma QtyOk(p: Pool, tag: Tag, s: SideState, i: nat, k: nat, qty: nat)
    requires SideOk(p, tag, s) && i < |s.qs| && k < |s.chains[i]|
    ensures s.chains[i][k] < |p| && |s.chains[i]| == |s.qs[i].queue|
    ensures var x := s.chains[i][k]; var p' := Requantified(p, x, qty);
            && SideOk(p', tag, s.Put(i, QtyRep(s.reps[i], qty - p[x].qty), s.chains[i],
                                     s.qs[i].(queue := s.qs[i].queue[k := s.qs[i].queue[k].(rem := qty)])))
            && Touches(p, p', s.chains[i], x) && SameTags(p, p') && p[x].qty == s.qs[i].queue[k].rem
  {
    assert LevelAt(p, tag, s, i);
    var x := s.chains[i][k];
    QtyLevel(p, tag, s.reps[i], s.chains[i], s.qs[i], k, qty);
    SideUpdate(p, Requantified(p, x, qty), tag, s, i, x, QtyRep(s.reps[i], qty - p[x].qty), s.chains[i],
               s.qs[i].(queue := s.qs[i].queue[k := s.qs[i].queue[k].(rem := qty)]));
  }

  // ----- requeue: unlink, append at the back, raise the quantity

  function Requeued(p: Pool, rep: LevelRep, x: nat, qty: nat): Pool
    requires Unlink.requires(p, x)
    requires UnlinkRep(rep, p[x]).head == NULL_IDX || UnlinkRep(rep, p[x]).tail < |p|
  {
    var rep1 := UnlinkRep(rep, p[x]);
    Requantified(Append(Unlink(p, x), rep1.head, rep1.tail, x), x, qty)
  }

  function RequeueRep(rep: LevelRep, x: nat, slot: Slot, qty: nat): LevelRep {
    var rep1 := UnlinkRep(rep, slot);
    LevelRep(rep.price, (rep.total + (qty - slot.qty)) % U32, rep.orders,
             if rep1.head == NULL_IDX then x else rep1.head, x)
  }

  function RequeuedQueue(q: seq<RefOrder>, k: nat, qty: nat, stamp: nat): seq<RefOrder>
    requires k < |q|
  {
    RemoveAt(q, k) + [q[k].(rem := qty, stamp := stamp)]
  }

  lemma RequeueTotals(rep: LevelRep, x: nat, slot: Slot, q: seq<RefOrder>, k: nat, qty: nat, stamp: nat)
    requires Totals(rep, q) && k < |q| && slot.qty == q[k].rem
    ensures Totals(RequeueRep(rep, x, slot, qty), RequeuedQueue(q, k, qty, stamp))
  {
    TotalSplit(q, k);
    TotalAppend(RemoveAt(q, k), q[k].(rem := qty, stamp := stamp));
    ModAdd(QueueTotal(q), qty - q[k].rem);
  }

  lemma AppendContent(p1: Pool, p2: Pool, tag: Tag, c: Chain, lvl: Level, x: nat, ro: RefOrder, qty: nat, stamp: nat)
    requires Content(p1, tag, c, lvl) && x < |p1| == |p2| && x !in c && Carries(p1[x], tag, lvl.price, ro)
    requires forall t :: 0 <= t < |p1| ==> p2[t] == p1[t].(next := p2[t].next, prev := p2[t].prev)
    ensures Content(Requantified(p2, x, qty), tag, c + [x],
                    lvl.(queue := lvl.queue + [ro.(rem := qty, stamp := stamp)]))
  {
  }

  lemma RequeueLevel(p: Pool, tag: Tag, rep: LevelRep, chain: Chain, lvl: Level, k: nat, qty: nat, stamp: nat)
    requires |p| <= NULL_IDX && k < |chain| && LevelOk(p, tag, rep, chain, lvl)
    ensures Unlink.requires(p, chain[k])
    ensures UnlinkRep(rep, p[chain[k]]).head == NULL_IDX || UnlinkRep(rep, p[chain[k]]).tail < |p|
    ensures var x := chain[k]; var p' := Requeued(p, rep, x, qty);
            && LevelOk(p', tag, RequeueRep(rep, x, p[x], qty), RemoveAt(chain, k) + [x],
                       lvl.(queue := RequeuedQueue(lvl.queue, k, qty, stamp)))
            && Touches(p, p', chain, x) && SameTags(p, p')
  {
    var x, c := chain[k], RemoveAt(chain, k);
    UnlinkLevel(p, tag, rep, chain, lvl, k);
    var p1, rep1 := Unlink(p, x), UnlinkRep(rep, p[x]);
    AppendLinks(p1, c, rep1.head, rep1.tail, x);
    RequeueTotals(rep, x, p[x], lvl.queue, k, qty, stamp);
    var p2 := Append(p1, rep1.head, rep1.tail, x);
    QtyLinks(p2, c + [x], if rep1.head == NULL_IDX then x else rep1.head, x, x, qty);
    AppendContent(p1, p2, tag, c, lvl.(queue := RemoveAt(lvl.queue, k)), x, lvl.queue[k], qty, stamp);
  }

  lemma RequeueOk(p: Pool, tag: Tag, s: SideState, i: nat, k: nat, qty: nat, stamp: nat)
    requires |p| <= NULL_IDX && SideOk(p, tag, s) && i < |s.qs| && k < |s.chains[i]|
    ensures |s.chains[i]| == |s.qs[i].queue| && Unlink.requires(p, s.chains[i][k])
    ensures var rep1 := UnlinkRep(s.reps[i], p[s.chains[i][k]]); rep1.head == NULL_IDX || rep1.tail < |p|
    ensures var x := s.chains[i][k]; var p' := Requeued(p, s.reps[i], x, qty);
            && SideOk(p', tag, s.Put(i, RequeueRep(s.reps[i], x, p[x], qty), RemoveAt(s.chains[i], k) + [x],
                                     s.qs[i].(queue := RequeuedQueue(s.qs[i].queue, k, qty, stamp))))
            && Touches(p, p', s.chains[i], x) && SameTags(p, p')
  {
    assert LevelAt(p, tag, s, i);
    var x := s.chains[i][k];
    RequeueLevel(p, tag, s.reps[i], s.chains[i], s.qs[i], k, qty, stamp);
    RemoveKeeps(s.chains[i], k);
    SideUpdate(p, Requeued(p, s.reps[i], x, qty), tag, s, i, x, RequeueRep(s.reps[i], x, p[x], qty),
               RemoveAt(s.chains[i], k) + [x], s.qs[i].(queue := RequeuedQueue(s.qs[i].queue, k, qty, stamp)));
  }

  // ----- the index

  /** A linked slot is bound under its id. */
  ghost predicate Indexed(p: Pool, m: map<nat, Place>, t: nat)
    requires t < |p|
  {
    p[t].tag != Free ==> p[t].id in m && m[p[t].id] == Place(t, p[t].tag == OnBids)
  }

  /** A bound id leads to a linked slot that carries it. */
  ghost predicate Leads(p: Pool, m: map<nat, Place>, id: nat)
    requires id in m
  {
    m[id].slot < |p| && p[m[id].slot].id == id && p[m[id].slot].tag == TagOf(m[id].onBids)
  }

  /** The index binds exactly the ids of the linked slots, each to its slot and side. */
  ghost predicate IndexOk(p: Pool, m: map<nat, Place>) {
    && (forall t {:trigger Indexed(p, m, t)} :: 0 <= t < |p| ==> Indexed(p, m, t))
    && (forall id {:trigger Leads(p, m, id)} :: id in m ==> Leads(p, m, id))
  }

  lemma IndexAdd(p: Pool, p': Pool, m: map<nat, Place>, x: nat)
    requires IndexOk(p, m) && TagsBut(p, p', x) && x < |p|
    requires p[x].tag == Free && p'[x].tag != Free && p'[x].id !in m
    ensures IndexOk(p', m[p'[x].id := Place(x, p'[x].tag == OnBids)])
  {
    var m' := m[p'[x].id := Place(x, p'[x].tag == OnBids)];
    assert forall t {:trigger Indexed(p', m', t)} :: 0 <= t < |p| ==> Indexed(p, m, t);
    assert forall id {:trigger Leads(p', m', id)} :: id in m ==> Leads(p, m, id);
  }

  /**
   Overwriting a binding is exactly what goes wrong with a reused id: after slot x is linked and its id written to
   the index, index and lists agree if and only if no resting order had that id.
   */
  lemma AgreesIffFresh(p: Pool, p': Pool, m: map<nat, Place>, x: nat)
    requires IndexOk(p, m) && TagsBut(p, p', x) && x < |p|
    requires p[x].tag == Free && p'[x].tag != Free
    ensures IndexOk(p', m[p'[x].id := Place(x, p'[x].tag == OnBids)]) <==> p'[x].id !in m
  {
    var id := p'[x].id;
    if id in m {
      assert Leads(p, m, id);
      assert !Indexed(p', m[id := Place(x, p'[x].tag == OnBids)], m[id].slot);
    } else {
      IndexAdd(p, p', m, x);
    }
  }

  lemma IndexDrop(p: Pool, p': Pool, m: map<nat, Place>, x: nat)
    requires IndexOk(p, m) && TagsBut(p, p', x) && x < |p|
    requires p[x].tag != Free && p'[x].tag == Free
    ensures IndexOk(p', m - {p[x].id})
  {
    assert Indexed(p, m, x);
    assert forall t {:trigger Indexed(p', m - {p[x].id}, t)} :: 0 <= t < |p| ==> Indexed(p, m, t);
    assert forall id {:trigger Leads(p', m - {p[x].id}, id)} :: id in m ==> Leads(p, m, id);
  }

  lemma IndexSame(p: Pool, p': Pool, m: map<nat, Place>)
    requires IndexOk(p, m) && SameTags(p, p')
    ensures IndexOk(p', m)
  {
    assert forall t {:trigger Indexed(p', m, t)} :: 0 <= t < |p| ==> Indexed(p, m, t);
    assert forall id {:trigger Leads(p', m, id)} :: id in m ==> Leads(p, m, id);
  }
}
