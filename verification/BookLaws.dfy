/** Whole-book steps on values: each keeps the book invariant and performs the operation of the reference book. */
module BookLaws {
  import opened Types
  import opened RefModel
  import opened OrderIndexing
  import opened BookRep
  import opened SideRep
  import opened BookOps

  /** Levels, lists and slots of both sides agree, seen from one side (s, on bids or not) with the other side o. */
  ghost predicate ListsOk(p: Pool, onBids: bool, s: SideState, o: SideState) {
    && |p| <= NULL_IDX
    && SideOk(p, TagOf(onBids), s)
    && SideOk(p, TagOf(!onBids), o)
  }

  /** The invariant of a book: so does the index. */
  ghost predicate BookOk(p: Pool, onBids: bool, s: SideState, o: SideState, m: map<nat, Place>) {
    ListsOk(p, onBids, s, o) && IndexOk(p, m)
  }

  lemma EmptyBookOk(p: Pool)
    requires |p| <= NULL_IDX && forall t :: 0 <= t < |p| ==> p[t].tag == Free
    ensures BookOk(p, true, SideState([], [], []), SideState([], [], []), map[])
  {
  }

  // ----- finding an order

  /** Slot t, at place k of level i, is the only order of its id, so the reference search finds exactly it. */
  lemma FoundHere(p: Pool, onBids: bool, s: SideState, o: SideState, m: map<nat, Place>, i: nat, k: nat)
    requires BookOk(p, onBids, s, o, m) && i < |s.qs| && k < |s.chains[i]|
    ensures |s.chains[i]| == |s.qs[i].queue| && s.chains[i][k] < |p|
    ensures var id := p[s.chains[i][k]].id;
            && LevelOf(s.qs, id) == i && IndexOf(s.qs[i].queue, id) == k && Holds(s.qs, id) && !Holds(o.qs, id)
            && s.qs[i].queue[k].id == id && s.qs[i].queue[k].rem == p[s.chains[i][k]].qty
  {
    assert LevelAt(p, TagOf(onBids), s, i);
    var id := p[s.chains[i][k]].id;
    assert Indexed(p, m, s.chains[i][k]);
    OnlyPlace(p, TagOf(onBids), s, m, i, IndexOf(s.qs[i].queue, id), id);
    var i' := LevelOf(s.qs, id);
    OnlyPlace(p, TagOf(onBids), s, m, i', IndexOf(s.qs[i'].queue, id), id);
    SameLevel(p, TagOf(onBids), s, i, i', s.chains[i][k]);
    if Holds(o.qs, id) {
      var j := LevelOf(o.qs, id);
      OnlyPlace(p, TagOf(!onBids), o, m, j, IndexOf(o.qs[j].queue, id), id);
    }
  }

  /** An order the reference book holds at (i, k) sits in the slot its id is bound to. */
  lemma OnlyPlace(p: Pool, tag: Tag, s: SideState, m: map<nat, Place>, i: nat, k: nat, id: nat)
    requires SideOk(p, tag, s) && IndexOk(p, m) && tag != Free
    requires i < |s.qs| && k < |s.qs[i].queue| && s.qs[i].queue[k].id == id
    ensures |s.chains[i]| == |s.qs[i].queue| && id in m && m[id] == Place(s.chains[i][k], tag == OnBids)
    ensures s.chains[i][k] in s.chains[i]
  {
    assert LevelAt(p, tag, s, i);
    assert Indexed(p, m, s.chains[i][k]);
  }

  lemma SameLevel(p: Pool, tag: Tag, s: SideState, i: nat, j: nat, t: nat)
    requires SideOk(p, tag, s) && i < |s.qs| && j < |s.qs| && t in s.chains[i] && t in s.chains[j]
    ensures i == j
  {
    assert LevelAt(p, tag, s, i) && LevelAt(p, tag, s, j);
    SlotInLevel(p, tag, s, i, t);
    SlotInLevel(p, tag, s, j, t);
  }

  /** An id the index does not bind is held by neither reference side. */
  lemma NotFound(p: Pool, tag: Tag, s: SideState, m: map<nat, Place>, id: nat)
    requires SideOk(p, tag, s) && IndexOk(p, m) && tag != Free && id !in m
    ensures !Holds(s.qs, id)
  {
    if Holds(s.qs, id) {
      var i := LevelOf(s.qs, id);
      OnlyPlace(p, tag, s, m, i, IndexOf(s.qs[i].queue, id), id);
    }
  }

  // ----- delist

  /** The level arrays after delisting the order at (i, k); the level stays, possibly empty. */
  function DelistState(s: SideState, i: nat, k: nat, x: Slot): SideState
    requires s.Shape() && i < |s.qs| && k < |s.chains[i]| == |s.qs[i].queue| && s.reps[i].orders > 0
  {
    s.Put(i, DelistRep(s.reps[i], x), RemoveAt(s.chains[i], k), s.qs[i].(queue := RemoveAt(s.qs[i].queue, k)))
  }

  lemma DelistBook(p: Pool, onBids: bool, s: SideState, o: SideState, m: map<nat, Place>, i: nat, k: nat)
    requires BookOk(p, onBids, s, o, m) && i < |s.qs| && k < |s.chains[i]|
    ensures s.reps[i].orders == |s.qs[i].queue| == |s.chains[i]| && Unlink.requires(p, s.chains[i][k])
    ensures p[s.chains[i][k]].tag == TagOf(onBids)
    ensures var x := s.chains[i][k];
            BookOk(Delisted(p, x), onBids, DelistState(s, i, k, p[x]), o, m - {p[x].id})
  {
    var tag, x := TagOf(onBids), s.chains[i][k];
    DelistOk(p, tag, s, i, k);
    assert LevelAt(p, tag, s, i);
    SlotInLevel(p, tag, s, i, x);
    OthersKeep(p, Delisted(p, x), onBids, s, o, i, x);
    IndexDrop(p, Delisted(p, x), m, x);
  }

  lemma CloseBook(p: Pool, onBids: bool, s: SideState, o: SideState, m: map<nat, Place>, i: nat)
    requires BookOk(p, onBids, s, o, m) && i < |s.qs| && s.qs[i].queue == []
    ensures BookOk(p, onBids, s.Close(i), o, m)
  {
    CloseOk(p, TagOf(onBids), s, i);
  }

  /** Removing the exhausted best level. */
  lemma CloseBest(p: Pool, onBids: bool, s: SideState, o: SideState, m: map<nat, Place>)
    requires BookOk(p, onBids, s, o, m) && s.qs != [] && s.qs[0].queue == []
    ensures BookOk(p, onBids, s.Close(0), o, m) && s.Close(0).qs == s.qs[1..]
    ensures OrderCount(s.Close(0).qs) == OrderCount(s.qs)
  {
    CloseBook(p, onBids, s, o, m, 0);
    assert RemoveAt(s.qs, 0) == s.qs[1..];
  }

  lemma OrdersAt(p: Pool, onBids: bool, s: SideState, o: SideState, i: nat)
    requires ListsOk(p, onBids, s, o) && i < |s.qs|
    ensures s.reps[i].orders == |s.qs[i].queue| == |s.chains[i]| && s.reps[i].price == s.qs[i].price
    ensures s.reps[i].head == HeadOf(s.chains[i]) && s.reps[i].tail == TailOf(s.chains[i])
    ensures s.reps[i].total == QueueTotal(s.qs[i].queue) % U32
    ensures forall k :: 0 <= k < |s.chains[i]| ==>
              s.chains[i][k] < |p| && Carries(p[s.chains[i][k]], TagOf(onBids), s.qs[i].price, s.qs[i].queue[k])
  {
    assert LevelAt(p, TagOf(onBids), s, i);
  }

  /** Writes confined to one level of side s and to a slot x not on side o leave side o alone. */
  lemma OthersKeep(p: Pool, p': Pool, onBids: bool, s: SideState, o: SideState, i: nat, x: nat)
    requires SideOk(p, TagOf(onBids), s) && SideOk(p, TagOf(!onBids), o) && i < |s.qs|
    requires Touches(p, p', s.chains[i], x) && TagsBut(p, p', x)
    requires x < |p| && p[x].tag != TagOf(!onBids) && p'[x].tag != TagOf(!onBids)
    ensures SideOk(p', TagOf(!onBids), o)
  {
    assert LevelAt(p, TagOf(onBids), s, i);
    forall t | 0 <= t < |p| && p[t].tag == TagOf(!onBids)
      ensures p'[t] == p[t]
    {
      if t in s.chains[i] {
        SlotInLevel(p, TagOf(onBids), s, i, t);
      }
    }
    OtherSide(p, p', TagOf(!onBids), o);
  }

  /** Dequeuing the head of the best level is what the reference sweep does to an exhausted order. */
  lemma PopBook(p: Pool, onBids: bool, s: SideState, o: SideState, m: map<nat, Place>)
    requires BookOk(p, onBids, s, o, m) && 0 < |s.qs| && s.qs[0].queue != []
    ensures s.reps[0].orders == |s.qs[0].queue| == |s.chains[0]| && s.reps[0].total < U32
    ensures var x := s.chains[0][0];
            && Unlink.requires(p, x) && p[x].prev == NULL_IDX && p[x].tag == TagOf(onBids) && p[x].id in m
            && BookOk(Delisted(p, x), onBids, DelistState(s, 0, 0, p[x]), o, m - {p[x].id})
            && DelistState(s, 0, 0, p[x]).qs == Popped(s.qs)
            && OrderCount(Popped(s.qs)) == OrderCount(s.qs) - 1 && |m - {p[x].id}| == |m| - 1
  {
    assert LevelAt(p, TagOf(onBids), s, 0);
    DelistBook(p, onBids, s, o, m, 0, 0);
    var x := s.chains[0][0];
    assert Node(p, s.chains[0], 0) && Indexed(p, m, x);
    assert RemoveAt(s.qs[0].queue, 0) == s.qs[0].queue[1..];
    CountPut(s.qs, 0, s.qs[0].(queue := s.qs[0].queue[1..]));
    DropCount(m, p[x].id);
  }

  // ----- quantity and requeue

  lemma QtyBook(p: Pool, onBids: bool, s: SideState, o: SideState, m: map<nat, Place>, i: nat, k: nat, qty: nat)
    requires BookOk(p, onBids, s, o, m) && i < |s.qs| && k < |s.chains[i]|
    ensures s.chains[i][k] < |p| && |s.chains[i]| == |s.qs[i].queue|
    ensures var x := s.chains[i][k];
            && p[x].qty == s.qs[i].queue[k].rem
            && BookOk(Requantified(p, x, qty), onBids,
                      s.Put(i, QtyRep(s.reps[i], qty - p[x].qty), s.chains[i],
                            s.qs[i].(queue := s.qs[i].queue[k := s.qs[i].queue[k].(rem := qty)])), o, m)
  {
    var tag, x := TagOf(onBids), s.chains[i][k];
    QtyOk(p, tag, s, i, k, qty);
    assert LevelAt(p, tag, s, i);
    SlotInLevel(p, tag, s, i, x);
    OthersKeep(p, Requantified(p, x, qty), onBids, s, o, i, x);
    IndexSame(p, Requantified(p, x, qty), m);
  }

  lemma RequeueBook(p: Pool, onBids: bool, s: SideState, o: SideState, m: map<nat, Place>, i: nat, k: nat, qty: nat,
                    stamp: nat)
    requires BookOk(p, onBids, s, o, m) && i < |s.qs| && k < |s.chains[i]|
    ensures |s.chains[i]| == |s.qs[i].queue| && Unlink.requires(p, s.chains[i][k])
    ensures var rep1 := UnlinkRep(s.reps[i], p[s.chains[i][k]]); rep1.head == NULL_IDX || rep1.tail < |p|
    ensures var x := s.chains[i][k];
            BookOk(Requeued(p, s.reps[i], x, qty), onBids,
                   s.Put(i, RequeueRep(s.reps[i], x, p[x], qty), RemoveAt(s.chains[i], k) + [x],
                         s.qs[i].(queue := RequeuedQueue(s.qs[i].queue, k, qty, stamp))), o, m)
  {
    var tag, x := TagOf(onBids), s.chains[i][k];
    RequeueOk(p, tag, s, i, k, qty, stamp);
    assert LevelAt(p, tag, s, i);
    SlotInLevel(p, tag, s, i, x);
    OthersKeep(p, Requeued(p, s.reps[i], x, qty), onBids, s, o, i, x);
    IndexSame(p, Requeued(p, s.reps[i], x, qty), m);
  }

  // ----- enlist

  /**
   Linking a free slot keeps the lists whatever its id; binding the id keeps the index if and only if it was fresh.
   */
  lemma EnlistBook(p: Pool, onBids: bool, s: SideState, o: SideState, m: map<nat, Place>, i: nat, x: nat,
                   data: Slot, ro: RefOrder)
    requires BookOk(p, onBids, s, o, m) && i < |s.qs| && x < |p| && p[x].tag == Free
    requires Carries(data, TagOf(onBids), s.qs[i].price, ro)
    ensures s.reps[i].head == NULL_IDX || s.reps[i].tail < |p|
    ensures var p' := Enlisted(p, s.reps[i], x, data);
            && ListsOk(p', onBids, s.Put(i, EnlistRep(s.reps[i], x, ro.rem), s.chains[i] + [x],
                                         s.qs[i].(queue := s.qs[i].queue + [ro])), o)
            && (IndexOk(p', m[ro.id := Place(x, onBids)]) <==> ro.id !in m)
            && x < |p'| && Carries(p'[x], TagOf(onBids), s.qs[i].price, ro)
  {
    EnlistOk(p, TagOf(onBids), s, i, x, data, ro);
    var p' := Enlisted(p, s.reps[i], x, data);
    OthersKeep(p, p', onBids, s, o, i, x);
    AgreesIffFresh(p, p', m, x);
  }

  // ----- counting orders

  lemma {:induction false} CountSplit(side: seq<Level>, i: nat)
    requires i < |side|
    ensures OrderCount(side) == OrderCount(RemoveAt(side, i)) + |side[i].queue|
  {
    if i == 0 {
      assert RemoveAt(side, 0) == side[1..];
    } else {
      CountSplit(side[1..], i - 1);
      assert RemoveAt(side, i)[1..] == RemoveAt(side[1..], i - 1);
    }
  }

  lemma CountPut(side: seq<Level>, i: nat, lvl: Level)
    requires i < |side|
    ensures OrderCount(side[i := lvl]) == OrderCount(side) - |side[i].queue| + |lvl.queue|
  {
    CountSplit(side, i);
    CountSplit(side[i := lvl], i);
    assert RemoveAt(side[i := lvl], i) == RemoveAt(side, i);
  }

  lemma CountPutQueue(side: seq<Level>, i: nat, q: seq<RefOrder>)
    requires i < |side|
    ensures OrderCount(PutQueue(side, i, q)) == OrderCount(side) - |side[i].queue| + |q|
    ensures NoEmptyLevel(side) ==> NoEmptyLevel(PutQueue(side, i, q))
  {
    CountSplit(side, i);
    CountPut(side, i, side[i].(queue := q));
  }

  /** Lowering the first quantity of the best level is what the reference sweep does to an order it hits in part. */
  lemma HitBook(p: Pool, onBids: bool, s: SideState, o: SideState, m: map<nat, Place>, fill: nat)
    requires BookOk(p, onBids, s, o, m) && s.qs != [] && s.qs[0].queue != [] && fill <= s.qs[0].queue[0].rem
    ensures |s.chains[0]| == |s.qs[0].queue| && s.chains[0][0] < |p| && p[s.chains[0][0]].qty == s.qs[0].queue[0].rem
    ensures var x, left, h := s.chains[0][0], s.qs[0].queue[0].rem - fill, s.qs[0].queue[0];
            var s' := s.Put(0, QtyRep(s.reps[0], left - p[x].qty), s.chains[0],
                            s.qs[0].(queue := s.qs[0].queue[0 := h.(rem := left)]));
            && BookOk(Requantified(p, x, left), onBids, s', o, m)
            && s'.qs == Reduced(s.qs, fill) && OrderCount(s'.qs) == OrderCount(s.qs)
  {
    assert LevelAt(p, TagOf(onBids), s, 0);
    QtyBook(p, onBids, s, o, m, 0, 0, s.qs[0].queue[0].rem - fill);
    CountPut(s.qs, 0, Reduced(s.qs, fill)[0]);
  }

  // ----- removing an order together with an exhausted level

  function CloseIfEmpty(s: SideState, i: nat): SideState
    requires s.Shape() && i < |s.qs|
  {
    if s.reps[i].orders == 0 then s.Close(i) else s
  }

  /** Removing the order at (i, k) is what the reference book does when it erases that order. */
  lemma RemoveBook(p: Pool, onBids: bool, s: SideState, o: SideState, m: map<nat, Place>, i: nat, k: nat)
    requires BookOk(p, onBids, s, o, m) && i < |s.qs| && k < |s.chains[i]| && NoEmptyLevel(s.qs)
    ensures s.reps[i].orders == |s.qs[i].queue| == |s.chains[i]| && Unlink.requires(p, s.chains[i][k])
    ensures p[s.chains[i][k]].tag == TagOf(onBids) && p[s.chains[i][k]].id in m
    ensures var x := s.chains[i][k]; var s' := CloseIfEmpty(DelistState(s, i, k, p[x]), i);
            && BookOk(Delisted(p, x), onBids, s', o, m - {p[x].id})
            && s'.qs == PutQueue(s.qs, i, RemoveAt(s.qs[i].queue, k))
            && NoEmptyLevel(s'.qs) && OrderCount(s'.qs) == OrderCount(s.qs) - 1
            && |m - {p[x].id}| == |m| - 1
  {
    DelistBook(p, onBids, s, o, m, i, k);
    var x := s.chains[i][k];
    var s1 := DelistState(s, i, k, p[x]);
    if s1.reps[i].orders == 0 {
      CloseBook(Delisted(p, x), onBids, s1, o, m - {p[x].id}, i);
      assert s1.Close(i).qs == RemoveAt(s.qs, i);
    }
    CountPutQueue(s.qs, i, RemoveAt(s.qs[i].queue, k));
    assert Indexed(p, m, x);
    DropCount(m, p[x].id);
  }

  lemma DropCount(m: map<nat, Place>, id: nat)
    requires id in m
    ensures |m - {id}| == |m| - 1
  {
    assert (m - {id}).Keys == m.Keys - {id};
    assert |m.Keys - {id}| == |m.Keys| - 1;
  }

  // ----- resting at an existing or a new level

  lemma {:induction false} RestExisting(desc: bool, side: seq<Level>, i: nat, ro: RefOrder)
    requires Sorted(desc, side) && i < |side|
    ensures Rest(desc, side, side[i].price, ro) == side[i := side[i].(queue := side[i].queue + [ro])]
  {
    if i > 0 {
      assert Before(desc, side[0].price, side[i].price);
      RestExisting(desc, side[1..], i - 1, ro);
    }
  }

  lemma {:induction false} RestNew(desc: bool, side: seq<Level>, i: nat, price: int, ro: RefOrder)
    requires Sorted(desc, side) && i <= |side|
    requires forall j :: 0 <= j < i ==> Before(desc, side[j].price, price)
    requires forall j :: i <= j < |side| ==> Before(desc, price, side[j].price)
    ensures Rest(desc, side, price, ro) == InsertAt(side, i, Level(price, [ro]))
  {
    if i > 0 {
      RestNew(desc, side[1..], i - 1, price, ro);
      InsertBehind(side, i, Level(price, [ro]));
    }
  }

  lemma InsertBehind<T>(s: seq<T>, i: nat, x: T)
    requires 0 < i <= |s|
    ensures InsertAt(s, i, x) == [s[0]] + InsertAt(s[1..], i - 1, x)
  {
    var a, b := InsertAt(s, i, x), [s[0]] + InsertAt(s[1..], i - 1, x);
    forall j | 0 <= j < |a|
      ensures a[j] == b[j]
    {
      assert j > 0 ==> b[j] == InsertAt(s[1..], i - 1, x)[j - 1];
    }
  }

  lemma CountOpen(qs: seq<Level>, i: nat, price: int)
    requires i <= |qs|
    ensures OrderCount(InsertAt(qs, i, Level(price, []))) == OrderCount(qs)
  {
    CountSplit(InsertAt(qs, i, Level(price, [])), i);
    assert RemoveAt(InsertAt(qs, i, Level(price, [])), i) == qs;
  }

  lemma AddCount(m: map<nat, Place>, id: nat, x: Place)
    requires id !in m
    ensures |m[id := x]| == |m| + 1
  {
    assert m[id := x].Keys == m.Keys + {id};
  }

  /** Opening a level where the scan stopped, for a price that has none, keeps the book invariant. */
  lemma OpenBook(p: Pool, onBids: bool, s: SideState, o: SideState, m: map<nat, Place>, i: nat, price: int)
    requires BookOk(p, onBids, s, o, m) && i <= |s.qs| && !HasLevel(s.qs, price)
    requires forall j :: 0 <= j < i ==> Before(onBids, s.reps[j].price, price)
    requires i < |s.qs| ==> !Before(onBids, s.reps[i].price, price)
    ensures BookOk(p, onBids, s.Open(i, price), o, m)
    ensures forall j :: 0 <= j < i ==> Before(onBids, s.qs[j].price, price)
    ensures forall j :: i <= j < |s.qs| ==> Before(onBids, price, s.qs[j].price)
  {
    forall j | 0 <= j < |s.qs|
      ensures s.reps[j].price == s.qs[j].price
    {
      assert LevelAt(p, TagOf(onBids), s, j);
    }
    OpenOk(p, TagOf(onBids), s, i, price);
  }

  /** Enlisting into level i, as a whole-book step with its counts. */
  lemma EnlistCounts(qs: seq<Level>, i: nat, ro: RefOrder)
    requires i < |qs|
    ensures OrderCount(qs[i := qs[i].(queue := qs[i].queue + [ro])]) == OrderCount(qs) + 1
  {
    CountPut(qs, i, qs[i].(queue := qs[i].queue + [ro]));
  }

  /** Opening a level and enlisting in it is how the reference rests an order at a new price. */
  lemma RestOpened(desc: bool, qs: seq<Level>, i: nat, price: int, ro: RefOrder)
    requires Sorted(desc, qs) && i <= |qs| && NoEmptyLevel(qs)
    requires forall j :: 0 <= j < i ==> Before(desc, qs[j].price, price)
    requires forall j :: i <= j < |qs| ==> Before(desc, price, qs[j].price)
    ensures InsertAt(qs, i, Level(price, []))[i := Level(price, [ro])] == Rest(desc, qs, price, ro)
    ensures NoEmptyLevel(Rest(desc, qs, price, ro))
  {
    RestNew(desc, qs, i, price, ro);
  }
}
