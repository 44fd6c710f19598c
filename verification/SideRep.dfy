/** The invariant of one side of a book and of the whole book, and what each operation does to it. */
module SideRep {
  import opened Types
  import opened RefModel
  import opened BookRep

  /** The level arrays of a side, the slot chain of every level, and the reference queues they represent. */
  datatype SideState = SideState(reps: seq<LevelRep>, chains: seq<Chain>, qs: seq<Level>) {
    predicate Shape() {
      |reps| == |chains| == |qs|
    }

    function Put(i: nat, rep: LevelRep, chain: Chain, lvl: Level): SideState
      requires Shape() && i < |qs|
    {
      SideState(reps[i := rep], chains[i := chain], qs[i := lvl])
    }

    /** A new, empty level at position i. */
    function Open(i: nat, price: int): SideState
      requires Shape() && i <= |qs|
    {
      SideState(InsertAt(reps, i, LevelRep(price, 0, 0, NULL_IDX, NULL_IDX)),
                InsertAt(chains, i, []),
                InsertAt(qs, i, Level(price, [])))
    }

    function Close(i: nat): SideState
      requires Shape() && i < |qs|
    {
      SideState(RemoveAt(reps, i), RemoveAt(chains, i), RemoveAt(qs, i))
    }
  }

  function InsertAt<T>(s: seq<T>, i: nat, x: T): (r: seq<T>)
    requires i <= |s|
    ensures |r| == |s| + 1
    ensures forall j :: 0 <= j < |r| ==> r[j] == if j < i then s[j] else if j == i then x else s[j - 1]
  {
    s[..i] + [x] + s[i..]
  }

  /** Creating a level and removing it again restores every level array. */
  lemma OpenClose(s: SideState, i: nat, price: int)
    requires s.Shape() && i <= |s.qs|
    ensures s.Open(i, price).Close(i) == s
  {
    assert s.Open(i, price).Close(i).reps == s.reps;
    assert s.Open(i, price).Close(i).chains == s.chains;
    assert s.Open(i, price).Close(i).qs == s.qs;
  }

  ghost predicate LevelAt(p: Pool, tag: Tag, s: SideState, i: nat)
    requires s.Shape() && i < |s.qs|
  {
    LevelOk(p, tag, s.reps[i], s.chains[i], s.qs[i])
  }

  ghost predicate InSome(chains: seq<Chain>, t: nat) {
    exists i :: 0 <= i < |chains| && t in chains[i]
  }

  /** Every slot tagged for this side is linked in one of its levels. */
  ghost predicate Placed(p: Pool, tag: Tag, chains: seq<Chain>) {
    forall t {:trigger InSome(chains, t)} :: 0 <= t < |p| && p[t].tag == tag ==> InSome(chains, t)
  }

  ghost predicate SideOk(p: Pool, tag: Tag, s: SideState) {
    && s.Shape()
    && Sorted(tag == OnBids, s.qs)
    && (forall i {:trigger LevelAt(p, tag, s, i)} :: 0 <= i < |s.qs| ==> LevelAt(p, tag, s, i))
    && Placed(p, tag, s.chains)
  }

  /** The pool changed at most in the slots of `chain` and in slot x. */
  ghost predicate Touches(p: Pool, p': Pool, chain: Chain, x: nat) {
    |p'| == |p| && forall t :: 0 <= t < |p| && t !in chain && t != x ==> p'[t] == p[t]
  }

  ghost predicate SameTags(p: Pool, p': Pool) {
    |p'| == |p| && forall t :: 0 <= t < |p| ==> p'[t].tag == p[t].tag && p'[t].id == p[t].id
  }

  lemma SlotInLevel(p: Pool, tag: Tag, s: SideState, i: nat, t: nat)
    requires s.Shape() && i < |s.qs| && LevelAt(p, tag, s, i) && t in s.chains[i]
    ensures t < |p| && p[t].tag == tag && p[t].price == s.qs[i].price
  {
  }

  /** Replacing level i, after writes confined to its slots and to a slot x that no other level of the side holds. */
  lemma SideUpdate(p: Pool, p': Pool, tag: Tag, s: SideState, i: nat, x: nat, rep: LevelRep, chain: Chain, lvl: Level)
    requires SideOk(p, tag, s) && i < |s.qs| && Touches(p, p', s.chains[i], x)
    requires x < |p| && (p[x].tag == tag ==> x in s.chains[i])
    requires lvl.price == s.qs[i].price && LevelOk(p', tag, rep, chain, lvl)
    requires forall t :: 0 <= t < |p| && t != x ==> p'[t].tag == p[t].tag && (t in s.chains[i] ==> t in chain)
    requires p'[x].tag == tag ==> x in chain
    ensures SideOk(p', tag, s.Put(i, rep, chain, lvl))
  {
    var s' := s.Put(i, rep, chain, lvl);
    forall j | 0 <= j < |s'.qs|
      ensures LevelAt(p', tag, s', j)
    {
      if j != i {
        OtherLevel(p, p', tag, s, i, x, j);
      }
    }
    forall t | 0 <= t < |p| && p'[t].tag == tag
      ensures InSome(s'.chains, t)
    {
      if t != x {
        assert InSome(s.chains, t);
        var j :| 0 <= j < |s.chains| && t in s.chains[j];
        assert t in s'.chains[j];
      } else {
        assert t in s'.chains[i];
      }
    }
  }

  lemma OtherLevel(p: Pool, p': Pool, tag: Tag, s: SideState, i: nat, x: nat, j: nat)
    requires SideOk(p, tag, s) && i < |s.qs| && j < |s.qs| && j != i && Touches(p, p', s.chains[i], x)
    requires x < |p| && (p[x].tag == tag ==> x in s.chains[i])
    ensures LevelOk(p', tag, s.reps[j], s.chains[j], s.qs[j])
  {
    assert LevelAt(p, tag, s, j) && LevelAt(p, tag, s, i);
    forall t | t in s.chains[j]
      ensures t < |p| && p'[t] == p[t]
    {
      SlotInLevel(p, tag, s, j, t);
      if t in s.chains[i] {
        SlotInLevel(p, tag, s, i, t);
      }
    }
    LevelFrame(p, p', tag, s.reps[j], s.chains[j], s.qs[j]);
  }

  /** Writes to slots that belong to nobody on this side leave it as it is. */
  lemma OtherSide(p: Pool, p': Pool, tag: Tag, s: SideState)
    requires SideOk(p, tag, s) && |p'| == |p|
    requires forall t :: 0 <= t < |p| ==> (p[t].tag == tag ==> p'[t] == p[t]) && (p'[t].tag == tag ==> p[t].tag == tag)
    ensures SideOk(p', tag, s)
  {
    forall j | 0 <= j < |s.qs|
      ensures LevelAt(p', tag, s, j)
    {
      assert LevelAt(p, tag, s, j);
      forall t | t in s.chains[j]
        ensures t < |p| && p'[t] == p[t]
      {
        SlotInLevel(p, tag, s, j, t);
      }
      LevelFrame(p, p', tag, s.reps[j], s.chains[j], s.qs[j]);
    }
  }

  lemma OpenSorted(desc: bool, qs: seq<Level>, i: nat, price: int)
    requires Sorted(desc, qs) && i <= |qs|
    requires forall j :: 0 <= j < i ==> Before(desc, qs[j].price, price)
    requires forall j :: i <= j < |qs| ==> Before(desc, price, qs[j].price)
    ensures Sorted(desc, InsertAt(qs, i, Level(price, [])))
  {
  }

  lemma OpenPlaced(p: Pool, tag: Tag, chains: seq<Chain>, i: nat)
    requires Placed(p, tag, chains) && i <= |chains|
    ensures Placed(p, tag, InsertAt(chains, i, []))
  {
    var chains' := InsertAt(chains, i, []);
    forall t | 0 <= t < |p| && p[t].tag == tag
      ensures InSome(chains', t)
    {
      assert InSome(chains, t);
      var j :| 0 <= j < |chains| && t in chains[j];
      assert t in chains'[if j < i then j else j + 1];
    }
  }

  /** Opening an empty level where the price order puts it. */
  lemma OpenOk(p: Pool, tag: Tag, s: SideState, i: nat, price: int)
    requires SideOk(p, tag, s) && i <= |s.qs|
    requires forall j :: 0 <= j < i ==> Before(tag == OnBids, s.qs[j].price, price)
    requires forall j :: i <= j < |s.qs| ==> Before(tag == OnBids, price, s.qs[j].price)
    ensures SideOk(p, tag, s.Open(i, price))
  {
    var s' := s.Open(i, price);
    OpenSorted(tag == OnBids, s.qs, i, price);
    OpenPlaced(p, tag, s.chains, i);
    forall j | 0 <= j < |s'.qs|
      ensures LevelAt(p, tag, s', j)
    {
      if j != i {
        assert LevelAt(p, tag, s, if j < i then j else j - 1);
      }
    }
  }

  /** Removing a level whose queue is empty. */
  lemma CloseOk(p: Pool, tag: Tag, s: SideState, i: nat)
    requires SideOk(p, tag, s) && i < |s.qs| && s.qs[i].queue == []
    ensures SideOk(p, tag, s.Close(i))
  {
    var s' := s.Close(i);
    forall j | 0 <= j < |s'.qs|
      ensures LevelAt(p, tag, s', j)
    {
      assert LevelAt(p, tag, s, if j < i then j else j + 1);
    }
    forall t | 0 <= t < |p| && p[t].tag == tag
      ensures InSome(s'.chains, t)
    {
      assert InSome(s.chains, t) && LevelAt(p, tag, s, i);
      var j :| 0 <= j < |s.chains| && t in s.chains[j];
      assert t in s'.chains[if j < i then j else j - 1];
    }
  }

  /** A slot tagged for this side sits in the level of its own price. */
  lemma Locate(p: Pool, tag: Tag, s: SideState, t: nat) returns (i: nat, k: nat)
    requires SideOk(p, tag, s) && t < |p| && p[t].tag == tag
    ensures i < |s.qs| && s.qs[i].price == s.reps[i].price == p[t].price
    ensures k < |s.chains[i]| == |s.qs[i].queue| && s.chains[i][k] == t
    ensures Carries(p[t], tag, s.qs[i].price, s.qs[i].queue[k])
  {
    assert InSome(s.chains, t);
    i :| 0 <= i < |s.chains| && t in s.chains[i];
    assert LevelAt(p, tag, s, i);
    k :| 0 <= k < |s.chains[i]| && s.chains[i][k] == t;
  }
}
