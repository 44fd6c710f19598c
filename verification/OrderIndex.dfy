/**
 The id index of a book: an open-addressed hash table with linear probing, whose deletion re-places the
 entries of the cluster that follows the freed cell. It refines a finite map from order id to place.
 */
module OrderIndexing {
  import opened Types

  datatype Entry = Entry(key: nat, slot: nat, onBids: bool)

  /** Where an order rests: its slot and its side. */
  datatype Place = Place(slot: nat, onBids: bool)

  predicate Occ(e: Entry) {
    e.slot != NULL_IDX
  }

  /**
   The cell where probing for an id starts. The hash is an arbitrary function; a value outside the table is
   read as cell 0, so that nothing has to be assumed about it.
   */
  function Home(hash: nat -> nat, n: nat, id: nat): (h: nat)
    requires n > 0
    ensures h < n
  {
    if hash(id) < n then hash(id) else 0
  }

  /** (h + 1) % n for a cell h. */
  function Next(n: nat, h: nat): nat
    requires h < n
  {
    if h + 1 == n then 0 else h + 1
  }

  /** Number of forward steps from cell a to cell b, wrapping at n. */
  function Dist(n: nat, a: nat, b: nat): nat
    requires a < n && b < n
  {
    if a <= b then b - a else b - a + n
  }

  /** Position pj of the ring unrolled at e is cell j; the position past the last one is e again. */
  predicate Reached(n: nat, e: nat, j: nat, pj: nat)
    requires e < n && j < n
  {
    (j != e && pj == Dist(n, e, j)) || (j == e && pj == n)
  }

  lemma NextDist(n: nat, e: nat, j: nat)
    requires e < n && j < n && j != e
    ensures Reached(n, e, Next(n, j), Dist(n, e, j) + 1)
  {
  }

  /** Cell j is passed when probing from a before b is reached. */
  predicate OnPath(n: nat, a: nat, j: nat, b: nat)
    requires a < n && b < n && j < n
  {
    Dist(n, a, j) < Dist(n, a, b)
  }

  /** No empty cell interrupts the probe path of a stored key. */
  ghost predicate ProbeChains(hash: nat -> nat, t: seq<Entry>) {
    forall i, j :: 0 <= i < |t| && 0 <= j < |t| && Occ(t[i]) && !Occ(t[j]) ==>
      !OnPath(|t|, Home(hash, |t|, t[i].key), j, i)
  }

  ghost predicate Stores(t: seq<Entry>, key: nat) {
    exists i :: 0 <= i < |t| && Occ(t[i]) && t[i].key == key
  }

  /** The table holds exactly the bindings of m, each key once. */
  ghost predicate Mirrors(t: seq<Entry>, m: map<nat, Place>) {
    && (forall i :: 0 <= i < |t| && Occ(t[i]) ==> t[i].key in m && m[t[i].key] == Place(t[i].slot, t[i].onBids))
    && (forall k {:trigger Stores(t, k)} :: k in m ==> Stores(t, k))
    && (forall i, j :: 0 <= i < |t| && 0 <= j < |t| && Occ(t[i]) && Occ(t[j]) && t[i].key == t[j].key ==> i == j)
  }

  /** Cell h is where probing for id stops: everything before it is taken by other keys. */
  ghost predicate ProbesTo(hash: nat -> nat, t: seq<Entry>, id: nat, h: nat)
    requires |t| > 0
  {
    && h < |t|
    && (Occ(t[h]) ==> t[h].key == id)
    && forall j :: 0 <= j < |t| && OnPath(|t|, Home(hash, |t|, id), j, h) ==> Occ(t[j]) && t[j].key != id
  }

  /** Probing finds a key exactly when the map binds it. */
  lemma ProbeDecides(hash: nat -> nat, t: seq<Entry>, m: map<nat, Place>, id: nat, h: nat)
    requires |t| > 0 && ProbeChains(hash, t) && Mirrors(t, m) && ProbesTo(hash, t, id, h)
    ensures Occ(t[h]) <==> id in m
    ensures id in m ==> m[id] == Place(t[h].slot, t[h].onBids)
  {
    if id in m {
      assert Stores(t, id);
      var i :| 0 <= i < |t| && Occ(t[i]) && t[i].key == id;
      var a := Home(hash, |t|, id);
      assert !OnPath(|t|, a, i, h);
    }
  }

  // ----- a table that stores fewer keys than it has cells has an empty cell

  ghost function KeysBelow(t: seq<Entry>, n: nat): set<nat>
    requires n <= |t|
  {
    if n == 0 then {} else KeysBelow(t, n - 1) + {t[n - 1].key}
  }

  lemma {:induction false} KeyNotBelow(t: seq<Entry>, n: nat, key: nat)
    requires n <= |t| && forall i :: 0 <= i < n ==> t[i].key != key
    ensures key !in KeysBelow(t, n)
  {
    if n > 0 {
      KeyNotBelow(t, n - 1, key);
    }
  }

  lemma {:induction false} KeysBelowCount(t: seq<Entry>, m: map<nat, Place>, n: nat)
    requires n <= |t| && Mirrors(t, m) && forall i :: 0 <= i < n ==> Occ(t[i])
    ensures KeysBelow(t, n) <= m.Keys && |KeysBelow(t, n)| == n
  {
    if n > 0 {
      KeysBelowCount(t, m, n - 1);
      KeyNotBelow(t, n - 1, t[n - 1].key);
    }
  }

  lemma SubsetCard(a: set<nat>, b: set<nat>)
    requires a <= b
    ensures |a| <= |b|
  {
    assert b == a + (b - a);
    assert |b| == |a| + |b - a|;
  }

  lemma EmptyCell(t: seq<Entry>, m: map<nat, Place>) returns (e: nat)
    requires Mirrors(t, m) && |m| < |t|
    ensures e < |t| && !Occ(t[e])
  {
    if forall i :: 0 <= i < |t| ==> Occ(t[i]) {
      KeysBelowCount(t, m, |t|);
      SubsetCard(KeysBelow(t, |t|), m.Keys);
    }
    e :| e < |t| && !Occ(t[e]);
  }

  // ----- unrolling the ring at an empty cell

  /** The position of every cell when the ring is cut open at cell e. */
  ghost function Cut(n: nat, e: nat): (pos: seq<nat>)
    requires e < n
    ensures |pos| == n && forall x :: 0 <= x < n ==> pos[x] == Dist(n, e, x)
  {
    seq(n, x requires 0 <= x < n => Dist(n, e, x))
  }

  /**
   The table in cut-open order. Entries at position pj or beyond may have empty cells on their path, but only
   inside [lo, pj): the part of the cluster that has been re-placed already.
   */
  ghost predicate Unrolled(hash: nat -> nat, t: seq<Entry>, pos: seq<nat>, lo: nat, pj: nat)
    requires |pos| == |t|
  {
    && (forall i :: 0 <= i < |t| && Occ(t[i]) ==> 1 <= pos[Home(hash, |t|, t[i].key)] <= pos[i])
    && (forall i, c :: 0 <= i < |t| && 0 <= c < |t| && Occ(t[i]) && !Occ(t[c]) ==> Gap(hash, t, pos, lo, pj, i, c))
  }

  /** Empty cell c is not on the path of entry i, or both are where the running re-placement allows it. */
  ghost predicate Gap(hash: nat -> nat, t: seq<Entry>, pos: seq<nat>, lo: nat, pj: nat, i: nat, c: nat)
    requires |pos| == |t| && i < |t| && c < |t|
  {
    pos[Home(hash, |t|, t[i].key)] <= pos[c] < pos[i] ==> lo <= pos[c] < pj <= pos[i]
  }

  /** A path that avoids e is an interval of the unrolled ring. */
  lemma PathIsInterval(n: nat, e: nat, a: nat, j: nat, b: nat)
    requires e < n && a < n && j < n && b < n && b != e && !OnPath(n, a, e, b)
    ensures 1 <= Dist(n, e, a) <= Dist(n, e, b)
    ensures OnPath(n, a, j, b) <==> Dist(n, e, a) <= Dist(n, e, j) < Dist(n, e, b)
  {
  }

  lemma IntervalIsPath(n: nat, e: nat, a: nat, j: nat, b: nat)
    requires e < n && a < n && j < n && b < n && 1 <= Dist(n, e, a) <= Dist(n, e, b)
    ensures OnPath(n, a, j, b) <==> Dist(n, e, a) <= Dist(n, e, j) < Dist(n, e, b)
  {
  }

  lemma Unroll(hash: nat -> nat, t: seq<Entry>, e: nat, x: nat)
    requires e < |t| && !Occ(t[e]) && ProbeChains(hash, t)
    ensures Unrolled(hash, t, Cut(|t|, e), x, x)
  {
    forall i | 0 <= i < |t| && Occ(t[i])
      ensures 1 <= Cut(|t|, e)[Home(hash, |t|, t[i].key)] <= Cut(|t|, e)[i]
    {
      PathIsInterval(|t|, e, Home(hash, |t|, t[i].key), i, i);
    }
    forall i, c | 0 <= i < |t| && 0 <= c < |t| && Occ(t[i]) && !Occ(t[c])
      ensures Gap(hash, t, Cut(|t|, e), x, x, i, c)
    {
      PathIsInterval(|t|, e, Home(hash, |t|, t[i].key), c, i);
    }
  }

  /** When the loop stops at an empty cell, no path is interrupted any more. */
  lemma Reroll(hash: nat -> nat, t: seq<Entry>, e: nat, lo: nat, pj: nat, j: nat)
    requires e < |t| && !Occ(t[e]) && Unrolled(hash, t, Cut(|t|, e), lo, pj)
    requires j < |t| && !Occ(t[j]) && Reached(|t|, e, j, pj)
    ensures ProbeChains(hash, t)
  {
    forall i, c | 0 <= i < |t| && 0 <= c < |t| && Occ(t[i]) && !Occ(t[c])
      ensures !OnPath(|t|, Home(hash, |t|, t[i].key), c, i)
    {
      IntervalIsPath(|t|, e, Home(hash, |t|, t[i].key), c, i);
      assert Gap(hash, t, Cut(|t|, e), lo, pj, i, c) && Gap(hash, t, Cut(|t|, e), lo, pj, i, j);
    }
  }

  /** Freeing the cell of a stored key. */
  lemma FreeCell(hash: nat -> nat, t: seq<Entry>, pos: seq<nat>, h: nat, entry: Entry)
    requires |pos| == |t| && h < |t| && !Occ(entry)
    requires Unrolled(hash, t, pos, pos[h], pos[h])
    ensures Unrolled(hash, t[h := entry], pos, pos[h], pos[h] + 1)
  {
    var t', lo := t[h := entry], pos[h];
    forall i, c | 0 <= i < |t| && 0 <= c < |t| && Occ(t'[i]) && !Occ(t'[c])
      ensures Gap(hash, t', pos, lo, lo + 1, i, c)
    {
      assert t'[i] == t[i] && (c == h || t'[c] == t[c]);
      assert c == h || Gap(hash, t, pos, lo, lo, i, c);
    }
  }

  lemma FreeMirrors(t: seq<Entry>, m: map<nat, Place>, h: nat, entry: Entry)
    requires h < |t| && Occ(t[h]) && !Occ(entry) && Mirrors(t, m)
    ensures Mirrors(t[h := entry], m - {t[h].key})
  {
    var t' := t[h := entry];
    forall k | k in m - {t[h].key}
      ensures Stores(t', k)
    {
      assert Stores(t, k);
      var i :| 0 <= i < |t| && Occ(t[i]) && t[i].key == k;
      assert t'[i] == t[i];
    }
  }

  /** The cell probing chooses for a lifted entry is never beyond the cell it was lifted from. */
  lemma LandsNoLater(hash: nat -> nat, t: seq<Entry>, e: nat, lo: nat, j: nat, k: nat, lifted: Entry)
    requires e < |t| && j < |t| && k < |t| && j != e && Occ(t[j]) && !Occ(lifted) && !Occ(t[e])
    requires Unrolled(hash, t, Cut(|t|, e), lo, Dist(|t|, e, j))
    requires ProbesTo(hash, t[j := lifted], t[j].key, k)
    ensures Dist(|t|, e, Home(hash, |t|, t[j].key)) <= Dist(|t|, e, k) <= Dist(|t|, e, j)
    ensures OnPath(|t|, Home(hash, |t|, t[j].key), k, j) || k == j
  {
    var a := Home(hash, |t|, t[j].key);
    assert t[j := lifted][j] == lifted;
    assert !OnPath(|t|, a, j, k);
    IntervalIsPath(|t|, e, a, k, j);
  }

  /** Lifting the entry of cell j and putting it back where probing stops. */
  lemma Replace(hash: nat -> nat, t: seq<Entry>, e: nat, lo: nat, j: nat, k: nat, lifted: Entry)
    requires e < |t| && j < |t| && k < |t| && j != e && Occ(t[j]) && !Occ(lifted) && !Occ(t[e])
    requires Unrolled(hash, t, Cut(|t|, e), lo, Dist(|t|, e, j)) && lo <= Dist(|t|, e, j)
    requires ProbesTo(hash, t[j := lifted], t[j].key, k) && !Occ(t[j := lifted][k])
    ensures k != e
    ensures Unrolled(hash, t[j := lifted][k := t[j]], Cut(|t|, e), lo, Dist(|t|, e, j) + 1)
  {
    LandsNoLater(hash, t, e, lo, j, k, lifted);
    var t', pj, pos := t[j := lifted][k := t[j]], Dist(|t|, e, j), Cut(|t|, e);
    forall i, c | 0 <= i < |t| && 0 <= c < |t| && Occ(t'[i]) && !Occ(t'[c])
      ensures Gap(hash, t', pos, lo, pj + 1, i, c)
    {
      assert c != k && (c == j || t'[c] == t[c]);
      if i == k {
        IntervalIsPath(|t|, e, Home(hash, |t|, t[j].key), c, k);
      } else {
        assert i != j && t'[i] == t[i];
        assert c == j || Gap(hash, t, pos, lo, pj, i, c);
      }
    }
  }

  /** A lifted key is stored nowhere else, so probing for it stops at an empty cell. */
  lemma FreshAfterLift(t: seq<Entry>, m: map<nat, Place>, j: nat, lifted: Entry, k: nat)
    requires j < |t| && k < |t| && Occ(t[j]) && !Occ(lifted) && Mirrors(t, m)
    requires Occ(t[j := lifted][k]) ==> t[j := lifted][k].key == t[j].key
    ensures !Occ(t[j := lifted][k])
  {
  }

  lemma ReplaceMirrors(t: seq<Entry>, m: map<nat, Place>, j: nat, k: nat, lifted: Entry)
    requires j < |t| && k < |t| && Occ(t[j]) && !Occ(lifted) && !Occ(t[j := lifted][k]) && Mirrors(t, m)
    ensures Mirrors(t[j := lifted][k := t[j]], m)
  {
    var t' := t[j := lifted][k := t[j]];
    forall x | x in m
      ensures Stores(t', x)
    {
      assert Stores(t, x);
      var i :| 0 <= i < |t| && Occ(t[i]) && t[i].key == x;
      assert t'[if i == j then k else i] == t[i];
    }
  }

  /** One re-placement as a whole: table t2 is t with the entry of cell j moved to cell k. */
  lemma Reseated(hash: nat -> nat, t: seq<Entry>, m: map<nat, Place>, e: nat, lo: nat, j: nat, k: nat, lifted: Entry,
                 t2: seq<Entry>, pn: nat)
    requires e < |t| && j < |t| && k < |t| && j != e && Occ(t[j]) && !Occ(lifted) && !Occ(t[e])
    requires lo <= Dist(|t|, e, j) && Mirrors(t, m) && Unrolled(hash, t, Cut(|t|, e), lo, Dist(|t|, e, j))
    requires ProbesTo(hash, t[j := lifted], t[j].key, k) && t2 == t[j := lifted][k := t[j]]
    requires pn == Dist(|t|, e, j) + 1
    ensures |t2| == |t| && !Occ(t2[e]) && Mirrors(t2, m) && Unrolled(hash, t2, Cut(|t2|, e), lo, pn)
    ensures Reached(|t|, e, Next(|t|, j), pn)
  {
    FreshAfterLift(t, m, j, lifted, k);
    Replace(hash, t, e, lo, j, k, lifted);
    ReplaceMirrors(t, m, j, k, lifted);
    NextDist(|t|, e, j);
  }

  /** Freeing a cell as a whole: table t2 is t without the entry of cell h, and only paths over h are interrupted. */
  lemma Vacated(hash: nat -> nat, t: seq<Entry>, m: map<nat, Place>, e: nat, h: nat, freed: Entry, t2: seq<Entry>)
    requires h < |t| && e < |t| && Occ(t[h]) && !Occ(t[e]) && !Occ(freed) && t2 == t[h := freed]
    requires Mirrors(t, m) && ProbeChains(hash, t)
    ensures !Occ(t2[e]) && Mirrors(t2, m - {t[h].key})
    ensures var lo := Dist(|t|, e, h);
            Unrolled(hash, t2, Cut(|t|, e), lo, lo + 1) && Reached(|t|, e, Next(|t|, h), lo + 1)
  {
    Unroll(hash, t, e, Dist(|t|, e, h));
    FreeCell(hash, t, Cut(|t|, e), h, freed);
    FreeMirrors(t, m, h, freed);
    NextDist(|t|, e, h);
  }

  /** Writing a binding into the cell where probing stops keeps every chain and binds the key. */
  lemma PutAt(hash: nat -> nat, t: seq<Entry>, m: map<nat, Place>, id: nat, h: nat, entry: Entry)
    requires |t| > 0 && ProbeChains(hash, t) && Mirrors(t, m) && ProbesTo(hash, t, id, h)
    requires entry.key == id && Occ(entry)
    ensures ProbeChains(hash, t[h := entry])
    ensures Mirrors(t[h := entry], m[id := Place(entry.slot, entry.onBids)])
  {
    ProbeDecides(hash, t, m, id, h);
    var t' := t[h := entry];
    var m' := m[id := Place(entry.slot, entry.onBids)];
    assert t'[h] == entry;
    forall k | k in m'
      ensures Stores(t', k)
    {
      if k != id {
        assert Stores(t, k);
        var i :| 0 <= i < |t| && Occ(t[i]) && t[i].key == k;
        assert t'[i] == t[i];
      }
    }
  }

  class OrderIndex {
    const hash: nat -> nat
    const table: array<Entry>
    ghost var bindings: map<nat, Place>

    ghost predicate Valid()
      reads this, table
    {
      && 1 < table.Length
      && |bindings| < table.Length
      && Mirrors(table[..], bindings)
      && ProbeChains(hash, table[..])
    }

    constructor (size: nat, hash: nat -> nat)
      requires size > 1
      ensures Valid() && fresh(table) && bindings == map[] && table.Length == size && this.hash == hash
    {
      this.hash := hash;
      table := new Entry[size](_ => Entry(0, NULL_IDX, false));
      bindings := map[];
    }

    method Probe(id: nat, ghost e: nat) returns (h: nat)
      requires e < table.Length && !Occ(table[e])
      ensures h < table.Length && ProbesTo(hash, table[..], id, h)
    {
      var n := table.Length;
      h := Home(hash, n, id);
      ghost var a := h;
      while Occ(table[h]) && table[h].key != id
        invariant h < n && Dist(n, a, h) <= Dist(n, a, e)
        invariant forall j :: 0 <= j < n && OnPath(n, a, j, h) ==> Occ(table[j]) && table[j].key != id
        decreases Dist(n, a, e) - Dist(n, a, h)
      {
        h := Next(n, h);
      }
    }

    /** Bind id; the table must be able to keep an empty cell. */
    method Insert(id: nat, slot: nat, onBids: bool) returns (ok: bool)
      requires Valid() && slot != NULL_IDX
      requires id !in bindings ==> |bindings| + 1 < table.Length
      modifies this, table
      ensures Valid() && ok && bindings == old(bindings)[id := Place(slot, onBids)]
    {
      ghost var e := EmptyCell(table[..], bindings);
      var h := Probe(id, e);
      if Occ(table[h]) && table[h].key != id {
        assert false;
      }
      PutAt(hash, table[..], bindings, id, h, Entry(id, slot, onBids));
      table[h] := Entry(id, slot, onBids);
      bindings := bindings[id := Place(slot, onBids)];
      ok := true;
    }

    method Lookup(id: nat) returns (found: bool, slot: nat, onBids: bool)
      requires Valid()
      ensures found <==> id in bindings
      ensures found ==> bindings[id] == Place(slot, onBids)
    {
      ghost var e := EmptyCell(table[..], bindings);
      var h := Probe(id, e);
      ProbeDecides(hash, table[..], bindings, id, h);
      found, slot, onBids := Occ(table[h]), table[h].slot, table[h].onBids;
    }

    /** Lift the entry of cell j and put it back where probing for its key now stops; the next cell is returned. */
    method Reseat(j: nat, ghost m: map<nat, Place>, ghost e: nat, ghost lo: nat, ghost pj: nat)
      returns (next: nat, ghost pn: nat)
      requires j < table.Length && e < table.Length && Occ(table[j]) && !Occ(table[e])
      requires lo <= pj && Reached(table.Length, e, j, pj)
      requires Mirrors(table[..], m) && Unrolled(hash, table[..], Cut(table.Length, e), lo, pj)
      modifies table
      ensures next == Next(table.Length, j) && pn == pj + 1 && Reached(table.Length, e, next, pn)
      ensures !Occ(table[e]) && Mirrors(table[..], m) && Unrolled(hash, table[..], Cut(table.Length, e), lo, pn)
    {
      ghost var t := table[..];
      var entry := table[j];
      table[j] := entry.(slot := NULL_IDX);
      assert table[..] == t[j := entry.(slot := NULL_IDX)];
      var k := Probe(entry.key, e);
      table[k] := entry;
      next, pn := Next(table.Length, j), pj + 1;
      Reseated(hash, t, m, e, lo, j, k, entry.(slot := NULL_IDX), table[..], pn);
    }

    /** Re-place, in ring order, every entry of the cluster that starts at cell first. */
    method CloseGap(first: nat, ghost m: map<nat, Place>, ghost e: nat, ghost lo: nat)
      requires first < table.Length && e < table.Length && !Occ(table[e]) && Reached(table.Length, e, first, lo + 1)
      requires Mirrors(table[..], m) && Unrolled(hash, table[..], Cut(table.Length, e), lo, lo + 1)
      modifies table
      ensures Mirrors(table[..], m) && ProbeChains(hash, table[..])
    {
      var j: nat := first;
      ghost var pj := lo + 1;
      while Occ(table[j])
        invariant j < table.Length && lo < pj && Reached(table.Length, e, j, pj)
        invariant !Occ(table[e])
        invariant Mirrors(table[..], m) && Unrolled(hash, table[..], Cut(table.Length, e), lo, pj)
        decreases table.Length - pj
      {
        j, pj := Reseat(j, m, e, lo, pj);
      }
      Reroll(hash, table[..], e, lo, pj, j);
    }

    /** Free cell h and restore the probe chains behind it. */
    method Vacate(h: nat, ghost e: nat)
      requires h < table.Length && e < table.Length && Occ(table[h]) && !Occ(table[e])
      requires Mirrors(table[..], bindings) && ProbeChains(hash, table[..])
      modifies table
      ensures Mirrors(table[..], bindings - {old(table[h].key)}) && ProbeChains(hash, table[..])
    {
      ghost var t := table[..];
      ghost var freed, lo := Entry(0, NULL_IDX, table[h].onBids), Dist(table.Length, e, h);
      table[h] := Entry(0, NULL_IDX, table[h].onBids);
      Vacated(hash, t, bindings, e, h, freed, table[..]);
      CloseGap(Next(table.Length, h), bindings - {t[h].key}, e, lo);
    }

    /** Unbind id, for any hash and any layout; every other key keeps its binding. */
    method Remove(id: nat) returns (found: bool)
      requires Valid()
      modifies this, table
      ensures Valid() && bindings == old(bindings) - {id}
      ensures found <==> id in old(bindings)
    {
      ghost var e := EmptyCell(table[..], bindings);
      var h := Probe(id, e);
      ProbeDecides(hash, table[..], bindings, id, h);
      ghost var m := bindings - {id};
      if !Occ(table[h]) {
        assert m == bindings;
        return false;
      }
      Vacate(h, e);
      SubsetCard(m.Keys, bindings.Keys);
      bindings := m;
      found := true;
    }
  }
}
