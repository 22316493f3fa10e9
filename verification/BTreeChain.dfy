/** The leaves of the B+ tree as a chain of cells, and the (key, record id) pairs they store. */
module BTreeChain {
  import opened BTreePage
  import opened BTreeShape

  datatype RID = RID(blockNumber: int, slot: int)

  type Leaves = seq<Block<RID>>

  /** The cells partition the key space, in order. */
  ghost predicate Partition(chain: seq<Cell>) {
    && |chain| > 0
    && chain[0].lo == NegInf && chain[|chain| - 1].hi == PosInf
    && (forall i :: 0 <= i < |chain| ==> Less(chain[i].lo, chain[i].hi))
    && (forall i, j :: 0 <= i && j == i + 1 < |chain| ==> chain[i].hi == chain[j].lo)
    && (forall i, j :: 0 <= i < j < |chain| ==> Leq(chain[i].hi, chain[j].lo))
  }

  /** The sibling pointer the leaf of cell i must hold. */
  function Sibling(chain: seq<Cell>, i: nat): int
    requires i < |chain|
  {
    if i + 1 < |chain| then chain[i + 1].leaf else -1
  }

  /** One leaf page: sorted, distinct keys of its own cell, and the right sibling pointer. */
  ghost predicate LeafOk(leaves: Leaves, c: Cell, sibling: int) {
    && 0 <= c.leaf < |leaves|
    && leaves[c.leaf].numRecs <= |leaves[c.leaf].slots|
    && Sorted(Entries(leaves[c.leaf]))
    && (forall j :: 0 <= j < |Entries(leaves[c.leaf])| ==> Within(c.lo, Entries(leaves[c.leaf])[j].key, c.hi))
    && leaves[c.leaf].extra1 == sibling
  }

  ghost predicate CellOk(leaves: Leaves, chain: seq<Cell>, i: nat)
    requires i < |chain|
  {
    LeafOk(leaves, chain[i], Sibling(chain, i))
  }

  ghost predicate ChainOk(leaves: Leaves, chain: seq<Cell>) {
    && Partition(chain)
    && (forall i :: 0 <= i < |chain| ==> CellOk(leaves, chain, i))
    && (forall i, j :: 0 <= i < j < |chain| ==> chain[i].leaf != chain[j].leaf)
  }

  /** The entries on the page of a cell. */
  ghost function CellEntries(leaves: Leaves, c: Cell): seq<Entry<RID>>
  {
    if 0 <= c.leaf < |leaves| && leaves[c.leaf].numRecs <= |leaves[c.leaf].slots| then Entries(leaves[c.leaf]) else []
  }

  /** The set of entries on the page of a cell. */
  ghost function CellSet(leaves: Leaves, c: Cell): set<Entry<RID>> {
    set e | e in CellEntries(leaves, c)
  }

  ghost function CellSets(leaves: Leaves, chain: seq<Cell>): (r: seq<set<Entry<RID>>>)
    ensures |r| == |chain| && forall i :: 0 <= i < |chain| ==> r[i] == CellSet(leaves, chain[i])
  {
    seq(|chain|, i requires 0 <= i < |chain| => CellSet(leaves, chain[i]))
  }

  ghost predicate InSome<T>(sets: seq<set<T>>, x: T) {
    exists i :: 0 <= i < |sets| && x in sets[i]
  }

  /** The pair is stored on some leaf of the chain. */
  ghost predicate Stores(leaves: Leaves, chain: seq<Cell>, k: Key, rid: RID) {
    InSome(CellSets(leaves, chain), Entry(k, rid))
  }

  /** The chain stores exactly the pairs of a map. */
  ghost predicate Represents(leaves: Leaves, chain: seq<Cell>, contents: map<Key, RID>) {
    forall k, rid :: Stores(leaves, chain, k, rid) <==> k in contents && contents[k] == rid
  }

  /** The directory looks every key up in the cell that contains it. */
  ghost predicate Routed(dirs: Dirs, own: seq<Label>, level: nat, chain: seq<Cell>) {
    && TreeOk(dirs, own, 0, level, NegInf, PosInf)
    && forall i, k :: 0 <= i < |chain| && Within(chain[i].lo, k, chain[i].hi) ==>
         Descend(dirs, own, 0, level, NegInf, PosInf, k) == chain[i]
  }

  /** Some cell contains a key. */
  lemma {:induction false} CellOf(chain: seq<Cell>, k: Key, n: nat) returns (i: nat)
    requires Partition(chain) && n < |chain| && Less(At(k), chain[n].hi)
    ensures i < |chain| && Within(chain[i].lo, k, chain[i].hi)
  {
    if Leq(chain[n].lo, At(k)) {
      i := n;
    } else {
      assert n > 0;
      i := CellOf(chain, k, n - 1);
    }
  }

  /** A stored key is stored in the cell that contains it, and under one record id only. */
  lemma StoredInCell(leaves: Leaves, chain: seq<Cell>, k: Key, rid: RID, i: nat)
    requires ChainOk(leaves, chain) && i < |chain| && Within(chain[i].lo, k, chain[i].hi)
    ensures Stores(leaves, chain, k, rid) <==> Entry(k, rid) in CellSet(leaves, chain[i])
  {
    if Stores(leaves, chain, k, rid) {
      var j :| 0 <= j < |chain| && Entry(k, rid) in CellSets(leaves, chain)[j];
      assert CellOk(leaves, chain, j);
      assert Within(chain[j].lo, k, chain[j].hi);
    }
    if Entry(k, rid) in CellSet(leaves, chain[i]) {
      assert Entry(k, rid) in CellSets(leaves, chain)[i];
    }
  }

  /** One set gained an element. */
  lemma GainedElement<T>(S: seq<set<T>>, S': seq<set<T>>, i: nat, x: T)
    requires |S'| == |S| && i < |S| && S'[i] == S[i] + {x}
    requires forall p :: 0 <= p < |S| && p != i ==> S'[p] == S[p]
    ensures forall y :: InSome(S', y) <==> InSome(S, y) || y == x
  {
    forall y ensures InSome(S', y) <==> InSome(S, y) || y == x {
      if InSome(S, y) {
        var p :| 0 <= p < |S| && y in S[p];
        assert y in S'[p];
      }
      assert x in S'[i];
    }
  }

  /** One set lost an element that no other set contains. */
  lemma LostElement<T>(S: seq<set<T>>, S': seq<set<T>>, i: nat, x: T)
    requires |S'| == |S| && i < |S| && S'[i] == S[i] - {x}
    requires forall p :: 0 <= p < |S| && p != i ==> S'[p] == S[p] && x !in S[p]
    ensures forall y :: InSome(S', y) <==> InSome(S, y) && y != x
  {
    forall y ensures InSome(S', y) <==> InSome(S, y) && y != x {
      if InSome(S, y) && y != x {
        var p :| 0 <= p < |S| && y in S[p];
        assert y in S'[p];
      }
    }
  }

  /** One set gained an element and was cut in two. */
  lemma CutElement<T>(S: seq<set<T>>, S': seq<set<T>>, i: nat, x: T)
    requires |S'| == |S| + 1 && i < |S| && S'[i] + S'[i + 1] == S[i] + {x}
    requires forall p :: 0 <= p < i ==> S'[p] == S[p]
    requires forall p :: i + 1 < p < |S'| ==> S'[p] == S[p - 1]
    ensures forall y :: InSome(S', y) <==> InSome(S, y) || y == x
  {
    forall y ensures InSome(S', y) <==> InSome(S, y) || y == x {
      assert y in S[i] + {x} <==> y in S'[i] || y in S'[i + 1];
      if InSome(S, y) {
        var p :| 0 <= p < |S| && y in S[p];
        assert p < i ==> y in S'[p];
        assert p > i ==> y in S'[p + 1];
      }
      if InSome(S', y) {
        var p :| 0 <= p < |S'| && y in S'[p];
        assert p < i ==> y in S[p];
        assert p > i + 1 ==> y in S[p - 1];
      }
    }
  }

  /** The chain with cell i cut at s, the upper part going to a new leaf. */
  function CutChain(chain: seq<Cell>, i: nat, s: Key, newLeaf: int): (r: seq<Cell>)
    requires i < |chain|
    ensures |r| == |chain| + 1
    ensures forall p :: 0 <= p < i ==> r[p] == chain[p]
    ensures r[i] == Cell(chain[i].leaf, chain[i].lo, At(s))
    ensures r[i + 1] == Cell(newLeaf, At(s), chain[i].hi)
    ensures forall p :: i + 1 < p < |r| ==> r[p] == chain[p - 1]
  {
    chain[..i] + [Cell(chain[i].leaf, chain[i].lo, At(s)), Cell(newLeaf, At(s), chain[i].hi)] + chain[i + 1..]
  }

  lemma CutPartition(chain: seq<Cell>, i: nat, s: Key, newLeaf: int)
    requires Partition(chain) && i < |chain|
    requires Less(chain[i].lo, At(s)) && Less(At(s), chain[i].hi)
    ensures Partition(CutChain(chain, i, s, newLeaf))
  {
    var r := CutChain(chain, i, s, newLeaf);
    forall p, q | 0 <= p < q < |r| ensures Leq(r[p].hi, r[q].lo) {
      if p == i + 1 {
        assert Leq(chain[i].hi, chain[q - 1].lo);
      } else if q == i + 1 && p < i {
        assert Leq(chain[p].hi, chain[i].lo);
      }
    }
  }

  /** Cutting the routing of the directory and cutting the chain are the same cut. */
  lemma CutRouted(dirs: Dirs, own: seq<Label>, level: nat, dirs': Dirs, own': seq<Label>, level': nat,
                  chain: seq<Cell>, i: nat, s: Key, newLeaf: int)
    requires Partition(chain) && Routed(dirs, own, level, chain) && i < |chain|
    requires Less(chain[i].lo, At(s)) && Less(At(s), chain[i].hi)
    requires TreeOk(dirs', own', 0, level', NegInf, PosInf)
    requires forall k :: Descend(dirs', own', 0, level', NegInf, PosInf, k)
                      == Recut(Descend(dirs, own, 0, level, NegInf, PosInf, k),
                               Descend(dirs, own, 0, level, NegInf, PosInf, s), s, newLeaf, k)
    ensures Routed(dirs', own', level', CutChain(chain, i, s, newLeaf))
  {
    var r := CutChain(chain, i, s, newLeaf);
    assert Within(chain[i].lo, s, chain[i].hi);
    forall p, k | 0 <= p < |r| && Within(r[p].lo, k, r[p].hi)
      ensures Descend(dirs', own', 0, level', NegInf, PosInf, k) == r[p]
    {
      var q := if p <= i then p else p - 1;
      assert Within(chain[q].lo, k, chain[q].hi);
      if q < i {
        assert Leq(chain[q].hi, chain[i].lo);
      } else if q > i {
        assert Leq(chain[i].hi, chain[q].lo);
      }
    }
  }

  /** The leaf of cell i was rewritten in place with the entries W. */
  lemma RewrittenChain(leaves: Leaves, leaves': Leaves, chain: seq<Cell>, i: nat)
    requires ChainOk(leaves, chain) && i < |chain| && |leaves'| == |leaves|
    requires forall b :: 0 <= b < |leaves| && b != chain[i].leaf ==> leaves'[b] == leaves[b]
    requires LeafOk(leaves', chain[i], Sibling(chain, i))
    ensures ChainOk(leaves', chain)
    ensures forall p :: 0 <= p < |chain| && p != i ==> CellSet(leaves', chain[p]) == CellSet(leaves, chain[p])
  {
    assert CellOk(leaves', chain, i);
    forall p | 0 <= p < |chain| && p != i
      ensures CellOk(leaves', chain, p) && CellSet(leaves', chain[p]) == CellSet(leaves, chain[p])
    {
      OtherLeaf(leaves, leaves', chain, i, p);
    }
  }

  /** The leaf of cell i was split: the lower entries stay, the upper ones go to a new block. */
  lemma SplitChain(leaves: Leaves, leaves': Leaves, chain: seq<Cell>, i: nat, s: Key)
    requires ChainOk(leaves, chain) && i < |chain| && |leaves'| == |leaves| + 1
    requires forall b :: 0 <= b < |leaves| && b != chain[i].leaf ==> leaves'[b] == leaves[b]
    requires Less(chain[i].lo, At(s)) && Less(At(s), chain[i].hi)
    requires LeafOk(leaves', Cell(chain[i].leaf, chain[i].lo, At(s)), |leaves|)
    requires LeafOk(leaves', Cell(|leaves|, At(s), chain[i].hi), Sibling(chain, i))
    ensures ChainOk(leaves', CutChain(chain, i, s, |leaves|))
    ensures forall p :: 0 <= p < |chain| && p != i ==> CellSet(leaves', chain[p]) == CellSet(leaves, chain[p])
  {
    var r := CutChain(chain, i, s, |leaves|);
    CutPartition(chain, i, s, |leaves|);
    forall p | 0 <= p < |chain| && p != i
      ensures CellSet(leaves', chain[p]) == CellSet(leaves, chain[p])
    {
      OtherLeaf(leaves, leaves', chain, i, p);
    }
    forall p | 0 <= p < |r|
      ensures CellOk(leaves', r, p)
    {
      CutLeafOk(leaves, leaves', chain, i, s, p);
    }
    forall p | 0 <= p < |chain| ensures chain[p].leaf < |leaves| {
      assert CellOk(leaves, chain, p);
    }
    CutDistinct(chain, i, s, |leaves|);
  }

  lemma CutLeafOk(leaves: Leaves, leaves': Leaves, chain: seq<Cell>, i: nat, s: Key, p: nat)
    requires ChainOk(leaves, chain) && i < |chain| && |leaves'| == |leaves| + 1 && p <= |chain|
    requires forall b :: 0 <= b < |leaves| && b != chain[i].leaf ==> leaves'[b] == leaves[b]
    requires LeafOk(leaves', Cell(chain[i].leaf, chain[i].lo, At(s)), |leaves|)
    requires LeafOk(leaves', Cell(|leaves|, At(s), chain[i].hi), Sibling(chain, i))
    ensures var r := CutChain(chain, i, s, |leaves|);
            LeafOk(leaves', r[p], Sibling(r, p))
  {
    var r := CutChain(chain, i, s, |leaves|);
    if p < i {
      OtherLeaf(leaves, leaves', chain, i, p);
      assert Sibling(r, p) == Sibling(chain, p);
    } else if p > i + 1 {
      OtherLeaf(leaves, leaves', chain, i, p - 1);
      assert Sibling(r, p) == Sibling(chain, p - 1);
    } else {
      assert p == i + 1 ==> Sibling(r, p) == Sibling(chain, i);
    }
  }

  lemma OtherLeaf(leaves: Leaves, leaves': Leaves, chain: seq<Cell>, i: nat, p: nat)
    requires ChainOk(leaves, chain) && i < |chain| && p < |chain| && p != i && |leaves| <= |leaves'|
    requires forall b :: 0 <= b < |leaves| && b != chain[i].leaf ==> leaves'[b] == leaves[b]
    ensures LeafOk(leaves', chain[p], Sibling(chain, p))
    ensures CellSet(leaves', chain[p]) == CellSet(leaves, chain[p])
  {
    assert CellOk(leaves, chain, p);
    assert chain[p].leaf != chain[i].leaf;
  }

  lemma CutDistinct(chain: seq<Cell>, i: nat, s: Key, newLeaf: int)
    requires i < |chain|
    requires forall p, q :: 0 <= p < q < |chain| ==> chain[p].leaf != chain[q].leaf
    requires forall p :: 0 <= p < |chain| ==> chain[p].leaf < newLeaf
    ensures var r := CutChain(chain, i, s, newLeaf);
            forall p, q :: 0 <= p < q < |r| ==> r[p].leaf != r[q].leaf
  {
    var r := CutChain(chain, i, s, newLeaf);
    forall p, q | 0 <= p < q < |r| ensures r[p].leaf != r[q].leaf {
      var p', q' := if p <= i then p else p - 1, if q <= i then q else q - 1;
      if p == i + 1 {
        assert r[q] == chain[q'];
      } else if q != i + 1 {
        assert r[p].leaf == chain[p'].leaf && r[q].leaf == chain[q'].leaf;
      }
    }
  }
}
