/** The B+ tree index (index/btree/index.go) as a map from keys to record ids. */
module BTreeIndex {
  import opened Options
  import opened BTreePage
  import opened BTreeShape
  import opened BTreeChain
  import opened BTreeLeaf
  import BTreeDir

  /** The whole index invariant over the two files. */
  ghost predicate IndexOk(leaves: Leaves, dirs: Dirs, own: seq<Label>, level: nat, chain: seq<Cell>,
        contents: map<Key, RID>) {
    && ChainOk(leaves, chain)
    && Routed(dirs, own, level, chain)
    && Represents(leaves, chain, contents)
  }

  class Index {
    const leafFile: PageFile<RID>
    const dirFile: PageFile<nat>
    var leaf: BTreeLeaf?
    ghost var own: seq<Label>
    ghost var level: nat
    ghost var chain: seq<Cell>
    ghost var contents: map<Key, RID>

    ghost predicate Valid()
      reads this, leafFile, dirFile
    {
      && leafFile.Valid() && Capacity(leafFile.blockSize, leafFile.slotSize) >= 2
      && dirFile.Valid() && Capacity(dirFile.blockSize, dirFile.slotSize) >= 1
      && IndexOk(leafFile.blocks, dirFile.blocks, own, level, chain, contents)
    }

    /** The cursor stands on a leaf of this index. */
    ghost predicate Positioned()
      reads this, leafFile, leaf
    {
      leaf != null && leaf.file == leafFile && leaf.OnChain(chain)
    }

    /** An entry with the search key lies ahead of the cursor. */
    ghost predicate Pending()
      reads this, leafFile, leaf
      requires Positioned()
    {
      exists i, j :: After(leaf.pos, leaf.currentSlot, i, j) && Match(leafFile.blocks, chain, i, j, leaf.searchKey)
    }

    /** NewIndex: open the stored index, or initialise an empty one on the first use. */
    constructor (leafFile: PageFile<RID>, dirFile: PageFile<nat>,
                 ghost own0: seq<Label>, ghost level0: nat, ghost chain0: seq<Cell>, ghost contents0: map<Key, RID>)
      requires leafFile.Valid() && Capacity(leafFile.blockSize, leafFile.slotSize) >= 2
      requires dirFile.Valid() && Capacity(dirFile.blockSize, dirFile.slotSize) >= 1
      requires if leafFile.blocks == [] then dirFile.blocks == []
               else IndexOk(leafFile.blocks, dirFile.blocks, own0, level0, chain0, contents0)
      modifies leafFile, dirFile
      ensures Valid() && leaf == null
      ensures this.leafFile == leafFile && this.dirFile == dirFile
      ensures contents == if old(leafFile.blocks) == [] then map[] else contents0
      ensures old(leafFile.blocks) != [] ==>
                leafFile.blocks == old(leafFile.blocks) && dirFile.blocks == old(dirFile.blocks)
    {
      this.leafFile := leafFile;
      this.dirFile := dirFile;
      leaf := null;
      own, level, chain, contents := own0, level0, chain0, contents0;
      new;
      if |leafFile.blocks| == 0 {
        var leaf0 := leafFile.Append(RID(0, 0));
        leafFile.Format(leaf0);
        var root := dirFile.Append(0);
        dirFile.Format(root);
        dirFile.SetExtra1(root, 0);
        dirFile.SetExtra2(root, 0);
        own, level, chain, contents := [Label(0, NegInf)], 0, [Cell(0, NegInf, PosInf)], map[];
        EmptyIndex(leafFile.blocks, dirFile.blocks);
      }
    }

    method Close()
      modifies this`leaf
      ensures leaf == null
    {
      leaf := null;
    }

    /** Position before the entry with the search key: it is ahead of the cursor iff it is stored. */
    method BeforeFirst(searchKey: Key)
      requires Valid()
      modifies this`leaf
      ensures Valid() && Positioned() && fresh(leaf) && leaf.searchKey == searchKey
      ensures Pending() <==> searchKey in contents
      ensures unchanged(leafFile) && unchanged(dirFile)
    {
      Close();
      var leafBlkNum := BTreeDir.Search(dirFile, 0, searchKey, own, level, NegInf, PosInf);
      ghost var i := CellOf(chain, searchKey, |chain| - 1);
      assert CellOk(leafFile.blocks, chain, i);
      leaf := new BTreeLeaf(leafFile, leafBlkNum, searchKey, i);
      StartOfKey(leafFile.blocks, chain, contents, searchKey, i, leaf.currentSlot);
    }

    /** The next entry with the search key, if one is ahead; then none is ahead any more. */
    method Next() returns (has: bool)
      requires Valid() && Positioned()
      modifies leaf
      ensures Valid() && Positioned()
      ensures has <==> old(Pending())
      ensures has ==> Match(leafFile.blocks, chain, leaf.pos, leaf.currentSlot, leaf.searchKey)
      ensures !Pending()
    {
      ghost var pos, slot := leaf.pos, leaf.currentSlot;
      has := leaf.Next(chain);
      if has {
        OneMatch(leafFile.blocks, chain, leaf.pos, leaf.currentSlot, leaf.searchKey);
      }
    }

    /** The record id under the cursor is the one stored for the search key. */
    method GetDataRecordID() returns (rid: RID)
      requires Valid() && Positioned()
      requires Match(leafFile.blocks, chain, leaf.pos, leaf.currentSlot, leaf.searchKey)
      ensures leaf.searchKey in contents && rid == contents[leaf.searchKey]
    {
      rid := leaf.GetDataRID(chain);
      assert Entry(leaf.searchKey, rid) in CellSets(leafFile.blocks, chain)[leaf.pos];
      assert Stores(leafFile.blocks, chain, leaf.searchKey, rid);
    }

    /** Insert a pair whose key is not stored yet. */
    method Insert(dataValue: Key, dataRecordID: RID)
      requires Valid() && dataValue !in contents
      modifies this`own, this`level, this`chain, this`contents, leafFile, dirFile
      ensures Valid()
      ensures contents == old(contents)[dataValue := dataRecordID]
    {
      ghost var leaves, dirs := leafFile.blocks, dirFile.blocks;
      var leafBlkNum := BTreeDir.Search(dirFile, 0, dataValue, own, level, NegInf, PosInf);
      ghost var i := CellOf(chain, dataValue, |chain| - 1);
      assert CellOk(leaves, chain, i);
      NotInLeaf(leaves, chain, contents, dataValue, i);
      var cursor := new BTreeLeaf(leafFile, leafBlkNum, dataValue, i);
      var split := cursor.Insert(dataValue, dataRecordID);
      if split.None? {
        InsertedInPlace(leaves, leafFile.blocks, chain, contents, i, dataValue, dataRecordID);
        contents := contents[dataValue := dataRecordID];
        return;
      }
      var s := split.value;
      InsertedWithSplit(leaves, leafFile.blocks, chain, contents, i, dataValue, dataRecordID, s);
      RegisterLeaf(s, i);
      contents := contents[dataValue := dataRecordID];
    }

    /** Propagate a leaf split into the directory, growing a new root when the old one splits. */
    method RegisterLeaf(s: LeafSplit, ghost i: nat)
      requires dirFile.Valid() && Capacity(dirFile.blockSize, dirFile.slotSize) >= 1
      requires Partition(chain) && Routed(dirFile.blocks, own, level, chain) && i < |chain|
      requires Less(chain[i].lo, At(s.key)) && Less(At(s.key), chain[i].hi)
      modifies this`own, this`level, this`chain, dirFile
      ensures dirFile.Valid() && chain == CutChain(old(chain), i, s.key, s.blockNum)
      ensures Routed(dirFile.blocks, own, level, chain)
    {
      ghost var dirs := dirFile.blocks;
      assert Within(chain[i].lo, s.key, chain[i].hi);
      var rootSplit;
      ghost var own1;
      rootSplit, own1 := BTreeDir.Insert(dirFile, 0, s.key, s.blockNum, own, level, NegInf, PosInf);
      ghost var level1 := level;
      if rootSplit.Some? {
        own1 := BTreeDir.MakeNewRoot(dirFile, rootSplit.value, own1, level);
        level1 := level + 1;
      }
      CutRouted(dirs, own, level, dirFile.blocks, own1, level1, chain, i, s.key, s.blockNum);
      own, level, chain := own1, level1, CutChain(chain, i, s.key, s.blockNum);
    }

    /** Delete exactly the given pair, if it is stored. */
    method Delete(dataValue: Key, dataRecordID: RID)
      requires Valid()
      modifies this`leaf, this`contents, leafFile
      ensures Valid() && leaf == null
      ensures contents == if dataValue in old(contents) && old(contents)[dataValue] == dataRecordID
                          then old(contents) - {dataValue} else old(contents)
    {
      BeforeFirst(dataValue);
      while true
        invariant Valid() && Positioned() && fresh(leaf) && leaf.searchKey == dataValue
        invariant contents == old(contents) && leafFile.blocks == old(leafFile.blocks) && chain == old(chain)
        invariant dataValue in contents && contents[dataValue] == dataRecordID ==> Pending()
        decreases Pending()
      {
        var has := Next();
        if !has {
          break;
        }
        var rid := GetDataRecordID();
        if rid == dataRecordID {
          DeleteFound();
          break;
        }
      }
      Close();
    }

    /** Delete the entry under the cursor. */
    method DeleteFound()
      requires Valid() && Positioned()
      requires Match(leafFile.blocks, chain, leaf.pos, leaf.currentSlot, leaf.searchKey)
      modifies this`contents, leafFile
      ensures Valid() && contents == old(contents) - {leaf.searchKey}
    {
      ghost var leaves := leafFile.blocks;
      assert CellOk(leaves, chain, leaf.pos);
      leaf.DeleteCurrent();
      DeletedInPlace(leaves, leafFile.blocks, chain, contents, leaf.pos, leaf.currentSlot);
      contents := contents - {leaf.searchKey};
    }
  }

  lemma EmptyIndex(leaves: Leaves, dirs: Dirs)
    requires |leaves| == 1 && leaves[0].numRecs == 0 && leaves[0].extra1 == -1
    requires |dirs| == 1 && dirs[0].numRecs == 0 && dirs[0].extra1 == 0 && dirs[0].extra2 == 0
    ensures IndexOk(leaves, dirs, [Label(0, NegInf)], 0, [Cell(0, NegInf, PosInf)], map[])
  {
  }

  /** Before the first entry with a key: all entries with that key are ahead. */
  lemma StartOfKey(leaves: Leaves, chain: seq<Cell>, contents: map<Key, RID>, k: Key, i: nat, slot: int)
    requires ChainOk(leaves, chain) && Represents(leaves, chain, contents)
    requires i < |chain| && Within(chain[i].lo, k, chain[i].hi)
    requires slot == CountLT(CellEntries(leaves, chain[i]), k) - 1
    ensures (exists p, q :: After(i, slot, p, q) && Match(leaves, chain, p, q, k)) <==> k in contents
  {
    var E := CellEntries(leaves, chain[i]);
    CountLTBounds(E, k);
    assert CellOk(leaves, chain, i);
    if k in contents {
      assert Stores(leaves, chain, k, contents[k]);
      StoredInCell(leaves, chain, k, contents[k], i);
      var q :| 0 <= q < |E| && E[q] == Entry(k, contents[k]);
      assert After(i, slot, i, q) && Match(leaves, chain, i, q, k);
    }
    forall p, q | Match(leaves, chain, p, q, k) ensures k in contents {
      assert CellEntries(leaves, chain[p])[q] in CellSets(leaves, chain)[p];
      assert Stores(leaves, chain, k, CellEntries(leaves, chain[p])[q].val);
    }
  }

  /** No key is stored at two places. */
  lemma OneMatch(leaves: Leaves, chain: seq<Cell>, p: nat, q: nat, k: Key)
    requires ChainOk(leaves, chain) && Match(leaves, chain, p, q, k)
    ensures forall i, j :: Match(leaves, chain, i, j, k) ==> i == p && j == q
  {
    assert CellOk(leaves, chain, p);
    forall i, j | Match(leaves, chain, i, j, k) ensures i == p && j == q {
      assert CellOk(leaves, chain, i);
    }
  }

  lemma NotInLeaf(leaves: Leaves, chain: seq<Cell>, contents: map<Key, RID>, k: Key, i: nat)
    requires ChainOk(leaves, chain) && Represents(leaves, chain, contents) && i < |chain| && k !in contents
    ensures forall j :: 0 <= j < |CellEntries(leaves, chain[i])| ==> CellEntries(leaves, chain[i])[j].key != k
  {
    forall j | 0 <= j < |CellEntries(leaves, chain[i])| ensures CellEntries(leaves, chain[i])[j].key != k {
      var e := CellEntries(leaves, chain[i])[j];
      assert e in CellSets(leaves, chain)[i];
      assert Stores(leaves, chain, e.key, e.val);
    }
  }

  /** A page widened by a new key stays sorted. */
  lemma WidenedSorted(E: seq<Entry<RID>>, k: Key, rid: RID)
    requires Sorted(E) && forall j :: 0 <= j < |E| ==> E[j].key != k
    ensures Sorted(Widened(E, k, rid))
  {
    var i, W := CountLT(E, k), Widened(E, k, rid);
    CountLTBounds(E, k);
    forall p, q | 0 <= p < q < |W| ensures W[p].key < W[q].key {
      assert p > i ==> W[p] == E[p - 1];
      assert q > i ==> W[q] == E[q - 1];
    }
  }

  /** It gains exactly the new entry. */
  lemma WidenedMembers(E: seq<Entry<RID>>, k: Key, rid: RID)
    ensures forall e :: e in Widened(E, k, rid) <==> e in E || e == Entry(k, rid)
  {
    var i := CountLT(E, k);
    assert E == E[..i] + E[i..];
  }

  lemma WidenedWithin(E: seq<Entry<RID>>, k: Key, rid: RID, lo: Bound, hi: Bound)
    requires Sorted(E) && (forall j :: 0 <= j < |E| ==> E[j].key != k && Within(lo, E[j].key, hi)) && Within(lo, k, hi)
    ensures var W := Widened(E, k, rid); Sorted(W) && forall j :: 0 <= j < |W| ==> Within(lo, W[j].key, hi)
  {
    var W := Widened(E, k, rid);
    WidenedSorted(E, k, rid);
    WidenedMembers(E, k, rid);
    forall j | 0 <= j < |W| ensures Within(lo, W[j].key, hi) {
      assert W[j] in W;
    }
  }

  lemma InsertedInPlace(leaves: Leaves, leaves': Leaves, chain: seq<Cell>, contents: map<Key, RID>, i: nat, k: Key,
        rid: RID)
    requires ChainOk(leaves, chain) && Represents(leaves, chain, contents)
    requires i < |chain| && Within(chain[i].lo, k, chain[i].hi) && k !in contents
    requires CellOk(leaves, chain, i) && LeafInserted(leaves, leaves', chain[i].leaf, k, rid, None)
    ensures ChainOk(leaves', chain)
    ensures Represents(leaves', chain, contents[k := rid])
  {
    NotInLeaf(leaves, chain, contents, k, i);
    assert CellEntries(leaves', chain[i]) == Widened(CellEntries(leaves, chain[i]), k, rid);
    WidenedWithin(CellEntries(leaves, chain[i]), k, rid, chain[i].lo, chain[i].hi);
    RewrittenChain(leaves, leaves', chain, i);
    WidenedMembers(CellEntries(leaves, chain[i]), k, rid);
    assert CellSet(leaves', chain[i]) == CellSet(leaves, chain[i]) + {Entry(k, rid)};
    GainedElement(CellSets(leaves, chain), CellSets(leaves', chain), i, Entry(k, rid));
    PairGained(leaves, leaves', chain, chain, contents, k, rid);
  }

  /** Where a leaf is cut lies strictly inside its cell, and separates the two new pages. */
  lemma CutLeafPages(E: seq<Entry<RID>>, k: Key, rid: RID, lo: Bound, hi: Bound)
    requires |E| >= 2 && Sorted(E) && (forall j :: 0 <= j < |E| ==> E[j].key != k && Within(lo, E[j].key, hi))
             && Within(lo, k, hi)
    ensures var s, m, W := E[|E| / 2].key, CutAt(E, k), Widened(E, k, rid);
            && 0 < m < |W| && W[m].key == s
            && Less(lo, At(s)) && Less(At(s), hi)
            && Sorted(W[..m]) && Sorted(W[m..])
            && (forall j :: 0 <= j < m ==> Within(lo, W[..m][j].key, At(s)))
            && (forall j :: 0 <= j < |W| - m ==> Within(At(s), W[m..][j].key, hi))
  {
    var s, m, W := E[|E| / 2].key, CutAt(E, k), Widened(E, k, rid);
    var i := CountLT(E, k);
    CountLTBounds(E, k);
    WidenedSorted(E, k, rid);
    WidenedMembers(E, k, rid);
    CutIndex(E, k, rid);
    assert E[0].key < s;
    forall j | 0 <= j < |W| ensures Within(lo, W[j].key, hi) {
      assert W[j] in W;
    }
  }

  lemma CutIndex(E: seq<Entry<RID>>, k: Key, rid: RID)
    requires |E| >= 2 && Sorted(E) && (forall j :: 0 <= j < |E| ==> E[j].key != k)
    ensures 0 < CutAt(E, k) <= |E| && Widened(E, k, rid)[CutAt(E, k)] == E[|E| / 2]
  {
    var mid, i, m := |E| / 2, CountLT(E, k), CutAt(E, k);
    CountLTBounds(E, k);
    if k < E[mid].key {
      assert i <= mid;
    } else {
      CountLTSuffix(E, k, mid);
      assert i > mid;
    }
  }

  lemma InsertedWithSplit(leaves: Leaves, leaves': Leaves, chain: seq<Cell>, contents: map<Key, RID>, i: nat, k: Key,
        rid: RID, s: LeafSplit)
    requires ChainOk(leaves, chain) && Represents(leaves, chain, contents)
    requires i < |chain| && Within(chain[i].lo, k, chain[i].hi) && k !in contents
    requires CellOk(leaves, chain, i) && LeafInserted(leaves, leaves', chain[i].leaf, k, rid, Some(s))
    ensures Less(chain[i].lo, At(s.key)) && Less(At(s.key), chain[i].hi)
    ensures ChainOk(leaves', CutChain(chain, i, s.key, s.blockNum))
    ensures Represents(leaves', CutChain(chain, i, s.key, s.blockNum), contents[k := rid])
  {
    NotInLeaf(leaves, chain, contents, k, i);
    NewPagesOk(leaves, leaves', chain[i], Sibling(chain, i), k, rid, s);
    SplitChain(leaves, leaves', chain, i, s.key);
    CutCellSets(leaves, leaves', chain[i], Cell(chain[i].leaf, chain[i].lo, At(s.key)),
        Cell(s.blockNum, At(s.key), chain[i].hi), k, rid, s);
    CutPairs(leaves, leaves', chain, contents, i, k, rid, s);
  }

  lemma CutPairs(leaves: Leaves, leaves': Leaves, chain: seq<Cell>, contents: map<Key, RID>, i: nat, k: Key, rid: RID,
        s: LeafSplit)
    requires Represents(leaves, chain, contents) && i < |chain| && k !in contents
    requires CellSet(leaves', Cell(chain[i].leaf, chain[i].lo, At(s.key)))
             + CellSet(leaves', Cell(s.blockNum, At(s.key), chain[i].hi))
             == CellSet(leaves, chain[i]) + {Entry(k, rid)}
    requires forall p :: 0 <= p < |chain| && p != i ==> CellSet(leaves', chain[p]) == CellSet(leaves, chain[p])
    ensures Represents(leaves', CutChain(chain, i, s.key, s.blockNum), contents[k := rid])
  {
    var r := CutChain(chain, i, s.key, s.blockNum);
    CutElement(CellSets(leaves, chain), CellSets(leaves', r), i, Entry(k, rid));
    PairGained(leaves, leaves', chain, r, contents, k, rid);
  }

  /** The page that was split and its new sibling are well-formed leaves of the two halves of the cell. */
  lemma NewPagesOk(leaves: Leaves, leaves': Leaves, c: Cell, sibling: int, k: Key, rid: RID, s: LeafSplit)
    requires LeafOk(leaves, c, sibling) && Within(c.lo, k, c.hi)
    requires LeafInserted(leaves, leaves', c.leaf, k, rid, Some(s))
    requires forall j :: 0 <= j < |CellEntries(leaves, c)| ==> CellEntries(leaves, c)[j].key != k
    ensures Less(c.lo, At(s.key)) && Less(At(s.key), c.hi)
    ensures LeafOk(leaves', Cell(c.leaf, c.lo, At(s.key)), s.blockNum)
    ensures LeafOk(leaves', Cell(s.blockNum, At(s.key), c.hi), sibling)
    ensures 0 < CutAt(CellEntries(leaves, c), k) <= |CellEntries(leaves, c)|
  {
    CutLeafPages(CellEntries(leaves, c), k, rid, c.lo, c.hi);
  }

  /** The two new pages together hold the old entries and the new one. */
  lemma CutCellSets(leaves: Leaves, leaves': Leaves, c: Cell, low: Cell, high: Cell, k: Key, rid: RID, s: LeafSplit)
    requires 0 <= c.leaf < |leaves| && leaves[c.leaf].numRecs <= |leaves[c.leaf].slots|
    requires LeafInserted(leaves, leaves', c.leaf, k, rid, Some(s))
    requires low.leaf == c.leaf && high.leaf == s.blockNum
    requires forall j :: 0 <= j < |CellEntries(leaves, c)| ==> CellEntries(leaves, c)[j].key != k
    requires 0 < CutAt(CellEntries(leaves, c), k) <= |CellEntries(leaves, c)|
    ensures CellSet(leaves', low) + CellSet(leaves', high) == CellSet(leaves, c) + {Entry(k, rid)}
  {
    var E := CellEntries(leaves, c);
    var W, m := Widened(E, k, rid), CutAt(E, k);
    assert CellEntries(leaves', low) == W[..m] && CellEntries(leaves', high) == W[m..];
    forall e ensures e in W[..m] || e in W[m..] <==> e in W {
      assert W == W[..m] + W[m..];
    }
    WidenedMembers(E, k, rid);
  }

  lemma PairGained(leaves: Leaves, leaves': Leaves, chain: seq<Cell>, chain': seq<Cell>, contents: map<Key, RID>,
        k: Key, rid: RID)
    requires Represents(leaves, chain, contents) && k !in contents
    requires forall e :: InSome(CellSets(leaves', chain'), e) <==>
               InSome(CellSets(leaves, chain), e) || e == Entry(k, rid)
    ensures Represents(leaves', chain', contents[k := rid])
  {
    forall x, r ensures Stores(leaves', chain', x, r) <==> x in contents[k := rid] && contents[k := rid][x] == r {
      assert Stores(leaves', chain', x, r) <==> Stores(leaves, chain, x, r) || Entry(x, r) == Entry(k, rid);
    }
  }

  lemma PairLost(leaves: Leaves, leaves': Leaves, chain: seq<Cell>, contents: map<Key, RID>, k: Key, rid: RID)
    requires Represents(leaves, chain, contents) && k in contents && contents[k] == rid
    requires forall e :: InSome(CellSets(leaves', chain), e) <==>
               InSome(CellSets(leaves, chain), e) && e != Entry(k, rid)
    ensures Represents(leaves', chain, contents - {k})
  {
    forall x, r ensures Stores(leaves', chain, x, r) <==> x in contents - {k} && (contents - {k})[x] == r {
      assert Stores(leaves', chain, x, r) <==> Stores(leaves, chain, x, r) && Entry(x, r) != Entry(k, rid);
    }
  }

  /** Removing one entry from one leaf removes exactly that pair. */
  lemma DeletedInPlace(leaves: Leaves, leaves': Leaves, chain: seq<Cell>, contents: map<Key, RID>, i: nat, j: nat)
    requires ChainOk(leaves, chain) && Represents(leaves, chain, contents)
    requires i < |chain| && CellOk(leaves, chain, i) && j < |CellEntries(leaves, chain[i])|
    requires |leaves'| == |leaves| && forall b :: 0 <= b < |leaves| && b != chain[i].leaf ==> leaves'[b] == leaves[b]
    requires leaves'[chain[i].leaf].numRecs <= |leaves'[chain[i].leaf].slots|
    requires leaves'[chain[i].leaf].extra1 == leaves[chain[i].leaf].extra1
    requires Entries(leaves'[chain[i].leaf]) == RemoveAt(CellEntries(leaves, chain[i]), j)
    ensures ChainOk(leaves', chain)
    ensures Represents(leaves', chain, contents - {CellEntries(leaves, chain[i])[j].key})
  {
    var E := CellEntries(leaves, chain[i]);
    RemovedWithin(E, j, chain[i].lo, chain[i].hi);
    RewrittenChain(leaves, leaves', chain, i);
    OnlyInLeaf(leaves, chain, i, E[j]);
    RemovedSet(E, j);
    assert CellSet(leaves', chain[i]) == CellSet(leaves, chain[i]) - {E[j]};
    LostPairs(leaves, leaves', chain, contents, i, E[j]);
  }

  lemma RemovedWithin(E: seq<Entry<RID>>, j: nat, lo: Bound, hi: Bound)
    requires Sorted(E) && j < |E| && forall p :: 0 <= p < |E| ==> Within(lo, E[p].key, hi)
    ensures var R := RemoveAt(E, j); Sorted(R) && forall p :: 0 <= p < |R| ==> Within(lo, R[p].key, hi)
  {
    var R := RemoveAt(E, j);
    assert forall p :: 0 <= p < |R| ==> R[p] == E[if p < j then p else p + 1];
  }

  lemma RemovedSet(E: seq<Entry<RID>>, j: nat)
    requires Sorted(E) && j < |E|
    ensures (set e | e in RemoveAt(E, j)) == (set e | e in E) - {E[j]}
  {
    forall e ensures e in RemoveAt(E, j) <==> e in E && e != E[j] {
      RemovedEntry(E, j, e);
    }
  }

  /** An entry is in no other cell: its key is not inside their intervals. */
  lemma OnlyInLeaf(leaves: Leaves, chain: seq<Cell>, i: nat, e: Entry<RID>)
    requires ChainOk(leaves, chain) && i < |chain| && Within(chain[i].lo, e.key, chain[i].hi)
    ensures forall p :: 0 <= p < |chain| && p != i ==> e !in CellSet(leaves, chain[p])
  {
    forall p | 0 <= p < |chain| && p != i ensures e !in CellSet(leaves, chain[p]) {
      assert CellOk(leaves, chain, p);
    }
  }

  lemma LostPairs(leaves: Leaves, leaves': Leaves, chain: seq<Cell>, contents: map<Key, RID>, i: nat, e: Entry<RID>)
    requires Represents(leaves, chain, contents) && i < |chain| && e in CellSet(leaves, chain[i])
    requires CellSet(leaves', chain[i]) == CellSet(leaves, chain[i]) - {e}
    requires forall p :: 0 <= p < |chain| && p != i ==> CellSet(leaves', chain[p]) == CellSet(leaves, chain[p])
    requires forall p :: 0 <= p < |chain| && p != i ==> e !in CellSet(leaves, chain[p])
    ensures Represents(leaves', chain, contents - {e.key})
  {
    LostElement(CellSets(leaves, chain), CellSets(leaves', chain), i, e);
    assert e in CellSets(leaves, chain)[i];
    assert Stores(leaves, chain, e.key, e.val);
    PairLost(leaves, leaves', chain, contents, e.key, e.val);
  }

  lemma RemovedEntry(E: seq<Entry<RID>>, j: nat, e: Entry<RID>)
    requires Sorted(E) && j < |E|
    ensures e in RemoveAt(E, j) <==> e in E && e != E[j]
  {
    var R := RemoveAt(E, j);
    if e in R {
      var p :| 0 <= p < |R| && R[p] == e;
      assert E[if p < j then p else p + 1] == e;
    }
    if e in E && e != E[j] {
      var p :| 0 <= p < |E| && E[p] == e;
      assert R[if p < j then p else p - 1] == e;
    }
  }
}
