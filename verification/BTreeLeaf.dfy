/** The leaf cursor of the B+ tree (index/btree/leaf.go): search along the sibling chain, insertion
    with a midpoint split, deletion of the current entry. */
module BTreeLeaf {
  import opened Options
  import opened BTreePage
  import opened BTreeShape
  import opened BTreeChain

  datatype LeafSplit = LeafSplit(key: Key, blockNum: nat)

  /** Position (i, j) of the chain comes after position (pos, slot). */
  predicate After(pos: int, slot: int, i: int, j: int) {
    i > pos || (i == pos && j > slot)
  }

  /** Position (i, j) of the chain holds an entry with a key. */
  ghost predicate Match(leaves: Leaves, chain: seq<Cell>, i: int, j: int, k: Key) {
    0 <= i < |chain| && 0 <= j < |CellEntries(leaves, chain[i])| && CellEntries(leaves, chain[i])[j].key == k
  }

  /** No entry strictly after position (p0, s0) and before position (p, s) has the key. */
  ghost predicate Skipped(leaves: Leaves, chain: seq<Cell>, p0: int, s0: int, p: int, s: int, k: Key) {
    forall i, j :: After(p0, s0, i, j) && !After(p, s - 1, i, j) ==> !Match(leaves, chain, i, j, k)
  }

  /** The page as it would be if it could hold one more: the entry before every key that is not below it. */
  function Widened(E: seq<Entry<RID>>, key: Key, rid: RID): seq<Entry<RID>> {
    InsertAt(E, CountLT(E, key), Entry(key, rid))
  }

  /** What leaf insertion leaves behind, compared with one unbounded page. */
  ghost predicate LeafInserted(before: Leaves, after: Leaves, blk: nat, key: Key, rid: RID, split: Option<LeafSplit>)
    requires blk < |before| && before[blk].numRecs <= |before[blk].slots|
  {
    var E := Entries(before[blk]);
    var W := Widened(E, key, rid);
    && |before| <= |after|
    && after[blk].numRecs <= |after[blk].slots|
    && (forall b :: 0 <= b < |before| && b != blk ==> after[b] == before[b])
    && (match split
        case None => |after| == |before| && Entries(after[blk]) == W && after[blk].extra1 == before[blk].extra1
        case Some(e) =>
          && |E| >= 2 && |after| == |before| + 1
          && e == LeafSplit(E[|E| / 2].key, |before|)
          && after[e.blockNum].numRecs <= |after[e.blockNum].slots|
          && Entries(after[blk]) == W[..CutAt(E, key)]
          && Entries(after[e.blockNum]) == W[CutAt(E, key)..]
          && after[blk].extra1 == e.blockNum
          && after[e.blockNum].extra1 == before[blk].extra1)
  }

  /** The same, page by page, whatever the order of the old entries: the page with the entry in its place,
      or its two halves, one of them with the entry. */
  ghost predicate LeafHalves(before: Leaves, after: Leaves, blk: nat, key: Key, rid: RID, split: Option<LeafSplit>)
    requires blk < |before| && before[blk].numRecs <= |before[blk].slots|
  {
    var E := Entries(before[blk]);
    && |before| <= |after|
    && after[blk].numRecs <= |after[blk].slots|
    && (forall b :: 0 <= b < |before| && b != blk ==> after[b] == before[b])
    && (match split
        case None => |after| == |before| && Entries(after[blk]) == Widened(E, key, rid)
            && after[blk].extra1 == before[blk].extra1
        case Some(e) =>
          && |E| >= 2 && |after| == |before| + 1
          && e == LeafSplit(E[|E| / 2].key, |before|)
          && after[e.blockNum].numRecs <= |after[e.blockNum].slots|
          && Entries(after[blk]) == LeftHalf(E, key, rid) && Entries(after[e.blockNum]) == RightHalf(E, key, rid)
          && after[blk].extra1 == e.blockNum
          && after[e.blockNum].extra1 == before[blk].extra1)
  }

  function LeftHalf(E: seq<Entry<RID>>, key: Key, rid: RID): seq<Entry<RID>>
    requires |E| > 0
  {
    if key < E[|E| / 2].key then Widened(E[..|E| / 2], key, rid) else E[..|E| / 2]
  }

  function RightHalf(E: seq<Entry<RID>>, key: Key, rid: RID): seq<Entry<RID>>
    requires |E| > 0
  {
    if key < E[|E| / 2].key then E[|E| / 2..] else Widened(E[|E| / 2..], key, rid)
  }

  class BTreeLeaf {
    const file: PageFile<RID>
    const searchKey: Key
    var page: nat
    var currentSlot: int
    ghost var pos: nat

    /** The cursor stands on the leaf of cell pos. */
    ghost predicate OnChain(chain: seq<Cell>)
      reads this, file
    {
      file.Valid() && ChainOk(file.blocks, chain) && pos < |chain|
      && chain[pos].leaf == page < |file.blocks| && currentSlot >= -1
    }

    constructor (file: PageFile<RID>, block: nat, searchKey: Key, ghost pos: nat)
      requires file.Valid() && block < |file.blocks|
      ensures this.file == file && this.searchKey == searchKey && page == block && this.pos == pos
      ensures currentSlot == CountLT(Entries(file.blocks[block]), searchKey) - 1
    {
      this.file := file;
      this.searchKey := searchKey;
      this.page := block;
      this.pos := pos;
      this.currentSlot := 0;
      new;
      currentSlot := file.FindLeafSlot(block, searchKey);
    }

    /** Advance to the next entry with the search key, following siblings over empty leaves too. */
    method Next(ghost chain: seq<Cell>) returns (found: bool)
      requires OnChain(chain)
      modifies this
      ensures OnChain(chain)
      ensures pos > old(pos) || (pos == old(pos) && currentSlot > old(currentSlot))
      ensures found ==> Match(file.blocks, chain, pos, currentSlot, searchKey)
      ensures !found ==> forall i, j :: After(old(pos), old(currentSlot), i, j) ==>
                !Match(file.blocks, chain, i, j, searchKey)
    {
      ghost var leaves := file.blocks;
      currentSlot := currentSlot + 1;
      while true
        invariant OnChain(chain) && currentSlot >= 0
        invariant pos > old(pos) || (pos == old(pos) && currentSlot > old(currentSlot))
        invariant Skipped(file.blocks, chain, old(pos), old(currentSlot), pos, currentSlot, searchKey)
        decreases |chain| - pos, file.blocks[page].numRecs - currentSlot
      {
        assert CellOk(file.blocks, chain, pos);
        ghost var E := CellEntries(file.blocks, chain[pos]);
        var n := file.blocks[page].numRecs;
        if currentSlot < n {
          var val := file.blocks[page].slots[currentSlot].key;
          assert E[currentSlot].key == val;
          if val == searchKey {
            return true;
          }
          if val > searchKey {
            NothingAhead(file.blocks, chain, pos, currentSlot, searchKey);
            return false;
          }
          currentSlot := currentSlot + 1;
          continue;
        }
        var sibling := file.blocks[page].extra1;
        if sibling < 0 {
          assert pos == |chain| - 1 by { LastCell(file.blocks, chain, pos); }
          return false;
        }
        LastCell(file.blocks, chain, pos);
        assert CellOk(file.blocks, chain, pos + 1);
        pos := pos + 1;
        page := sibling;
        currentSlot := 0;
        assert CellOk(file.blocks, chain, pos);
      }
    }

    /** The record id of the current entry. */
    method GetDataRID(ghost chain: seq<Cell>) returns (rid: RID)
      requires OnChain(chain) && Match(file.blocks, chain, pos, currentSlot, searchKey)
      ensures Entry(searchKey, rid) in CellSet(file.blocks, chain[pos])
    {
      assert CellOk(file.blocks, chain, pos);
      rid := file.blocks[page].slots[currentSlot].val;
      assert Entries(file.blocks[page])[currentSlot] == Entry(searchKey, rid);
    }

    method DeleteCurrent()
      requires file.Valid() && page < |file.blocks| && 0 <= currentSlot < file.blocks[page].numRecs
      modifies file
      ensures file.Valid() && |file.blocks| == |old(file.blocks)|
      ensures file.blocks == old(file.blocks)[page := file.blocks[page]]
      ensures file.blocks[page].extra1 == old(file.blocks)[page].extra1
      ensures Entries(file.blocks[page]) == RemoveAt(Entries(old(file.blocks)[page]), currentSlot)
    {
      file.DeleteSlot(page, currentSlot);
    }

    /** The insert position: before every entry whose key is at least the key. */
    method FindInsertSlot(key: Key) returns (slot: nat)
      requires file.Valid() && page < |file.blocks|
      ensures slot == CountLT(Entries(file.blocks[page]), key)
    {
      var block := file.blocks[page];
      slot := 0;
      while slot < block.numRecs
        invariant 0 <= slot <= block.numRecs
        invariant CountLT(Entries(block), key) == slot + CountLT(Entries(block)[slot..], key)
      {
        assert Entries(block)[slot..][1..] == Entries(block)[slot + 1..];
        if block.slots[slot].key >= key {
          break;
        }
        slot := slot + 1;
      }
    }

    /** Insert in sorted order; a full page is split at its midpoint and linked to the new page. */
    method Insert(key: Key, rid: RID) returns (split: Option<LeafSplit>)
      requires file.Valid() && page < |file.blocks|
      requires Capacity(file.blockSize, file.slotSize) >= 2
      modifies this, file
      ensures file.Valid()
      ensures LeafHalves(old(file.blocks), file.blocks, old(page), key, rid, split)
      ensures split.Some? <==> old(file.blocks)[old(page)].numRecs == Capacity(file.blockSize, file.slotSize)
      ensures Sorted(Entries(old(file.blocks)[old(page)])) ==>
                LeafInserted(old(file.blocks), file.blocks, old(page), key, rid, split)
    {
      ghost var before, blk := file.blocks, page;
      var n := file.blocks[page].numRecs;
      var slot := FindInsertSlot(key);
      var full := file.IsFull(page);
      if !full {
        file.InsertEntryAt(page, slot, key, rid);
        split := None;
      } else {
        split := InsertSplitting(slot, key, rid);
      }
      if Sorted(Entries(before[blk])) {
        HalvesInserted(before, file.blocks, blk, key, rid, split);
      }
    }

    /** The same for a full page. */
    method InsertSplitting(slot: nat, key: Key, rid: RID) returns (split: Option<LeafSplit>)
      requires file.Valid() && page < |file.blocks| && slot == CountLT(Entries(file.blocks[page]), key)
      requires Capacity(file.blockSize, file.slotSize) >= 2
      requires file.blocks[page].numRecs == Capacity(file.blockSize, file.slotSize)
      modifies this, file
      ensures file.Valid()
      ensures LeafHalves(old(file.blocks), file.blocks, old(page), key, rid, split) && split.Some?
    {
      ghost var E := Entries(file.blocks[page]);
      var splitPos := file.blocks[page].numRecs / 2;
      var sibling := file.blocks[page].extra1;
      var newBlk := file.Split(page, splitPos, sibling, RID(0, 0));
      file.SetExtra1(page, newBlk);
      assert Entries(file.blocks[page]) == E[..splitPos] && Entries(file.blocks[newBlk]) == E[splitPos..];
      var splitKey := file.blocks[newBlk].slots[0].key;
      assert file.blocks[newBlk].slots[0] == Entries(file.blocks[newBlk])[0] == E[splitPos];
      if key < splitKey {
        CountLTPrefix(E, key, splitPos);
        file.InsertEntryAt(page, slot, key, rid);
      } else {
        page := newBlk;
        var insertSlot := FindInsertSlot(key);
        file.InsertEntryAt(page, insertSlot, key, rid);
      }
      split := Some(LeafSplit(splitKey, newBlk));
    }
  }

  lemma LastCell(leaves: Leaves, chain: seq<Cell>, pos: nat)
    requires ChainOk(leaves, chain) && pos < |chain|
    ensures chain[pos].leaf < |leaves| && 0 <= chain[pos].leaf
    ensures leaves[chain[pos].leaf].extra1 < 0 <==> pos == |chain| - 1
  {
    assert CellOk(leaves, chain, pos);
    if pos + 1 < |chain| {
      assert CellOk(leaves, chain, pos + 1);
    }
  }

  /** Behind an entry with a larger key there is no entry with the search key. */
  lemma NothingAhead(leaves: Leaves, chain: seq<Cell>, pos: nat, slot: nat, k: Key)
    requires ChainOk(leaves, chain) && pos < |chain| && slot < |CellEntries(leaves, chain[pos])|
    requires CellEntries(leaves, chain[pos])[slot].key > k
    ensures forall i, j :: After(pos, slot - 1, i, j) ==> !Match(leaves, chain, i, j, k)
  {
    assert CellOk(leaves, chain, pos);
    forall i, j | After(pos, slot - 1, i, j) && 0 <= i < |chain| && 0 <= j < |CellEntries(leaves, chain[i])|
      ensures CellEntries(leaves, chain[i])[j].key > k
    {
      assert CellOk(leaves, chain, i);
    }
  }

  /** What leaf insertion leaves is one unbounded page or that page cut in two. */
  lemma HalvesInserted(before: Leaves, after: Leaves, blk: nat, key: Key, rid: RID, split: Option<LeafSplit>)
    requires blk < |before| && before[blk].numRecs <= |before[blk].slots| && Sorted(Entries(before[blk]))
    requires LeafHalves(before, after, blk, key, rid, split)
    ensures LeafInserted(before, after, blk, key, rid, split)
  {
    var E := Entries(before[blk]);
    if split.Some? {
      if key < E[|E| / 2].key {
        CutLeft(E, key, rid);
      } else {
        CutRight(E, key, rid);
      }
    }
  }

  lemma {:induction false} CountLTPrefix(E: seq<Entry<RID>>, key: Key, m: nat)
    requires m < |E| && key < E[m].key
    ensures CountLT(E, key) <= m && CountLT(E[..m], key) == CountLT(E, key)
    decreases m
  {
    if m > 0 && E[0].key < key {
      CountLTPrefix(E[1..], key, m - 1);
      assert E[..m][1..] == E[1..][..m - 1];
    }
  }

  /** Splitting first and inserting on the left is cutting the widened page behind the middle. */
  lemma CutLeft(E: seq<Entry<RID>>, key: Key, rid: RID)
    requires |E| > 0 && Sorted(E) && key < E[|E| / 2].key
    ensures var mid, i := |E| / 2, CountLT(E, key);
            && i <= mid && CutAt(E, key) == mid + 1
            && Widened(E, key, rid)[..mid + 1] == Widened(E[..mid], key, rid)
            && Widened(E, key, rid)[mid + 1..] == E[mid..]
  {
    var mid, i := |E| / 2, CountLT(E, key);
    CountLTBounds(E, key);
    assert i <= mid;
    CountLTPrefix(E, key, mid);
    InsertInPrefix(E, i, Entry(key, rid), mid);
  }

  /** Splitting first and inserting on the right is cutting the widened page at the middle. */
  lemma CutRight(E: seq<Entry<RID>>, key: Key, rid: RID)
    requires |E| > 0 && Sorted(E) && key >= E[|E| / 2].key
    ensures var mid := |E| / 2;
            && CutAt(E, key) == mid
            && Widened(E, key, rid)[..mid] == E[..mid]
            && Widened(E, key, rid)[mid..] == Widened(E[mid..], key, rid)
  {
    var mid, i := |E| / 2, CountLT(E, key);
    CountLTSuffix(E, key, mid);
    InsertInSuffix(E, i, Entry(key, rid), mid);
  }

  lemma CountLTSuffix(E: seq<Entry<RID>>, key: Key, m: nat)
    requires Sorted(E) && m < |E| && E[m].key <= key
    ensures m <= CountLT(E, key)
    ensures CountLT(E[m..], key) == CountLT(E, key) - m
  {
    var r, t := CountLT(E, key), CountLT(E[m..], key);
    CountLTBounds(E, key);
    CountLTBounds(E[m..], key);
    assert forall j :: 0 <= j < |E| - m ==> E[m..][j] == E[m + j];
  }

  /** Entries in order, equal keys allowed. */
  ghost predicate InOrder(E: seq<Entry<RID>>) {
    forall i, j :: 0 <= i < j < |E| ==> E[i].key <= E[j].key
  }

  /** Where a search for k starts, in a directory page whose one separator is that of a split: the child
      behind the last separator not above k, and there the slot before the first key not below k.  The
      cursor moves on from there along the chain. */
  ghost predicate Ahead(leaves: Leaves, chain: seq<Cell>, split: LeafSplit, k: Key, i: int, j: int)
    requires |chain| == 2
  {
    var p := CountLE([Entry(split.key, split.blockNum)], k);
    After(p, CountLT(CellEntries(leaves, chain[p]), k) - 1, i, j)
  }

  /** Every entry of the two pages is ahead of the search for its key. */
  ghost predicate AllAhead(leaves: Leaves, chain: seq<Cell>, split: LeafSplit)
    requires |chain| == 2
  {
    forall k, i, j :: Match(leaves, chain, i, j, k) ==> Ahead(leaves, chain, split, k, i, j)
  }

  /** After a full leaf was split, with equal keys or not, a search finds every entry of the two pages
      exactly when the cut did not fall inside a run of equal keys. */
  lemma SplitFindsAllIff(before: Leaves, after: Leaves, blk: nat, key: Key, rid: RID, split: LeafSplit,
        chain: seq<Cell>)
    requires blk < |before| && before[blk].numRecs <= |before[blk].slots| && InOrder(Entries(before[blk]))
    requires LeafHalves(before, after, blk, key, rid, Some(split))
    requires |chain| == 2 && chain[0].leaf == blk && chain[1].leaf == split.blockNum
    ensures AllAhead(after, chain, split) <==> var E := Entries(before[blk]); E[|E| / 2 - 1].key < E[|E| / 2].key
  {
    var E := Entries(before[blk]);
    var m := |E| / 2;
    var left, right := LeftHalf(E, key, rid), RightHalf(E, key, rid);
    assert CellEntries(after, chain[0]) == left && CellEntries(after, chain[1]) == right;
    HalvesOrder(E, key, rid);
    if E[m - 1].key < E[m].key {
      forall k, i, j | Match(after, chain, i, j, k) ensures Ahead(after, chain, split, k, i, j) {
        CountLTBounds(if k < split.key then left else right, k);
      }
    } else {
      var j := CutInRun(E, key, rid);
      assert Match(after, chain, 0, j, E[m].key) && !Ahead(after, chain, split, E[m].key, 0, j);
    }
  }

  /** The keys left of the cut are at most, those right of it at least the promoted one; left of it they
      are below it if the last old one is. */
  lemma HalvesOrder(E: seq<Entry<RID>>, key: Key, rid: RID)
    requires |E| >= 2 && InOrder(E)
    ensures var m := |E| / 2;
            && (forall j :: 0 <= j < |RightHalf(E, key, rid)| ==> RightHalf(E, key, rid)[j].key >= E[m].key)
            && (E[m - 1].key < E[m].key ==>
                  forall j :: 0 <= j < |LeftHalf(E, key, rid)| ==> LeftHalf(E, key, rid)[j].key < E[m].key)
  {
    var m := |E| / 2;
    assert forall j :: 0 <= j < m ==> E[..m][j].key <= E[m - 1].key;
    assert forall j :: 0 <= j < |E| - m ==> E[m..][j].key >= E[m].key;
  }

  /** Inside a run of equal keys the last entry on the left has the promoted key. */
  lemma CutInRun(E: seq<Entry<RID>>, key: Key, rid: RID) returns (j: nat)
    requires |E| >= 2 && E[|E| / 2 - 1].key == E[|E| / 2].key
    ensures j < |LeftHalf(E, key, rid)| && LeftHalf(E, key, rid)[j].key == E[|E| / 2].key
  {
    var m := |E| / 2;
    if key < E[m].key {
      var i := CountLT(E[..m], key);
      j := if i <= m - 1 then m else m - 1;
      assert E[..m][m - 1] == E[m - 1];
      CountLTBounds(E[..m], key);
    } else {
      j := m - 1;
    }
  }

  /** A page with two entries for 1, split by an entry for 2: the first of the two is not found any more. */
  lemma EntryHidden(before: Leaves, after: Leaves, a: RID, b: RID, c: RID, split: LeafSplit, chain: seq<Cell>)
    requires |before| == 1 && before[0].numRecs <= |before[0].slots|
             && Entries(before[0]) == [Entry(1.0, a), Entry(1.0, b)]
    requires LeafHalves(before, after, 0, 2.0, c, Some(split))
    requires |chain| == 2 && chain[0].leaf == 0 && chain[1].leaf == split.blockNum
    ensures CellEntries(after, chain[0]) == [Entry(1.0, a)]
    ensures CellEntries(after, chain[1]) == [Entry(1.0, b), Entry(2.0, c)]
    ensures Match(after, chain, 0, 0, 1.0) && !Ahead(after, chain, split, 1.0, 0, 0)
  {
    var E := Entries(before[0]);
    assert E[..1] == [Entry(1.0, a)] && E[1..] == [Entry(1.0, b)];
    assert CountLT([Entry(1.0, b)], 2.0) == 1 + CountLT([Entry(1.0, b)][1..], 2.0);
    assert Widened(E[1..], 2.0, c) == [Entry(1.0, b), Entry(2.0, c)];
  }
}
