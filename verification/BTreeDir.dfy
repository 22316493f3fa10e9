/** The directory of the B+ tree (index/btree/dir.go): descent, insertion with splits, root growth.
    A directory handle of the source is the directory file together with the block it has pinned. */
module BTreeDir {
  import opened Options
  import opened BTreePage
  import opened BTreeShape

  /** The page as it would be if it could hold one more: behind every key that is not above the new one. */
  function Widened(E: seq<Entry<nat>>, key: Key, child: nat): seq<Entry<nat>> {
    InsertAt(E, CountLE(E, key), Entry(key, child))
  }

  /** What insertEntry leaves behind, compared with one unbounded page: either that page, or the page
      cut around a promoted entry whose child becomes the leftmost child of the new right page. */
  ghost predicate EntryInserted(before: seq<Block<nat>>, after: seq<Block<nat>>, blk: nat, key: Key, child: nat,
                                split: Option<DirEntry>)
    requires blk < |before| && before[blk].numRecs <= |before[blk].slots|
  {
    var E := Entries(before[blk]);
    var W := Widened(E, key, child);
    && |before| <= |after|
    && after[blk].numRecs <= |after[blk].slots|
    && after[blk].extra1 == before[blk].extra1 && after[blk].extra2 == before[blk].extra2
    && (forall b :: 0 <= b < |before| && b != blk ==> after[b] == before[b])
    && (match split
        case None => |after| == |before| && Entries(after[blk]) == W
        case Some(e) =>
          && E != [] && |after| == |before| + 1
          && e == DirEntry(W[CutAt(E, key)].key, |before|)
          && after[e.blockNum].numRecs <= |after[e.blockNum].slots|
          && Entries(after[blk]) == W[..CutAt(E, key)]
          && after[e.blockNum].extra1 == before[blk].extra1
          && after[e.blockNum].extra2 == W[CutAt(E, key)].val
          && Entries(after[e.blockNum]) == W[CutAt(E, key) + 1..])
  }

  /** findChildBlock: the child to follow for a key. */
  method FindChildBlock(file: PageFile<nat>, blk: nat, searchKey: Key) returns (child: int)
    requires file.Valid() && blk < |file.blocks|
    ensures child == Kid(file.blocks[blk].extra2, Entries(file.blocks[blk]),
            CountLE(Entries(file.blocks[blk]), searchKey))
  {
    var slot := file.FindDirSlot(blk, searchKey);
    if slot < 0 {
      child := file.blocks[blk].extra2;
    } else {
      child := file.blocks[blk].slots[slot].val;
    }
  }

  /** Descend from a directory page to the leaf block for a key. */
  method Search(file: PageFile<nat>, blk: nat, searchKey: Key, ghost own: seq<Label>, ghost level: nat,
        ghost lo: Bound, ghost hi: Bound)
    returns (leaf: int)
    requires file.Valid() && TreeOk(file.blocks, own, blk, level, lo, hi)
    ensures leaf == Descend(file.blocks, own, blk, level, lo, hi, searchKey).leaf
    decreases level
  {
    var child := FindChildBlock(file, blk, searchKey);
    if file.blocks[blk].extra1 == 0 {
      return child;
    }
    ghost var E := Entries(file.blocks[blk]);
    ghost var i := CountLE(E, searchKey);
    leaf := Search(file, child, searchKey, own, level - 1, Lo(lo, E, i), Hi(hi, E, i));
  }

  /** The insert position: behind every separator that is at most the key. */
  method FindInsertSlot(file: PageFile<nat>, blk: nat, key: Key) returns (slot: nat)
    requires file.Valid() && blk < |file.blocks|
    ensures slot == CountLE(Entries(file.blocks[blk]), key)
  {
    var page := file.blocks[blk];
    slot := 0;
    while slot < page.numRecs
      invariant 0 <= slot <= page.numRecs
      invariant CountLE(Entries(page), key) == slot + CountLE(Entries(page)[slot..], key)
    {
      assert Entries(page)[slot..][1..] == Entries(page)[slot + 1..];
      if page.slots[slot].key > key {
        break;
      }
      slot := slot + 1;
    }
  }

  /** Insert (key, child) into one page, splitting it when full. */
  method InsertEntry(file: PageFile<nat>, blk: nat, key: Key, childBlk: nat) returns (split: Option<DirEntry>)
    requires file.Valid() && blk < |file.blocks|
    requires Capacity(file.blockSize, file.slotSize) >= 1
    requires Sorted(Entries(file.blocks[blk]))
    modifies file
    ensures file.Valid()
    ensures EntryInserted(old(file.blocks), file.blocks, blk, key, childBlk, split)
    ensures split.Some? <==> old(file.blocks)[blk].numRecs == Capacity(file.blockSize, file.slotSize)
  {
    ghost var E := Entries(file.blocks[blk]);
    CountLEBounds(E, key);
    var slot := FindInsertSlot(file, blk, key);
    var full := file.IsFull(blk);
    if full {
      split := InsertSplitting(file, blk, slot, key, childBlk);
    } else {
      file.InsertEntryAt(blk, slot, key, childBlk);
      split := None;
    }
  }

  /** Inserting into a full page: split it, and insert on one of the two sides. */
  method InsertSplitting(file: PageFile<nat>, blk: nat, slot: nat, key: Key, childBlk: nat)
    returns (split: Option<DirEntry>)
    requires file.Valid() && blk < |file.blocks|
    requires file.blocks[blk].numRecs == Capacity(file.blockSize, file.slotSize) >= 1
    requires Sorted(Entries(file.blocks[blk])) && slot == CountLE(Entries(file.blocks[blk]), key)
    modifies file
    ensures file.Valid()
    ensures EntryInserted(old(file.blocks), file.blocks, blk, key, childBlk, split) && split.Some?
  {
    ghost var E := Entries(file.blocks[blk]);
    var newBlk, splitKey := SplitAndPromote(file, blk);
    if key < splitKey {
      CutLeft(E, key, childBlk);
      file.InsertEntryAt(blk, slot, key, childBlk);
    } else {
      var insertSlot := FindInsertSlot(file, newBlk, key);
      CutRight(E, key, childBlk);
      file.InsertEntryAt(newBlk, insertSlot, key, childBlk);
    }
    split := Some(DirEntry(splitKey, newBlk));
  }

  /** Split a page at its midpoint, take the first entry out of the new page, and make its child the
      leftmost child there. */
  method SplitAndPromote(file: PageFile<nat>, blk: nat) returns (newBlk: nat, splitKey: Key)
    requires file.Valid() && blk < |file.blocks| && file.blocks[blk].numRecs > 0
    modifies file
    ensures file.Valid()
    ensures newBlk == |old(file.blocks)| && |file.blocks| == newBlk + 1
    ensures forall b :: 0 <= b < newBlk && b != blk ==> file.blocks[b] == old(file.blocks)[b]
    ensures file.blocks[blk].extra1 == old(file.blocks)[blk].extra1
            && file.blocks[blk].extra2 == old(file.blocks)[blk].extra2
    ensures file.blocks[newBlk].extra1 == old(file.blocks)[blk].extra1
    ensures var E := Entries(old(file.blocks)[blk]);
            var mid := |E| / 2;
            && splitKey == E[mid].key && file.blocks[newBlk].extra2 == E[mid].val
            && Entries(file.blocks[blk]) == E[..mid] && Entries(file.blocks[newBlk]) == E[mid + 1..]
  {
    ghost var E := Entries(file.blocks[blk]);
    var level := file.blocks[blk].extra1;
    var splitPos := file.blocks[blk].numRecs / 2;
    newBlk := file.Split(blk, splitPos, level, 0);
    var first := file.blocks[newBlk].slots[0];
    assert first == Entries(file.blocks[newBlk])[0] == E[splitPos];
    splitKey := first.key;
    file.DeleteSlot(newBlk, 0);
    file.SetExtra2(newBlk, first.val);
    assert Entries(file.blocks[newBlk]) == E[splitPos + 1..];
  }

  /** Splitting first and inserting on the left is cutting the widened page behind the middle. */
  lemma CutLeft(E: seq<Entry<nat>>, key: Key, child: nat)
    requires |E| > 0 && Sorted(E) && key < E[|E| / 2].key
    ensures var mid, i := |E| / 2, CountLE(E, key);
            && i <= mid && CutAt(E, key) == mid + 1
            && Widened(E, key, child)[mid + 1] == E[mid]
            && Widened(E, key, child)[..mid + 1] == InsertAt(E[..mid], i, Entry(key, child))
            && Widened(E, key, child)[mid + 2..] == E[mid + 1..]
  {
    var mid, i, e := |E| / 2, CountLE(E, key), Entry(key, child);
    CountLEBounds(E, key);
    assert i <= mid;
    InsertInPrefix(E, i, e, mid);
    InsertInPrefix(E, i, e, mid + 1);
  }

  /** Splitting first and inserting on the right is cutting the widened page at the middle. */
  lemma CutRight(E: seq<Entry<nat>>, key: Key, child: nat)
    requires |E| > 0 && Sorted(E) && key >= E[|E| / 2].key
    ensures var mid := |E| / 2;
            && CutAt(E, key) == mid
            && Widened(E, key, child)[mid] == E[mid]
            && Widened(E, key, child)[..mid] == E[..mid]
            && Widened(E, key, child)[mid + 1..] == Widened(E[mid + 1..], key, child)
  {
    var mid, i, e := |E| / 2, CountLE(E, key), Entry(key, child);
    CountLEPast(E, key, mid);
    CountLESuffix(E, key, mid + 1);
    InsertInSuffix(E, i, e, mid + 1);
    InsertInSuffix(E, i, e, mid);
  }

  lemma CountLEPast(E: seq<Entry<nat>>, key: Key, m: nat)
    requires Sorted(E) && m < |E| && key >= E[m].key
    ensures CountLE(E, key) > m
  {
    CountLEBounds(E, key);
  }

  lemma CountLESuffix(E: seq<Entry<nat>>, key: Key, m: nat)
    requires Sorted(E) && m <= CountLE(E, key)
    ensures CountLE(E[m..], key) == CountLE(E, key) - m
  {
    CountLEBounds(E, key);
    CountLEUnique(E[m..], key, CountLE(E, key) - m);
  }

  ghost function OwnAfter(own: seq<Label>, level: nat, split: Option<DirEntry>): seq<Label> {
    match split
    case None => own
    case Some(e) => own + [Label(level, At(e.key))]
  }

  /** The page of b was widened, or widened and cut; its children are those of dirs1. */
  lemma WidenedPage(dirs1: Dirs, own1: seq<Label>, dirs2: Dirs, b: nat, level: nat, lo: Bound, hi: Bound,
                    key: Key, child: nat, split: Option<DirEntry>)
    requires |own1| == |dirs1| && b < |dirs1| && own1[b] == Label(level, lo)
    requires dirs1[b].numRecs <= |dirs1[b].slots| && dirs1[b].extra1 == level
    requires NodeOk(dirs1, own1, level, lo, hi, dirs1[b].extra2, Widened(Entries(dirs1[b]), key, child))
    requires EntryInserted(dirs1, dirs2, b, key, child, split)
    ensures var own2 := OwnAfter(own1, level, split);
            && NodeOk(dirs2, own2, level, lo, hi, dirs1[b].extra2, Widened(Entries(dirs1[b]), key, child))
            && (split.None? ==> TreeOk(dirs2, own2, b, level, lo, hi))
            && (split.Some? ==>
                  && TreeOk(dirs2, own2, b, level, lo, At(split.value.key))
                  && TreeOk(dirs2, own2, split.value.blockNum, level, At(split.value.key), hi)
                  && Less(lo, At(split.value.key)) && Less(At(split.value.key), hi))
    ensures forall k :: DescendNode(dirs2, OwnAfter(own1, level, split), level, lo, hi, dirs1[b].extra2,
            Widened(Entries(dirs1[b]), key, child), k)
                     == DescendNode(dirs1, own1, level, lo, hi, dirs1[b].extra2,
                         Widened(Entries(dirs1[b]), key, child), k)
  {
    var own2 := OwnAfter(own1, level, split);
    var L, W := dirs1[b].extra2, Widened(Entries(dirs1[b]), key, child);
    NodeFrame(dirs1, own1, dirs2, own2, level, lo, hi, L, W);
    if split.Some? {
      SplitNode(dirs2, own2, level, lo, hi, L, W, CutAt(Entries(dirs1[b]), key));
    }
  }

  /** Insertion below b is complete once its widened page is stored. */
  lemma FinishInsert(dirs: Dirs, own: seq<Label>, dirs1: Dirs, own1: seq<Label>, dirs2: Dirs, b: nat, level: nat,
        lo: Bound, hi: Bound,
                     s: Key, newLeaf: int, key: Key, child: nat, split: Option<DirEntry>)
    requires TreeOk(dirs, own, b, level, lo, hi) && Within(lo, s, hi)
    requires OnlyInside(dirs, own, dirs1, own1, level - 1, lo, hi)
    requires NodeRecut(dirs, own, dirs[b].extra2, Entries(dirs[b]),
                       dirs1, own1, dirs[b].extra2, Widened(Entries(dirs[b]), key, child), level, lo, hi, s, newLeaf)
    requires dirs1[b] == dirs[b]
    requires EntryInserted(dirs1, dirs2, b, key, child, split)
    ensures OnlyInside(dirs, own, dirs2, OwnAfter(own1, level, split), level, lo, hi)
    ensures Inserted(dirs, own, dirs2, OwnAfter(own1, level, split), b, level, lo, hi, s, newLeaf, split)
  {
    assert own1[..|own|][b] == own[b];
    WidenedPage(dirs1, own1, dirs2, b, level, lo, hi, key, child, split);
    FinishOwn(dirs, own, dirs1, own1, dirs2, b, level, lo, hi, key, child, split);
    forall k | split.Some? && Within(lo, k, hi)
      ensures (if k < split.value.key
              then Descend(dirs2, OwnAfter(own1, level, split), b, level, lo, At(split.value.key), k)
               else Descend(dirs2, OwnAfter(own1, level, split), split.value.blockNum, level, At(split.value.key), hi,
                   k))
           == DescendNode(dirs1, own1, level, lo, hi, dirs[b].extra2, Widened(Entries(dirs[b]), key, child), k)
    {
      FinishRoutes(dirs1, own1, dirs2, b, level, lo, hi, key, child, split.value, k);
    }
  }

  lemma FinishOwn(dirs: Dirs, own: seq<Label>, dirs1: Dirs, own1: seq<Label>, dirs2: Dirs, b: nat, level: nat,
        lo: Bound, hi: Bound,
                  key: Key, child: nat, split: Option<DirEntry>)
    requires b < |dirs| && dirs[b].numRecs <= |dirs[b].slots| && Less(lo, hi)
    requires |own| == |dirs| && own[b] == Label(level, lo)
    requires OnlyInside(dirs, own, dirs1, own1, level - 1, lo, hi) && dirs1[b] == dirs[b]
    requires EntryInserted(dirs1, dirs2, b, key, child, split)
    ensures OnlyInside(dirs, own, dirs2, OwnAfter(own1, level, split), level, lo, hi)
  {
    assert OwnAfter(own1, level, split)[..|own|] == own1[..|own|];
  }

  lemma FinishRoutes(dirs1: Dirs, own1: seq<Label>, dirs2: Dirs, b: nat, level: nat, lo: Bound, hi: Bound,
                     key: Key, child: nat, e: DirEntry, k: Key)
    requires |own1| == |dirs1| && b < |dirs1| && own1[b] == Label(level, lo)
    requires dirs1[b].numRecs <= |dirs1[b].slots| && dirs1[b].extra1 == level
    requires NodeOk(dirs1, own1, level, lo, hi, dirs1[b].extra2, Widened(Entries(dirs1[b]), key, child))
    requires EntryInserted(dirs1, dirs2, b, key, child, Some(e))
    ensures var own2 := OwnAfter(own1, level, Some(e));
            && TreeOk(dirs2, own2, b, level, lo, At(e.key))
            && TreeOk(dirs2, own2, e.blockNum, level, At(e.key), hi)
            && (if k < e.key then Descend(dirs2, own2, b, level, lo, At(e.key), k)
                else Descend(dirs2, own2, e.blockNum, level, At(e.key), hi, k))
               == DescendNode(dirs1, own1, level, lo, hi, dirs1[b].extra2, Widened(Entries(dirs1[b]), key, child), k)
  {
    WidenedPage(dirs1, own1, dirs2, b, level, lo, hi, key, child, Some(e));
    var W, m := Widened(Entries(dirs1[b]), key, child), CutAt(Entries(dirs1[b]), key);
    CutRoutes(dirs2, OwnAfter(own1, level, Some(e)), level, lo, hi, dirs1[b].extra2, W, m, b, e.blockNum, k);
  }

  /** Each half of the page routes the keys on its side as the whole page would. */
  lemma CutRoutes(dirs: Dirs, own: seq<Label>, level: nat, lo: Bound, hi: Bound, leftmost: int, W: seq<Entry<nat>>,
                  m: nat, b: nat, r: nat, k: Key)
    requires b < |dirs| && dirs[b].numRecs <= |dirs[b].slots| && r < |dirs| && dirs[r].numRecs <= |dirs[r].slots|
    requires m < |W| && Entries(dirs[b]) == W[..m] && Entries(dirs[r]) == W[m + 1..]
    requires dirs[b].extra2 == leftmost && dirs[r].extra2 == W[m].val && NodeOk(dirs, own, level, lo, hi, leftmost, W)
    requires TreeOk(dirs, own, b, level, lo, At(W[m].key)) && TreeOk(dirs, own, r, level, At(W[m].key), hi)
    ensures (if k < W[m].key then Descend(dirs, own, b, level, lo, At(W[m].key), k)
             else Descend(dirs, own, r, level, At(W[m].key), hi, k))
            == DescendNode(dirs, own, level, lo, hi, leftmost, W, k)
  {
    if k < W[m].key {
      LeftRoutes(dirs, own, level, lo, hi, leftmost, W, m, k);
    } else {
      RightRoutes(dirs, own, level, lo, hi, leftmost, W, m, k);
    }
  }

  /** Changes inside a child's interval are inside its parent's, and spare the parent's page. */
  lemma InsideParent(dirs: Dirs, own: seq<Label>, dirs1: Dirs, own1: seq<Label>, b: nat, level: nat, lo: Bound,
        hi: Bound, i: nat)
    requires TreeOk(dirs, own, b, level, lo, hi) && level > 0 && i <= |Entries(dirs[b])|
    requires OnlyInside(dirs, own, dirs1, own1, level - 1, Lo(lo, Entries(dirs[b]), i), Hi(hi, Entries(dirs[b]), i))
    ensures OnlyInside(dirs, own, dirs1, own1, level - 1, lo, hi)
    ensures dirs1[b] == dirs[b]
  {
  }

  /** Register the leaf splitBlock, which holds the keys from splitKey on, in the subtree of blk. */
  method Insert(file: PageFile<nat>, blk: nat, splitKey: Key, splitBlock: nat,
                ghost own: seq<Label>, ghost level: nat, ghost lo: Bound, ghost hi: Bound)
    returns (split: Option<DirEntry>, ghost own': seq<Label>)
    requires file.Valid() && Capacity(file.blockSize, file.slotSize) >= 1
    requires TreeOk(file.blocks, own, blk, level, lo, hi) && Within(lo, splitKey, hi)
    requires Less(Descend(file.blocks, own, blk, level, lo, hi, splitKey).lo, At(splitKey))
    modifies file
    ensures file.Valid()
    ensures OnlyInside(old(file.blocks), own, file.blocks, own', level, lo, hi)
    ensures Inserted(old(file.blocks), own, file.blocks, own', blk, level, lo, hi, splitKey, splitBlock, split)
    decreases level
  {
    ghost var dirs := file.blocks;
    ghost var L, E := dirs[blk].extra2, Entries(dirs[blk]);
    ghost var i := CountLE(E, splitKey);
    if file.blocks[blk].extra1 == 0 {
      InsertLeafPointer(dirs, own, lo, hi, L, E, splitKey, splitBlock);
      split := InsertEntry(file, blk, splitKey, splitBlock);
      own' := OwnAfter(own, level, split);
      FinishInsert(dirs, own, dirs, own, file.blocks, blk, level, lo, hi, splitKey, splitBlock, splitKey, splitBlock,
          split);
      return;
    }
    var child := FindChildBlock(file, blk, splitKey);
    GapsDisjoint(lo, hi, E, i, splitKey);
    assert DescendNode(dirs, own, level, lo, hi, L, E, splitKey)
        == Descend(dirs, own, child, level - 1, Lo(lo, E, i), Hi(hi, E, i), splitKey);
    var childSplit, own1 := Insert(file, child, splitKey, splitBlock, own, level - 1, Lo(lo, E, i), Hi(hi, E, i));
    ghost var dirs1 := file.blocks;
    InsideParent(dirs, own, dirs1, own1, blk, level, lo, hi, i);
    if childSplit.Some? {
      var e := childSplit.value;
      ChildSplit(dirs, own, dirs1, own1, level, lo, hi, L, E, splitKey, splitBlock, e);
      split := InsertEntry(file, blk, e.key, e.blockNum);
      own' := OwnAfter(own1, level, split);
      FinishInsert(dirs, own, dirs1, own1, file.blocks, blk, level, lo, hi, splitKey, splitBlock, e.key, e.blockNum,
          split);
    } else {
      ChildAbsorbed(dirs, own, dirs1, own1, level, lo, hi, L, E, splitKey, splitBlock);
      split, own' := None, own1;
    }
  }

  /** The root has split: move its contents to a new block and make it the parent of both halves.
      Every key is routed as before, one level further down. */
  method MakeNewRoot(file: PageFile<nat>, e: DirEntry, ghost own: seq<Label>, ghost level: nat)
    returns (ghost own': seq<Label>)
    requires file.Valid() && Capacity(file.blockSize, file.slotSize) >= 1
    requires TreeOk(file.blocks, own, 0, level, NegInf, At(e.key))
    requires TreeOk(file.blocks, own, e.blockNum, level, At(e.key), PosInf)
    modifies file
    ensures file.Valid()
    ensures TreeOk(file.blocks, own', 0, level + 1, NegInf, PosInf)
    ensures forall k :: Descend(file.blocks, own', 0, level + 1, NegInf, PosInf, k)
                     == if k < e.key then Descend(old(file.blocks), own, 0, level, NegInf, At(e.key), k)
                        else Descend(old(file.blocks), own, e.blockNum, level, At(e.key), PosInf, k)
  {
    ghost var dirs := file.blocks;
    ghost var E := Entries(dirs[0]);
    var leftmost := file.blocks[0].extra2;
    var lvl := file.blocks[0].extra1;
    var n := file.blocks[0].numRecs;

    var newBlock := file.Append(0);
    file.Format(newBlock);
    file.SetExtra1(newBlock, lvl);
    file.SetExtra2(newBlock, leftmost);
    for i := 0 to n
      invariant file.Valid() && newBlock == |dirs| && |file.blocks| == newBlock + 1
      invariant file.blocks[..newBlock] == dirs
      invariant file.blocks[newBlock].extra1 == lvl && file.blocks[newBlock].extra2 == leftmost
      invariant Entries(file.blocks[newBlock]) == E[..i]
    {
      file.InsertSlot(newBlock, i);
      assert file.blocks[0] == file.blocks[..newBlock][0];
      file.TransferTo(0, i, newBlock, i);
    }

    while file.blocks[0].numRecs != 0
      invariant file.Valid() && |file.blocks| == newBlock + 1
      invariant forall b :: 0 < b < newBlock ==> file.blocks[b] == dirs[b]
      invariant file.blocks[newBlock].extra1 == lvl && file.blocks[newBlock].extra2 == leftmost
      invariant Entries(file.blocks[newBlock]) == E
      decreases file.blocks[0].numRecs
    {
      file.DeleteSlot(0, 0);
    }
    file.SetExtra1(0, lvl + 1);
    file.SetExtra2(0, newBlock);
    file.InsertEntryAt(0, 0, e.key, e.blockNum);
    assert Entries(file.blocks[0]) == [Entry(e.key, e.blockNum)];
    own' := own[0 := Label(level + 1, NegInf)] + [Label(level, NegInf)];
    RootGrown(dirs, own, file.blocks, own', level, e);
  }

  lemma RootGrown(dirs: Dirs, own: seq<Label>, dirs': Dirs, own': seq<Label>, level: nat, e: DirEntry)
    requires TreeOk(dirs, own, 0, level, NegInf, At(e.key))
    requires TreeOk(dirs, own, e.blockNum, level, At(e.key), PosInf)
    requires |dirs'| == |dirs| + 1 && own' == own[0 := Label(level + 1, NegInf)] + [Label(level, NegInf)]
    requires forall b :: 0 < b < |dirs| ==> dirs'[b] == dirs[b]
    requires dirs'[0].numRecs <= |dirs'[0].slots| && dirs'[|dirs|].numRecs <= |dirs'[|dirs|].slots|
    requires dirs'[0].extra1 == level + 1 && dirs'[0].extra2 == |dirs|
             && Entries(dirs'[0]) == [Entry(e.key, e.blockNum)]
    requires dirs'[|dirs|].extra1 == level && dirs'[|dirs|].extra2 == dirs[0].extra2
    requires Entries(dirs'[|dirs|]) == Entries(dirs[0])
    ensures TreeOk(dirs', own', 0, level + 1, NegInf, PosInf)
    ensures forall k :: Descend(dirs', own', 0, level + 1, NegInf, PosInf, k)
                     == if k < e.key then Descend(dirs, own, 0, level, NegInf, At(e.key), k)
                        else Descend(dirs, own, e.blockNum, level, At(e.key), PosInf, k)
  {
    NodeFrame(dirs, own, dirs', own', level, NegInf, At(e.key), dirs[0].extra2, Entries(dirs[0]));
    assert TreeOk(dirs', own', |dirs|, level, NegInf, At(e.key));
    Frame(dirs, own, dirs', own', e.blockNum, level, At(e.key), PosInf);
    var R := [Entry(e.key, e.blockNum)];
    forall i | 0 <= i <= |R|
      ensures TreeOk(dirs', own', Kid(|dirs|, R, i), level, Lo(NegInf, R, i), Hi(PosInf, R, i))
    {
    }
    assert TreeOk(dirs', own', 0, level + 1, NegInf, PosInf);
    forall k
      ensures Descend(dirs', own', 0, level + 1, NegInf, PosInf, k)
           == if k < e.key then Descend(dirs, own, 0, level, NegInf, At(e.key), k)
              else Descend(dirs, own, e.blockNum, level, At(e.key), PosInf, k)
    {
      CountLEUnique(R, k, if k < e.key then 0 else 1);
      if k < e.key {
        assert Descend(dirs', own', |dirs|, level, NegInf, At(e.key), k)
            == DescendNode(dirs', own', level, NegInf, At(e.key), dirs[0].extra2, Entries(dirs[0]), k);
      }
    }
  }
}
