/** A table as a list of blocks of records (query/table/table_scan.go). */
module TableScans {
  import Pages
  import opened Options
  import opened Layouts
  import opened RecordPages

  type Blocks = seq<seq<Pages.Byte>>

  /** Slot s of block b holds a record. */
  predicate UsedAt(blocks: Blocks, l: Layout, b: int, s: int) {
    0 <= b < |blocks| && IsValidSlot(l, s, |blocks[b]|) && FlagIs(blocks[b], l, s, FLAG_USED)
  }

  predicate EmptyAt(blocks: Blocks, l: Layout, b: int, s: int) {
    0 <= b < |blocks| && IsValidSlot(l, s, |blocks[b]|) && FlagIs(blocks[b], l, s, FLAG_EMPTY)
  }

  predicate Before(b: int, s: int, b': int, s': int) {
    b < b' || (b == b' && s < s')
  }

  /** No empty slot lies between two positions. */
  ghost predicate NoneBetween(blocks: Blocks, l: Layout, b: int, s: int, b': int, s': int) {
    forall c, t :: Before(b, s, c, t) && Before(c, t, b', s') ==> !EmptyAt(blocks, l, c, t)
  }

  /** No record lies between two positions. */
  ghost predicate NoneUsedBetween(blocks: Blocks, l: Layout, b: int, s: int, b': int, s': int) {
    forall c, t :: Before(b, s, c, t) && Before(c, t, b', s') ==> !UsedAt(blocks, l, c, t)
  }

  ghost predicate HasRecord(blocks: Blocks, l: Layout, b: int) {
    exists s :: UsedAt(blocks, l, b, s)
  }

  /** No block after block 0 is without records. */
  ghost predicate NoEmptyBlocks(blocks: Blocks, l: Layout) {
    forall b :: 1 <= b < |blocks| ==> HasRecord(blocks, l, b)
  }

  datatype NextResult = Found | End | Failed

  /** A step from (b, s) that answers r at (b', s'): the next record; or the end, with no record left; or
      a failure, on a next block that has no record. */
  ghost predicate NextOk(blocks: Blocks, l: Layout, b: int, s: int, r: NextResult, b': int, s': int) {
    match r
    case Found =>
      UsedAt(blocks, l, b', s') && Before(b, s, b', s') && b' <= b + 1 && NoneUsedBetween(blocks, l, b, s, b', s')
    case End =>
      b == |blocks| - 1 && NoneUsedBetween(blocks, l, b, s, |blocks|, 0)
    case Failed =>
      b' == b + 1 < |blocks| && NoneUsedBetween(blocks, l, b, s, b', -1) && !HasRecord(blocks, l, b')
  }

  class TableScan {
    const file: BlockFile
    const layout: Layout
    var recordPage: Page
    var currentSlot: int

    ghost predicate Valid()
      reads this, file
    {
      && recordPage.file == file && recordPage.Valid() && recordPage.layout == layout
      && currentSlot >= -1
    }

    constructor (file: BlockFile, layout: Layout, page: Page)
      requires page.Valid() && page.file == file && page.layout == layout
      ensures Valid() && this.file == file && this.layout == layout && recordPage == page && currentSlot == -1
    {
      this.file := file;
      this.layout := layout;
      recordPage := page;
      currentSlot := -1;
    }

    method MoveToBlock(number: nat)
      requires Valid() && number < |file.blocks|
      modifies this`recordPage, this`currentSlot
      ensures Valid() && recordPage.number == number && currentSlot == -1
    {
      recordPage := new Page(file, number, layout);
      currentSlot := -1;
    }

    method BeforeFirst()
      requires Valid()
      modifies this`recordPage, this`currentSlot
      ensures Valid() && recordPage.number == 0 && currentSlot == -1
    {
      MoveToBlock(0);
    }

    method AtLastBlock() returns (r: bool)
      requires Valid()
      ensures r <==> recordPage.number == |file.blocks| - 1
    {
      r := recordPage.number == |file.blocks| - 1;
    }

    /** On to the next record.  The search goes no further than the next block: if that one has no
        record it fails, whatever comes behind. */
    method Next() returns (r: NextResult)
      requires Valid()
      modifies this`recordPage, this`currentSlot
      ensures Valid()
      ensures NextOk(file.blocks, layout, old(recordPage.number), old(currentSlot), r, recordPage.number, currentSlot)
    {
      var slot := recordPage.NextAfter(currentSlot);
      if slot == -1 {
        var last := AtLastBlock();
        if last {
          return End;
        }
        MoveToBlock(recordPage.number + 1);
        slot := recordPage.NextAfter(currentSlot);
        if slot == -1 {
          return Failed;
        }
      }
      currentSlot := slot;
      r := Found;
    }

    /** Claim the first empty slot behind the current position, in a new block if there is none. */
    method Insert() returns (ok: bool)
      requires Valid()
      modifies this`recordPage, this`currentSlot, file
      ensures Valid() && (ok <==> layout.slotSize <= file.blockSize)
      ensures !ok ==> file.blocks == old(file.blocks)
      ensures ok ==> Before(old(recordPage.number), old(currentSlot), recordPage.number, currentSlot)
      ensures ok ==> Claimed(old(file.blocks), file.blocks, layout, recordPage.number, currentSlot)
      ensures ok ==> NoneBetween(old(file.blocks), layout, old(recordPage.number), old(currentSlot),
              recordPage.number, currentSlot)
    {
      if layout.slotSize > file.blockSize {
        return false;
      }
      while true
        invariant Valid() && file.blocks == old(file.blocks)
        invariant recordPage.number >= old(recordPage.number)
        invariant currentSlot == if recordPage.number == old(recordPage.number) then old(currentSlot) else -1
        invariant NoneBetween(file.blocks, layout, old(recordPage.number), old(currentSlot), recordPage.number,
                  currentSlot)
        decreases |file.blocks| - recordPage.number
      {
        var slot := recordPage.InsertAfter(currentSlot);
        if slot >= 0 {
          currentSlot := slot;
          return true;
        }
        var last := AtLastBlock();
        if last {
          InsertInNewBlock();
          return true;
        }
        MoveToBlock(recordPage.number + 1);
      }
    }

    /** A new block, formatted, with its first slot claimed. */
    method InsertInNewBlock()
      requires Valid() && layout.slotSize <= file.blockSize
      modifies this`recordPage, this`currentSlot, file
      ensures Valid() && recordPage.number == |old(file.blocks)| && currentSlot == 0
      ensures UsedAt(file.blocks, layout, recordPage.number, currentSlot)
      ensures Claimed(old(file.blocks), file.blocks, layout, recordPage.number, currentSlot)
    {
      MoveToNewBlock();
      ghost var formatted := recordPage.Bytes();
      assert IsValidSlot(layout, 0, file.blockSize) && Formatted(formatted, layout, 0);
      var slot := recordPage.InsertAfter(currentSlot);
      currentSlot := slot;
      forall t | IsValidSlot(layout, t, file.blockSize) && t != slot
        ensures !FlagIs(recordPage.Bytes(), layout, t, FLAG_USED) {
        assert Formatted(formatted, layout, t);
        OthersKept(formatted, recordPage.Bytes(), layout, slot, None, t);
      }
      forall t | IsValidSlot(layout, t, file.blockSize) ensures BlankFields(recordPage.Bytes(), layout, t) {
        BlankKept(formatted, recordPage.Bytes(), layout, slot, None, t);
      }
    }

    method MoveToNewBlock()
      requires Valid() && layout.slotSize <= file.blockSize
      modifies this`recordPage, this`currentSlot, file
      ensures Valid() && recordPage.number == |old(file.blocks)| && currentSlot == -1
      ensures |file.blocks| == |old(file.blocks)| + 1 && file.blocks[..|old(file.blocks)|] == old(file.blocks)
      ensures forall s :: IsValidSlot(layout, s, file.blockSize) ==>
                Formatted(file.blocks[|old(file.blocks)|], layout, s)
                && BlankSlot(file.blocks[|old(file.blocks)|], layout, s)
    {
      var number := file.Append();
      var page := new Page(file, number, layout);
      var formatted := page.Format();
      recordPage := page;
      currentSlot := -1;
    }
  }

  /** The table after one slot was claimed: an empty one of an old block, of which nothing else changed,
      or one of a new block whose other slots are empty; there every field of every slot is blank. */
  ghost predicate Claimed(blocks: Blocks, blocks': Blocks, l: Layout, b: nat, s: int) {
    && s >= 0 && b < |blocks'| && UsedAt(blocks', l, b, s)
    && if b < |blocks| then
         && blocks' == blocks[b := blocks'[b]] && EmptyAt(blocks, l, b, s)
         && LayoutOk(l) && OnlyPart(l, blocks[b], blocks'[b], s, None)
       else
         && |blocks'| == |blocks| + 1 && blocks'[..|blocks|] == blocks && b == |blocks|
         && (forall t :: UsedAt(blocks', l, b, t) ==> t == s)
         && forall t :: IsValidSlot(l, t, |blocks'[b]|) ==> BlankFields(blocks'[b], l, t)
  }

  /** Inserting keeps every block after block 0 occupied. */
  lemma InsertKeepsScannable(blocks: Blocks, blocks': Blocks, l: Layout, b: nat, s: int)
    requires LayoutOk(l) && NoEmptyBlocks(blocks, l) && Claimed(blocks, blocks', l, b, s)
    ensures NoEmptyBlocks(blocks', l)
  {
    forall c | 1 <= c < |blocks'| ensures HasRecord(blocks', l, c) {
      if c != b {
        assert c < |blocks| && blocks'[c] == blocks[c] && HasRecord(blocks, l, c);
        var t :| UsedAt(blocks, l, c, t);
        assert UsedAt(blocks', l, c, t);
      }
    }
  }

  /** Inserting disturbs no other record: every other slot keeps its flag and every field its value. */
  lemma InsertKeepsRecords(blocks: Blocks, blocks': Blocks, l: Layout, b: nat, s: int, c: nat, t: nat)
    requires LayoutOk(l) && Claimed(blocks, blocks', l, b, s) && c < |blocks| && IsValidSlot(l, t, |blocks[c]|)
    ensures c < |blocks'| && |blocks'[c]| == |blocks[c]|
    ensures c != b || t != s ==> (UsedAt(blocks', l, c, t) <==> UsedAt(blocks, l, c, t))
    ensures forall f, w :: f in l.fields && HasField(blocks[c], l, t, f, w) ==> HasField(blocks'[c], l, t, f, w)
  {
    if c == b {
      OthersKept(blocks[b], blocks'[b], l, s, None, t);
    } else {
      assert blocks'[c] == blocks[c];
    }
  }

  /** Positions in strictly rising order. */
  predicate Rising(ps: seq<(int, int)>) {
    forall i, j :: 0 <= i < j < |ps| ==> Before(ps[i].0, ps[i].1, ps[j].0, ps[j].1)
  }

  /** A scan that has come to (b, s): the records up to there, in order, in occupied blocks. */
  ghost predicate ScannedTo(ps: seq<(int, int)>, blocks: Blocks, l: Layout, b: int, s: int) {
    && Rising(ps)
    && (forall i :: 0 <= i < |ps| ==> UsedAt(blocks, l, ps[i].0, ps[i].1) && !Before(b, s, ps[i].0, ps[i].1))
    && (forall c, t :: UsedAt(blocks, l, c, t) && !Before(b, s, c, t) ==> (c, t) in ps)
    && (forall c :: 1 <= c <= b ==> HasRecord(blocks, l, c))
  }

  lemma ScannedOn(ps: seq<(int, int)>, blocks: Blocks, l: Layout, b: int, s: int, b': int, s': int)
    requires ScannedTo(ps, blocks, l, b, s) && NextOk(blocks, l, b, s, Found, b', s')
    ensures ScannedTo(ps + [(b', s')], blocks, l, b', s')
  {
    var ps' := ps + [(b', s')];
    forall c, t | UsedAt(blocks, l, c, t) && !Before(b', s', c, t) ensures (c, t) in ps' {
      if (c, t) == (b', s') {
        assert ps'[|ps|] == (c, t);
      } else {
        assert Before(c, t, b', s');
        assert !Before(b, s, c, t);
        var i :| 0 <= i < |ps| && ps[i] == (c, t);
        assert ps'[i] == (c, t);
      }
    }
  }

  /** A scan that finds a record has less of the table ahead. */
  lemma GoesOn(blocks: Blocks, l: Layout, size: nat, b: int, s: int, b': int, s': int)
    requires NextOk(blocks, l, b, s, Found, b', s') && LayoutOk(l)
    requires forall i :: 0 <= i < |blocks| ==> |blocks[i]| == size
    ensures 0 <= b' < |blocks| && s' < size && (b < b' || (b == b' && s < s'))
  {
    SlotGrows(l, s' + 1);
  }

  lemma ScannedAll(ps: seq<(int, int)>, blocks: Blocks, l: Layout, b: int, s: int)
    requires ScannedTo(ps, blocks, l, b, s) && NextOk(blocks, l, b, s, End, b, s)
    ensures NoEmptyBlocks(blocks, l) && forall c, t :: UsedAt(blocks, l, c, t) ==> (c, t) in ps
  {
    forall c, t | UsedAt(blocks, l, c, t) ensures (c, t) in ps {
      assert Before(c, t, |blocks|, 0);
    }
  }

  /** Scan a table from the start: every record once, in order, if and only if no block after block 0 is
      without records; otherwise the scan fails. */
  method ScanAll(ts: TableScan) returns (positions: seq<(int, int)>, complete: bool)
    requires ts.Valid()
    modifies ts`recordPage, ts`currentSlot
    ensures Rising(positions)
    ensures forall i :: 0 <= i < |positions| ==> UsedAt(ts.file.blocks, ts.layout, positions[i].0, positions[i].1)
    ensures complete <==> NoEmptyBlocks(ts.file.blocks, ts.layout)
    ensures complete ==> forall b, s :: UsedAt(ts.file.blocks, ts.layout, b, s) ==> (b, s) in positions
  {
    ts.BeforeFirst();
    positions := [];
    ghost var b, s := 0, -1;
    var r := ts.Next();
    while r.Found?
      invariant ts.Valid() && ScannedTo(positions, ts.file.blocks, ts.layout, b, s)
      invariant NextOk(ts.file.blocks, ts.layout, b, s, r, ts.recordPage.number, ts.currentSlot)
      decreases |ts.file.blocks| - b, ts.file.blockSize - s
    {
      GoesOn(ts.file.blocks, ts.layout, ts.file.blockSize, b, s, ts.recordPage.number, ts.currentSlot);
      ScannedOn(positions, ts.file.blocks, ts.layout, b, s, ts.recordPage.number, ts.currentSlot);
      positions := positions + [(ts.recordPage.number, ts.currentSlot)];
      b, s := ts.recordPage.number, ts.currentSlot;
      r := ts.Next();
    }
    complete := r.End?;
    if complete {
      ScannedAll(positions, ts.file.blocks, ts.layout, b, s);
    }
  }

  /** A table in which such a scan fails: one that was just given a new block. */
  method ScanFails(ts: TableScan) returns (positions: seq<(int, int)>, complete: bool)
    requires ts.Valid() && ts.layout.slotSize <= ts.file.blockSize
    modifies ts`recordPage, ts`currentSlot, ts.file
    ensures |ts.file.blocks| == |old(ts.file.blocks)| + 1
            && ts.file.blocks[..|old(ts.file.blocks)|] == old(ts.file.blocks)
    ensures !complete
  {
    ghost var n := |ts.file.blocks|;
    ts.MoveToNewBlock();
    forall s ensures !UsedAt(ts.file.blocks, ts.layout, n, s) {
      assert IsValidSlot(ts.layout, s, ts.file.blockSize) ==> Formatted(ts.file.blocks[n], ts.layout, s);
    }
    assert !HasRecord(ts.file.blocks, ts.layout, n);
    positions, complete := ScanAll(ts);
  }
}
