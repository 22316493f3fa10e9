/** The log file (log/manager.go, log/iterator.go): records are written backwards in each block, and
    read back newest first across blocks. */
module LogFile {
  import opened Options
  import opened Frames
  import opened Pages

  type Block = seq<Byte>

  /** From a position to the end the block is a row of length-prefixed records. */
  predicate Chained(block: Block, pos: nat)
    decreases |block| - pos
  {
    pos == |block|
    || (pos + INT_SIZE <= |block| && GetBytes(block, pos).Some?
        && Chained(block, pos + INT_SIZE + |GetBytes(block, pos).value|))
  }

  /** Those records. */
  function RecordsFrom(block: Block, pos: nat): seq<seq<Byte>>
    requires Chained(block, pos)
    decreases |block| - pos
  {
    if pos == |block| then []
    else
      var r := GetBytes(block, pos).value;
      [r] + RecordsFrom(block, pos + INT_SIZE + |r|)
  }

  /** A log block: the boundary at offset 0, the records from there on. */
  predicate LogBlock(block: Block) {
    |block| >= INT_SIZE && INT_SIZE <= GetInt(block, 0) <= |block| && Chained(block, GetInt(block, 0))
  }

  /** Its records, newest first. */
  function BlockRecords(block: Block): seq<seq<Byte>>
    requires LogBlock(block)
  {
    RecordsFrom(block, GetInt(block, 0))
  }

  ghost predicate LogBlocks(blocks: seq<Block>, size: nat) {
    forall i :: 0 <= i < |blocks| ==> |blocks[i]| == size && LogBlock(blocks[i])
  }

  /** Every block but the last one holds a record. */
  ghost predicate NoGaps(blocks: seq<Block>)
    requires forall i :: 0 <= i < |blocks| ==> LogBlock(blocks[i])
  {
    forall i :: 0 <= i < |blocks| - 1 ==> BlockRecords(blocks[i]) != []
  }

  /** The records of a whole file, newest first. */
  ghost function LogRecords(blocks: seq<Block>): seq<seq<Byte>>
    requires forall i :: 0 <= i < |blocks| ==> LogBlock(blocks[i])
  {
    if blocks == [] then [] else BlockRecords(blocks[|blocks| - 1]) + LogRecords(blocks[..|blocks| - 1])
  }

  /** The records behind a position do not depend on the bytes before it. */
  lemma {:induction false} TailOnly(block: Block, block': Block, pos: nat)
    requires |block'| == |block| && Chained(block, pos) && block'[pos..] == block[pos..]
    ensures Chained(block', pos) && RecordsFrom(block', pos) == RecordsFrom(block, pos)
    decreases |block| - pos
  {
    if pos < |block| {
      var r := GetBytes(block, pos).value;
      SameRecord(block, block', pos);
      TailOnly(block, block', pos + INT_SIZE + |r|);
      RecordHere(block, pos, r);
      RecordHere(block', pos, r);
    }
  }

  lemma RecordHere(block: Block, pos: nat, r: seq<Byte>)
    requires pos + INT_SIZE <= |block| && GetBytes(block, pos) == Some(r) && Chained(block, pos + INT_SIZE + |r|)
    ensures Chained(block, pos) && RecordsFrom(block, pos) == [r] + RecordsFrom(block, pos + INT_SIZE + |r|)
  {
  }

  /** The record at a position, and the bytes behind it. */
  lemma SameRecord(block: Block, block': Block, pos: nat)
    requires |block'| == |block| && pos + INT_SIZE <= |block| && block'[pos..] == block[pos..]
    requires GetBytes(block, pos).Some?
             && pos + INT_SIZE + |GetBytes(block, pos).value| <= |block|
    ensures GetBytes(block', pos) == GetBytes(block, pos)
    ensures var next := pos + INT_SIZE + |GetBytes(block, pos).value|; block'[next..] == block[next..]
  {
    SameFrom(block, block', pos, pos, INT_SIZE);
    var length := |GetBytes(block, pos).value|;
    SameFrom(block, block', pos, pos + INT_SIZE, length);
    assert block'[pos + INT_SIZE + length..] == block'[pos..][INT_SIZE + length..];
  }

  lemma SameFrom(block: Block, block': Block, pos: nat, at: nat, k: nat)
    requires |block'| == |block| && pos <= at && at + k <= |block| && block'[pos..] == block[pos..]
    ensures Slice(block', at, k) == Slice(block, at, k)
  {
    forall i | at <= i < at + k ensures block'[i] == block[i] {
      assert block'[pos..][i - pos] == block[pos..][i - pos];
    }
  }

  /** A block with one more record in front and the boundary moved to it. */
  function WithRecord(block: Block, boundary: nat, record: seq<Byte>): Block
    requires 2 * INT_SIZE + |record| <= boundary <= |block|
  {
    var pos := boundary - (|record| + INT_SIZE);
    SetInt(SetBytes(block, pos, record), 0, pos)
  }

  /** Where the bytes of the new record are. */
  lemma RecordBytes(block: Block, boundary: nat, record: seq<Byte>)
    requires 2 * INT_SIZE + |record| <= boundary <= |block| < 0x8000_0000
    ensures var block' := WithRecord(block, boundary, record);
            var pos := boundary - (|record| + INT_SIZE);
            && |block'| == |block| && GetInt(block', 0) == pos && GetBytes(block', pos) == Some(record)
            && block'[boundary..] == block[boundary..]
  {
    SizeOfBases();
    var pos := boundary - (|record| + INT_SIZE);
    var mid := SetBytes(block, pos, record);
    BytesRoundTrip(block, pos, record);
    assert mid[boundary..] == block[boundary..] by { SetBytesIs(block, pos, record); }
    BoundaryMoved(mid, pos, boundary);
  }

  /** Writing the boundary changes only the first bytes of a block. */
  lemma BoundaryMoved(block: Block, pos: nat, rest: nat)
    requires INT_SIZE <= pos && pos + INT_SIZE <= rest <= |block| < 0x8000_0000
    ensures var block' := SetInt(block, 0, pos);
            && |block'| == |block| && GetInt(block', 0) == pos && GetBytes(block', pos) == GetBytes(block, pos)
            && block'[rest..] == block[rest..]
  {
    SizeOfBases();
    NumRoundTrip(block, 0, INT_SIZE, pos);
    BytesElsewhere(block, 0, Enc(pos, INT_SIZE), pos);
  }

  lemma RecordAdded(block: Block, record: seq<Byte>)
    requires LogBlock(block) && |block| < 0x8000_0000 && 2 * INT_SIZE + |record| <= GetInt(block, 0)
    ensures var block' := WithRecord(block, GetInt(block, 0), record);
            && |block'| == |block| && LogBlock(block')
            && BlockRecords(block') == [record] + BlockRecords(block)
  {
    RecordBytes(block, GetInt(block, 0), record);
    FrontRecord(block, WithRecord(block, GetInt(block, 0), record), GetInt(block, 0), record);
  }

  lemma FrontRecord(block: Block, block': Block, boundary: nat, record: seq<Byte>)
    requires |block'| == |block| && 2 * INT_SIZE + |record| <= boundary <= |block| && Chained(block, boundary)
    requires block'[boundary..] == block[boundary..]
    requires GetBytes(block', boundary - (|record| + INT_SIZE)) == Some(record)
    ensures Chained(block', boundary - (|record| + INT_SIZE))
    ensures RecordsFrom(block', boundary - (|record| + INT_SIZE)) == [record] + RecordsFrom(block, boundary)
  {
    TailOnly(block, block', boundary);
  }

  /** A block whose boundary is its end is empty. */
  lemma EmptyBlock(page: Block)
    requires INT_SIZE <= |page| < 0x8000_0000
    ensures LogBlock(SetInt(page, 0, |page|)) && BlockRecords(SetInt(page, 0, |page|)) == []
  {
    SizeOfBases();
    NumRoundTrip(page, 0, INT_SIZE, |page|);
  }

  /** The log on disk and its page in memory: the page extends the last block, by as many records as
      the newest LSN is ahead of the newest saved one. */
  ghost predicate LogOk(size: nat, blocks: seq<Block>, page: Block, current: int, latest: nat, saved: nat) {
    && INT_SIZE <= size < 0x8000_0000 && |page| == size && LogBlock(page)
    && LogBlocks(blocks, size) && NoGaps(blocks) && current == |blocks| - 1 && current >= 0
    && saved <= latest && latest - saved <= |BlockRecords(page)|
    && BlockRecords(blocks[current]) == BlockRecords(page)[latest - saved..]
  }

  /** The records of a file, taken apart at its last block. */
  lemma LastRecords(blocks: seq<Block>)
    requires blocks != [] && forall i :: 0 <= i < |blocks| ==> LogBlock(blocks[i])
    ensures LogRecords(blocks) == BlockRecords(blocks[|blocks| - 1]) + LogRecords(blocks[..|blocks| - 1])
  {
  }

  /** All records, newest first, whether on disk or only in the page. */
  ghost function AllRecords(blocks: seq<Block>, page: Block): seq<seq<Byte>>
    requires |blocks| > 0 && LogBlock(page) && forall i :: 0 <= i < |blocks| ==> LogBlock(blocks[i])
  {
    BlockRecords(page) + LogRecords(blocks[..|blocks| - 1])
  }

  /** The records not on disk are the newest. */
  lemma UnsavedNewest(size: nat, blocks: seq<Block>, page: Block, current: int, latest: nat, saved: nat)
    requires LogOk(size, blocks, page, current, latest, saved)
    ensures latest - saved <= |AllRecords(blocks, page)|
    ensures LogRecords(blocks) == AllRecords(blocks, page)[latest - saved..]
  {
    LastRecords(blocks);
    DropFront(BlockRecords(page), LogRecords(blocks[..current]), latest - saved);
  }

  /** Writing the page. */
  lemma PageWritten(size: nat, blocks: seq<Block>, page: Block, current: int, latest: nat, saved: nat)
    requires LogOk(size, blocks, page, current, latest, saved)
    ensures var blocks' := blocks[current := page];
            && LogOk(size, blocks', page, current, latest, latest)
            && AllRecords(blocks', page) == AllRecords(blocks, page) == LogRecords(blocks')
            && LogImage(blocks', size, AllRecords(blocks, page))
  {
    var blocks' := blocks[current := page];
    assert blocks'[..current] == blocks[..current];
    assert BlockRecords(page)[0..] == BlockRecords(page);
  }

  /** A page that was saved is the last block of the file. */
  lemma FullSaved(size: nat, blocks: seq<Block>, page: Block, current: int, latest: nat)
    requires LogOk(size, blocks, page, current, latest, latest)
    ensures BlockRecords(blocks[|blocks| - 1]) == BlockRecords(page) && AllRecords(blocks, page) == LogRecords(blocks)
  {
    assert BlockRecords(page)[0..] == BlockRecords(page);
  }

  /** Starting an empty block after a full one that was saved. */
  lemma BlockStarted(size: nat, blocks: seq<Block>, page: Block, page': Block, current: int, latest: nat)
    requires LogOk(size, blocks, page, current, latest, latest) && BlockRecords(page) != []
    requires |page'| == size && LogBlock(page') && BlockRecords(page') == []
    ensures var blocks' := blocks + [page'];
            && LogOk(size, blocks', page', current + 1, latest, latest)
            && AllRecords(blocks', page') == AllRecords(blocks, page)
  {
    var blocks' := blocks + [page'];
    assert blocks'[..current + 1] == blocks;
    assert BlockRecords(page)[0..] == BlockRecords(page);
    forall i | 0 <= i < |blocks'| - 1 ensures BlockRecords(blocks'[i]) != [] {
      assert blocks'[i] == blocks[i];
    }
  }

  lemma RecordPut(size: nat, blocks: seq<Block>, page: Block, current: int, latest: nat, saved: nat, record: seq<Byte>)
    requires LogOk(size, blocks, page, current, latest, saved) && |record| + 2 * INT_SIZE <= GetInt(page, 0)
    ensures var page' := WithRecord(page, GetInt(page, 0), record);
            && LogOk(size, blocks, page', current, latest + 1, saved)
            && AllRecords(blocks, page') == [record] + AllRecords(blocks, page)
  {
    RecordAdded(page, record);
    PageGrew(size, blocks, page, WithRecord(page, GetInt(page, 0), record), current, latest, saved, record);
  }

  /** Adding a record to the page. */
  lemma PageGrew(size: nat, blocks: seq<Block>, page: Block, page': Block, current: int, latest: nat, saved: nat,
        record: seq<Byte>)
    requires LogOk(size, blocks, page, current, latest, saved) && |page'| == size
    requires LogBlock(page') && BlockRecords(page') == [record] + BlockRecords(page)
    ensures LogOk(size, blocks, page', current, latest + 1, saved)
    ensures AllRecords(blocks, page') == [record] + AllRecords(blocks, page)
  {
    var rs := BlockRecords(page);
    assert ([record] + rs)[latest + 1 - saved..] == rs[latest - saved..];
  }

  // What a crash can leave of the file.

  function Zeros(size: nat): (block: Block)
    ensures |block| == size && forall i :: 0 <= i < size ==> block[i] == 0
  {
    seq(size, i => 0)
  }

  /** A file that a process can go on with. */
  ghost predicate WholeLog(blocks: seq<Block>, size: nat) {
    LogBlocks(blocks, size) && NoGaps(blocks)
  }

  /** A file whose last block was added and not started: its boundary is still 0. */
  ghost predicate TornLog(blocks: seq<Block>, size: nat) {
    blocks != [] && blocks[|blocks| - 1] == Zeros(size) && WholeLog(blocks[..|blocks| - 1], size)
  }

  /** The file on disk at some moment, with the records it holds. */
  ghost predicate LogImage(blocks: seq<Block>, size: nat, records: seq<seq<Byte>>) {
    || (blocks != [] && WholeLog(blocks, size) && LogRecords(blocks) == records)
    || (TornLog(blocks, size) && LogRecords(blocks[..|blocks| - 1]) == records)
  }

  lemma {:induction false} ZerosRead(bs: seq<Byte>)
    requires forall i :: 0 <= i < |bs| ==> bs[i] == 0
    ensures Uint(bs) == 0
  {
    if bs != [] {
      ZerosRead(bs[..|bs| - 1]);
    }
  }

  /** A block of zeros reads as one whose records begin at 0, with an empty one; it is no log block. */
  lemma ZerosBlock(size: nat)
    requires INT_SIZE <= size
    ensures GetInt(Zeros(size), 0) == 0 && GetBytes(Zeros(size), 0) == Some([]) && !LogBlock(Zeros(size))
  {
    SizeOfBases();
    ZerosRead(Slice(Zeros(size), 0, INT_SIZE));
  }

  /** The file that a crash leaves is whole exactly when the boundary in its last block is not 0. */
  lemma WholeIff(blocks: seq<Block>, size: nat, records: seq<seq<Byte>>)
    requires INT_SIZE <= size && LogImage(blocks, size, records)
    ensures |blocks[|blocks| - 1]| == size
    ensures WholeLog(blocks, size) <==> GetInt(blocks[|blocks| - 1], 0) != 0
    ensures WholeLog(blocks, size) ==> LogRecords(blocks) == records
  {
    ZerosBlock(size);
    if WholeLog(blocks, size) {
      assert LogBlock(blocks[|blocks| - 1]);
    }
  }

  /** Reading one block from a position on, whatever is in it; None where the original would index out of
      range. */
  function ReadFrom(block: Block, pos: int): Option<seq<seq<Byte>>>
    decreases |block| - pos
  {
    if pos == |block| then Some([])
    else if !(0 <= pos && pos + INT_SIZE <= |block|) then None
    else
      match GetBytes(block, pos)
      case None => None
      case Some(r) =>
        match ReadFrom(block, pos + INT_SIZE + |r|)
        case None => None
        case Some(rest) => Some([r] + rest)
  }

  /** Reading a whole file, newest first, whatever is in it. */
  function ReadFile(blocks: seq<Block>): Option<seq<seq<Byte>>> {
    if blocks == [] then Some([])
    else
      var last := blocks[|blocks| - 1];
      if |last| < INT_SIZE then None
      else
        match (ReadFrom(last, GetInt(last, 0)), ReadFile(blocks[..|blocks| - 1]))
        case (Some(newer), Some(older)) => Some(newer + older)
        case _ => None
  }

  lemma {:induction false} ReadFromIs(block: Block, pos: nat)
    requires Chained(block, pos)
    ensures ReadFrom(block, pos) == Some(RecordsFrom(block, pos))
    decreases |block| - pos
  {
    if pos < |block| {
      ReadFromIs(block, pos + INT_SIZE + |GetBytes(block, pos).value|);
    }
  }

  lemma {:induction false} ReadFileIs(blocks: seq<Block>)
    requires forall i :: 0 <= i < |blocks| ==> LogBlock(blocks[i])
    ensures ReadFile(blocks) == Some(LogRecords(blocks))
    decreases |blocks|
  {
    if blocks != [] {
      var last := blocks[|blocks| - 1];
      ReadFromIs(last, GetInt(last, 0));
      ReadFileIs(blocks[..|blocks| - 1]);
    }
  }

  /** The first record read from a torn file is empty. */
  lemma TornRead(blocks: seq<Block>, size: nat)
    requires INT_SIZE <= size && TornLog(blocks, size)
    ensures ReadFile(blocks).Some? ==> ReadFile(blocks).value != [] && ReadFile(blocks).value[0] == []
  {
    ZerosBlock(size);
  }

  /** One record off the front of a chain. */
  lemma ChainStep(block: Block, pos: nat)
    requires Chained(block, pos) && pos < |block|
    ensures pos + INT_SIZE <= |block| && GetBytes(block, pos).Some?
    ensures var r := GetBytes(block, pos).value;
            Chained(block, pos + INT_SIZE + |r|)
                && RecordsFrom(block, pos) == [r] + RecordsFrom(block, pos + INT_SIZE + |r|)
  {
  }

  lemma FirstOff(r: seq<Byte>, a: seq<seq<Byte>>, b: seq<seq<Byte>>)
    ensures (([r] + a) + b)[0] == r && (([r] + a) + b)[1..] == a + b
  {
  }

  lemma MoveOver(a: seq<seq<Byte>>, b: seq<seq<Byte>>)
    ensures b != [] ==> a + [b[0]] + b[1..] == a + b
  {
  }

  lemma DropFront(a: seq<seq<Byte>>, b: seq<seq<Byte>>, k: nat)
    requires k <= |a|
    ensures (a + b)[k..] == a[k..] + b
  {
  }

  function BlocksIn(files: map<string, seq<Block>>, name: string): seq<Block> {
    if name in files then files[name] else []
  }

  /** Files as arrays of blocks, each read and write of a block atomic.  A crash can fall between any two
      writes: images are the files after each of them. */
  class FileManager {
    const blockSize: nat
    var files: map<string, seq<Block>>
    ghost var images: seq<map<string, seq<Block>>>

    constructor (blockSize: nat)
      ensures this.blockSize == blockSize && files == map[] && images == []
    {
      this.blockSize := blockSize;
      files := map[];
      images := [];
    }

    function Blocks(name: string): seq<Block>
      reads this
    {
      BlocksIn(files, name)
    }

    method Length(name: string) returns (n: nat)
      ensures n == |Blocks(name)|
    {
      n := if name in files then |files[name]| else 0;
    }

    method Read(name: string, number: nat, page: Page)
      requires number < |Blocks(name)| && |Blocks(name)[number]| == page.buffer.Length
      modifies page.buffer
      ensures page.buffer[..] == Blocks(name)[number]
    {
      var block := files[name][number];
      forall i | 0 <= i < page.buffer.Length {
        page.buffer[i] := block[i];
      }
    }

    method Write(name: string, number: nat, page: Page)
      requires number < |Blocks(name)|
      modifies this
      ensures files == old(files)[name := old(Blocks(name))[number := page.buffer[..]]]
      ensures images == old(images) + [files]
    {
      files := files[name := files[name][number := page.buffer[..]]];
      images := images + [files];
    }

    method Append(name: string) returns (number: nat)
      modifies this
      ensures number == |old(Blocks(name))|
      ensures files == old(files)[name := old(Blocks(name)) + [Zeros(blockSize)]]
      ensures images == old(images) + [files]
    {
      number := Length(name);
      var blocks := if name in files then files[name] else [];
      files := files[name := blocks + [Zeros(blockSize)]];
      images := images + [files];
    }
  }

  /** With room on the page nothing is written; without, the file gets exactly one block. */
  predicate RoomTaken(files: map<string, seq<Block>>, files': map<string, seq<Block>>, name: string, room: bool) {
    if room then files' == files else |BlocksIn(files', name)| == |BlocksIn(files, name)| + 1
  }

  /** Every image of the file since some moment holds these records, torn or not. */
  ghost predicate CrashLogs(fm: FileManager, since: seq<map<string, seq<Block>>>, name: string, records: seq<seq<Byte>>)
    reads fm
  {
    && since <= fm.images
    && forall i :: |since| <= i < |fm.images| ==> LogImage(BlocksIn(fm.images[i], name), fm.blockSize, records)
  }

  lemma CrashLogsJoin(fm: FileManager, a: seq<map<string, seq<Block>>>, b: seq<map<string, seq<Block>>>,
                      name: string, records: seq<seq<Byte>>)
    requires CrashLogs(fm, b, name, records) && a <= b
    requires forall i :: |a| <= i < |b| ==> LogImage(BlocksIn(b[i], name), fm.blockSize, records)
    ensures CrashLogs(fm, a, name, records)
  {
    forall i | |a| <= i < |fm.images| ensures LogImage(BlocksIn(fm.images[i], name), fm.blockSize, records) {
      assert i < |b| ==> fm.images[i] == b[i];
    }
  }

  lemma CrashLogsOne(fm: FileManager, since: seq<map<string, seq<Block>>>, name: string, records: seq<seq<Byte>>,
                     a: map<string, seq<Block>>)
    requires fm.images == since + [a] && LogImage(BlocksIn(a, name), fm.blockSize, records)
    ensures CrashLogs(fm, since, name, records)
  {
    assert fm.images[|since|] == a;
  }

  lemma CrashLogsTwo(fm: FileManager, since: seq<map<string, seq<Block>>>, name: string, records: seq<seq<Byte>>,
                     a: map<string, seq<Block>>, b: map<string, seq<Block>>)
    requires fm.images == since + [a, b]
    requires LogImage(BlocksIn(a, name), fm.blockSize, records) && LogImage(BlocksIn(b, name), fm.blockSize, records)
    ensures CrashLogs(fm, since, name, records)
  {
    var images := fm.images;
    forall i | |since| <= i < |images| ensures LogImage(BlocksIn(images[i], name), fm.blockSize, records) {
      if i == |since| {
        assert images[i] == a;
      } else {
        assert images[i] == b;
      }
    }
  }

  /** The two images that starting a block leaves: torn, and whole. */
  lemma StartImages(size: nat, blocks: seq<Block>, page': Block, records: seq<seq<Byte>>)
    requires WholeLog(blocks, size) && LogRecords(blocks) == records
    requires blocks != [] ==> BlockRecords(blocks[|blocks| - 1]) != []
    requires |page'| == size && LogBlock(page') && BlockRecords(page') == []
    ensures LogImage(blocks + [Zeros(size)], size, records) && LogImage(blocks + [page'], size, records)
  {
    var torn := blocks + [Zeros(size)];
    assert torn[..|torn| - 1] == blocks;
    WholeMore(size, blocks, page');
  }

  lemma WholeMore(size: nat, blocks: seq<Block>, page': Block)
    requires WholeLog(blocks, size)
    requires blocks != [] ==> BlockRecords(blocks[|blocks| - 1]) != []
    requires |page'| == size && LogBlock(page') && BlockRecords(page') == []
    ensures WholeLog(blocks + [page'], size) && LogRecords(blocks + [page']) == LogRecords(blocks)
  {
    BlocksMore(size, blocks, page');
    NoGapsMore(blocks, page');
  }

  lemma NoGapsMore(blocks: seq<Block>, page': Block)
    requires (forall i :: 0 <= i < |blocks| ==> LogBlock(blocks[i])) && NoGaps(blocks)
    requires blocks != [] ==> BlockRecords(blocks[|blocks| - 1]) != []
    requires forall i :: 0 <= i <= |blocks| ==> LogBlock((blocks + [page'])[i])
    ensures NoGaps(blocks + [page'])
  {
    var whole := blocks + [page'];
    forall i | 0 <= i < |whole| - 1 ensures BlockRecords(whole[i]) != [] {
      assert whole[i] == blocks[i];
      if i == |blocks| - 1 {
        assert blocks != [];
      }
    }
  }

  lemma BlocksMore(size: nat, blocks: seq<Block>, page': Block)
    requires LogBlocks(blocks, size) && |page'| == size && LogBlock(page')
    ensures LogBlocks(blocks + [page'], size)
    ensures LogRecords(blocks + [page']) == BlockRecords(page') + LogRecords(blocks)
  {
    var whole := blocks + [page'];
    forall i | 0 <= i < |whole| ensures |whole[i]| == size && LogBlock(whole[i]) {
      assert i < |blocks| ==> whole[i] == blocks[i];
    }
    LastRecords(whole);
    assert whole[|whole| - 1] == page' && whole[..|whole| - 1] == blocks;
  }

  /** A log file and page behind opening a file: in order exactly when the file was whole. */
  ghost predicate Opened(size: nat, before: seq<Block>, blocks: seq<Block>, page: Block, current: nat) {
    && (LogOk(size, blocks, page, current, 0, 0) <==> WholeLog(before, size))
    && (WholeLog(before, size) ==> AllRecords(blocks, page) == LogRecords(blocks) == LogRecords(before))
  }

  lemma StartedOk(size: nat, page: Block)
    requires INT_SIZE <= size < 0x8000_0000 && |page| == size && LogBlock(page) && BlockRecords(page) == []
    ensures Opened(size, [], [page], page, 0)
  {
    NoBlocks(size);
    WholeMore(size, [], page);
    assert [] + [page] == [page];
    ReopenedOk(size, [page]);
  }

  lemma NoBlocks(size: nat)
    ensures WholeLog([], size) && LogRecords([]) == []
  {
  }

  /** A file that was read back in: in order exactly when it was whole. */
  lemma ReopenedOk(size: nat, blocks: seq<Block>)
    requires INT_SIZE <= size < 0x8000_0000 && blocks != [] && forall i :: 0 <= i < |blocks| ==> |blocks[i]| == size
    ensures LogOk(size, blocks, blocks[|blocks| - 1], |blocks| - 1, 0, 0) <==> WholeLog(blocks, size)
    ensures WholeLog(blocks, size) ==> AllRecords(blocks, blocks[|blocks| - 1]) == LogRecords(blocks)
  {
    if WholeLog(blocks, size) {
      var page := blocks[|blocks| - 1];
      assert LogBlock(page);
      assert BlockRecords(page)[0..] == BlockRecords(page);
    }
  }

  class Manager {
    const fm: FileManager
    const logFile: string
    const logPage: Page
    var currentBlock: nat
    var latestLSN: nat
    var lastSavedLSN: nat

    ghost predicate Valid()
      reads this, fm, logPage.buffer
    {
      LogOk(fm.blockSize, fm.Blocks(logFile), logPage.buffer[..], currentBlock, latestLSN, lastSavedLSN)
    }

    /** All appended records, newest first. */
    ghost function Contents(): seq<seq<Byte>>
      requires Valid()
      reads this, fm, logPage.buffer
    {
      AllRecords(fm.Blocks(logFile), logPage.buffer[..])
    }

    /** Those on disk. */
    ghost function Saved(): seq<seq<Byte>>
      requires Valid()
      reads this, fm, logPage.buffer
    {
      LogRecords(fm.Blocks(logFile))
    }

    /** The records not on disk are the newest ones, as many as the two LSNs are apart. */
    lemma SavedIsSuffix()
      requires Valid()
      ensures latestLSN - lastSavedLSN <= |Contents()|
      ensures Saved() == Contents()[latestLSN - lastSavedLSN..]
    {
      UnsavedNewest(fm.blockSize, fm.Blocks(logFile), logPage.buffer[..], currentBlock, latestLSN, lastSavedLSN);
    }

    /** Any file is opened; the log is in order exactly when the file was whole. */
    constructor (fm: FileManager, logFile: string)
      requires INT_SIZE <= fm.blockSize < 0x8000_0000
      requires forall i :: 0 <= i < |fm.Blocks(logFile)| ==> |fm.Blocks(logFile)[i]| == fm.blockSize
      modifies fm
      ensures fresh(logPage.buffer) && this.fm == fm && this.logFile == logFile && latestLSN == lastSavedLSN == 0
      ensures Valid() <==> WholeLog(old(fm.Blocks(logFile)), fm.blockSize)
      ensures Valid() ==> Contents() == Saved() == LogRecords(old(fm.Blocks(logFile)))
      ensures WholeLog(old(fm.Blocks(logFile)), fm.blockSize) ==>
                CrashLogs(fm, old(fm.images), logFile, LogRecords(old(fm.Blocks(logFile))))
    {
      var page := new Page.OfSize(fm.blockSize);
      var current := OpenFile(fm, logFile, page);
      this.fm := fm;
      this.logFile := logFile;
      logPage := page;
      currentBlock := current;
      latestLSN := 0;
      lastSavedLSN := 0;
    }

    /** Read the last block of the file in, or start the first one. */
    static method OpenFile(fm: FileManager, logFile: string, page: Page) returns (current: nat)
      requires INT_SIZE <= fm.blockSize < 0x8000_0000 && page.buffer.Length == fm.blockSize
      requires forall i :: 0 <= i < |fm.Blocks(logFile)| ==> |fm.Blocks(logFile)[i]| == fm.blockSize
      modifies fm, page.buffer
      ensures Opened(fm.blockSize, old(fm.Blocks(logFile)), fm.Blocks(logFile), page.buffer[..], current)
      ensures WholeLog(old(fm.Blocks(logFile)), fm.blockSize) ==>
                CrashLogs(fm, old(fm.images), logFile, LogRecords(old(fm.Blocks(logFile))))
    {
      var logSize := fm.Length(logFile);
      if logSize == 0 {
        ghost var images, files := fm.images, fm.files;
        current := AppendNewBlock(fm, logFile, page);
        StartImages(fm.blockSize, [], page.buffer[..], []);
        CrashLogsTwo(fm, images, logFile, [], files[logFile := [Zeros(fm.blockSize)]], fm.files);
        StartedOk(fm.blockSize, page.buffer[..]);
      } else {
        current := logSize - 1;
        fm.Read(logFile, current, page);
        ReopenedOk(fm.blockSize, fm.Blocks(logFile));
      }
    }

    /** Add an empty block to the file and start a page for it: two writes. */
    static method AppendNewBlock(fm: FileManager, logFile: string, page: Page) returns (number: nat)
      requires INT_SIZE <= fm.blockSize < 0x8000_0000 && page.buffer.Length == fm.blockSize
      modifies fm, page.buffer
      ensures number == |old(fm.Blocks(logFile))|
      ensures page.buffer[..] == SetInt(old(page.buffer[..]), 0, fm.blockSize)
      ensures fm.Blocks(logFile) == old(fm.Blocks(logFile)) + [page.buffer[..]]
      ensures fm.images == old(fm.images)
                           + [old(fm.files)[logFile := old(fm.Blocks(logFile)) + [Zeros(fm.blockSize)]], fm.files]
      ensures LogBlock(page.buffer[..]) && BlockRecords(page.buffer[..]) == []
    {
      number := fm.Append(logFile);
      EmptyBlock(page.buffer[..]);
      page.PutNum(0, INT_SIZE, fm.blockSize);
      fm.Write(logFile, number, page);
    }

    /** Write the page to its block. */
    method WritePage()
      requires Valid()
      modifies this`lastSavedLSN, fm
      ensures Valid() && Contents() == old(Contents()) == Saved()
      ensures lastSavedLSN == latestLSN && CrashLogs(fm, old(fm.images), logFile, Contents())
    {
      ghost var blocks, page, images := fm.Blocks(logFile), logPage.buffer[..], fm.images;
      PageWritten(fm.blockSize, blocks, page, currentBlock, latestLSN, lastSavedLSN);
      fm.Write(logFile, currentBlock, logPage);
      lastSavedLSN := latestLSN;
      assert fm.Blocks(logFile) == blocks[currentBlock := page];
      CrashLogsOne(fm, images, logFile, AllRecords(blocks, page), fm.files);
    }

    /** Afterwards the record with this LSN is on disk, and the log is what it was. */
    method Flush(lsn: int)
      requires Valid()
      modifies this`lastSavedLSN, fm
      ensures Valid() && Contents() == old(Contents()) && CrashLogs(fm, old(fm.images), logFile, Contents())
      ensures lastSavedLSN == LogFlushed(old(lastSavedLSN), lsn, latestLSN)
      ensures lsn <= latestLSN ==> lsn <= lastSavedLSN
      ensures if lsn >= old(lastSavedLSN) then lastSavedLSN == latestLSN
              else lastSavedLSN == old(lastSavedLSN) && fm.files == old(fm.files)
    {
      if lsn >= lastSavedLSN {
        WritePage();
      }
    }

    /** Append a record, in a new block if the current one has no room for it.  Until it is saved, a crash
        leaves the records there were, or a torn file of them. */
    method Append(record: seq<Byte>) returns (lsn: nat)
      requires Valid() && |record| + 2 * INT_SIZE <= fm.blockSize
      modifies this`currentBlock, this`latestLSN, this`lastSavedLSN, fm, logPage.buffer
      ensures Valid() && lsn == latestLSN == old(latestLSN) + 1
      ensures Contents() == [record] + old(Contents()) && CrashLogs(fm, old(fm.images), logFile, old(Contents()))
      ensures RoomTaken(old(fm.files), fm.files, logFile, |record| + 2 * INT_SIZE <= old(GetInt(logPage.buffer[..], 0)))
    {
      var boundary := MakeRoom(|record| + INT_SIZE);
      PutRecord(boundary, record);
      latestLSN := latestLSN + 1;
      lsn := latestLSN;
    }

    /** The boundary of a block with room for so many bytes: the current one, or else a new one. */
    method MakeRoom(bytesNeeded: nat) returns (boundary: nat)
      requires Valid() && bytesNeeded + INT_SIZE <= fm.blockSize
      modifies this`currentBlock, this`lastSavedLSN, fm, logPage.buffer
      ensures Valid() && Contents() == old(Contents()) && CrashLogs(fm, old(fm.images), logFile, Contents())
      ensures boundary == GetInt(logPage.buffer[..], 0) && bytesNeeded + INT_SIZE <= boundary
      ensures RoomTaken(old(fm.files), fm.files, logFile, bytesNeeded + INT_SIZE <= old(GetInt(logPage.buffer[..], 0)))
    {
      boundary := GetInt(logPage.buffer[..], 0);
      if boundary - bytesNeeded < INT_SIZE {
        ghost var before := fm.images;
        WritePage();
        ghost var saved := fm.images;
        StartBlock();
        CrashLogsJoin(fm, before, saved, logFile, Contents());
        boundary := GetInt(logPage.buffer[..], 0);
      }
    }

    /** Move on to an empty block; the full one has been saved. */
    method StartBlock()
      requires Valid() && lastSavedLSN == latestLSN && GetInt(logPage.buffer[..], 0) < fm.blockSize
      modifies this`currentBlock, fm, logPage.buffer
      ensures Valid() && Contents() == old(Contents()) && GetInt(logPage.buffer[..], 0) == fm.blockSize
      ensures CrashLogs(fm, old(fm.images), logFile, Contents())
      ensures logFile in fm.files && |fm.Blocks(logFile)| == |old(fm.Blocks(logFile))| + 1
    {
      ghost var blocks, page, images, files := fm.Blocks(logFile), logPage.buffer[..], fm.images, fm.files;
      FullSaved(fm.blockSize, blocks, page, currentBlock, latestLSN);
      currentBlock := AppendNewBlock(fm, logFile, logPage);
      ghost var page' := logPage.buffer[..];
      StartImages(fm.blockSize, blocks, page', LogRecords(blocks));
      CrashLogsTwo(fm, images, logFile, LogRecords(blocks), files[logFile := blocks + [Zeros(fm.blockSize)]], fm.files);
      BlockStarted(fm.blockSize, blocks, page, page', currentBlock - 1, latestLSN);
    }

    /** Write a record in front of the others and move the boundary to it. */
    method PutRecord(boundary: nat, record: seq<Byte>)
      requires Valid() && boundary == GetInt(logPage.buffer[..], 0) && |record| + 2 * INT_SIZE <= boundary
      modifies logPage.buffer
      ensures LogOk(fm.blockSize, fm.Blocks(logFile), logPage.buffer[..], currentBlock, latestLSN + 1, lastSavedLSN)
      ensures AllRecords(fm.Blocks(logFile), logPage.buffer[..]) == [record] + old(Contents())
    {
      ghost var blocks, page := fm.Blocks(logFile), logPage.buffer[..];
      RecordPut(fm.blockSize, blocks, page, currentBlock, latestLSN, lastSavedLSN, record);
      PutFront(logPage, boundary, record);
      assert fm.Blocks(logFile) == blocks;
    }

    static method PutFront(page: Page, boundary: nat, record: seq<Byte>)
      requires 2 * INT_SIZE + |record| <= boundary <= page.buffer.Length
      modifies page.buffer
      ensures page.buffer[..] == WithRecord(old(page.buffer[..]), boundary, record)
    {
      var recordPosition := boundary - (|record| + INT_SIZE);
      page.PutBytes(recordPosition, record);
      page.PutNum(0, INT_SIZE, recordPosition);
    }

    /** An iterator over all records: the page is saved first. */
    method NewIterator() returns (it: Iterator)
      requires Valid()
      modifies this`lastSavedLSN, fm
      ensures Valid() && Contents() == old(Contents()) && lastSavedLSN == latestLSN
      ensures fresh(it) && fresh(it.page.buffer) && it.fm == fm && it.logFile == logFile
      ensures it.Valid() && it.Rest() == Contents()
    {
      WritePage();
      assert fm.Blocks(logFile)[..currentBlock + 1] == fm.Blocks(logFile);
      it := new Iterator(fm, logFile, currentBlock);
    }
  }

  /** Reads the records of the log file, newest first. */
  class Iterator {
    const fm: FileManager
    const logFile: string
    const page: Page
    var block: nat
    var currentPosition: nat

    ghost predicate Valid()
      reads this, fm, page.buffer
    {
      var blocks := fm.Blocks(logFile);
      && page.buffer.Length == fm.blockSize && block < |blocks|
      && LogBlocks(blocks, fm.blockSize) && NoGaps(blocks)
      && Chained(page.buffer[..], currentPosition)
    }

    /** The records it has still to return. */
    ghost function Rest(): seq<seq<Byte>>
      requires Valid()
      reads this, fm, page.buffer
    {
      RecordsFrom(page.buffer[..], currentPosition) + LogRecords(fm.Blocks(logFile)[..block])
    }

    constructor (fm: FileManager, logFile: string, number: nat)
      requires number < |fm.Blocks(logFile)| && LogBlocks(fm.Blocks(logFile), fm.blockSize)
               && NoGaps(fm.Blocks(logFile))
      ensures Valid() && fresh(page.buffer) && this.fm == fm && this.logFile == logFile
      ensures Rest() == LogRecords(fm.Blocks(logFile)[..number + 1])
    {
      this.fm := fm;
      this.logFile := logFile;
      page := new Page.OfSize(fm.blockSize);
      block := number;
      currentPosition := 0;
      new;
      MoveToBlock(number);
    }

    /** Stand before the newest record of a block. */
    method MoveToBlock(number: nat)
      requires number < |fm.Blocks(logFile)| && page.buffer.Length == fm.blockSize
      requires LogBlocks(fm.Blocks(logFile), fm.blockSize) && NoGaps(fm.Blocks(logFile))
      modifies this`block, this`currentPosition, page.buffer
      ensures Valid() && block == number && page.buffer[..] == fm.Blocks(logFile)[number]
      ensures Rest() == LogRecords(fm.Blocks(logFile)[..number + 1])
      ensures RecordsFrom(page.buffer[..], currentPosition) == BlockRecords(fm.Blocks(logFile)[number])
    {
      fm.Read(logFile, number, page);
      block := number;
      currentPosition := GetInt(page.buffer[..], 0);
      assert fm.Blocks(logFile)[..number + 1][..number] == fm.Blocks(logFile)[..number];
    }

    /** True exactly when a record is left. */
    method HasNext() returns (r: bool)
      requires Valid()
      ensures r <==> Rest() != []
    {
      r := currentPosition < fm.blockSize || block > 0;
      assert block > 0 ==> BlockRecords(fm.Blocks(logFile)[block - 1]) != [];
    }

    /** The next record; None when none is left. */
    method Next() returns (record: Option<seq<Byte>>)
      requires Valid()
      modifies this`block, this`currentPosition, page.buffer
      ensures Valid()
      ensures old(Rest()) == [] ==> record == None && Rest() == []
      ensures old(Rest()) != [] ==> record == Some(old(Rest())[0]) && Rest() == old(Rest())[1..]
    {
      if currentPosition == fm.blockSize {
        if block == 0 {
          return None;
        }
        StepBack();
      }
      record := Take();
    }

    /** On to the previous block, which holds a record. */
    method StepBack()
      requires Valid() && currentPosition == fm.blockSize && block > 0
      modifies this`block, this`currentPosition, page.buffer
      ensures Valid() && Rest() == old(Rest()) && RecordsFrom(page.buffer[..], currentPosition) != []
    {
      assert Rest() == LogRecords(fm.Blocks(logFile)[..block]);
      assert BlockRecords(fm.Blocks(logFile)[block - 1]) != [];
      MoveToBlock(block - 1);
    }

    /** The record at the current position. */
    method Take() returns (record: Option<seq<Byte>>)
      requires Valid() && RecordsFrom(page.buffer[..], currentPosition) != []
      modifies this`currentPosition
      ensures Valid() && Rest() == old(Rest())[1..] && old(Rest()) != [] && record == Some(old(Rest())[0])
    {
      ghost var older, bytes := LogRecords(fm.Blocks(logFile)[..block]), page.buffer[..];
      ChainStep(bytes, currentPosition);
      record := GetBytes(page.buffer[..], currentPosition);
      currentPosition := currentPosition + INT_SIZE + |record.value|;
      assert page.buffer[..] == bytes;
      FirstOff(record.value, RecordsFrom(bytes, currentPosition), older);
    }
  }

  /** Reading the whole log gives the appended records reversed. */
  method ReadAll(log: Manager) returns (records: seq<seq<Byte>>)
    requires log.Valid()
    modifies log`lastSavedLSN, log.fm
    ensures log.Valid() && log.Contents() == old(log.Contents())
    ensures records == log.Contents()
  {
    var it := log.NewIterator();
    records := Drain(it);
  }

  method Drain(it: Iterator) returns (records: seq<seq<Byte>>)
    requires it.Valid()
    modifies it, it.page.buffer
    ensures it.Valid() && records == old(it.Rest()) && it.Rest() == []
  {
    records := [];
    var more := it.HasNext();
    while more
      invariant it.Valid() && records + it.Rest() == old(it.Rest())
      invariant more <==> it.Rest() != []
      decreases |it.Rest()|
    {
      MoveOver(records, it.Rest());
      var r := it.Next();
      records := records + [r.value];
      more := it.HasNext();
    }
  }
}
