/** From bytes to the records the engine reasons about: what recovery reads back from a log is the log
    that was written, but for the transaction numbers of its rollback records. */
module LogDecoding {
  import Keys
  import opened Locks
  import opened Options
  import opened Recovery
  import Pages
  import opened LogRecords
  import LogFile
  import opened EngineCrash

  function KeyBytes(s: seq<Pages.Byte>): seq<Keys.byte> {
    seq(|s|, i requires 0 <= i < |s| => s[i] as Keys.byte)
  }

  function NameOf(file: seq<Pages.Byte>): string {
    seq(|file|, i requires 0 <= i < |file| => file[i] as char)
  }

  function ValueOf(v: SavedVal): Keys.Value {
    match v
    case IntV(n) => Keys.IntVal(n)
    case TextV(s) => Keys.StringVal(KeyBytes(s))
    case BoolV(b) => Keys.BoolVal(b)
    case LongV(n) => Keys.LongVal(n)
    case ShortV(n) => Keys.ShortVal(n)
    case DateV(n) => Keys.DateVal(n * Keys.SECOND)
  }

  /** The engine's view of a log record. */
  function RecOf(r: LogRecord): Rec {
    match r
    case CheckpointRecord => Checkpoint
    case StartRecord(t) => Start(t)
    case CommitRecord(t) => Commit(t)
    case RollbackRecord(t) => Rollback(t)
    case SetRecord(t, file, block, offset, v) => Update(t, Cell(BlockId(NameOf(file), block), offset), ValueOf(v))
  }

  /** A name has these bytes for its characters. */
  ghost predicate Spells(name: string, file: seq<Pages.Byte>) {
    |name| == |file| && forall i :: 0 <= i < |file| ==> name[i] as int == file[i]
  }

  /** A cell's value is a saved value, type by type; a date is an instant in nanoseconds. */
  ghost predicate SameValue(v: SavedVal, w: Keys.Value) {
    match v
    case IntV(n) => w.IntVal? && w.i == n
    case TextV(s) => w.StringVal? && |w.s| == |s| && forall i :: 0 <= i < |s| ==> w.s[i] as int == s[i]
    case BoolV(b) => w.BoolVal? && w.b == b
    case LongV(n) => w.LongVal? && w.l == n
    case ShortV(n) => w.ShortVal? && w.h == n
    case DateV(n) => w.DateVal? && w.nanos == n * 1_000_000_000
  }

  /** A cell is where a record says: the file by its name, the block in it, the offset in that. */
  ghost predicate InPlace(c: Cell, file: seq<Pages.Byte>, block: int, offset: int) {
    Spells(c.block.file, file) && c.block.number == block && c.offset == offset
  }

  /** What a log record says to the engine, field by field. */
  ghost predicate Describes(r: LogRecord, u: Rec) {
    match r
    case CheckpointRecord => u.Checkpoint?
    case StartRecord(t) => u.Start? && u.tx == t
    case CommitRecord(t) => u.Commit? && u.tx == t
    case RollbackRecord(t) => u.Rollback? && u.tx == t
    case SetRecord(t, file, block, offset, v) =>
      u.Update? && u.tx == t && InPlace(u.cell, file, block, offset) && SameValue(v, u.before)
  }

  /** How it is read back: a rollback record as transaction 3's, every other one as it was written. */
  ghost predicate ReadsAs(r: LogRecord, u: Rec) {
    if r.RollbackRecord? then u.Rollback? && u.tx == 3 else Describes(r, u)
  }

  ghost predicate AllRead(rs: seq<LogRecord>, log: seq<Rec>) {
    |log| == |rs| && forall i :: 0 <= i < |rs| ==> ReadsAs(rs[i], log[i])
  }

  lemma DescribesRecOf(r: LogRecord)
    ensures Describes(r, RecOf(r)) && ReadsAs(r, DecodedRec(RecOf(r)))
  {
  }

  lemma SameText(s: string, t: string, bytes: seq<Pages.Byte>)
    requires Spells(s, bytes) && Spells(t, bytes)
    ensures s == t
  {
    forall i | 0 <= i < |s| ensures s[i] == t[i] {
      assert s[i] as int == bytes[i] == t[i] as int;
    }
  }

  lemma SameValueOnly(v: SavedVal, w: Keys.Value)
    ensures SameValue(v, w) <==> w == ValueOf(v)
  {
  }

  /** There is only one such record of the engine. */
  lemma DescribesOnly(r: LogRecord, u: Rec)
    requires Describes(r, u)
    ensures u == RecOf(r)
  {
    if r.SetRecord? {
      SameText(u.cell.block.file, NameOf(r.file), r.file);
      SameValueOnly(r.val, u.before);
    }
  }

  /** Records that can be written without loss, but for the number of a rollback record. */
  predicate Loggable(r: LogRecord) {
    Writable(r) && RecordSize(r) < 0x8000_0000 && Fits(r)
  }

  lemma DecodedIs(r: LogRecord)
    requires Loggable(r)
    ensures Decode(Encode(r)).Some? && RecOf(Decode(Encode(r)).value) == DecodedRec(RecOf(r))
  {
    RoundTrip(r);
    if !r.RollbackRecord? {
      RoundTripIff(r);
    }
  }

  /** The bytes of records, newest first, as the log manager keeps them. */
  function Bytes(rs: seq<LogRecord>): seq<seq<Pages.Byte>> {
    if rs == [] then [] else [Encode(rs[|rs| - 1])] + Bytes(rs[..|rs| - 1])
  }

  function Recs(rs: seq<LogRecord>): seq<Rec> {
    if rs == [] then [] else Recs(rs[..|rs| - 1]) + [RecOf(rs[|rs| - 1])]
  }

  /** The records that some bytes stand for, oldest first; None if one of them does not decode. */
  function ReadBack(bs: seq<seq<Pages.Byte>>): Option<seq<Rec>> {
    if bs == [] then Some([])
    else
      match (Decode(bs[0]), ReadBack(bs[1..]))
      case (Some(r), Some(older)) => Some(older + [RecOf(r)])
      case _ => None
  }

  lemma ReadOne(b: seq<Pages.Byte>, older: seq<seq<Pages.Byte>>, recs: seq<Rec>)
    requires Decode(b).Some? && ReadBack(older) == Some(recs)
    ensures ReadBack([b] + older) == Some(recs + [RecOf(Decode(b).value)])
  {
    assert ([b] + older)[1..] == older;
  }

  lemma DecodedMore(log: seq<Rec>, r: Rec)
    ensures Decoded(log + [r]) == Decoded(log) + [DecodedRec(r)]
  {
    assert (log + [r])[..|log|] == log;
  }

  lemma {:induction false} RecsAt(rs: seq<LogRecord>)
    ensures |Recs(rs)| == |rs| && forall i :: 0 <= i < |rs| ==> Recs(rs)[i] == RecOf(rs[i])
    decreases |rs|
  {
    if rs != [] {
      RecsAt(rs[..|rs| - 1]);
    }
  }

  /** Reading a log back gives a record of the engine for each record written, in order: the transaction's
      number, and of an update the file, block and offset, and the value with its type. */
  lemma LogReadBack(rs: seq<LogRecord>)
    requires forall i :: 0 <= i < |rs| ==> Loggable(rs[i])
    ensures ReadBack(Bytes(rs)).Some? && AllRead(rs, ReadBack(Bytes(rs)).value)
    ensures ReadBack(Bytes(rs)).value == Decoded(Recs(rs))
  {
    ReadBackDecoded(rs);
    RecsAt(rs);
    forall i | 0 <= i < |rs| ensures ReadsAs(rs[i], Decoded(Recs(rs))[i]) {
      DescribesRecOf(rs[i]);
    }
  }

  /** Reading a log back decodes every record it was written from. */
  lemma {:induction false} ReadBackDecoded(rs: seq<LogRecord>)
    requires forall i :: 0 <= i < |rs| ==> Loggable(rs[i])
    ensures ReadBack(Bytes(rs)) == Some(Decoded(Recs(rs)))
    decreases |rs|
  {
    if rs != [] {
      var older, r := rs[..|rs| - 1], rs[|rs| - 1];
      ReadBackDecoded(older);
      DecodedIs(r);
      ReadOne(Encode(r), Bytes(older), Decoded(Recs(older)));
      DecodedMore(Recs(older), RecOf(r));
    }
  }

  /** What recovery can read of a log file; None where reading it fails. */
  function ReadLog(blocks: seq<LogFile.Block>): Option<seq<Rec>> {
    match LogFile.ReadFile(blocks)
    case None => None
    case Some(bs) => ReadBack(bs)
  }

  /** A log file that a crash left is read back exactly when the boundary in its last block is not 0.  It is
      0 between the two writes that start a block: then an empty record comes first, and reading ends. */
  lemma CrashLogReads(blocks: seq<LogFile.Block>, size: nat, rs: seq<LogRecord>)
    requires Pages.INT_SIZE <= size && LogFile.LogImage(blocks, size, Bytes(rs))
    requires forall i :: 0 <= i < |rs| ==> Loggable(rs[i])
    ensures |blocks[|blocks| - 1]| == size
    ensures if Pages.GetInt(blocks[|blocks| - 1], 0) != 0
            then ReadLog(blocks).Some? && AllRead(rs, ReadLog(blocks).value) else ReadLog(blocks) == None
    ensures ReadLog(blocks) == if Pages.GetInt(blocks[|blocks| - 1], 0) != 0 then Some(Decoded(Recs(rs))) else None
  {
    ImageReads(blocks, size, Bytes(rs));
    LogReadBack(rs);
  }

  lemma ImageReads(blocks: seq<LogFile.Block>, size: nat, bs: seq<seq<Pages.Byte>>)
    requires Pages.INT_SIZE <= size && LogFile.LogImage(blocks, size, bs)
    ensures |blocks[|blocks| - 1]| == size
    ensures ReadLog(blocks) == if Pages.GetInt(blocks[|blocks| - 1], 0) != 0 then ReadBack(bs) else None
  {
    LogFile.WholeIff(blocks, size, bs);
    if LogFile.WholeLog(blocks, size) {
      LogFile.ReadFileIs(blocks);
    } else {
      LogFile.TornRead(blocks, size);
    }
  }

  /** Writing one more record, through the page and the log manager, and reading the whole log back. */
  method Log(log: LogFile.Manager, ghost rs: seq<LogRecord>, r: LogRecord) returns (lsn: int)
    requires log.Valid() && RecordSize(r) + 2 * Pages.INT_SIZE <= log.fm.blockSize
    requires log.Contents() == Bytes(rs) && (forall i :: 0 <= i < |rs| ==> Loggable(rs[i])) && Loggable(r)
    modifies log`currentBlock, log`latestLSN, log`lastSavedLSN, log.fm, log.logPage.buffer
    ensures log.Valid() && lsn == log.latestLSN == old(log.latestLSN) + 1
    ensures log.Contents() == Bytes(rs + [r])
    ensures ReadBack(log.Contents()).Some? && AllRead(rs + [r], ReadBack(log.Contents()).value)
  {
    lsn := WriteToLog(log, r);
    BytesMore(rs, r);
    LoggableMore(rs, r);
    LogReadBack(rs + [r]);
  }

  lemma BytesMore(rs: seq<LogRecord>, r: LogRecord)
    ensures Bytes(rs + [r]) == [Encode(r)] + Bytes(rs)
  {
    assert (rs + [r])[..|rs|] == rs;
  }

  lemma LoggableMore(rs: seq<LogRecord>, r: LogRecord)
    requires (forall i :: 0 <= i < |rs| ==> Loggable(rs[i])) && Loggable(r)
    ensures forall i :: 0 <= i < |rs + [r]| ==> Loggable((rs + [r])[i])
  {
  }

  // What recovery makes of the bytes.

  /** A record that keeps recovery from undoing what t did before: its commit record, a rollback record, which
      reads as transaction 3's, or a checkpoint. */
  predicate Covers(r: LogRecord, t: int) {
    match r
    case CheckpointRecord => true
    case CommitRecord(u) => u == t
    case RollbackRecord(_) => t == 3
    case _ => false
  }

  /** Record i saved a value of this place, and no later record covers its transaction. */
  ghost predicate Uncovered(rs: seq<LogRecord>, i: int, c: Cell) {
    && 0 <= i < |rs| && rs[i].SetRecord? && InPlace(c, rs[i].file, rs[i].block, rs[i].offset)
    && forall j :: i < j < |rs| ==> !Covers(rs[j], rs[i].txNum)
  }

  lemma UncoveredIsUndone(rs: seq<LogRecord>, log: seq<Rec>, i: int, c: Cell)
    requires AllRead(rs, log)
    ensures Uncovered(rs, i, c) <==> Undone(log, i, c)
  {
    if 0 <= i < |rs| {
      assert ReadsAs(rs[i], log[i]);
      if rs[i].SetRecord? {
        PlaceOnly(c, log[i].cell, rs[i].file, rs[i].block, rs[i].offset);
        forall j | i < j < |rs| ensures Covers(rs[j], rs[i].txNum) <==> Shields(log[j], log[i].tx) {
          assert ReadsAs(rs[j], log[j]);
        }
      }
    }
  }

  lemma PlaceOnly(c: Cell, d: Cell, file: seq<Pages.Byte>, block: int, offset: int)
    requires InPlace(d, file, block, offset)
    ensures InPlace(c, file, block, offset) <==> c == d
  {
    if InPlace(c, file, block, offset) {
      SameText(c.block.file, d.block.file, file);
    }
  }

  /** Recovering from the bytes of a whole log file gives every place the value saved by the first record of
      it that is not covered, and leaves every other place alone. */
  lemma RecoveredFromBytes(blocks: seq<LogFile.Block>, size: nat, rs: seq<LogRecord>, store: Store, c: Cell)
    requires Pages.INT_SIZE <= size && LogFile.LogImage(blocks, size, Bytes(rs)) && LogFile.WholeLog(blocks, size)
    requires forall i :: 0 <= i < |rs| ==> Loggable(rs[i])
    ensures ReadLog(blocks).Some?
    ensures forall i :: Uncovered(rs, i, c) && (forall k :: 0 <= k < i ==> !Uncovered(rs, k, c)) ==>
              SameValue(rs[i].val, Get(Recovered(ReadLog(blocks).value, store), c))
    ensures (forall i :: !Uncovered(rs, i, c)) ==>
              Get(Recovered(ReadLog(blocks).value, store), c) == Get(store, c)
  {
    LogFile.WholeIff(blocks, size, Bytes(rs));
    CrashLogReads(blocks, size, rs);
    RecoveredByRecords(rs, ReadLog(blocks).value, store, c);
  }

  lemma RecoveredByRecords(rs: seq<LogRecord>, log: seq<Rec>, store: Store, c: Cell)
    requires AllRead(rs, log)
    ensures forall i :: Uncovered(rs, i, c) && (forall k :: 0 <= k < i ==> !Uncovered(rs, k, c)) ==>
              SameValue(rs[i].val, Get(Recovered(log, store), c))
    ensures (forall i :: !Uncovered(rs, i, c)) ==> Get(Recovered(log, store), c) == Get(store, c)
  {
    RecoveryMeaning(log, store, c);
    forall i ensures Uncovered(rs, i, c) <==> Undone(log, i, c) {
      UncoveredIsUndone(rs, log, i, c);
    }
    forall i | Uncovered(rs, i, c) && (forall k :: 0 <= k < i ==> !Uncovered(rs, k, c))
      ensures SameValue(rs[i].val, Get(Recovered(log, store), c))
    {
      assert FirstUndone(log, i, c);
      assert ReadsAs(rs[i], log[i]);
    }
  }

  /** A log file whose newest record is what writing a set record leaves, of a transaction that did not get
      further, behind a checkpoint or nothing: recovery puts the saved value where the record says, and changes
      nothing else. */
  lemma OneRecordRecovered(blocks: seq<LogFile.Block>, size: nat, older: seq<LogRecord>, t: int,
      file: seq<Pages.Byte>, block: int, offset: int, v: SavedVal, store: Store, c: Cell)
    requires Pages.INT_SIZE <= size && LogFile.WholeLog(blocks, size)
    requires older == [] || older[|older| - 1].CheckpointRecord?
    requires (forall i :: 0 <= i < |older| ==> Loggable(older[i])) && Loggable(SetRecord(t, file, block, offset, v))
    requires LogFile.LogImage(blocks, size, Bytes(older + [SetRecord(t, file, block, offset, v)]))
    ensures ReadLog(blocks).Some?
    ensures var value := Get(Recovered(ReadLog(blocks).value, store), c);
            if Spells(c.block.file, file) && c.block.number == block && c.offset == offset then SameValue(v, value)
            else value == Get(store, c)
  {
    var r := SetRecord(t, file, block, offset, v);
    LoggableMore(older, r);
    LogFile.WholeIff(blocks, size, Bytes(older + [r]));
    CrashLogReads(blocks, size, older + [r]);
    NewestRecovered(older, r, ReadLog(blocks).value, store, c);
  }

  lemma NewestRecovered(older: seq<LogRecord>, r: LogRecord, log: seq<Rec>, store: Store, c: Cell)
    requires (older == [] || older[|older| - 1].CheckpointRecord?) && r.SetRecord? && AllRead(older + [r], log)
    ensures if InPlace(c, r.file, r.block, r.offset) then SameValue(r.val, Get(Recovered(log, store), c))
            else Get(Recovered(log, store), c) == Get(store, c)
  {
    RecoveredByRecords(older + [r], log, store, c);
    OlderCovered(older, r, c);
  }

  /** A checkpoint covers everything before it. */
  lemma OlderCovered(older: seq<LogRecord>, r: LogRecord, c: Cell)
    requires (older == [] || older[|older| - 1].CheckpointRecord?) && r.SetRecord?
    ensures forall i :: 0 <= i < |older| ==> !Uncovered(older + [r], i, c)
    ensures Uncovered(older + [r], |older|, c) <==> InPlace(c, r.file, r.block, r.offset)
    ensures (older + [r])[|older|] == r && |older + [r]| == |older| + 1
  {
    var rs := older + [r];
    forall i | 0 <= i < |older| ensures !Uncovered(rs, i, c) {
      var last := |older| - 1;
      assert rs[last] == older[last];
      assert i < last && rs[i].SetRecord? ==> Covers(rs[last], rs[i].txNum);
    }
  }
}
