/** The engine over the bytes of its log file: what a crash leaves in the file, and what recovering from
    those bytes gives. */
module EngineFiles {
  import opened Options
  import Keys
  import opened Locks
  import opened Recovery
  import opened Engine
  import opened EngineLog
  import opened EngineValues
  import opened EngineCrash
  import opened EngineMisread
  import opened EngineFailures
  import Pages
  import LogFile
  import opened LogRecords
  import opened LogDecoding

  type Blocks = seq<LogFile.Block>

  /** The file on disk holds the saved log, written from records that say in their fields what the engine's
      records say, and fit them; its last block has no boundary yet exactly while the log is torn. */
  ghost predicate FileOf(s: State, blocks: Blocks, size: nat, rs: seq<LogRecord>) {
    && Pages.INT_SIZE <= size < 0x8000_0000 && |rs| == s.saved <= |s.log|
    && (forall i :: 0 <= i < |rs| ==> Describes(rs[i], s.log[i]))
    && (forall i :: 0 <= i < |rs| ==> Loggable(rs[i]))
    && LogFile.LogImage(blocks, size, Bytes(rs))
    && (s.torn <==> LogFile.TornLog(blocks, size))
  }

  /** Recovering a store from what can be read of a log file gives a cell this value. */
  predicate RecoversFrom(blocks: Blocks, store: Store, c: Cell, v: Keys.Value) {
    match ReadLog(blocks)
    case None => false
    case Some(log) => Get(Recovered(log, store), c) == v
  }

  /** The two kinds of file a crash leaves can be told apart by the boundary in the last block. */
  lemma TornIff(s: State, blocks: Blocks, size: nat, rs: seq<LogRecord>)
    requires FileOf(s, blocks, size, rs)
    ensures blocks != [] && |blocks[|blocks| - 1]| == size
    ensures s.torn <==> Pages.GetInt(blocks[|blocks| - 1], 0) == 0
  {
    LogFile.WholeIff(blocks, size, Bytes(rs));
    LogFile.ZerosBlock(size);
  }

  /** What the engine says of recovery is so of the bytes: reading the file back gives the saved log, with
      the rollback numbers misread, unless it is torn. */
  lemma FileRecovers(s: State, blocks: Blocks, size: nat, rs: seq<LogRecord>, store: Store, c: Cell, v: Keys.Value)
    requires FileOf(s, blocks, size, rs)
    ensures RecoversFrom(blocks, store, c, v) <==> RecoversTo(s, store, c, v)
  {
    TornIff(s, blocks, size, rs);
    CrashLogReads(blocks, size, rs);
    SavedRecs(s, rs);
  }

  /** The engine's saved records are those the written ones stand for. */
  lemma SavedRecs(s: State, rs: seq<LogRecord>)
    requires |rs| == s.saved <= |s.log| && forall i :: 0 <= i < |rs| ==> Describes(rs[i], s.log[i])
    ensures Recs(rs) == s.log[..s.saved]
  {
    RecsAt(rs);
    forall i | 0 <= i < |rs| ensures Recs(rs)[i] == s.log[i] {
      DescribesOnly(rs[i], s.log[i]);
    }
  }

  /** Crash atomicity from the bytes: after a crash in a reachable state, recovering the disk from the log
      file leaves the last committed value in a recoverable cell, exactly when the boundary in the last
      block of the file is not 0. */
  lemma CrashAtomicFile(o: Origin, s: State, blocks: Blocks, size: nat, rs: seq<LogRecord>, store: Store, c: Cell)
    requires Safe(o, s) && StartsClean(o) && Recoverable(o, s, c) && Get(store, c) == DiskVal(s, c)
    requires FileOf(s, blocks, size, rs)
    ensures blocks != [] && |blocks[|blocks| - 1]| == size
    ensures RecoversFrom(blocks, store, c, Wanted(o, s.log, s.news, s.saved, c)) <==>
              Pages.GetInt(blocks[|blocks| - 1], 0) != 0
  {
    TornIff(s, blocks, size, rs);
    FileRecovers(s, blocks, size, rs, store, c, Wanted(o, s.log, s.news, s.saved, c));
    if !s.torn {
      CrashAtomic(o, s, store, c);
    }
  }

  /** The file of a whole log becomes that of a torn one by the block of zeros that is added to it. */
  lemma TornFile(s: State, blocks: Blocks, size: nat, rs: seq<LogRecord>)
    requires FileOf(s, blocks, size, rs) && Enabled(s, ExtendLog)
    ensures FileOf(Apply(s, ExtendLog), blocks + [LogFile.Zeros(size)], size, rs)
  {
    var torn := blocks + [LogFile.Zeros(size)];
    assert torn[..|torn| - 1] == blocks;
  }

  /** Hence from every state with a saved log a run of one step leads to a file from which nothing is
      recovered: the first record read from it is empty, and does not decode. */
  lemma TornLost(s: State, blocks: Blocks, size: nat, rs: seq<LogRecord>, store: Store, c: Cell, v: Keys.Value)
    requires FileOf(s, blocks, size, rs) && Enabled(s, ExtendLog)
    ensures Run(s, [ExtendLog], Apply(s, ExtendLog))
    ensures ReadLog(blocks + [LogFile.Zeros(size)]) == None
    ensures !RecoversFrom(blocks + [LogFile.Zeros(size)], store, c, v)
  {
    RunOne(s, ExtendLog);
    TornFile(s, blocks, size, rs);
    TornIff(Apply(s, ExtendLog), blocks + [LogFile.Zeros(size)], size, rs);
    CrashLogReads(blocks + [LogFile.Zeros(size)], size, rs);
  }
}
