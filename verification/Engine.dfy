/** The transaction engine as a step machine (tx/transaction.go with the lock table, the buffer pool,
    the log and the disk it drives).

    One step is one call made under a mutex, cut further wherever a disk write happens, so that a
    crash can fall between any two writes.  A call that would wait is not enabled.  A crash keeps only
    the disk blocks and the saved part of the log, and nothing can be read back from the log if the
    crash falls between the two writes that start a new log block. */
module Engine {
  import opened Options
  import opened Keys
  import opened Locks
  import opened Frames
  import opened Recovery

  type BlockData = map<int, Value>

  function ReadOff(data: BlockData, off: int): Value {
    if off in data then data[off] else ZERO
  }

  function ReadBlock(disk: map<BlockId, BlockData>, b: BlockId): BlockData {
    if b in disk then disk[b] else map[]
  }

  /** What a client did: the value a read returned, the value a write stored. */
  datatype Op = ReadOp(cell: Cell, val: Value) | WriteOp(cell: Cell, val: Value)

  /** Where a transaction is: running; commit record appended under an LSN; undoing, down to a log
      position; rollback record appended under an LSN; giving up its locks and pins. */
  datatype Phase = Active | Committing(lsn: nat) | Undoing(pos: nat) | Undid(lsn: nat) | Releasing

  datatype Txn = Txn(phase: Phase, held: Held, pinned: map<BlockId, nat>, ops: seq<Op>)

  /** log[i] has LSN i + 1, counting from the start of the log where a process counts from its own start,
      and saved counts the records on disk.  The log is torn while it has a new last block of zeros,
      which does not yet say where its records begin.  Two history variables: news[i] is the value the
      update log[i] stored, and order lists what the transactions that committed did, in the order in
      which they began to release their locks. */
  datatype State = State(
    disk: map<BlockId, BlockData>,
    pool: seq<Frame<BlockData>>,
    log: seq<Rec>,
    news: seq<Value>,
    saved: nat,
    torn: bool,
    table: Table,
    txns: map<TxId, Txn>,
    nextTx: TxId,
    order: seq<seq<Op>>)

  datatype Step =
    | Begin
    | SLock(t: TxId, b: BlockId)
    | XUpgrade(t: TxId, b: BlockId)
    | Pin(t: TxId, b: BlockId)
    | Unpin(t: TxId, b: BlockId)
    | FlushLog(lsn: int)
    | ExtendLog
    | StartBlock
    | FlushFrame(i: nat)
    | ReadCell(t: TxId, c: Cell)
    | WriteCell(t: TxId, c: Cell, v: Value)
    | AppendCommit(t: TxId)
    | Committed(t: TxId)
    | BeginRollback(t: TxId)
    | UndoOne(t: TxId)
    | AppendRollback(t: TxId)
    | Abandoned(t: TxId)
    | Unlock(t: TxId, b: BlockId)
    | End(t: TxId)

  /** A process starts with an empty pool over a disk and a log that is all on disk.  The transaction that
      recovers may have taken the first number. */
  ghost predicate Init(s: State) {
    && (forall i :: 0 <= i < |s.pool| ==> s.pool[i] == Frame(None, s.pool[i].data, 0, -1, -1))
    && |s.news| == |s.log| == s.saved && !s.torn
    && s.table == map[] && s.txns == map[] && s.nextTx >= 0 && s.order == []
  }

  predicate InPhase(s: State, t: TxId, active: bool) {
    t in s.txns && (if active then s.txns[t].phase.Active? else s.txns[t].phase.Releasing?)
  }

  /** The transaction may touch the block: it holds a lock on it and has it pinned in a frame. */
  predicate CanRead(s: State, t: TxId, b: BlockId) {
    t in s.txns && b in s.txns[t].held && b in s.txns[t].pinned && FindExisting(s.pool, b) >= 0
  }

  predicate CanWrite(s: State, t: TxId, b: BlockId) {
    CanRead(s, t, b) && s.txns[t].held[b] == X
  }

  /** FlushAll(t) has nothing left to do. */
  predicate NothingDirty(s: State, t: TxId) {
    forall i :: 0 <= i < |s.pool| ==> s.pool[i].txn != t
  }

  /** The steps that use the log wait while its next block is being started. */
  predicate Enabled(s: State, step: Step) {
    match step
    case Begin => true
    case SLock(t, b) => InPhase(s, t, true) && (b in s.txns[t].held || LockVal(s.table, b) >= 0)
    case XUpgrade(t, b) =>
      InPhase(s, t, true) && b in s.txns[t].held && (s.txns[t].held[b] == X || LockVal(s.table, b) <= 1)
    case Pin(t, b) =>
      && t in s.txns && (s.txns[t].phase.Active? || s.txns[t].phase.Undoing?)
      && (b in s.txns[t].pinned || FindExisting(s.pool, b) >= 0
          || (ChooseUnpinned(s.pool) >= 0 && s.pool[ChooseUnpinned(s.pool)].txn < 0))
    case Unpin(t, b) => t in s.txns
    case FlushLog(lsn) => !s.torn
    case ExtendLog => !s.torn && s.saved == |s.log|
    case StartBlock => s.torn
    case FlushFrame(i) => !s.torn && i < |s.pool|
    case ReadCell(t, c) => InPhase(s, t, true) && CanRead(s, t, c.block)
    case WriteCell(t, c, v) => !s.torn && InPhase(s, t, true) && CanWrite(s, t, c.block)
    case AppendCommit(t) => !s.torn && InPhase(s, t, true) && NothingDirty(s, t)
    case Committed(t) => t in s.txns && s.txns[t].phase.Committing? && s.txns[t].phase.lsn <= s.saved
    case BeginRollback(t) => !s.torn && InPhase(s, t, true)
    case UndoOne(t) =>
      && t in s.txns && s.txns[t].phase.Undoing? && 0 < s.txns[t].phase.pos <= |s.log|
      && (TxNumber(s.log[s.txns[t].phase.pos - 1]) == t && s.log[s.txns[t].phase.pos - 1].Update? ==>
            CanWrite(s, t, s.log[s.txns[t].phase.pos - 1].cell.block))
    case AppendRollback(t) => !s.torn && t in s.txns && s.txns[t].phase == Undoing(0) && NothingDirty(s, t)
    case Abandoned(t) => t in s.txns && s.txns[t].phase.Undid? && s.txns[t].phase.lsn <= s.saved
    case Unlock(t, b) => InPhase(s, t, false) && b in s.txns[t].held
    case End(t) => InPhase(s, t, false) && s.txns[t].held == map[] && s.txns[t].pinned == map[]
  }

  /** The two writes that start a new log block. */
  predicate StartsLogBlock(step: Step) {
    step.ExtendLog? || step.StartBlock?
  }

  function WithTxn(s: State, t: TxId, x: Txn): State {
    s.(txns := s.txns[t := x])
  }

  /** Buffer.flush: the log first, then the block; nothing for a clean frame. */
  function FlushedFrame(s: State, i: nat): State
    requires i < |s.pool|
  {
    var f := s.pool[i];
    if f.txn < 0 then s
    else
      var s1 := s.(saved := LogFlushed(s.saved, f.lsn, |s.log|));
      var s2 := if f.block.Some? then s1.(disk := s1.disk[f.block.value := f.data]) else s1;
      s2.(pool := s2.pool[i := f.(txn := -1)])
  }

  /** tryToPin: an existing buffer, else the first unpinned one, loaded from disk. */
  function PinFrame(s: State, b: BlockId): seq<Frame<BlockData>>
    requires FindExisting(s.pool, b) >= 0 || ChooseUnpinned(s.pool) >= 0
  {
    var e := FindExisting(s.pool, b);
    if e >= 0 then s.pool[e := s.pool[e].(pins := s.pool[e].pins + 1)]
    else
      var i := ChooseUnpinned(s.pool);
      s.pool[i := s.pool[i].(block := Some(b), data := ReadBlock(s.disk, b), pins := 1)]
  }

  function UnpinFrame(pool: seq<Frame<BlockData>>, b: BlockId): seq<Frame<BlockData>> {
    var i := FindExisting(pool, b);
    if i < 0 then pool else pool[i := pool[i].(pins := pool[i].pins - 1)]
  }

  /** Store a value in the frame of a block on behalf of a transaction. */
  function Stored(s: State, t: TxId, c: Cell, v: Value, lsn: int): State
    requires FindExisting(s.pool, c.block) >= 0
  {
    var i := FindExisting(s.pool, c.block);
    var f := s.pool[i];
    s.(pool := s.pool[i := Modified(f.(data := f.data[c.offset := v]), t, lsn)])
  }

  function Appended(s: State, r: Rec, v: Value): State {
    s.(log := s.log + [r], news := s.news + [v])
  }

  /** The value a cell has for a client: in its frame if the block is loaded, else on disk. */
  function Current(s: State, c: Cell): Value {
    var i := FindExisting(s.pool, c.block);
    if i >= 0 then ReadOff(s.pool[i].data, c.offset) else ReadOff(ReadBlock(s.disk, c.block), c.offset)
  }

  function DiskVal(s: State, c: Cell): Value {
    ReadOff(ReadBlock(s.disk, c.block), c.offset)
  }

  function DoBegin(s: State): State {
    s.(nextTx := s.nextTx + 1, txns := s.txns[s.nextTx + 1 := Txn(Active, map[], map[], [])])
  }

  function DoSLock(s: State, t: TxId, b: BlockId): State
    requires t in s.txns
  {
    var x := s.txns[t];
    if b in x.held then s
    else WithTxn(s, t, x.(held := x.held[b := S])).(table := TableSLock(s.table, b))
  }

  function DoXUpgrade(s: State, t: TxId, b: BlockId): State
    requires t in s.txns && b in s.txns[t].held
  {
    var x := s.txns[t];
    if x.held[b] == X then s
    else WithTxn(s, t, x.(held := x.held[b := X])).(table := TableXLock(s.table, b))
  }

  function DoPin(s: State, t: TxId, b: BlockId): State
    requires Enabled(s, Pin(t, b))
  {
    var x := s.txns[t];
    if b in x.pinned then WithTxn(s, t, x.(pinned := x.pinned[b := x.pinned[b] + 1]))
    else WithTxn(s, t, x.(pinned := x.pinned[b := 1])).(pool := PinFrame(s, b))
  }

  function DoUnpin(s: State, t: TxId, b: BlockId): State
    requires t in s.txns
  {
    var x := s.txns[t];
    if b !in x.pinned then s
    else if x.pinned[b] > 1 then WithTxn(s, t, x.(pinned := x.pinned[b := x.pinned[b] - 1]))
    else WithTxn(s, t, x.(pinned := x.pinned - {b})).(pool := UnpinFrame(s.pool, b))
  }

  function DoRead(s: State, t: TxId, c: Cell): State
    requires t in s.txns
  {
    var x := s.txns[t];
    WithTxn(s, t, x.(ops := x.ops + [ReadOp(c, Current(s, c))]))
  }

  /** Log the before-image, then change the frame and stamp it with the record's LSN. */
  function DoWrite(s: State, t: TxId, c: Cell, v: Value): State
    requires t in s.txns && FindExisting(s.pool, c.block) >= 0
  {
    var x := s.txns[t];
    var s1 := Appended(s, Update(t, c, Current(s, c)), v);
    WithTxn(Stored(s1, t, c, v, |s1.log|), t, x.(ops := x.ops + [WriteOp(c, v)]))
  }

  function DoAppendCommit(s: State, t: TxId): State
    requires t in s.txns
  {
    WithTxn(Appended(s, Commit(t), ZERO), t, s.txns[t].(phase := Committing(|s.log| + 1)))
  }

  function DoCommitted(s: State, t: TxId): State
    requires t in s.txns
  {
    var x := s.txns[t];
    WithTxn(s, t, x.(phase := Releasing)).(order := s.order + [x.ops])
  }

  /** The log iterator saves the whole log before it starts reading. */
  function DoBeginRollback(s: State, t: TxId): State
    requires t in s.txns
  {
    WithTxn(s, t, s.txns[t].(phase := Undoing(|s.log|))).(saved := |s.log|)
  }

  function DoUndo(s: State, t: TxId): State
    requires Enabled(s, UndoOne(t))
  {
    var pos := s.txns[t].phase.pos;
    var r := s.log[pos - 1];
    var s1 := WithTxn(s, t, s.txns[t].(phase := Undoing(if r == Start(t) then 0 else pos - 1)));
    if TxNumber(r) == t && r.Update? then Stored(s1, t, r.cell, r.before, -1) else s1
  }

  function DoAppendRollback(s: State, t: TxId): State
    requires t in s.txns
  {
    WithTxn(Appended(s, Rollback(t), ZERO), t, s.txns[t].(phase := Undid(|s.log| + 1)))
  }

  function DoUnlock(s: State, t: TxId, b: BlockId): State
    requires t in s.txns
  {
    var x := s.txns[t];
    WithTxn(s, t, x.(held := x.held - {b})).(table := TableUnlock(s.table, b))
  }

  function Apply(s: State, step: Step): State
    requires Enabled(s, step)
  {
    match step
    case Begin => DoBegin(s)
    case SLock(t, b) => DoSLock(s, t, b)
    case XUpgrade(t, b) => DoXUpgrade(s, t, b)
    case Pin(t, b) => DoPin(s, t, b)
    case Unpin(t, b) => DoUnpin(s, t, b)
    case FlushLog(lsn) => s.(saved := LogFlushed(s.saved, lsn, |s.log|))
    case ExtendLog => s.(torn := true)
    case StartBlock => s.(torn := false)
    case FlushFrame(i) => FlushedFrame(s, i)
    case ReadCell(t, c) => DoRead(s, t, c)
    case WriteCell(t, c, v) => DoWrite(s, t, c, v)
    case AppendCommit(t) => DoAppendCommit(s, t)
    case Committed(t) => DoCommitted(s, t)
    case BeginRollback(t) => DoBeginRollback(s, t)
    case UndoOne(t) => DoUndo(s, t)
    case AppendRollback(t) => DoAppendRollback(s, t)
    case Abandoned(t) => WithTxn(s, t, s.txns[t].(phase := Releasing))
    case Unlock(t, b) => DoUnlock(s, t, b)
    case End(t) => s.(txns := s.txns - {t})
  }

  /** The states along a run. */
  ghost predicate Run(s: State, steps: seq<Step>, s': State)
    decreases |steps|
  {
    if steps == [] then s' == s
    else Enabled(s, steps[0]) && Run(Apply(s, steps[0]), steps[1..], s')
  }
}
