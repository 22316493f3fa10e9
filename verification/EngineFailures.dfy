/** Runs to states from which recovery goes wrong, one for each half of its guard. */
module EngineFailures {
  import opened Options
  import opened Keys
  import opened Locks
  import opened Frames
  import opened Recovery
  import opened Engine
  import opened EngineLog
  import opened EngineCrash

  /** A process over an empty log, with one buffer, that has given out no number yet. */
  ghost predicate First(s: State) {
    Init(s) && s.log == [] && |s.pool| == 1 && s.nextTx == 0
  }

  lemma {:induction false} RunJoin(s: State, steps: seq<Step>, s1: State, more: seq<Step>, s2: State)
    requires Run(s, steps, s1) && Run(s1, more, s2)
    ensures Run(s, steps + more, s2)
    decreases |steps|
  {
    if steps == [] {
      assert steps + more == more;
    } else {
      RunJoin(Apply(s, steps[0]), steps[1..], s1, more, s2);
      assert (steps + more)[1..] == steps[1..] + more;
    }
  }

  lemma RunOne(s: State, step: Step)
    requires Enabled(s, step)
    ensures Run(s, [step], Apply(s, step))
  {
    assert [step][1..] == [];
  }

  lemma RunTwo(s: State, a: Step, s1: State, b: Step, s2: State)
    requires Enabled(s, a) && Apply(s, a) == s1 && Enabled(s1, b) && Apply(s1, b) == s2
    ensures Run(s, [a, b], s2)
  {
    RunOne(s1, b);
    assert [a, b][1..] == [b];
  }

  lemma RunThree(s: State, a: Step, s1: State, b: Step, c: Step, s': State)
    requires Enabled(s, a) && Apply(s, a) == s1 && Run(s1, [b, c], s')
    ensures Run(s, [a, b, c], s')
  {
    assert [a, b, c][1..] == [b, c];
  }

  /** Transaction t has just begun, nobody has a lock, and the one buffer is free for block b. */
  predicate Ready(s: State, t: TxId, b: BlockId) {
    && !s.torn && t in s.txns && s.txns[t] == Txn(Active, map[], map[], []) && s.table == map[] && |s.pool| == 1
    && s.pool[0].pins == 0 && s.pool[0].txn < 0 && (s.pool[0].block == None || s.pool[0].block == Some(b))
    && (s.pool[0].block == Some(b) ==> s.pool[0].data == ReadBlock(s.disk, b))
  }

  /** The same with the lock and the pin it needs to write. */
  function Locked(s: State, t: TxId, b: BlockId): State
    requires |s.pool| == 1
  {
    s.(table := map[b := -1], txns := s.txns[t := Txn(Active, map[b := X], map[b := 1], [])],
       pool := [Frame(Some(b), ReadBlock(s.disk, b), 1, s.pool[0].txn, s.pool[0].lsn)])
  }

  lemma LockRun(s: State, t: TxId, b: BlockId)
    requires Ready(s, t, b)
    ensures Run(s, [Step.SLock(t, b), XUpgrade(t, b)],
                s.(table := map[b := -1], txns := s.txns[t := Txn(Active, map[b := X], map[], [])]))
  {
    var s1 := s.(table := map[b := 1], txns := s.txns[t := Txn(Active, map[b := S], map[], [])]);
    assert DoSLock(s, t, b) == s1;
    assert map[b := S][b := X] == map[b := X] && map[b := 1][b := -1] == map[b := -1];
    var s2 := s.(table := map[b := -1], txns := s.txns[t := Txn(Active, map[b := X], map[], [])]);
    assert s1.txns[t := Txn(Active, map[b := X], map[], [])] == s2.txns;
    assert DoXUpgrade(s1, t, b) == s2;
    RunTwo(s, Step.SLock(t, b), s1, XUpgrade(t, b), s2);
  }

  lemma PinRun(s: State, t: TxId, b: BlockId)
    requires Ready(s, t, b)
    ensures var s2 := s.(table := map[b := -1], txns := s.txns[t := Txn(Active, map[b := X], map[], [])]);
            Run(s2, [Step.Pin(t, b)], Locked(s, t, b))
  {
    var s2 := s.(table := map[b := -1], txns := s.txns[t := Txn(Active, map[b := X], map[], [])]);
    var s3 := Locked(s, t, b);
    assert FindExisting(s.pool, b) == (if s.pool[0].block == Some(b) then 0 else -1);
    assert ChooseUnpinned(s.pool) == 0;
    assert Enabled(s2, Step.Pin(t, b));
    assert PinFrame(s2, b) == s3.pool;
    assert s2.txns[t := Txn(Active, map[b := X], map[b := 1], [])] == s3.txns;
    assert DoPin(s2, t, b) == s3;
    RunOne(s2, Step.Pin(t, b));
  }

  /** And after writing v to c. */
  function Written(s: State, t: TxId, c: Cell, v: Value): State
    requires |s.pool| == 1
  {
    var data := ReadBlock(s.disk, c.block);
    Locked(s, t, c.block).(
      txns := s.txns[t := Txn(Active, map[c.block := X], map[c.block := 1], [WriteOp(c, v)])],
      pool := [Frame(Some(c.block), data[c.offset := v], 1, t, |s.log| + 1)],
      log := s.log + [Update(t, c, ReadOff(data, c.offset))], news := s.news + [v])
  }

  lemma StoreRun(s: State, t: TxId, c: Cell, v: Value)
    requires Ready(s, t, c.block)
    ensures Run(Locked(s, t, c.block), [WriteCell(t, c, v)], Written(s, t, c, v))
  {
    var s3, s4 := Locked(s, t, c.block), Written(s, t, c, v);
    assert FindExisting(s3.pool, c.block) == 0;
    var s' := DoWrite(s3, t, c, v);
    assert s'.pool == s4.pool;
    assert [] + [WriteOp(c, v)] == [WriteOp(c, v)];
    assert s'.txns == s3.txns[t := s3.txns[t].(ops := [WriteOp(c, v)])] == s4.txns;
    assert s' == s4;
    RunOne(s3, WriteCell(t, c, v));
  }

  lemma WriteRun(s: State, t: TxId, c: Cell, v: Value) returns (steps: seq<Step>)
    requires Ready(s, t, c.block)
    ensures Run(s, steps, Written(s, t, c, v)) && forall k :: 0 <= k < |steps| ==> !steps[k].BeginRollback?
  {
    LockRun(s, t, c.block);
    PinRun(s, t, c.block);
    StoreRun(s, t, c, v);
    var s2 := s.(table := map[c.block := -1], txns := s.txns[t := Txn(Active, map[c.block := X], map[], [])]);
    var s3, s4 := Locked(s, t, c.block), Written(s, t, c, v);
    RunJoin(s, [Step.SLock(t, c.block), XUpgrade(t, c.block)], s2, [Step.Pin(t, c.block)], s3);
    steps := [Step.SLock(t, c.block), XUpgrade(t, c.block)] + [Step.Pin(t, c.block)] + [WriteCell(t, c, v)];
    RunJoin(s, [Step.SLock(t, c.block), XUpgrade(t, c.block)] + [Step.Pin(t, c.block)], s3, [WriteCell(t, c, v)], s4);
  }

  /** A transaction alone, with one write done. */
  predicate Wrote(s: State, t: TxId, c: Cell, ops: seq<Op>) {
    && !s.torn && s.txns == map[t := Txn(Active, map[c.block := X], map[c.block := 1], ops)]
       && s.table == map[c.block := -1]
    && |s.log| == |s.news| == 1 && s.log[0].Update? && s.log[0].tx == t && s.log[0].cell == c && s.saved <= 1
    && |s.pool| == 1 && s.pool[0].block == Some(c.block) && s.pool[0].pins == 1 && s.pool[0].txn == t
       && s.pool[0].lsn == 1
  }

  /** The old value put back and written out. */
  function PutBack(s: State, t: TxId, c: Cell, phase: Phase): State
    requires |s.pool| == 1 && |s.log| == 1 && s.log[0].Update? && t in s.txns
  {
    var data := s.pool[0].data[c.offset := s.log[0].before];
    s.(saved := 1, disk := s.disk[c.block := data], pool := [s.pool[0].(data := data, txn := -1)],
       txns := s.txns[t := s.txns[t].(phase := phase)])
  }

  lemma UndoRun(s: State, t: TxId, c: Cell, ops: seq<Op>)
    requires Wrote(s, t, c, ops) && t >= 0
    ensures Run(s, [BeginRollback(t), UndoOne(t), FlushFrame(0)], PutBack(s, t, c, Undoing(0)))
  {
    var s1 := s.(saved := 1, txns := map[t := s.txns[t].(phase := Undoing(1))]);
    assert DoBeginRollback(s, t).txns == s1.txns;
    assert DoBeginRollback(s, t) == s1;
    var data := s.pool[0].data[c.offset := s.log[0].before];
    var s2 := s1.(pool := [s.pool[0].(data := data)], txns := map[t := s.txns[t].(phase := Undoing(0))]);
    UndoOneRun(s, s1, t, c, ops);
    var s3 := PutBack(s, t, c, Undoing(0));
    PutBackRun(s, s2, t, c, ops);
    RunTwo(s1, UndoOne(t), s2, FlushFrame(0), s3);
    RunThree(s, BeginRollback(t), s1, UndoOne(t), FlushFrame(0), s3);
  }

  lemma UndoOneRun(s: State, s1: State, t: TxId, c: Cell, ops: seq<Op>)
    requires Wrote(s, t, c, ops) && t >= 0 && s1 == s.(saved := 1, txns := map[t := s.txns[t].(phase := Undoing(1))])
    ensures Enabled(s1, UndoOne(t))
    ensures DoUndo(s1, t) == s1.(pool := [s.pool[0].(data := s.pool[0].data[c.offset := s.log[0].before])],
                                 txns := map[t := s.txns[t].(phase := Undoing(0))])
  {
    assert FindExisting(s1.pool, c.block) == 0;
    assert DoUndo(s1, t).txns == map[t := s.txns[t].(phase := Undoing(0))];
  }

  lemma PutBackRun(s: State, s2: State, t: TxId, c: Cell, ops: seq<Op>)
    requires Wrote(s, t, c, ops) && t >= 0
    requires s2 == s.(saved := 1, txns := map[t := s.txns[t].(phase := Undoing(0))],
                      pool := [s.pool[0].(data := s.pool[0].data[c.offset := s.log[0].before])])
    ensures FlushedFrame(s2, 0) == PutBack(s, t, c, Undoing(0))
  {
    assert FlushedFrame(s2, 0).txns == PutBack(s, t, c, Undoing(0)).txns;
  }

  /** The rollback record saved, and the transaction about to release. */
  lemma RollbackRun(s: State, t: TxId)
    requires !s.torn && t in s.txns && s.txns[t].phase == Undoing(0) && NothingDirty(s, t) && s.saved <= |s.log|
    ensures Run(s, [AppendRollback(t), FlushLog(|s.log| + 1)],
                s.(log := s.log + [Rollback(t)], news := s.news + [ZERO], saved := |s.log| + 1,
                   txns := s.txns[t := s.txns[t].(phase := Undid(|s.log| + 1))]))
  {
    var s1 := DoAppendRollback(s, t);
    RunTwo(s, AppendRollback(t), s1, FlushLog(|s.log| + 1), s1.(saved := |s.log| + 1));
  }

  /** Locks and pin given up. */
  lemma ReleaseRun(s: State, t: TxId, b: BlockId, ops: seq<Op>)
    requires s.saved > 0 && s.txns == map[t := Txn(Undid(s.saved), map[b := X], map[b := 1], ops)]
             && s.table == map[b := -1]
    requires |s.pool| == 1 && s.pool[0].block == Some(b) && s.pool[0].pins == 1
    ensures Run(s, [Abandoned(t), Step.Unlock(t, b), Step.Unpin(t, b)],
                s.(txns := map[t := Txn(Releasing, map[], map[], ops)], table := map[],
                    pool := [s.pool[0].(pins := 0)]))
  {
    var s1 := s.(txns := map[t := Txn(Releasing, map[b := X], map[b := 1], ops)]);
    assert s.txns[t := Txn(Releasing, map[b := X], map[b := 1], ops)] == s1.txns;
    var s2 := s.(txns := map[t := Txn(Releasing, map[], map[b := 1], ops)], table := map[]);
    UnlockRun(s1, t, b, ops);
    UnpinRun(s2, t, b, ops);
    var s3 := s.(txns := map[t := Txn(Releasing, map[], map[], ops)], table := map[], pool := [s.pool[0].(pins := 0)]);
    RunTwo(s1, Step.Unlock(t, b), s2, Step.Unpin(t, b), s3);
    RunThree(s, Abandoned(t), s1, Step.Unlock(t, b), Step.Unpin(t, b), s3);
  }

  lemma UnlockRun(s: State, t: TxId, b: BlockId, ops: seq<Op>)
    requires s.txns == map[t := Txn(Releasing, map[b := X], map[b := 1], ops)] && s.table == map[b := -1]
    ensures DoUnlock(s, t, b) == s.(txns := map[t := Txn(Releasing, map[], map[b := 1], ops)], table := map[])
  {
    assert map[b := X] - {b} == map[] && s.table - {b} == map[];
    assert DoUnlock(s, t, b).txns == map[t := Txn(Releasing, map[], map[b := 1], ops)];
  }

  lemma UnpinRun(s: State, t: TxId, b: BlockId, ops: seq<Op>)
    requires s.txns == map[t := Txn(Releasing, map[], map[b := 1], ops)]
    requires |s.pool| == 1 && s.pool[0].block == Some(b) && s.pool[0].pins == 1
    ensures DoUnpin(s, t, b) == s.(txns := map[t := Txn(Releasing, map[], map[], ops)], pool := [s.pool[0].(pins := 0)])
  {
    assert map[b := 1] - {b} == map[];
    assert FindExisting(s.pool, b) == 0;
    assert DoUnpin(s, t, b).txns == map[t := Txn(Releasing, map[], map[], ops)];
  }

  /** A write flushed and committed, up to the saved commit record. */
  lemma CommitRun(s: State, t: TxId)
    requires !s.torn && InPhase(s, t, true) && |s.pool| == 1 && s.pool[0].txn == t >= 0 && s.pool[0].block.Some?
    requires s.saved <= |s.log| && s.pool[0].lsn >= s.saved
    ensures Run(s, [FlushFrame(0), AppendCommit(t), FlushLog(|s.log| + 1)],
                s.(disk := s.disk[s.pool[0].block.value := s.pool[0].data], pool := [s.pool[0].(txn := -1)],
                   log := s.log + [Commit(t)], news := s.news + [ZERO], saved := |s.log| + 1,
                   txns := s.txns[t := s.txns[t].(phase := Committing(|s.log| + 1))]))
  {
    var s1 := FlushedFrame(s, 0);
    assert s1 == s.(disk := s.disk[s.pool[0].block.value := s.pool[0].data], pool := [s.pool[0].(txn := -1)],
           saved := |s.log|);
    var s2 := DoAppendCommit(s1, t);
    RunTwo(s1, AppendCommit(t), s2, FlushLog(|s.log| + 1), s2.(saved := |s.log| + 1));
    RunThree(s, FlushFrame(0), s1, AppendCommit(t), FlushLog(|s.log| + 1), s2.(saved := |s.log| + 1));
  }

  /** A transaction alone writes a cell and starts to roll back. */
  lemma WrittenRun(s: State, c: Cell, v: Value) returns (steps: seq<Step>, s2: State)
    requires First(s)
    ensures Run(s, steps, s2) && forall k :: 0 <= k < |steps| ==> !steps[k].BeginRollback?
    ensures Wrote(s2, 1, c, [WriteOp(c, v)]) && s2.log == [Update(1, c, DiskVal(s, c))] && s2.nextTx == 1
    ensures s2.disk == s.disk && s2.order == [] && s2.pool[0].data == ReadBlock(s.disk, c.block)[c.offset := v]
  {
    RunOne(s, Begin);
    var s1 := DoBegin(s);
    var write := WriteRun(s1, 1, c, v);
    s2 := Written(s1, 1, c, v);
    assert s2.txns == map[1 := Txn(Active, map[c.block := X], map[c.block := 1], [WriteOp(c, v)])];
    RunJoin(s, [Begin], s1, write, s2);
    steps := [Begin] + write;
  }

  /** Transaction 1 rolls its write back and gives up everything. */
  lemma UndoneRun(s2: State, c: Cell, ops: seq<Op>) returns (steps: seq<Step>, s': State)
    requires Wrote(s2, 1, c, ops)
    ensures Run(s2, steps, s')
    ensures s'.log == s2.log + [Rollback(1)] && |s'.news| == s'.saved == 2 && s'.order == s2.order
    ensures s'.disk == s2.disk[c.block := s2.pool[0].data[c.offset := s2.log[0].before]]
    ensures !s'.torn && s'.txns.Keys == {1} && s'.table == map[] && s'.nextTx == s2.nextTx && |s'.pool| == 1
    ensures s'.pool[0] == Frame(Some(c.block), ReadBlock(s'.disk, c.block), 0, -1, 1)
  {
    UndoRun(s2, 1, c, ops);
    var s3 := PutBack(s2, 1, c, Undoing(0));
    RollbackRun(s3, 1);
    var s4 := s3.(log := s3.log + [Rollback(1)], news := s3.news + [ZERO], saved := 2,
                  txns := s3.txns[1 := s3.txns[1].(phase := Undid(2))]);
    assert s4.txns == map[1 := Txn(Undid(2), map[c.block := X], map[c.block := 1], ops)];
    ReleaseRun(s4, 1, c.block, ops);
    s' := s4.(txns := map[1 := Txn(Releasing, map[], map[], ops)], table := map[], pool := [s4.pool[0].(pins := 0)]);
    var undo, end := [BeginRollback(1), UndoOne(1), FlushFrame(0)], [AppendRollback(1), FlushLog(2)];
    var release := [Abandoned(1), Step.Unlock(1, c.block), Step.Unpin(1, c.block)];
    RunJoin(s2, undo, s3, end, s4);
    RunJoin(s2, undo + end, s4, release, s');
    steps := undo + end + release;
  }

  /** Transaction 2 then writes the cell and commits. */
  lemma SecondRun(s1: State, c: Cell, w: Value) returns (steps: seq<Step>, s': State)
    requires !s1.torn && 2 !in s1.txns && s1.nextTx == 1 && s1.table == map[] && |s1.log| == |s1.news| == s1.saved == 2
    requires s1.pool == [Frame(Some(c.block), ReadBlock(s1.disk, c.block), 0, -1, 1)]
    ensures Run(s1, steps, s') && forall k :: 0 <= k < |steps| ==> !steps[k].BeginRollback?
    ensures s'.log == s1.log + [Update(2, c, DiskVal(s1, c)), Commit(2)] && s'.news == s1.news + [w, ZERO]
    ensures s'.saved == 4 && !s'.torn
  {
    var write, s3 := SecondWrite(s1, c, w);
    var commit;
    commit, s' := CommittedRun(s3, 2);
    RunJoin(s1, write, s3, commit, s');
    steps := write + commit;
  }

  lemma SecondWrite(s1: State, c: Cell, w: Value) returns (steps: seq<Step>, s3: State)
    requires !s1.torn && 2 !in s1.txns && s1.nextTx == 1 && s1.table == map[] && |s1.log| == |s1.news| == s1.saved == 2
    requires s1.pool == [Frame(Some(c.block), ReadBlock(s1.disk, c.block), 0, -1, 1)]
    ensures Run(s1, steps, s3) && forall k :: 0 <= k < |steps| ==> !steps[k].BeginRollback?
    ensures s3.log == s1.log + [Update(2, c, DiskVal(s1, c))] && s3.news == s1.news + [w] && s3.saved == 2 && !s3.torn
    ensures InPhase(s3, 2, true) && |s3.pool| == 1 && s3.pool[0].txn == 2 && s3.pool[0].block.Some?
            && s3.pool[0].lsn == 3
  {
    RunOne(s1, Begin);
    var s2 := DoBegin(s1);
    var write := WriteRun(s2, 2, c, w);
    s3 := Written(s2, 2, c, w);
    RunJoin(s1, [Begin], s2, write, s3);
    steps := [Begin] + write;
  }

  lemma CommittedRun(s: State, t: TxId) returns (steps: seq<Step>, s': State)
    requires !s.torn && InPhase(s, t, true) && |s.pool| == 1 && s.pool[0].txn == t >= 0 && s.pool[0].block.Some?
    requires s.saved <= |s.log| && s.pool[0].lsn >= s.saved
    ensures Run(s, steps, s') && forall k :: 0 <= k < |steps| ==> !steps[k].BeginRollback?
    ensures s'.log == s.log + [Commit(t)] && s'.news == s.news + [ZERO] && s'.saved == |s.log| + 1 && !s'.torn
  {
    CommitRun(s, t);
    steps := [FlushFrame(0), AppendCommit(t), FlushLog(|s.log| + 1)];
    s' := s.(disk := s.disk[s.pool[0].block.value := s.pool[0].data], pool := [s.pool[0].(txn := -1)],
             log := s.log + [Commit(t)], news := s.news + [ZERO], saved := |s.log| + 1,
             txns := s.txns[t := s.txns[t].(phase := Committing(|s.log| + 1))]);
  }

  /** A run that loses a committed update: transaction 1 writes v and is rolled back, transaction 2 commits
      w.  Recovery undoes transaction 1 once more, and with it transaction 2. */
  lemma LostUpdate(s: State, c: Cell, v: Value, w: Value) returns (steps: seq<Step>, s': State)
    requires First(s)
    ensures Run(s, steps, s') && FreshRun(Origin(s.log, s.disk), steps)
    ensures s'.saved <= |s'.log| == |s'.news| && Wanted(Origin(s.log, s.disk), s'.log, s'.news, s'.saved, c) == w
    ensures forall store :: RecoversTo(s', store, c, DiskVal(s, c))
  {
    var write, s1 := WrittenRun(s, c, v);
    var undo, s2 := UndoneRun(s1, c, [WriteOp(c, v)]);
    RunJoin(s, write, s1, undo, s2);
    var commit, s3 := SecondRun(s2, c, w);
    RunJoin(s, write + undo, s2, commit, s3);
    steps, s' := write + undo + commit, s3;
    LostIn(Origin(s.log, s.disk), s'.log, s'.news, c);
    LostBy(s', c, DiskVal(s, c));
  }

  lemma LostIn(o: Origin, log: seq<Rec>, news: seq<Value>, c: Cell)
    requires o.past == [] && |log| == |news| == 4 && log[0].Update? && log[1].Rollback? && log[3] == Commit(2)
    requires log[2].Update? && log[2].tx == 2 && log[2].cell == c
    ensures Wanted(o, log, news, 4, c) == news[2]
  {
    assert log[3].Commit?;
    assert 2 in CommittedTxs(log, 0, 4);
    assert Hit(log, 2, CommittedTxs(log, 0, 4), c);
  }

  lemma LostBy(s: State, c: Cell, before: Value)
    requires !s.torn && s.saved == 4 && s.log == [Update(1, c, before), Rollback(1), Update(2, c, before), Commit(2)]
    ensures forall store :: RecoversTo(s, store, c, before)
  {
    assert s.log[..4] == s.log;
    forall store ensures RecoversTo(s, store, c, before) {
      RecoveryMeaning(Decoded(s.log), store, c);
      assert FirstUndone(Decoded(s.log), 0, c);
    }
  }

  /** Beginning some transactions. */
  lemma {:induction false} BeginRun(s: State, k: nat) returns (steps: seq<Step>, s': State)
    requires forall t :: t in s.txns ==> t <= s.nextTx
    ensures Run(s, steps, s') && forall i :: 0 <= i < |steps| ==> steps[i] == Begin
    ensures s' == s.(nextTx := s.nextTx + k, txns := s'.txns)
    ensures forall t :: t in s.txns ==> t in s'.txns && s'.txns[t] == s.txns[t]
    ensures forall t :: s.nextTx < t <= s.nextTx + k ==> t in s'.txns && s'.txns[t] == Txn(Active, map[], map[], [])
    decreases k
  {
    steps, s' := [], s;
    if k > 0 {
      var rest;
      rest, s' := BeginRun(DoBegin(s), k - 1);
      steps := [Begin] + rest;
      assert steps[1..] == rest;
    }
  }

  /** A transaction that wrote nothing rolls back over somebody else's update. */
  lemma IdleRollbackRun(s: State, t: TxId)
    requires !s.torn && InPhase(s, t, true) && NothingDirty(s, t) && |s.log| == 1 && s.log[0].Update?
             && s.log[0].tx != t
    ensures Run(s, [BeginRollback(t), UndoOne(t)] + [AppendRollback(t), FlushLog(2)],
                s.(log := s.log + [Rollback(t)], news := s.news + [ZERO], saved := 2,
                   txns := s.txns[t := s.txns[t].(phase := Undid(2))]))
  {
    var x := s.txns[t];
    var s1 := DoBeginRollback(s, t);
    var s2 := s.(saved := 1, txns := s.txns[t := x.(phase := Undoing(0))]);
    assert s1.txns[t := x.(phase := Undoing(0))] == s2.txns;
    assert DoUndo(s1, t) == s2;
    RunTwo(s, BeginRollback(t), s1, UndoOne(t), s2);
    RollbackRun(s2, t);
    var s3 := s2.(log := s.log + [Rollback(t)], news := s.news + [ZERO], saved := 2,
        txns := s2.txns[t := x.(phase := Undid(2))]);
    assert s3.txns == s.txns[t := x.(phase := Undid(2))];
    RunJoin(s, [BeginRollback(t), UndoOne(t)], s2, [AppendRollback(t), FlushLog(2)], s3);
  }

  /** A run after which an uncommitted update survives: transaction 3 writes v, its block is written out,
      and transaction 5 is rolled back.  Its rollback record reads as transaction 3's. */
  lemma SurvivingUpdate(s: State, c: Cell, v: Value) returns (steps: seq<Step>, s': State)
    requires First(s)
    ensures Run(s, steps, s') && FreshRun(Origin(s.log, s.disk), steps)
    ensures s'.saved <= |s'.log| == |s'.news|
            && Wanted(Origin(s.log, s.disk), s'.log, s'.news, s'.saved, c) == DiskVal(s, c)
    ensures forall store :: Get(store, c) == DiskVal(s', c) ==> RecoversTo(s', store, c, v)
  {
    var write, s1 := ThirdRun(s, c, v);
    IdleRollbackRun(s1, 5);
    var rollback := [BeginRollback(5), UndoOne(5)] + [AppendRollback(5), FlushLog(2)];
    s' := s1.(log := s1.log + [Rollback(5)], news := s1.news + [ZERO], saved := 2,
              txns := s1.txns[5 := s1.txns[5].(phase := Undid(2))]);
    RunJoin(s, write, s1, rollback, s');
    steps := write + rollback;
    assert s'.log == [Update(3, c, DiskVal(s, c)), Rollback(5)];
    assert s'.log[..2] == s'.log;
    forall store | Get(store, c) == DiskVal(s', c) ensures RecoversTo(s', store, c, v) {
      SurvivesIn(s'.log, store, c);
    }
  }

  /** Of five transactions the third writes a cell, and its block is written out. */
  lemma ThirdRun(s: State, c: Cell, v: Value) returns (steps: seq<Step>, s': State)
    requires First(s)
    ensures Run(s, steps, s') && forall k :: 0 <= k < |steps| ==> !steps[k].BeginRollback?
    ensures s'.log == [Update(3, c, DiskVal(s, c))] && |s'.news| == 1 && DiskVal(s', c) == v && !s'.torn
    ensures InPhase(s', 5, true) && NothingDirty(s', 5)
  {
    var begin, s1 := BeginRun(s, 5);
    var write := WriteRun(s1, 3, c, v);
    var s2 := Written(s1, 3, c, v);
    RunJoin(s, begin, s1, write, s2);
    RunOne(s2, FlushFrame(0));
    s' := FlushedFrame(s2, 0);
    RunJoin(s, begin + write, s2, [FlushFrame(0)], s');
    steps := begin + write + [FlushFrame(0)];
  }

  lemma SurvivesIn(log: seq<Rec>, store: Store, c: Cell)
    requires |log| == 2 && log[0].Update? && log[0].tx == 3 && log[1] == Rollback(5)
    ensures Get(Recovered(Decoded(log), store), c) == Get(store, c)
  {
    RecoveryMeaning(Decoded(log), store, c);
    assert Shields(Decoded(log)[1], 3);
  }
}
