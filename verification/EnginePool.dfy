/** The buffer pool agrees with the disk it caches, in every state of the engine. */
module EnginePool {
  import opened Options
  import opened Keys
  import opened Locks
  import opened Frames
  import opened Recovery
  import opened Engine
  import opened LockAgreement

  /** t may have changed block b and not finished yet. */
  ghost predicate Writer(s: State, t: TxId, b: BlockId) {
    && t in s.txns && b in s.txns[t].held && s.txns[t].held[b] == X
    && (s.txns[t].phase.Active? || s.txns[t].phase.Undoing?)
  }

  /** A dirty frame belongs to a running transaction that owns its block. */
  ghost predicate DirtyOwned(s: State) {
    forall i :: 0 <= i < |s.pool| && s.pool[i].txn >= 0 ==>
      s.pool[i].block.Some? && Writer(s, s.pool[i].txn, s.pool[i].block.value)
  }

  /** A clean frame holds what is on disk. */
  ghost predicate CleanSame(s: State) {
    forall i :: 0 <= i < |s.pool| && s.pool[i].txn < 0 && s.pool[i].block.Some? ==>
      s.pool[i].data == ReadBlock(s.disk, s.pool[i].block.value)
  }

  ghost predicate PoolOk(s: State) {
    LocksOk(s) && NoDuplicates(s.pool) && DirtyOwned(s) && CleanSame(s)
  }

  /** Steps that change neither pool, disk nor log. */
  predicate TxnOnly(step: Step) {
    step.Begin? || step.SLock? || step.XUpgrade? || step.ReadCell? || step.Committed? || step.Abandoned?
    || step.Unlock? || step.End? || StartsLogBlock(step)
  }

  ghost predicate SameStorage(s: State, s': State) {
    s'.pool == s.pool && s'.disk == s.disk && s'.log == s.log && s'.news == s.news && s'.saved == s.saved
  }

  lemma TxnOnlyFrame(s: State, step: Step)
    requires LocksOk(s) && Enabled(s, step) && TxnOnly(step)
    ensures SameStorage(s, Apply(s, step))
    ensures forall t, b :: Writer(s, t, b) ==> Writer(Apply(s, step), t, b)
  {
    if step.SLock? || step.XUpgrade? || step.Unlock? {
      LockFrame(s, step);
    }
  }

  lemma LockFrame(s: State, step: Step)
    requires LocksOk(s) && Enabled(s, step) && (step.SLock? || step.XUpgrade? || step.Unlock?)
    ensures SameStorage(s, Apply(s, step))
    ensures forall t, b :: Writer(s, t, b) ==> Writer(Apply(s, step), t, b)
  {
  }

  /** The value a step gives a cell. */
  ghost function EffectOn(s: State, step: Step, c: Cell): Value
    requires Enabled(s, step)
  {
    if step.WriteCell? && step.c == c then step.v
    else if step.UndoOne? && UndoHits(s, step.t, c) then s.log[s.txns[step.t].phase.pos - 1].before
    else Current(s, c)
  }

  /** The record a rollback is about to undo is an update of this cell. */
  ghost predicate UndoHits(s: State, t: TxId, c: Cell)
    requires Enabled(s, UndoOne(t))
  {
    var r := s.log[s.txns[t].phase.pos - 1];
    TxNumber(r) == t && r.Update? && r.cell == c
  }

  /** The frame a transaction is about to change is not dirty on behalf of another one. */
  lemma OwnFrame(s: State, t: TxId, b: BlockId, i: nat)
    requires PoolOk(s) && i < |s.pool| && s.pool[i].block == Some(b) && s.pool[i].txn >= 0
    requires t in s.txns && b in s.txns[t].held && s.txns[t].held[b] == X
    ensures s.pool[i].txn == t
  {
    Exclusive(s.table, HeldsOf(s), b, s.pool[i].txn, t);
  }

  /** Frames of other blocks are found where they were. */
  lemma FindUpdated(pool: seq<Frame<BlockData>>, i: nat, f: Frame<BlockData>, b: BlockId)
    requires NoDuplicates(pool) && i < |pool| && f.block == pool[i].block
    ensures NoDuplicates(pool[i := f])
    ensures FindExisting(pool[i := f], b) == FindExisting(pool, b)
  {
    var e := FindExisting(pool, b);
    if e >= 0 {
      FoundIsThe(pool[i := f], b, e);
    }
  }

  lemma {:induction false} StoredPool(s: State, t: TxId, c: Cell, v: Value, lsn: int)
    requires PoolOk(s) && Writer(s, t, c.block) && FindExisting(s.pool, c.block) >= 0 && t >= 0
    ensures PoolOk(Stored(s, t, c, v, lsn))
    ensures forall d :: Current(Stored(s, t, c, v, lsn), d) == if d == c then v else Current(s, d)
  {
    var s' := Stored(s, t, c, v, lsn);
    var i := FindExisting(s.pool, c.block);
    assert s'.txns == s.txns;
    forall b ensures NoDuplicates(s'.pool) && FindExisting(s'.pool, b) == FindExisting(s.pool, b) {
      FindUpdated(s.pool, i, s'.pool[i], b);
    }
  }

  lemma {:induction false} FlushedPool(s: State, i: nat)
    requires PoolOk(s) && i < |s.pool|
    ensures PoolOk(FlushedFrame(s, i))
    ensures forall d :: Current(FlushedFrame(s, i), d) == Current(s, d)
  {
    var s' := FlushedFrame(s, i);
    var f := s.pool[i];
    if f.txn >= 0 {
      forall b ensures NoDuplicates(s'.pool) && FindExisting(s'.pool, b) == FindExisting(s.pool, b) {
        FindUpdated(s.pool, i, s'.pool[i], b);
      }
      forall d ensures Current(s', d) == Current(s, d) {
        if FindExisting(s.pool, d.block) < 0 {
          assert f.block != Some(d.block);
        }
      }
      assert CleanSame(s');
      assert s'.txns == s.txns;
    }
  }

  lemma {:induction false} PinnedPool(s: State, t: TxId, b: BlockId)
    requires PoolOk(s) && Enabled(s, Pin(t, b))
    ensures PoolOk(DoPin(s, t, b))
    ensures forall d :: Current(DoPin(s, t, b), d) == Current(s, d)
  {
    var s' := DoPin(s, t, b);
    LocksKept(s, Pin(t, b));
    assert forall u, x :: Writer(s, u, x) ==> Writer(s', u, x);
    if b !in s.txns[t].pinned {
      var e := FindExisting(s.pool, b);
      if e >= 0 {
        PinsChanged(s, s', e, s'.pool[e]);
      } else {
        Loaded(s, s', ChooseUnpinned(s.pool), b);
      }
    }
  }

  /** A clean frame took over a block that no frame held. */
  lemma Loaded(s: State, s': State, i: nat, b: BlockId)
    requires PoolOk(s) && LocksOk(s') && i < |s.pool| && s.pool[i].txn < 0 && FindExisting(s.pool, b) < 0
    requires s'.disk == s.disk && s'.pool == s.pool[i := s.pool[i].(block := Some(b), data := ReadBlock(s.disk, b),
             pins := 1)]
    requires forall u, x :: Writer(s, u, x) ==> Writer(s', u, x)
    ensures PoolOk(s')
    ensures forall d :: Current(s', d) == Current(s, d)
  {
    forall d ensures Current(s', d) == Current(s, d) {
      var j := FindExisting(s.pool, d.block);
      if d.block == b {
        FoundIsThe(s'.pool, b, i);
      } else if j >= 0 && j != i {
        FoundIsThe(s'.pool, d.block, j);
      } else {
        assert forall k :: 0 <= k < |s'.pool| ==> s'.pool[k].block != Some(d.block) by {
          if j == i {
            assert forall k :: 0 <= k < |s.pool| && k != i ==> s.pool[k].block != Some(d.block);
          }
        }
      }
    }
  }

  lemma {:induction false} UnpinnedPool(s: State, t: TxId, b: BlockId)
    requires PoolOk(s) && Enabled(s, Unpin(t, b))
    ensures PoolOk(DoUnpin(s, t, b))
    ensures forall d :: Current(DoUnpin(s, t, b), d) == Current(s, d)
  {
    var s' := DoUnpin(s, t, b);
    LocksKept(s, Unpin(t, b));
    assert forall u, x :: Writer(s, u, x) ==> Writer(s', u, x);
    if s'.pool != s.pool {
      PinsChanged(s, s', FindExisting(s.pool, b), s'.pool[FindExisting(s.pool, b)]);
    }
  }

  /** Only a frame's pin count changed. */
  lemma PinsChanged(s: State, s': State, i: nat, f: Frame<BlockData>)
    requires PoolOk(s) && LocksOk(s') && i < |s.pool| && f == s.pool[i].(pins := f.pins)
    requires s'.disk == s.disk && s'.pool == s.pool[i := f]
    requires forall u, x :: Writer(s, u, x) ==> Writer(s', u, x)
    ensures PoolOk(s')
    ensures forall d :: Current(s', d) == Current(s, d)
  {
    forall x ensures NoDuplicates(s'.pool) && FindExisting(s'.pool, x) == FindExisting(s.pool, x) {
      FindUpdated(s.pool, i, f, x);
    }
  }

  /** A transaction that has nothing dirty may stop being a writer. */
  lemma StoppedWriting(s: State, s': State, t: TxId)
    requires PoolOk(s) && LocksOk(s') && NothingDirty(s, t)
    requires s'.pool == s.pool && s'.disk == s.disk
    requires forall u, b :: u != t && Writer(s, u, b) ==> Writer(s', u, b)
    ensures PoolOk(s')
    ensures forall d :: Current(s', d) == Current(s, d)
  {
  }

  lemma WrittenPool(s: State, t: TxId, c: Cell, v: Value)
    requires PoolOk(s) && Enabled(s, WriteCell(t, c, v))
    ensures PoolOk(DoWrite(s, t, c, v))
    ensures forall d :: Current(DoWrite(s, t, c, v), d) == if d == c then v else Current(s, d)
  {
    var s1 := Appended(s, Update(t, c, Current(s, c)), v);
    assert PoolOk(s1) && forall d :: Current(s1, d) == Current(s, d);
    StoredPool(s1, t, c, v, |s1.log|);
    var s2 := Stored(s1, t, c, v, |s1.log|);
    var s3 := DoWrite(s, t, c, v);
    LocksKept(s, WriteCell(t, c, v));
    assert forall u, b :: Writer(s2, u, b) ==> Writer(s3, u, b);
  }

  /** Moving down the log without writing. */
  lemma MovedPool(s: State, t: TxId, pos: nat)
    requires PoolOk(s) && t in s.txns && s.txns[t].phase.Undoing?
    ensures var s1 := WithTxn(s, t, s.txns[t].(phase := Undoing(pos)));
            PoolOk(s1) && forall b :: Writer(s, t, b) ==> Writer(s1, t, b)
  {
    var s1 := WithTxn(s, t, s.txns[t].(phase := Undoing(pos)));
    assert HeldsOf(s1) == HeldsOf(s);
    assert forall u, b :: Writer(s, u, b) ==> Writer(s1, u, b);
  }

  lemma UndonePool(s: State, t: TxId)
    requires PoolOk(s) && Enabled(s, UndoOne(t))
    ensures PoolOk(DoUndo(s, t))
    ensures forall d :: Current(DoUndo(s, t), d) == EffectOn(s, UndoOne(t), d)
  {
    var pos := s.txns[t].phase.pos;
    var r := s.log[pos - 1];
    var pos' := if r == Start(t) then 0 else pos - 1;
    var s1 := WithTxn(s, t, s.txns[t].(phase := Undoing(pos')));
    MovedPool(s, t, pos');
    assert forall d :: Current(s1, d) == Current(s, d);
    if TxNumber(r) == t && r.Update? {
      StoredPool(s1, t, r.cell, r.before, -1);
    }
  }

  /** Steps on transactions and locks alone. */
  lemma TxnOnlyPool(s: State, step: Step)
    requires PoolOk(s) && Enabled(s, step) && TxnOnly(step)
    ensures PoolOk(Apply(s, step))
    ensures forall c :: Current(Apply(s, step), c) == Current(s, c)
  {
    LocksKept(s, step);
    TxnOnlyFrame(s, step);
  }

  /** Every step keeps the pool in agreement with the disk, and changes the contents a client sees
      only where it says so: pinning, unpinning, eviction and flushing change nothing. */
  lemma PoolKept(s: State, step: Step)
    requires PoolOk(s) && Enabled(s, step)
    ensures PoolOk(Apply(s, step))
    ensures forall c :: Current(Apply(s, step), c) == EffectOn(s, step, c)
  {
    if TxnOnly(step) {
      TxnOnlyPool(s, step);
    } else if step.FlushLog? || step.AppendCommit? || step.BeginRollback? || step.AppendRollback? {
      PhasePool(s, step);
    } else {
      FramePool(s, step);
    }
  }

  lemma FramePool(s: State, step: Step)
    requires PoolOk(s) && Enabled(s, step)
    requires step.Pin? || step.Unpin? || step.FlushFrame? || step.WriteCell? || step.UndoOne?
    ensures PoolOk(Apply(s, step))
    ensures forall c :: Current(Apply(s, step), c) == EffectOn(s, step, c)
  {
    match step {
      case Pin(t, b) => PinnedPool(s, t, b);
      case Unpin(t, b) => UnpinnedPool(s, t, b);
      case FlushFrame(i) => FlushedPool(s, i);
      case WriteCell(t, c, v) => WrittenPool(s, t, c, v);
      case UndoOne(t) => UndonePool(s, t);
    }
  }

  lemma PhasePool(s: State, step: Step)
    requires PoolOk(s) && Enabled(s, step)
    requires step.FlushLog? || step.AppendCommit? || step.BeginRollback? || step.AppendRollback?
    ensures PoolOk(Apply(s, step))
    ensures forall c :: Current(Apply(s, step), c) == EffectOn(s, step, c)
  {
    LocksKept(s, step);
    var s' := Apply(s, step);
    if step.AppendCommit? || step.AppendRollback? {
      StoppedWriting(s, s', step.t);
    }
  }

  /** In every state of every run, no block is in two frames, a clean frame equals the disk, and a
      dirty frame's block is owned by the transaction that last changed it. */
  lemma {:induction false} PoolAlwaysOk(s: State, steps: seq<Step>, s': State)
    requires PoolOk(s) && Run(s, steps, s')
    ensures PoolOk(s')
    decreases |steps|
  {
    if steps != [] {
      PoolKept(s, steps[0]);
      PoolAlwaysOk(Apply(s, steps[0]), steps[1..], s');
    }
  }
}
