/** The write-ahead rule (buffer/buffer.go): a block on disk never includes an update whose log record is
    not on disk. */
module EngineStamps {
  import opened Options
  import opened Keys
  import opened Locks
  import opened Frames
  import opened Recovery
  import opened Engine
  import opened LockAgreement
  import opened EnginePool
  import opened EngineLog
  import opened EngineValues
  import opened EngineCrash

  /** For the contents of each loaded block and of each block on disk, the LSN of the newest update they
      include; 0 for the contents a process starts with. */
  datatype Stamps = Stamps(frames: map<BlockId, nat>, disk: map<BlockId, nat>)

  function Stamp(m: map<BlockId, nat>, b: BlockId): nat {
    if b in m then m[b] else 0
  }

  /** A write stamps the contents of the frame; loading and writing out carry the stamp along. */
  function StampStep(s: State, k: Stamps, step: Step): Stamps
    requires Enabled(s, step)
  {
    match step
    case WriteCell(t, c, v) => k.(frames := k.frames[c.block := |s.log| + 1])
    case Pin(t, b) =>
      if b !in s.txns[t].pinned && FindExisting(s.pool, b) < 0 then k.(frames := k.frames[b := Stamp(k.disk, b)]) else k
    case FlushFrame(i) =>
      if s.pool[i].txn >= 0 && s.pool[i].block.Some?
      then k.(disk := k.disk[s.pool[i].block.value := Stamp(k.frames, s.pool[i].block.value)]) else k
    case _ => k
  }

  function StampsAfter(s: State, k: Stamps, steps: seq<Step>): Stamps
    decreases |steps|
  {
    if steps == [] || !Enabled(s, steps[0]) then k
    else StampsAfter(Apply(s, steps[0]), StampStep(s, k, steps[0]), steps[1..])
  }

  predicate UpdateOf(log: seq<Rec>, i: int, b: BlockId) {
    0 <= i < |log| && log[i].Update? && log[i].cell.block == b
  }

  /** The stamp is the newest update of the block, or 0 if there is none in this process. */
  ghost predicate Newest(o: Origin, log: seq<Rec>, b: BlockId, stamp: nat) {
    && (forall i :: Base(o) <= i && UpdateOf(log, i, b) ==> i < stamp)
    && (stamp == 0 || (Base(o) < stamp && UpdateOf(log, stamp - 1, b)))
  }

  /** Whatever is loaded includes every update; so does the disk but for a dirty block; and the newest
      update that the disk includes has its record on disk. */
  ghost predicate BlockStamped(o: Origin, s: State, k: Stamps, b: BlockId) {
    var j := FindExisting(s.pool, b);
    && (j >= 0 ==> Newest(o, s.log, b, Stamp(k.frames, b)))
    && ((j >= 0 && s.pool[j].txn >= 0) || Newest(o, s.log, b, Stamp(k.disk, b)))
    && Stamp(k.disk, b) <= s.saved
  }

  ghost predicate Stamped(o: Origin, s: State, k: Stamps) {
    forall b :: BlockStamped(o, s, k, b)
  }

  lemma NewestKept(o: Origin, log: seq<Rec>, r: Rec, b: BlockId, stamp: nat)
    requires Newest(o, log, b, stamp) && !(r.Update? && r.cell.block == b)
    ensures Newest(o, log + [r], b, stamp)
  {
    forall i | UpdateOf(log + [r], i, b) ensures UpdateOf(log, i, b) { }
    assert stamp > 0 ==> UpdateOf(log + [r], stamp - 1, b);
  }

  lemma WriteStamped(o: Origin, s: State, k: Stamps, t: TxId, c: Cell, v: Value, b: BlockId)
    requires Safe(o, s) && BlockStamped(o, s, k, b) && Enabled(s, WriteCell(t, c, v))
    ensures BlockStamped(o, DoWrite(s, t, c, v), StampStep(s, k, WriteCell(t, c, v)), b)
  {
    var s' := DoWrite(s, t, c, v);
    var i := FindExisting(s.pool, c.block);
    FindUpdated(s.pool, i, s'.pool[i], b);
    assert s'.log == s.log + [Update(t, c, Current(s, c))];
    forall n: nat | b != c.block && Newest(o, s.log, b, n) ensures Newest(o, s'.log, b, n) {
      NewestKept(o, s.log, Update(t, c, Current(s, c)), b, n);
    }
  }

  /** Writing a frame out takes the record of its newest update along. */
  lemma FlushStamped(o: Origin, s: State, k: Stamps, j: nat, b: BlockId)
    requires Safe(o, s) && BlockStamped(o, s, k, b) && Enabled(s, FlushFrame(j))
    ensures BlockStamped(o, FlushedFrame(s, j), StampStep(s, k, FlushFrame(j)), b)
  {
    if s.pool[j].txn >= 0 {
      var s' := FlushedFrame(s, j);
      FindUpdated(s.pool, j, s'.pool[j], b);
      var f := Stamp(k.frames, b);
      if s.pool[j].block == Some(b) {
        FoundIsThe(s.pool, b, j);
        if f > s.saved {
          assert Tail(s.log, Base(o), f - 1);
        }
      }
    }
  }

  lemma PinStamped(o: Origin, s: State, k: Stamps, t: TxId, a: BlockId, b: BlockId)
    requires Safe(o, s) && BlockStamped(o, s, k, b) && BlockStamped(o, s, k, a) && Enabled(s, Pin(t, a))
    ensures BlockStamped(o, DoPin(s, t, a), StampStep(s, k, Pin(t, a)), b)
  {
    var s' := DoPin(s, t, a);
    PinnedPool(s, t, a);
    var j := FindExisting(s.pool, b);
    if a !in s.txns[t].pinned && FindExisting(s.pool, a) < 0 {
      LoadStamped(o, s, s', k, a, b);
    } else if j >= 0 {
      FoundIsThe(s'.pool, b, j);
    }
  }

  lemma LoadStamped(o: Origin, s: State, s': State, k: Stamps, a: BlockId, b: BlockId)
    requires PoolOk(s) && PoolOk(s') && BlockStamped(o, s, k, b) && FindExisting(s.pool, a) < 0
    requires ChooseUnpinned(s.pool) >= 0 && s.pool[ChooseUnpinned(s.pool)].txn < 0
    requires s'.pool == PinFrame(s, a) && s'.log == s.log && s'.saved == s.saved
    ensures BlockStamped(o, s', k.(frames := k.frames[a := Stamp(k.disk, a)]), b)
  {
    var i, j := ChooseUnpinned(s.pool), FindExisting(s.pool, b);
    if b == a {
      FoundIsThe(s'.pool, b, i);
    } else if j >= 0 && j != i {
      FoundIsThe(s'.pool, b, j);
    }
  }

  lemma UnpinStamped(o: Origin, s: State, k: Stamps, t: TxId, a: BlockId, b: BlockId)
    requires Safe(o, s) && BlockStamped(o, s, k, b) && Enabled(s, Unpin(t, a))
    ensures BlockStamped(o, DoUnpin(s, t, a), k, b)
  {
    var s' := DoUnpin(s, t, a);
    UnpinnedPool(s, t, a);
    var j := FindExisting(s.pool, b);
    if j >= 0 {
      FoundIsThe(s'.pool, b, j);
    }
  }

  lemma UndoStamped(o: Origin, s: State, k: Stamps, t: TxId, b: BlockId)
    requires Safe(o, s) && BlockStamped(o, s, k, b) && Enabled(s, UndoOne(t))
    ensures BlockStamped(o, DoUndo(s, t), k, b)
  {
    var s' := DoUndo(s, t);
    var r := s.log[s.txns[t].phase.pos - 1];
    if TxNumber(r) == t && r.Update? {
      var i := FindExisting(s.pool, r.cell.block);
      FindUpdated(s.pool, i, s'.pool[i], b);
    }
  }

  /** Steps that change no frame and append at most a commit or rollback record. */
  lemma OtherStamped(o: Origin, s: State, s': State, k: Stamps, b: BlockId)
    requires BlockStamped(o, s, k, b) && s'.pool == s.pool && s.saved <= s'.saved
    requires s'.log == s.log || exists r :: s'.log == s.log + [r] && !r.Update?
    ensures BlockStamped(o, s', k, b)
  {
    forall n: nat | Newest(o, s.log, b, n) ensures Newest(o, s'.log, b, n) {
      if s'.log != s.log {
        var r :| s'.log == s.log + [r] && !r.Update?;
        NewestKept(o, s.log, r, b, n);
      }
    }
  }

  lemma StampKept(o: Origin, s: State, k: Stamps, step: Step)
    requires Safe(o, s) && Stamped(o, s, k) && Enabled(s, step)
    ensures Stamped(o, Apply(s, step), StampStep(s, k, step))
  {
    forall b ensures BlockStamped(o, Apply(s, step), StampStep(s, k, step), b) {
      assert BlockStamped(o, s, k, b);
      assert step.Pin? ==> BlockStamped(o, s, k, step.b);
      StampKeptOf(o, s, k, step, b);
    }
  }

  lemma StampKeptOf(o: Origin, s: State, k: Stamps, step: Step, b: BlockId)
    requires Safe(o, s) && BlockStamped(o, s, k, b) && Enabled(s, step)
    requires step.Pin? ==> BlockStamped(o, s, k, step.b)
    ensures BlockStamped(o, Apply(s, step), StampStep(s, k, step), b)
  {
    if step.WriteCell? {
      WriteStamped(o, s, k, step.t, step.c, step.v, b);
    } else if step.FlushFrame? {
      FlushStamped(o, s, k, step.i, b);
    } else if step.Pin? {
      PinStamped(o, s, k, step.t, step.b, b);
    } else if step.Unpin? {
      UnpinStamped(o, s, k, step.t, step.b, b);
    } else if step.UndoOne? {
      UndoStamped(o, s, k, step.t, b);
    } else {
      OtherKept(o, s, k, step, b);
    }
  }

  lemma OtherKept(o: Origin, s: State, k: Stamps, step: Step, b: BlockId)
    requires Safe(o, s) && BlockStamped(o, s, k, b) && Enabled(s, step)
    requires !step.WriteCell? && !step.FlushFrame? && !step.Pin? && !step.Unpin? && !step.UndoOne?
    ensures BlockStamped(o, Apply(s, step), k, b)
  {
    if TxnOnly(step) {
      TxnOnlyFrame(s, step);
    } else if step.AppendCommit? || step.AppendRollback? {
      var r := if step.AppendCommit? then Commit(step.t) else Rollback(step.t);
      assert Apply(s, step).log == s.log + [r];
    }
    OtherStamped(o, s, Apply(s, step), k, b);
  }

  /** Write-ahead over all runs: at every moment the newest update that any block on disk includes has its
      log record on disk, and a block that is not dirty includes every update made to it. */
  lemma {:induction false} WriteAheadAlways(o: Origin, s: State, k: Stamps, steps: seq<Step>, s': State)
    requires Safe(o, s) && Stamped(o, s, k) && Run(s, steps, s') && FreshRun(o, steps)
    ensures Safe(o, s') && Stamped(o, s', StampsAfter(s, k, steps))
    decreases |steps|
  {
    if steps != [] {
      SafeKept(o, s, steps[0]);
      StampKept(o, s, k, steps[0]);
      WriteAheadAlways(o, Apply(s, steps[0]), StampStep(s, k, steps[0]), steps[1..], s');
    }
  }

  lemma InitStamped(o: Origin, s: State)
    requires Init(s) && o == Origin(s.log, s.disk)
    ensures Stamped(o, s, Stamps(map[], map[]))
  {
    forall b ensures BlockStamped(o, s, Stamps(map[], map[]), b) {
      assert FindExisting(s.pool, b) < 0;
      assert Newest(o, s.log, b, 0);
    }
  }

  /** From the start of a process. */
  lemma WriteAhead(o: Origin, s: State, steps: seq<Step>, s': State, b: BlockId)
    requires Init(s) && o == Origin(s.log, s.disk) && Run(s, steps, s') && FreshRun(o, steps)
    ensures Stamp(StampsAfter(s, Stamps(map[], map[]), steps).disk, b) <= s'.saved
  {
    InitSafe(o, s);
    InitStamped(o, s);
    WriteAheadAlways(o, s, Stamps(map[], map[]), steps, s');
    assert BlockStamped(o, s', StampsAfter(s, Stamps(map[], map[]), steps), b);
  }
}
