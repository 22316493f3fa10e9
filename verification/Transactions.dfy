/** A transaction's calls (tx/transaction.go, tx/recovery_manager.go), carried out as steps of the engine.
    A call ends with the log whole: a log block that it has to start is started within it.  Values are
    those that a page takes: storing text that is not valid UTF-8 is not a call here. */
module Transactions {
  import opened Options
  import opened Keys
  import opened Locks
  import opened Frames
  import opened Recovery
  import opened Engine
  import opened LockAgreement
  import opened EnginePool
  import opened EnginePins
  import opened EngineLog
  import opened EngineValues
  import opened EngineCrash
  import opened EngineBuffers

  function OriginOf(start: State): Origin {
    Origin(start.log, start.disk)
  }

  /** A state that some run reaches from the start of a process. */
  ghost predicate Reachable(start: State, s: State) {
    Init(start) && exists steps :: Run(start, steps, s) && FreshRun(OriginOf(start), steps)
  }

  lemma {:induction false} RunOn(s: State, steps: seq<Step>, s': State, step: Step)
    requires Run(s, steps, s') && Enabled(s', step)
    ensures Run(s, steps + [step], Apply(s', step))
    decreases |steps|
  {
    if steps == [] {
      assert ([] + [step])[1..] == [];
    } else {
      RunOn(Apply(s, steps[0]), steps[1..], s', step);
      assert (steps + [step])[1..] == steps[1..] + [step];
    }
  }

  lemma ReachableOn(start: State, s: State, step: Step)
    requires Reachable(start, s) && Enabled(s, step) && Fresh(OriginOf(start), step)
    ensures Reachable(start, Apply(s, step))
  {
    var steps :| Run(start, steps, s) && FreshRun(OriginOf(start), steps);
    RunOn(start, steps, s, step);
    assert FreshRun(OriginOf(start), steps + [step]);
  }

  /** What holds in every reachable state. */
  lemma ReachableSafe(start: State, s: State)
    requires Reachable(start, s)
    ensures Safe(OriginOf(start), s) && PinsOk(s)
  {
    var steps :| Run(start, steps, s) && FreshRun(OriginOf(start), steps);
    InitSafe(OriginOf(start), start);
    SafeAlways(OriginOf(start), start, steps, s);
    InitPinsOk(start);
    PinsAlwaysOk(start, steps, s);
  }

  lemma ReachablePool(start: State, s: State)
    requires Reachable(start, s)
    ensures PoolOk(s)
  {
    ReachableSafe(start, s);
  }

  /** The state that all transactions share. */
  class Server {
    ghost const start: State
    var state: State

    ghost predicate Valid()
      reads this
    {
      Reachable(start, state) && !state.torn
    }

    constructor (state: State)
      requires Init(state)
      ensures Valid() && this.state == state && start == state
    {
      this.state := state;
      start := state;
      new;
      assert Run(state, [], state) && FreshRun(OriginOf(state), []);
    }

    method Take(step: Step)
      requires Valid() && Enabled(state, step) && Fresh(OriginOf(start), step) && !step.ExtendLog?
      modifies this
      ensures Valid() && state == Apply(old(state), step)
    {
      ReachableOn(start, state, step);
      state := Apply(state, step);
    }

    method Begin() returns (t: Transaction)
      requires Valid()
      modifies this
      ensures Valid() && state == DoBegin(old(state))
      ensures fresh(t) && t.server == this && t.txNum == state.nextTx == old(state.nextTx) + 1 && t.Running()
      ensures state.txns == old(state.txns)[t.txNum := Txn(Active, map[], map[], [])]
    {
      Take(Step.Begin);
      t := new Transaction(this, state.nextTx);
    }
  }

  class Transaction {
    const server: Server
    const txNum: TxId

    ghost predicate Running()
      reads server
    {
      InPhase(server.state, txNum, true)
    }

    constructor (server: Server, txNum: TxId)
      ensures this.server == server && this.txNum == txNum
    {
      this.server := server;
      this.txNum := txNum;
    }

    /** An error exactly when the shared lock is not granted or the block is not pinned. */
    method GetVal(c: Cell) returns (r: Option<Value>)
      requires server.Valid() && Running()
      modifies server
      ensures server.Valid() && Running() && server.state.log == old(server.state.log)
      ensures forall d :: Current(server.state, d) == Current(old(server.state), d)
      ensures r.Some? <==>
                && CanShare(old(server.state), txNum, c.block)
                && c.block in old(server.state.txns[txNum].pinned)
      ensures r.Some? ==> r.value == Current(old(server.state), c)
      ensures server.state == old(server.state).(table := server.state.table, txns := server.state.txns)
      ensures SharedOnly(old(server.state), server.state, txNum, c.block)
      ensures server.state.txns[txNum].ops == old(server.state.txns[txNum].ops)
              + if r.Some? then [ReadOp(c, r.value)] else []
    {
      var ok := SLock(c.block);
      if !ok || c.block !in server.state.txns[txNum].pinned {
        return None;
      }
      PinnedFound(c.block);
      r := Some(Current(server.state, c));
      server.Take(ReadCell(txNum, c));
    }

    /** Lock, log the old value, store the new one.  An error exactly when the exclusive lock is not granted
        or the block is not pinned. */
    method SetVal(c: Cell, v: Value) returns (ok: bool)
      requires server.Valid() && Running()
      modifies server
      ensures server.Valid() && Running()
      ensures forall d :: Current(server.state, d) == if ok && d == c then v else Current(old(server.state), d)
      ensures server.state.log == if ok then old(server.state.log) + [Update(txNum, c, Current(old(server.state), c))]
              else old(server.state.log)
      ensures ok <==>
                && CanOwn(old(server.state), txNum, c.block)
                && c.block in old(server.state.txns[txNum].pinned)
      ensures OwnedOnly(old(server.state), server.state, txNum, c.block)
      ensures server.state.txns[txNum].ops == old(server.state.txns[txNum].ops) + if ok then [WriteOp(c, v)] else []
      ensures WrittenOnly(old(server.state), server.state, txNum, if ok then Some(WriteOp(c, v)) else None)
    {
      ok := XLock(c.block);
      if !ok {
        return;
      }
      if c.block !in server.state.txns[txNum].pinned {
        return false;
      }
      PinnedFound(c.block);
      WriteSees(c, v);
      server.Take(WriteCell(txNum, c, v));
    }

    lemma WriteSees(c: Cell, v: Value)
      requires server.Valid() && Enabled(server.state, WriteCell(txNum, c, v))
      ensures forall d :: Current(DoWrite(server.state, txNum, c, v), d) == if d == c then v
              else Current(server.state, d)
    {
      ReachableSafe(server.start, server.state);
      WrittenPool(server.state, txNum, c, v);
    }

    /** A block on the transaction's list is in the pool. */
    lemma PinnedFound(b: BlockId)
      requires server.Valid() && txNum in server.state.txns && b in server.state.txns[txNum].pinned
      ensures FindExisting(server.state.pool, b) >= 0
    {
      ReachableSafe(server.start, server.state);
      assert PinnedBy(server.state, txNum, b);
    }

    method SLock(b: BlockId) returns (ok: bool)
      requires server.Valid() && Running()
      modifies server
      ensures server.Valid() && Running() && SameButLocks(old(server.state), server.state, txNum)
      ensures ok <==> CanShare(old(server.state), txNum, b)
      ensures SharedOnly(old(server.state), server.state, txNum, b)
      ensures server.state == if ok then DoSLock(old(server.state), txNum, b) else old(server.state)
    {
      ok := b in server.state.txns[txNum].held || LockVal(server.state.table, b) >= 0;
      if ok {
        server.Take(Step.SLock(txNum, b));
      }
    }

    /** A shared lock first, then the upgrade. */
    method XLock(b: BlockId) returns (ok: bool)
      requires server.Valid() && Running()
      modifies server
      ensures server.Valid() && Running() && SameButLocks(old(server.state), server.state, txNum)
      ensures ok <==> CanOwn(old(server.state), txNum, b)
      ensures ok ==> Owns(server.state, txNum, b)
      ensures OwnedOnly(old(server.state), server.state, txNum, b)
    {
      OwnerCount(server.start, server.state, txNum, b);
      ok := SLock(b);
      if ok {
        ok := server.state.txns[txNum].held[b] == X || LockVal(server.state.table, b) <= 1;
        if ok {
          server.Take(XUpgrade(txNum, b));
        }
      }
    }

    /** Pin a block; a buffer that has to be taken over is written out first.  An error exactly when the
        block is in no buffer and all buffers are pinned. */
    method Pin(b: BlockId) returns (ok: bool)
      requires server.Valid() && Open(server.state, txNum)
      modifies server
      ensures server.Valid() && SameButPins(old(server.state), server.state, txNum)
      ensures ok <==> CanPin(old(server.state), b)
      ensures OneFrame(old(server.state), server.state, b)
      ensures if ok then PinnedOne(old(server.state), server.state, txNum, b) else server.state == old(server.state)
    {
      ghost var before := server.state;
      ok := MakeRoom(b);
      if ok {
        PinSame(server.start, server.state, txNum, b);
        PinOnes(server.start, before, server.state, txNum, b);
        PinOneFrame(server.start, before, server.state, txNum, b);
        server.Take(Step.Pin(txNum, b));
      }
    }

    /** Write out the buffer that a block not in the pool will take over. */
    method MakeRoom(b: BlockId) returns (ok: bool)
      requires server.Valid() && Open(server.state, txNum)
      modifies server
      ensures server.Valid() && SameButPins(old(server.state), server.state, txNum)
      ensures server.state.txns == old(server.state.txns) && (ok <==> CanPin(old(server.state), b))
      ensures SameFrames(old(server.state), server.state)
      ensures if ok then Enabled(server.state, Step.Pin(txNum, b)) else server.state == old(server.state)
      ensures ok ==> server.state == Cleared(old(server.state), b)
    {
      if b in server.state.txns[txNum].pinned {
        PinnedFound(b);
        return true;
      }
      if FindExisting(server.state.pool, b) >= 0 {
        return true;
      }
      var i := ChooseUnpinned(server.state.pool);
      if i < 0 {
        return false;
      }
      FlushSame(server.start, server.state, txNum, i);
      FlushedChoice(server.state, i, b);
      server.Take(FlushFrame(i));
      ok := true;
    }

    method Unpin(b: BlockId)
      requires server.Valid() && txNum in server.state.txns
      modifies server
      ensures server.Valid() && SameButPins(old(server.state), server.state, txNum)
      ensures server.state.txns[txNum].pinned == Unpinned(old(server.state.txns[txNum].pinned), b)
      ensures server.state == DoUnpin(old(server.state), txNum, b)
    {
      UnpinSame(server.start, server.state, txNum, b);
      server.Take(Step.Unpin(txNum, b));
    }

    /** Write out every buffer this transaction dirtied. */
    method FlushAll()
      requires server.Valid() && txNum in server.state.txns && txNum >= 0
      modifies server
      ensures server.Valid() && SameButPins(old(server.state), server.state, txNum)
      ensures server.state.txns == old(server.state.txns) && NothingDirty(server.state, txNum)
      ensures OwnCleaned(old(server.state), server.state, txNum, |server.state.pool|)
    {
      var i := 0;
      while i < |server.state.pool|
        invariant server.Valid() && SameButPins(old(server.state), server.state, txNum) && i <= |server.state.pool|
        invariant server.state.txns == old(server.state.txns)
        invariant OwnCleaned(old(server.state), server.state, txNum, i)
        decreases |server.state.pool| - i
      {
        if server.state.pool[i].txn == txNum {
          FlushSame(server.start, server.state, txNum, i);
          FlushCleans(server.state, i);
          server.Take(FlushFrame(i));
        }
        i := i + 1;
      }
    }

    /** Force the changes to disk, log and save the commit, then give up locks and pins. */
    method Commit()
      requires server.Valid() && Running()
      modifies server
      ensures server.Valid() && txNum !in server.state.txns
      ensures server.state.log == old(server.state.log) + [Rec.Commit(txNum)]
              && server.state.saved == |server.state.log|
      ensures server.state.order == old(server.state.order) + [old(server.state.txns[txNum].ops)]
      ensures OthersSame(old(server.state), server.state, txNum)
      ensures forall d :: Current(server.state, d) == Current(old(server.state), d)
    {
      Positive();
      FlushAll();
      assert server.state.txns[txNum].ops == old(server.state.txns[txNum].ops);
      server.Take(AppendCommit(txNum));
      SaveLog();
      server.Take(Committed(txNum));
      Release();
      ReachableSafe(server.start, server.state);
    }

    /** Undo the changes, force the buffers, log and save the rollback, then give up locks and pins.
        Every cell the transaction changed has its last committed value again, every other cell what it
        had.  An error exactly when the block of an update to undo can not be pinned. */
    method Rollback() returns (ok: bool)
      requires server.Valid() && Running() && FreshNumber(server.start.log, txNum)
      modifies server
      ensures server.Valid() && (ok <==> CanUndo(old(server.state), txNum, |old(server.state).log|))
      ensures ok ==> txNum !in server.state.txns && server.state.order == old(server.state.order)
      ensures OthersSame(old(server.state), server.state, txNum)
      ensures !ok ==> txNum in server.state.txns && server.state.txns[txNum].phase.Undoing?
                      && server.state.txns[txNum].pinned == old(server.state.txns[txNum].pinned)
                      && server.state.txns[txNum].held == old(server.state.txns[txNum].held)
      ensures ok ==>
                && server.state.log == old(server.state.log) + [Rec.Rollback(txNum)]
                && server.state.saved == |server.state.log|
      ensures ok ==> forall d :: RolledBackTo(OriginOf(server.start), old(server.state), txNum, d,
              Current(server.state, d))
    {
      BeginsUndoing(server.start, server.state, txNum);
      server.Take(BeginRollback(txNum));
      ghost var undoing := server.state;
      assert CanUndo(undoing, txNum, |undoing.log|) <==> CanUndo(old(server.state), txNum, |undoing.log|);
      ok := UndoAll();
      if !ok {
        return;
      }
      UndoneTo(server.start, old(server.state), undoing, server.state, txNum);
      FinishRollback();
    }

    /** Force the undone buffers, log and save the rollback, then give up locks and pins. */
    method FinishRollback()
      requires server.Valid() && txNum in server.state.txns && server.state.txns[txNum].phase == Undoing(0)
      modifies server
      ensures server.Valid() && txNum !in server.state.txns && server.state.order == old(server.state.order)
      ensures OthersSame(old(server.state), server.state, txNum)
      ensures server.state.log == old(server.state.log) + [Rec.Rollback(txNum)]
              && server.state.saved == |server.state.log|
      ensures forall d :: Current(server.state, d) == Current(old(server.state), d)
    {
      Positive();
      FlushAll();
      server.Take(AppendRollback(txNum));
      SaveLog();
      server.Take(Abandoned(txNum));
      assert forall d :: Current(server.state, d) == Current(old(server.state), d);
      Release();
      ReachableSafe(server.start, server.state);
    }

    /** Down the log, record by record, undoing this transaction's updates. */
    method UndoAll() returns (ok: bool)
      requires server.Valid() && txNum in server.state.txns && server.state.txns[txNum].phase.Undoing?
      modifies server
      ensures server.Valid() && UndoneSoFar(OriginOf(server.start), old(server.state), server.state, txNum)
      ensures ok <==> CanUndo(old(server.state), txNum, old(server.state.txns[txNum].phase.pos))
      ensures ok ==> server.state.txns[txNum].phase == Undoing(0)
    {
      UndoneNone(OriginOf(server.start), server.state, txNum);
      while server.state.txns[txNum].phase.pos > 0
        invariant server.Valid() && UndoneSoFar(OriginOf(server.start), old(server.state), server.state, txNum)
        invariant SameRoom(old(server.state), server.state)
        invariant CanUndo(old(server.state), txNum, old(server.state.txns[txNum].phase.pos))
                  <==> CanUndo(server.state, txNum, server.state.txns[txNum].phase.pos)
        decreases server.state.txns[txNum].phase.pos
      {
        ghost var before := server.state;
        PosInLog(server.start, before, txNum);
        ok := UndoNext();
        UndoneFurther(OriginOf(server.start), old(server.state), before, server.state, txNum);
        CanUndoNext(before, server.state, txNum, ok);
        if !ok {
          return;
        }
      }
      ok := true;
    }

    /** Undo one record: pin its block, put the old value back without logging it, unpin. */
    method UndoNext() returns (ok: bool)
      requires server.Valid() && txNum in server.state.txns && server.state.txns[txNum].phase.Undoing?
      requires server.state.txns[txNum].phase.pos > 0
      modifies server
      ensures server.Valid() && UndoneSoFar(OriginOf(server.start), old(server.state), server.state, txNum)
      ensures server.state.txns[txNum].phase.pos ==
                if ok then NextPos(old(server.state), txNum) else old(server.state.txns[txNum].phase.pos)
      ensures (ok <==> CanUndoOne(old(server.state), txNum)) && SameRoom(old(server.state), server.state)
      ensures !ok ==> server.state == old(server.state)
    {
      PosInLog(server.start, server.state, txNum);
      var r := server.state.log[server.state.txns[txNum].phase.pos - 1];
      if TxNumber(r) == txNum && r.Update? {
        ok := UndoUpdate(r);
      } else {
        UndoKeeps(server.start, server.state, txNum);
        server.Take(UndoOne(txNum));
        ok := true;
      }
    }

    method UndoUpdate(r: Rec) returns (ok: bool)
      requires server.Valid() && txNum in server.state.txns && server.state.txns[txNum].phase.Undoing?
      requires 0 < server.state.txns[txNum].phase.pos <= |server.state.log|
      requires r == server.state.log[server.state.txns[txNum].phase.pos - 1] && r.Update? && r.tx == txNum
      modifies server
      ensures server.Valid() && UndoneSoFar(OriginOf(server.start), old(server.state), server.state, txNum)
      ensures server.state.txns[txNum].phase.pos ==
                if ok then NextPos(old(server.state), txNum) else old(server.state.txns[txNum].phase.pos)
      ensures (ok <==> CanPin(old(server.state), r.cell.block)) && SameRoom(old(server.state), server.state)
      ensures !ok ==> server.state == old(server.state)
    {
      ghost var s0 := server.state;
      PosInLog(server.start, s0, txNum);
      ok := Pin(r.cell.block);
      if !ok {
        return;
      }
      ghost var s1 := server.state;
      PinnedFound(r.cell.block);
      UndoOwns(server.start, s1, txNum);
      UndoKeeps(server.start, s1, txNum);
      server.Take(UndoOne(txNum));
      ghost var s2 := server.state;
      Unpin(r.cell.block);
      UpdateUndone(server.start, s0, s1, s2, txNum, r.cell.block);
    }

    lemma Positive()
      requires server.Valid() && txNum in server.state.txns
      ensures txNum > 0
    {
      ReachableSafe(server.start, server.state);
    }

    /** Flush the log up to the newest record. */
    method SaveLog()
      requires server.Valid()
      modifies server
      ensures server.Valid() && server.state == old(server.state).(saved := |old(server.state).log|)
    {
      ReachableSafe(server.start, server.state);
      server.Take(FlushLog(|server.state.log|));
    }

    /** Give up every lock, then every pin. */
    method Release()
      requires server.Valid() && txNum in server.state.txns && server.state.txns[txNum].phase.Releasing?
      modifies server
      ensures server.Valid() && txNum !in server.state.txns && OthersSame(old(server.state), server.state, txNum)
      ensures server.state.log == old(server.state.log) && server.state.saved >= old(server.state.saved)
      ensures server.state.order == old(server.state.order)
      ensures forall d :: Current(server.state, d) == Current(old(server.state), d)
    {
      ReleaseLocks();
      assert forall d :: Current(server.state, d) == Current(old(server.state), d);
      UnpinAll();
      server.Take(End(txNum));
    }

    method ReleaseLocks()
      requires server.Valid() && txNum in server.state.txns && server.state.txns[txNum].phase.Releasing?
      modifies server
      ensures server.Valid() && SameButLocks(old(server.state), server.state, txNum)
      ensures server.state.txns[txNum].held == map[]
    {
      while server.state.txns[txNum].held.Keys != {}
        invariant server.Valid() && SameButLocks(old(server.state), server.state, txNum)
        decreases server.state.txns[txNum].held.Keys
      {
        var b :| b in server.state.txns[txNum].held.Keys;
        server.Take(Step.Unlock(txNum, b));
      }
    }

    method UnpinAll()
      requires server.Valid() && txNum in server.state.txns
      modifies server
      ensures server.Valid() && SameButPins(old(server.state), server.state, txNum)
      ensures server.state.txns[txNum].pinned == map[]
    {
      while server.state.txns[txNum].pinned.Keys != {}
        invariant server.Valid() && SameButPins(old(server.state), server.state, txNum)
        decreases server.state.txns[txNum].pinned.Keys
      {
        var b :| b in server.state.txns[txNum].pinned.Keys;
        UnpinFully(b);
      }
    }

    /** Unpin a block as often as it is pinned. */
    method UnpinFully(b: BlockId)
      requires server.Valid() && txNum in server.state.txns && b in server.state.txns[txNum].pinned
      modifies server
      ensures server.Valid() && SameButPins(old(server.state), server.state, txNum)
      ensures server.state.txns[txNum].pinned == old(server.state.txns[txNum].pinned) - {b}
    {
      while b in server.state.txns[txNum].pinned
        invariant server.Valid() && SameButPins(old(server.state), server.state, txNum)
        invariant server.state.txns[txNum].pinned - {b} == old(server.state.txns[txNum].pinned) - {b}
        decreases if b in server.state.txns[txNum].pinned then server.state.txns[txNum].pinned[b] + 1 else 0
      {
        Unpin(b);
      }
    }
  }

  lemma OwnerCount(start: State, s: State, t: TxId, b: BlockId)
    requires Reachable(start, s)
    ensures Owns(s, t, b) ==> LockVal(s.table, b) == -1
  {
    ReachablePool(start, s);
    assert AgreeOn(s.table, HeldsOf(s), b);
    if Owns(s, t, b) {
      assert t in Holders(HeldsOf(s), b, X);
    }
  }

  /** Who is in the way of a lock: of a shared one another transaction that owns the block, of an exclusive one
      every other transaction that holds any lock on it. */
  lemma GrantedIff(start: State, s: State, t: TxId, b: BlockId)
    requires Reachable(start, s) && t in s.txns
    ensures CanShare(s, t, b) <==> forall u :: u in s.txns && u != t ==> !Owns(s, u, b)
    ensures CanOwn(s, t, b) <==> forall u :: u in s.txns && u != t ==> b !in s.txns[u].held
  {
    ReachablePool(start, s);
    assert AgreeOn(s.table, HeldsOf(s), b);
    var shared, owners := Holders(HeldsOf(s), b, S), Holders(HeldsOf(s), b, X);
    forall u ensures u in s.txns && b in s.txns[u].held <==> u in shared || u in owners { }
    if owners != {} {
      var o := TheHolder(owners);
      assert Owns(s, o, b);
    } else if t in shared {
      OthersCounted(shared, t);
    } else {
      NoneCounted(shared);
    }
  }

  lemma NoneCounted(ts: set<TxId>)
    ensures |ts| == 0 <==> forall u :: u !in ts
  {
    assert (forall u :: u !in ts) ==> ts == {};
  }

  /** A set with a member has another one exactly if it has two or more. */
  lemma OthersCounted(ts: set<TxId>, t: TxId)
    requires t in ts
    ensures |ts| >= 1 && (|ts| <= 1 <==> forall u :: u in ts ==> u == t)
  {
    if |ts| <= 1 {
      forall u | u in ts ensures u == t {
        SingletonHas(ts, t, u);
      }
    }
    if forall u :: u in ts ==> u == t {
      assert ts == {t};
    }
  }

  /** Any number of transactions read one cell while nobody owns its block: all get its value, and still
      nobody owns it. */
  method ReadByAll(server: Server, readers: seq<Transaction>, c: Cell) returns (vals: seq<Option<Value>>)
    requires server.Valid() && forall i :: 0 <= i < |readers| ==> Reads(server, readers[i], c.block)
    requires forall u :: u in server.state.txns ==> !Owns(server.state, u, c.block)
    modifies server
    ensures |vals| == |readers| && forall i :: 0 <= i < |vals| ==> vals[i] == Some(Current(old(server.state), c))
    ensures server.Valid() && forall u :: u in server.state.txns ==> !Owns(server.state, u, c.block)
  {
    vals := [];
    for i := 0 to |readers|
      invariant server.Valid() && forall j :: 0 <= j < |readers| ==> Reads(server, readers[j], c.block)
      invariant forall u :: u in server.state.txns ==> !Owns(server.state, u, c.block)
      invariant Current(server.state, c) == Current(old(server.state), c)
      invariant |vals| == i && forall j :: 0 <= j < i ==> vals[j] == Some(Current(old(server.state), c))
    {
      assert Reads(server, readers[i], c.block);
      GrantedIff(server.start, server.state, readers[i].txNum, c.block);
      ghost var s := server.state;
      var r := readers[i].GetVal(c);
      NoOwnerStill(s, server.state, readers[i].txNum, c.block);
      vals := vals + [r];
    }
  }

  /** A running transaction of this server that has the block pinned. */
  ghost predicate Reads(server: Server, reader: Transaction, b: BlockId)
    reads server
  {
    reader.server == server && InPhase(server.state, reader.txNum, true)
    && b in server.state.txns[reader.txNum].pinned
  }

  lemma NoOwnerStill(s: State, s': State, t: TxId, b: BlockId)
    requires SharedOnly(s, s', t, b) && forall u :: u in s.txns ==> !Owns(s, u, b)
    ensures forall u :: u in s'.txns ==> !Owns(s', u, b)
    ensures forall u :: InPhase(s, u, true) ==> InPhase(s', u, true) && s'.txns[u].pinned == s.txns[u].pinned
  {
  }

  /** The other transactions go on as they were, with their locks and pins. */
  ghost predicate OthersSame(s: State, s': State, t: TxId) {
    forall u :: u != t ==> (u in s'.txns <==> u in s.txns) && (u in s.txns ==> s'.txns[u] == s.txns[u])
  }

  /** One transaction took at most this lock on one block: its other locks and its pins, the other counts and
      the other transactions are as they were. */
  ghost predicate LockedAs(s: State, s': State, t: TxId, b: BlockId, mode: Option<Mode>, count: int) {
    && t in s.txns && t in s'.txns && OthersSame(s, s', t)
    && s'.txns[t].phase == s.txns[t].phase && s'.txns[t].pinned == s.txns[t].pinned
    && s'.txns[t].held == (if mode.Some? then s.txns[t].held[b := mode.value] else s.txns[t].held)
    && forall d :: LockVal(s'.table, d) == if d == b then count else LockVal(s.table, d)
  }

  /** The log has a record more and its cell's frame the new value, stamped with the transaction and the record's
      LSN, if there was a write; nothing was written to disk, and nothing else changed but locks. */
  ghost predicate WrittenOnly(s: State, s': State, t: TxId, write: Option<Op>) {
    && s'.disk == s.disk && s'.saved == s.saved && s'.torn == s.torn && s'.order == s.order && s'.nextTx == s.nextTx
    && match write
       case None => s'.pool == s.pool && s'.log == s.log && s'.news == s.news
       case Some(w) =>
         var i := FindExisting(s.pool, w.cell.block);
         && 0 <= i < |s.pool| && |s'.log| == |s.log| + 1 && s'.news == s.news + [w.val]
         && var f := s.pool[i];
            s'.pool == s.pool[i := f.(data := f.data[w.cell.offset := w.val], txn := t, lsn := |s'.log|)]
  }

  /** A shared lock taken if none was held and nobody owns the block: one count more. */
  ghost predicate SharedOnly(s: State, s': State, t: TxId, b: BlockId) {
    && t in s.txns
    && if b !in s.txns[t].held && LockVal(s.table, b) >= 0 then LockedAs(s, s', t, b, Some(S), LockVal(s.table, b) + 1)
       else LockedAs(s, s', t, b, None, LockVal(s.table, b))
  }

  /** The exclusive lock if the call can have it; if not, the shared one if it can have that. */
  ghost predicate OwnedOnly(s: State, s': State, t: TxId, b: BlockId) {
    if CanOwn(s, t, b) then LockedAs(s, s', t, b, Some(X), -1) else SharedOnly(s, s', t, b)
  }

  /** A shared lock is granted. */
  predicate CanShare(s: State, t: TxId, b: BlockId) {
    t in s.txns && (b in s.txns[t].held || LockVal(s.table, b) >= 0)
  }

  /** An exclusive lock is granted: nobody else holds one, or shares the block. */
  predicate CanOwn(s: State, t: TxId, b: BlockId) {
    && t in s.txns
    && if b in s.txns[t].held then s.txns[t].held[b] == X || LockVal(s.table, b) <= 1 else LockVal(s.table, b) == 0
  }

  /** A block is in a buffer, or a buffer can be taken over. */
  predicate CanPin(s: State, b: BlockId) {
    FindExisting(s.pool, b) >= 0 || ChooseUnpinned(s.pool) >= 0
  }

  /** Every update that a rollback from a log position on undoes is in a block that can be pinned. */
  ghost predicate CanUndo(s: State, t: TxId, pos: nat) {
    pos <= |s.log| && forall i, c :: UndoneBy(s.log[..pos], t, i, c) ==> CanPin(s, c.block)
  }

  /** The next record to undo, if it is an update, is in such a block. */
  predicate CanUndoOne(s: State, t: TxId) {
    && t in s.txns && s.txns[t].phase.Undoing? && 0 < s.txns[t].phase.pos <= |s.log|
    && var r := s.log[s.txns[t].phase.pos - 1]; (TxNumber(r) == t && r.Update? ==> CanPin(s, r.cell.block))
  }

  /** Where an undo step goes to. */
  function NextPos(s: State, t: TxId): nat {
    if t in s.txns && s.txns[t].phase.Undoing? && 0 < s.txns[t].phase.pos <= |s.log|
        && s.log[s.txns[t].phase.pos - 1] != Start(t)
    then s.txns[t].phase.pos - 1 else 0
  }

  /** A block was pinned once more for t: only its own frame changed block or pin count. */
  ghost predicate PinnedOne(s: State, s': State, t: TxId, b: BlockId) {
    var i := FindExisting(s'.pool, b);
    && t in s.txns && t in s'.txns && 0 <= i < |s.pool| == |s'.pool|
    && (forall j :: 0 <= j < |s.pool| && j != i ==>
         s'.pool[j].block == s.pool[j].block && s'.pool[j].pins == s.pool[j].pins)
    && s'.txns[t].pinned == s.txns[t].pinned[b := if b in s.txns[t].pinned then s.txns[t].pinned[b] + 1 else 1]
    && (if b in s.txns[t].pinned then s.pool[i].block == Some(b) && s'.pool[i].pins == s.pool[i].pins
       && s.txns[t].pinned[b] >= 1
        else if FindExisting(s.pool, b) >= 0 then s.pool[i].block == Some(b) && s'.pool[i].pins == s.pool[i].pins + 1
        else s.pool[i].pins <= 0 && s'.pool[i].pins == 1)
  }

  /** Every frame holds the block it held, pinned as often. */
  predicate SameFrames(s: State, s': State) {
    && |s'.pool| == |s.pool|
    && forall j :: 0 <= j < |s.pool| ==> s'.pool[j].block == s.pool[j].block && s'.pool[j].pins == s.pool[j].pins
  }

  /** Of the first k frames those that a transaction dirtied are clean; no other frame changed. */
  ghost predicate OwnCleaned(s: State, s': State, t: TxId, k: nat) {
    && |s'.pool| == |s.pool|
    && forall j :: 0 <= j < |s.pool| ==>
         s'.pool[j] == if j < k && s.pool[j].txn == t then s.pool[j].(txn := -1) else s.pool[j]
  }

  /** No frame changed but that of a block, and nothing was written out if the block was in it before. */
  ghost predicate OneFrame(s: State, s': State, b: BlockId) {
    && |s'.pool| == |s.pool|
    && (forall j :: 0 <= j < |s.pool| && j != FindExisting(s'.pool, b) ==> s'.pool[j] == s.pool[j])
    && (FindExisting(s.pool, b) >= 0 ==> s'.disk == s.disk && s'.saved == s.saved)
  }

  lemma PinOneFrame(start: State, s: State, s1: State, t: TxId, b: BlockId)
    requires Reachable(start, s1) && Enabled(s1, Pin(t, b)) && CanPin(s, b) && !s.torn && s1 == Cleared(s, b)
    requires s1.txns == s.txns && (b in s.txns[t].pinned ==> FindExisting(s.pool, b) >= 0)
    ensures OneFrame(s, DoPin(s1, t, b), b)
  {
    ReachablePool(start, s1);
    PinnedPool(s1, t, b);
    var s' := DoPin(s1, t, b);
    if FindExisting(s.pool, b) < 0 {
      var i := ChooseUnpinned(s.pool);
      FlushCleans(s, i);
      FlushedChoice(s, i, b);
      NotThere(s, s1, b);
      FoundIsThe(s'.pool, b, i);
    } else if b !in s.txns[t].pinned {
      FoundIsThe(s'.pool, b, FindExisting(s.pool, b));
    }
  }

  lemma NotThere(s: State, s': State, b: BlockId)
    requires SameFrames(s, s')
    ensures FindExisting(s.pool, b) < 0 <==> FindExisting(s'.pool, b) < 0
  {
    var i, j := FindExisting(s.pool, b), FindExisting(s'.pool, b);
    assert i >= 0 ==> s'.pool[i].block == Some(b);
    assert j >= 0 ==> s.pool[j].block == Some(b);
  }

  /** The same blocks can be pinned: a buffer is still free, or none was and each holds what it held. */
  ghost predicate SameRoom(s: State, s': State) {
    |s'.pool| == |s.pool| && if ChooseUnpinned(s.pool) >= 0 then ChooseUnpinned(s'.pool) >= 0 else SameFrames(s, s')
  }

  lemma RoomPins(s: State, s': State, b: BlockId)
    requires SameRoom(s, s')
    ensures CanPin(s', b) <==> CanPin(s, b)
  {
    if ChooseUnpinned(s.pool) < 0 {
      assert forall j :: 0 <= j < |s.pool| ==> s.pool[j].pins > 0;
      var i, j := FindExisting(s.pool, b), FindExisting(s'.pool, b);
      assert i >= 0 ==> s'.pool[i].block == Some(b);
      assert j >= 0 ==> s.pool[j].block == Some(b);
    }
  }

  lemma PinOnes(start: State, s: State, s1: State, t: TxId, b: BlockId)
    requires Reachable(start, s1) && Enabled(s1, Pin(t, b)) && s1.txns == s.txns && SameFrames(s, s1)
    ensures PinnedOne(s, DoPin(s1, t, b), t, b)
  {
    ReachableSafe(start, s1);
    PinOnesOf(s, s1, t, b);
  }

  lemma PinOnesOf(s: State, s1: State, t: TxId, b: BlockId)
    requires PoolOk(s1) && PinsOk(s1) && Enabled(s1, Pin(t, b)) && s1.txns == s.txns && SameFrames(s, s1)
    ensures PinnedOne(s, DoPin(s1, t, b), t, b)
  {
    var s' := DoPin(s1, t, b);
    PinnedPool(s1, t, b);
    if b in s.txns[t].pinned {
      assert PinnedBy(s1, t, b);
    } else {
      var i := if FindExisting(s1.pool, b) >= 0 then FindExisting(s1.pool, b) else ChooseUnpinned(s1.pool);
      FoundIsThe(s'.pool, b, i);
      assert FindExisting(s.pool, b) >= 0 <==> FindExisting(s1.pool, b) >= 0;
    }
  }

  /** Pinning a block, undoing, and unpinning it leaves the same room. */
  lemma TurnOver(start: State, s0: State, s1: State, s2: State, t: TxId, b: BlockId)
    requires PinnedOne(s0, s1, t, b) && Reachable(start, s1) && Enabled(s1, UndoOne(t)) && s2 == DoUndo(s1, t)
    ensures t in s2.txns && SameRoom(s0, DoUnpin(s2, t, b))
  {
    ReachableSafe(start, s1);
    UndoOneFrames(s1, t);
    var i := FindExisting(s1.pool, b);
    var s3 := DoUnpin(s2, t, b);
    assert FindExisting(s2.pool, b) == i;
    assert forall j :: 0 <= j < |s0.pool| && j != i ==>
             s3.pool[j].block == s0.pool[j].block && s3.pool[j].pins == s0.pool[j].pins;
    if b in s0.txns[t].pinned || FindExisting(s0.pool, b) >= 0 {
      assert s3.pool[i].block == s0.pool[i].block && s3.pool[i].pins == s0.pool[i].pins;
      var k := ChooseUnpinned(s0.pool);
      assert k >= 0 ==> s3.pool[k].pins <= 0;
    } else {
      assert s3.pool[i].pins == 0;
    }
  }

  lemma UndoOneFrames(s: State, t: TxId)
    requires PoolOk(s) && Enabled(s, UndoOne(t))
    ensures var s' := DoUndo(s, t);
            && |s'.pool| == |s.pool| && t in s'.txns && s'.txns[t].pinned == s.txns[t].pinned
            && (forall j :: 0 <= j < |s.pool| ==>
                 s'.pool[j].block == s.pool[j].block && s'.pool[j].pins == s.pool[j].pins)
            && forall b :: FindExisting(s'.pool, b) == FindExisting(s.pool, b)
  {
    var s' := DoUndo(s, t);
    var r := s.log[s.txns[t].phase.pos - 1];
    if TxNumber(r) == t && r.Update? {
      var i := FindExisting(s.pool, r.cell.block);
      forall b ensures FindExisting(s'.pool, b) == FindExisting(s.pool, b) {
        FindUpdated(s.pool, i, s'.pool[i], b);
      }
    }
  }

  /** Whether everything can be undone: the next record, and then the rest. */
  lemma CanUndoNext(s: State, s': State, t: TxId, ok: bool)
    requires t in s.txns && s.txns[t].phase.Undoing? && 0 < s.txns[t].phase.pos <= |s.log| && s'.log == s.log
    requires ok <==> CanUndoOne(s, t)
    requires ok ==> SameRoom(s, s')
    ensures CanUndo(s, t, s.txns[t].phase.pos) <==> ok && CanUndo(s', t, NextPos(s, t))
  {
    var pos := s.txns[t].phase.pos;
    var log, rest := s.log[..pos], s.log[..NextPos(s, t)];
    var r := s.log[pos - 1];
    forall i, c
      ensures UndoneBy(log, t, i, c) <==>
                UndoneBy(rest, t, i, c) || (i == pos - 1 && r.Update? && r.tx == t && r.cell == c)
    {
    }
    if ok {
      forall c: Cell ensures CanPin(s', c.block) <==> CanPin(s, c.block) {
        RoomPins(s, s', c.block);
      }
    } else {
      assert UndoneBy(log, t, pos - 1, r.cell);
    }
  }

  /** Nothing changed but one transaction's locks and the lock table. */
  ghost predicate SameButLocks(s: State, s': State, t: TxId) {
    && s'.disk == s.disk && s'.pool == s.pool && s'.log == s.log && s'.news == s.news && s'.saved == s.saved
    && s'.order == s.order && s'.nextTx == s.nextTx && s'.torn == s.torn && t in s.txns && t in s'.txns
    && s'.txns == s.txns[t := s.txns[t].(held := s'.txns[t].held)]
  }

  /** Nothing a client sees changed; pins, frames, disk and the saved part of the log may have. */
  ghost predicate SameButPins(s: State, s': State, t: TxId) {
    && s'.log == s.log && s'.news == s.news && s'.order == s.order && s.saved <= s'.saved && t in s.txns && t in s'.txns
    && s'.txns == s.txns[t := s.txns[t].(pinned := s'.txns[t].pinned)]
    && forall d :: Current(s', d) == Current(s, d)
  }

  /** The value a rollback leaves in a cell. */
  ghost predicate RolledBackTo(o: Origin, s: State, t: TxId, d: Cell, v: Value)
  {
    && Base(o) <= |s.log| == |s.news|
    && v == if OpenOn(o, s, t, d) then Wanted(o, s.log, s.news, |s.log|, d) else Current(s, d)
  }

  /** From s to s' the transaction moved down the log; only cells it has open changed. */
  ghost predicate UndoneSoFar(o: Origin, s: State, s': State, t: TxId) {
    && s'.log == s.log && s'.news == s.news && s'.order == s.order && Base(o) <= |s.log| == |s.news|
    && t in s.txns && t in s'.txns && s.txns[t].phase.Undoing? && s'.txns[t].phase.Undoing?
    && s'.txns == s.txns[t := s.txns[t].(phase := s'.txns[t].phase)]
    && forall d :: !OpenOn(o, s, t, d) ==> Current(s', d) == Current(s, d)
  }

  lemma UndoneFurther(o: Origin, s: State, s1: State, s2: State, t: TxId)
    requires UndoneSoFar(o, s, s1, t) && UndoneSoFar(o, s1, s2, t)
    ensures UndoneSoFar(o, s, s2, t)
  {
    forall d | !OpenOn(o, s, t, d) ensures Current(s2, d) == Current(s, d) {
      assert !OpenOn(o, s1, t, d);
    }
  }

  /** A block was pinned, a record undone, and the block unpinned. */
  lemma UpdateUndone(start: State, s0: State, s1: State, s2: State, t: TxId, b: BlockId)
    requires SameButPins(s0, s1, t) && PinnedOne(s0, s1, t, b) && Reachable(start, s1)
    requires Enabled(s1, UndoOne(t)) && s2 == DoUndo(s1, t) && UndoneSoFar(OriginOf(start), s1, s2, t)
    requires SameButPins(s2, DoUnpin(s2, t, b), t)
             && DoUnpin(s2, t, b).txns[t].pinned == Unpinned(s2.txns[t].pinned, b)
    ensures var s3 := DoUnpin(s2, t, b);
            && UndoneSoFar(OriginOf(start), s0, s3, t) && SameRoom(s0, s3)
            && s3.txns[t].phase == s2.txns[t].phase && NextPos(s1, t) == NextPos(s0, t)
  {
    TurnOver(start, s0, s1, s2, t, b);
    PinsBack(s0, s1, t, b);
    UndoneAround(OriginOf(start), s0, s1, s2, DoUnpin(s2, t, b), t);
  }

  /** Unpinning a block that was pinned once more gives back the list there was. */
  lemma PinsBack(s0: State, s1: State, t: TxId, b: BlockId)
    requires PinnedOne(s0, s1, t, b)
    ensures Unpinned(s1.txns[t].pinned, b) == s0.txns[t].pinned
  {
  }

  lemma UndoneAround(o: Origin, s0: State, s1: State, s2: State, s3: State, t: TxId)
    requires SameButPins(s0, s1, t) && UndoneSoFar(o, s1, s2, t) && SameButPins(s2, s3, t)
    requires s3.txns[t].pinned == s0.txns[t].pinned
    ensures UndoneSoFar(o, s0, s3, t) && s3.txns[t].phase == s2.txns[t].phase && NextPos(s1, t) == NextPos(s0, t)
  {
    forall d | !OpenOn(o, s0, t, d) ensures Current(s3, d) == Current(s0, d) {
      assert !OpenOn(o, s1, t, d);
    }
  }

  lemma UndoneNone(o: Origin, s: State, t: TxId)
    requires exists start :: o == OriginOf(start) && Reachable(start, s)
    requires t in s.txns && s.txns[t].phase.Undoing?
    ensures UndoneSoFar(o, s, s, t)
  {
    var start :| o == OriginOf(start) && Reachable(start, s);
    ReachableSafe(start, s);
  }

  lemma BeginsUndoing(start: State, s: State, t: TxId)
    requires Reachable(start, s) && Enabled(s, BeginRollback(t))
    ensures var s1 := Apply(s, BeginRollback(t));
            && s1.log == s.log && s1.news == s.news && s1.order == s.order
               && Base(OriginOf(start)) <= |s.log| == |s.news|
            && s1.txns[t].phase == Undoing(|s.log|) && forall d :: Current(s1, d) == Current(s, d)
  {
    ReachableSafe(start, s);
  }

  /** When everything is undone, the cells that were open have their committed values. */
  lemma UndoneTo(start: State, s: State, s1: State, s': State, t: TxId)
    requires Reachable(start, s') && InPhase(s, t, true) && UndoneSoFar(OriginOf(start), s1, s', t)
    requires s1.log == s.log && s1.news == s.news && forall d :: Current(s1, d) == Current(s, d)
    requires s'.txns[t].phase == Undoing(0)
    ensures forall d :: RolledBackTo(OriginOf(start), s, t, d, Current(s', d))
  {
    var o := OriginOf(start);
    ReachableSafe(start, s');
    forall d ensures RolledBackTo(o, s, t, d, Current(s', d)) {
      assert OpenOn(o, s', t, d) <==> OpenOn(o, s, t, d);
      assert OpenOn(o, s1, t, d) <==> OpenOn(o, s, t, d);
      if OpenOn(o, s', t, d) {
        assert ValueOk(o, s', d);
        FullyUndone(o, s', t, d);
      }
    }
  }

  lemma PosInLog(start: State, s: State, t: TxId)
    requires Reachable(start, s) && t in s.txns && s.txns[t].phase.Undoing?
    ensures s.txns[t].phase.pos <= |s.log| && Base(OriginOf(start)) <= |s.log| == |s.news|
  {
    ReachableSafe(start, s);
    assert PhaseOk(OriginOf(start), s, t);
  }

  /** The transaction still owns the block of an update it is about to undo. */
  lemma UndoOwns(start: State, s: State, t: TxId)
    requires Reachable(start, s) && t in s.txns && s.txns[t].phase.Undoing? && 0 < s.txns[t].phase.pos <= |s.log|
    requires s.log[s.txns[t].phase.pos - 1].Update? && s.log[s.txns[t].phase.pos - 1].tx == t
    ensures Owns(s, t, s.log[s.txns[t].phase.pos - 1].cell.block)
  {
    var o := OriginOf(start);
    ReachableSafe(start, s);
    assert PhaseOk(o, s, t);
    var i := s.txns[t].phase.pos - 1;
    UndoneInTail(o, s, t, s.log[i].cell);
    assert Hit(s.log, i, {t}, s.log[i].cell);
    OpenOwns(o, s, t, s.log[i].cell);
  }

  /** An undo step changes only a cell that the transaction has open. */
  lemma UndoKeeps(start: State, s: State, t: TxId)
    requires Reachable(start, s) && Enabled(s, UndoOne(t))
    ensures var o, s' := OriginOf(start), Apply(s, UndoOne(t));
            && s'.log == s.log && s'.news == s.news && s'.order == s.order && Base(o) <= |s.log| == |s.news|
            && t in s'.txns && s'.txns[t].phase == Undoing(NextPos(s, t)) && NextPos(s, t) < s.txns[t].phase.pos
            && s'.txns == s.txns[t := s.txns[t].(phase := s'.txns[t].phase)]
            && forall d :: !OpenOn(o, s, t, d) ==> Current(s', d) == Current(s, d)
  {
    var o := OriginOf(start);
    ReachableSafe(start, s);
    UndoMoves(o, s, t);
    UndonePool(s, t);
    forall d | !OpenOn(o, s, t, d) ensures !UndoHits(s, t, d) {
      if UndoHits(s, t, d) {
        UndoneIsOpen(o, s, t, d);
      }
    }
  }

  /** A list of pinned blocks after one of them was unpinned once. */
  function Unpinned(pinned: map<BlockId, nat>, b: BlockId): map<BlockId, nat> {
    if b !in pinned then pinned
    else if pinned[b] > 1 then pinned[b := pinned[b] - 1] else pinned - {b}
  }

  lemma FlushSame(start: State, s: State, t: TxId, i: nat)
    requires Reachable(start, s) && i < |s.pool| && t in s.txns && !s.torn
    ensures SameButPins(s, Apply(s, FlushFrame(i)), t)
    ensures Apply(s, FlushFrame(i)).txns == s.txns
  {
    ReachableSafe(start, s);
    FlushedPool(s, i);
  }

  lemma FlushCleans(s: State, i: nat)
    requires i < |s.pool| && !s.torn
    ensures SameFrames(s, Apply(s, FlushFrame(i)))
    ensures s.pool[i].txn >= 0 ==> Apply(s, FlushFrame(i)).pool == s.pool[i := s.pool[i].(txn := -1)]
    ensures s.pool[i].txn < 0 ==> Apply(s, FlushFrame(i)) == s
  {
  }

  /** After flushing the first unpinned frame, it is still the first, and clean. */
  lemma FlushedChoice(s: State, i: nat, b: BlockId)
    requires !s.torn && i < |s.pool| && i == ChooseUnpinned(s.pool) && FindExisting(s.pool, b) < 0
    ensures var s' := Apply(s, FlushFrame(i));
            SameFrames(s, s') && ChooseUnpinned(s'.pool) == i && i < |s'.pool| && s'.pool[i].txn < 0
  {
    SameChoice(s.pool, Apply(s, FlushFrame(i)).pool, 0);
  }

  lemma PinSame(start: State, s: State, t: TxId, b: BlockId)
    requires Reachable(start, s) && Enabled(s, Pin(t, b))
    ensures SameButPins(s, DoPin(s, t, b), t) && b in DoPin(s, t, b).txns[t].pinned
  {
    ReachablePool(start, s);
    PinnedPool(s, t, b);
  }

  lemma UnpinSame(start: State, s: State, t: TxId, b: BlockId)
    requires Reachable(start, s) && t in s.txns
    ensures SameButPins(s, DoUnpin(s, t, b), t) && DoUnpin(s, t, b).txns[t].pinned == Unpinned(s.txns[t].pinned, b)
  {
    ReachablePool(start, s);
    UnpinnedPool(s, t, b);
    UnpinTxns(s, t, b);
  }

  lemma UnpinTxns(s: State, t: TxId, b: BlockId)
    requires t in s.txns
    ensures var s' := DoUnpin(s, t, b);
            && s'.log == s.log && s'.news == s.news && s'.order == s.order && s'.saved == s.saved && t in s'.txns
            && s'.txns[t].pinned == Unpinned(s.txns[t].pinned, b)
            && s'.txns == s.txns[t := s.txns[t].(pinned := s'.txns[t].pinned)]
  {
  }
}
