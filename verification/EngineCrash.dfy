/** Crash atomicity: a crash after any step of any run, followed by restart recovery, leaves in every
    cell the last committed value. */
module EngineCrash {
  import opened Options
  import opened Keys
  import opened Locks
  import opened Frames
  import opened Recovery
  import opened Engine
  import opened LockAgreement
  import opened EnginePool
  import opened EngineLog
  import opened EngineValues

  /** Write-ahead: the frame of an update whose record is not yet on disk is still dirty on behalf of
      its transaction and carries an LSN that will force the record out. */
  ghost predicate UnsavedHeld(o: Origin, s: State) {
    forall i :: Tail(s.log, Base(o), i) && s.log[i].Update? && i >= s.saved ==>
      var j := FindExisting(s.pool, s.log[i].cell.block);
      j >= 0 && s.pool[j].txn == s.log[i].tx && s.pool[j].lsn >= i + 1
  }

  /** Record i of the saved log is an update of c whose transaction has no last record there. */
  ghost predicate Unfinished(o: Origin, s: State, i: int, c: Cell) {
    Base(o) <= i < s.saved <= |s.log| && s.log[i].Update? && s.log[i].cell == c
        && !EndedIn(s.log, Base(o), s.saved, s.log[i].tx)
  }

  /** A cell that recovery will not touch holds its committed value on disk. */
  ghost predicate DiskOk(o: Origin, s: State, c: Cell)
    requires Base(o) <= s.saved <= |s.log| == |s.news|
  {
    (exists i :: Unfinished(o, s, i, c)) || DiskVal(s, c) == Wanted(o, s.log, s.news, s.saved, c)
  }

  ghost predicate CrashOk(o: Origin, s: State)
    requires Base(o) <= s.saved <= |s.log| == |s.news|
  {
    UnsavedHeld(o, s) && forall c :: DiskOk(o, s, c)
  }

  /** The committed value of a cell depends on nothing after the last record of its last writer. */
  lemma WantedUpTo(o: Origin, log: seq<Rec>, news: seq<Value>, m: nat, c: Cell)
    requires Base(o) <= m <= |log| == |news| && EndOnce(log, Base(o))
    requires forall i :: Tail(log, Base(o), i) && log[i].Update? && log[i].cell == c ==>
               i < m && EndedIn(log, Base(o), m, log[i].tx)
    ensures Wanted(o, log, news, m, c) == Wanted(o, log, news, |log|, c)
  {
    var early, late := CommittedTxs(log, Base(o), m), CommittedTxs(log, Base(o), |log|);
    forall k | Base(o) <= k < |log| ensures Hit(log, k, late, c) <==> k < m && Hit(log, k, early, c) {
      if Hit(log, k, late, c) {
        assert Tail(log, Base(o), k);
        CommittedEarly(log, Base(o), m, log[k].tx);
      }
    }
    var i, j := LastHit(log, Base(o), |log|, late, c), LastHit(log, Base(o), m, early, c);
    assert i >= Base(o) ==> Hit(log, i, late, c);
    assert j >= Base(o) ==> Hit(log, j, early, c);
    assert i == j;
  }

  lemma CommittedEarly(log: seq<Rec>, start: nat, m: nat, t: TxId)
    requires start <= m <= |log| && EndOnce(log, start) && EndedIn(log, start, m, t)
    requires t in CommittedTxs(log, start, |log|)
    ensures t in CommittedTxs(log, start, m)
  {
    var e :| start <= e < m && Ends(log, e, t);
    var j :| start <= j < |log| && log[j].Commit? && log[j].tx == t;
    assert TxNumber(log[j]) == t;
  }

  /** Nobody has a cell open whose every writer has ended. */
  lemma AllEnded(o: Origin, s: State, c: Cell)
    requires Good(o, s)
    requires forall i :: Tail(s.log, Base(o), i) && s.log[i].Update? && s.log[i].cell == c ==>
               EndedIn(s.log, Base(o), |s.log|, s.log[i].tx)
    ensures Current(s, c) == Wanted(o, s.log, s.news, |s.log|, c)
  {
    forall t ensures !OpenOn(o, s, t, c) {
      var i := LastHit(s.log, Base(o), |s.log|, {t}, c);
      assert i >= Base(o) ==> Hit(s.log, i, {t}, c) && Tail(s.log, Base(o), i);
      if Open(s, t) {
        assert PhaseOk(o, s, t);
      }
    }
    assert ValueOk(o, s, c);
  }

  /** Saving the whole log. */
  lemma SavedAll(o: Origin, s: State, s': State, c: Cell)
    requires Good(o, s) && UnsavedHeld(o, s) && DiskOk(o, s, c)
    requires s'.log == s.log && s'.news == s.news && s'.disk == s.disk && s'.saved == |s.log|
    ensures DiskOk(o, s', c)
  {
    if forall i :: !Unfinished(o, s', i, c) {
      forall i | Tail(s.log, Base(o), i) && s.log[i].Update? && s.log[i].cell == c
        ensures EndedIn(s.log, Base(o), |s.log|, s.log[i].tx) {
        assert !Unfinished(o, s', i, c);
      }
      AllEnded(o, s, c);
      var j := FindExisting(s.pool, c.block);
      if j >= 0 && s.pool[j].txn >= 0 {
        forall i | Tail(s.log, Base(o), i) && s.log[i].Update? && s.log[i].cell == c
          ensures i < s.saved && EndedIn(s.log, Base(o), s.saved, s.log[i].tx)
        {
          OwnerLater(o, s, i, j);
        }
        WantedUpTo(o, s.log, s.news, s.saved, c);
        assert forall i :: !Unfinished(o, s, i, c);
      }
    }
  }

  /** An ended writer of a block that is dirty again had its last record saved. */
  lemma OwnerLater(o: Origin, s: State, i: int, j: int)
    requires Good(o, s) && UnsavedHeld(o, s) && Tail(s.log, Base(o), i) && s.log[i].Update?
    requires EndedIn(s.log, Base(o), |s.log|, s.log[i].tx)
    requires j == FindExisting(s.pool, s.log[i].cell.block) && j >= 0 && s.pool[j].txn >= 0
    ensures i < s.saved && EndedIn(s.log, Base(o), s.saved, s.log[i].tx)
  {
    var t, u, b := s.log[i].tx, s.pool[j].txn, s.log[i].cell.block;
    assert Writer(s, u, b);
    assert PhaseOk(o, s, u);
    if Holding(s, t) && Owns(s, t, b) {
      Exclusive(s.table, HeldsOf(s), b, u, t);
    }
  }

  /** Writing a frame whose records are all saved. */
  lemma BlockWritten(o: Origin, s: State, s': State, j: nat, c: Cell)
    requires Good(o, s) && j < |s.pool| && s.pool[j].block == Some(c.block)
    requires s'.log == s.log && s'.news == s.news && s.saved <= s'.saved <= |s.log|
    requires forall i :: Tail(s.log, Base(o), i) && s.log[i].Update? && s.log[i].cell == c ==> i < s'.saved
    requires ReadBlock(s'.disk, c.block) == s.pool[j].data
    ensures DiskOk(o, s', c)
  {
    if forall i :: !Unfinished(o, s', i, c) {
      forall i | Tail(s.log, Base(o), i) && s.log[i].Update? && s.log[i].cell == c
        ensures EndedIn(s.log, Base(o), s'.saved, s.log[i].tx) && EndedIn(s.log, Base(o), |s.log|, s.log[i].tx)
      {
        assert !Unfinished(o, s', i, c);
        EndedWider(s.log, Base(o), s'.saved, Base(o), |s.log|, s.log[i].tx);
      }
      AllEnded(o, s, c);
      WantedUpTo(o, s.log, s.news, s'.saved, c);
      FoundIsThe(s.pool, c.block, j);
    }
  }

  lemma {:induction false} FlushFrameKept(o: Origin, s: State, j: nat)
    requires Good(o, s) && CrashOk(o, s) && Enabled(s, FlushFrame(j)) && s.pool[j].txn >= 0
    ensures Base(o) <= FlushedFrame(s, j).saved <= |s.log| && CrashOk(o, FlushedFrame(s, j))
  {
    var s' := FlushedFrame(s, j);
    var f := s.pool[j];
    var b := f.block.value;
    FoundIsThe(s.pool, b, j);
    assert forall i :: Tail(s.log, Base(o), i) && s.log[i].Update? && s.log[i].cell.block == b ==> i < s'.saved;
    FlushedUnsaved(o, s, j);
    forall c ensures DiskOk(o, s', c) {
      if c.block == b {
        BlockWritten(o, s, s', j, c);
      } else {
        if s'.saved != s.saved {
          SavedAll(o, s, s.(saved := |s.log|), c);
        }
        assert DiskOk(o, s.(saved := s'.saved), c);
        forall i ensures Unfinished(o, s', i, c) <==> Unfinished(o, s.(saved := s'.saved), i, c) { }
      }
    }
  }

  lemma FlushedUnsaved(o: Origin, s: State, j: nat)
    requires Good(o, s) && UnsavedHeld(o, s) && Enabled(s, FlushFrame(j)) && s.pool[j].txn >= 0
    ensures UnsavedHeld(o, FlushedFrame(s, j))
  {
    var s' := FlushedFrame(s, j);
    FoundIsThe(s.pool, s.pool[j].block.value, j);
    forall b ensures FindExisting(s'.pool, b) == FindExisting(s.pool, b) {
      FindUpdated(s.pool, j, s'.pool[j], b);
    }
  }

  /** Steps that write no block and save no record. */
  lemma SameDisk(o: Origin, s: State, s': State, c: Cell)
    requires Base(o) <= s.saved <= |s.log| == |s.news| && DiskOk(o, s, c)
    requires s'.disk == s.disk && s'.saved == s.saved
    requires (s'.log == s.log && s'.news == s.news) || (exists r, v :: s'.log == s.log + [r] && s'.news == s.news + [v])
    ensures DiskOk(o, s', c)
  {
    forall k, t ensures k < |s.log| ==> (Ends(s'.log, k, t) <==> Ends(s.log, k, t)) { }
    if i :| Unfinished(o, s, i, c) {
      assert Unfinished(o, s', i, c);
    } else if s'.log != s.log {
      var r, v :| s'.log == s.log + [r] && s'.news == s.news + [v];
      AppendFrame(o, s.log, s.news, r, v, s.saved, {}, c);
    }
  }

  /** Dirty frames stay where they are found, dirty for the same transaction, with no older LSN. */
  ghost predicate DirtyKept(s: State, s': State) {
    forall b :: FindExisting(s.pool, b) >= 0 && s.pool[FindExisting(s.pool, b)].txn >= 0 ==>
      && FindExisting(s'.pool, b) >= 0
      && s'.pool[FindExisting(s'.pool, b)].txn == s.pool[FindExisting(s.pool, b)].txn
      && s'.pool[FindExisting(s'.pool, b)].lsn >= s.pool[FindExisting(s.pool, b)].lsn
  }

  lemma PinKeepsDirty(s: State, t: TxId, b: BlockId)
    requires PoolOk(s) && Enabled(s, Pin(t, b)) && PoolOk(DoPin(s, t, b))
    ensures DirtyKept(s, DoPin(s, t, b))
  {
    var s' := DoPin(s, t, b);
    forall x | FindExisting(s.pool, x) >= 0 && s.pool[FindExisting(s.pool, x)].txn >= 0
      ensures FindExisting(s'.pool, x) == FindExisting(s.pool, x)
    {
      FoundIsThe(s'.pool, x, FindExisting(s.pool, x));
    }
  }

  lemma UnpinKeepsDirty(s: State, t: TxId, b: BlockId)
    requires PoolOk(s) && Enabled(s, Unpin(t, b)) && PoolOk(DoUnpin(s, t, b))
    ensures DirtyKept(s, DoUnpin(s, t, b))
  {
    var s' := DoUnpin(s, t, b);
    forall x | FindExisting(s.pool, x) >= 0 ensures FindExisting(s'.pool, x) == FindExisting(s.pool, x) {
      FoundIsThe(s'.pool, x, FindExisting(s.pool, x));
    }
  }

  lemma StoreKeepsDirty(s: State, s': State, t: TxId, c: Cell, v: Value, lsn: int)
    requires PoolOk(s) && Owns(s, t, c.block) && FindExisting(s.pool, c.block) >= 0
    requires s'.pool == Stored(s, t, c, v, lsn).pool
    requires lsn < 0 || lsn >= s.pool[FindExisting(s.pool, c.block)].lsn
    ensures DirtyKept(s, s')
  {
    var i := FindExisting(s.pool, c.block);
    if s.pool[i].txn >= 0 {
      OwnFrame(s, t, c.block, i);
    }
    forall x ensures FindExisting(s'.pool, x) == FindExisting(s.pool, x) {
      FindUpdated(s.pool, i, s'.pool[i], x);
    }
  }

  lemma UnsavedKept(o: Origin, s: State, s': State)
    requires LogStateOk(o, s) && UnsavedHeld(o, s) && DirtyKept(s, s')
    requires s.saved <= s'.saved
    requires s'.log == s.log || exists r :: s'.log == s.log + [r] && !r.Update?
    ensures UnsavedHeld(o, s')
  {
    forall i | Tail(s'.log, Base(o), i) && s'.log[i].Update? && i >= s'.saved
      ensures var j := FindExisting(s'.pool, s'.log[i].cell.block);
              j >= 0 && s'.pool[j].txn == s'.log[i].tx && s'.pool[j].lsn >= i + 1
    {
      assert Tail(s.log, Base(o), i);
    }
  }

  /** LSNs in frames are those of records in the log. */
  ghost predicate LsnsOk(s: State) {
    forall j :: 0 <= j < |s.pool| ==> s.pool[j].lsn <= |s.log|
  }

  lemma LsnsKept(s: State, step: Step)
    requires LsnsOk(s) && Enabled(s, step)
    ensures LsnsOk(Apply(s, step))
  {
  }

  lemma WriteUnsaved(o: Origin, s: State, t: TxId, c: Cell, v: Value)
    requires PoolOk(s) && LogStateOk(o, s) && LsnsOk(s) && UnsavedHeld(o, s) && Enabled(s, WriteCell(t, c, v))
    ensures UnsavedHeld(o, DoWrite(s, t, c, v))
  {
    var s' := DoWrite(s, t, c, v);
    var i := FindExisting(s.pool, c.block);
    assert s'.pool == Stored(s, t, c, v, |s.log| + 1).pool;
    StoreKeepsDirty(s, s', t, c, v, |s.log| + 1);
    UnsavedKept(o, s, s'.(log := s.log));
    FindUpdated(s.pool, i, s'.pool[i], c.block);
    forall k | Tail(s'.log, Base(o), k) && s'.log[k].Update? && k >= s'.saved
      ensures var j := FindExisting(s'.pool, s'.log[k].cell.block);
              j >= 0 && s'.pool[j].txn == s'.log[k].tx && s'.pool[j].lsn >= k + 1
    {
      assert k < |s.log| ==> Tail(s.log, Base(o), k);
    }
  }

  lemma UndoUnsaved(o: Origin, s: State, t: TxId)
    requires PoolOk(s) && LogStateOk(o, s) && UnsavedHeld(o, s) && Enabled(s, UndoOne(t))
    ensures UnsavedHeld(o, DoUndo(s, t))
  {
    var s' := DoUndo(s, t);
    var r := s.log[s.txns[t].phase.pos - 1];
    if TxNumber(r) == t && r.Update? {
      assert s'.pool == Stored(s, t, r.cell, r.before, -1).pool;
      StoreKeepsDirty(s, s', t, r.cell, r.before, -1);
    }
    UnsavedKept(o, s, s');
  }

  lemma PinsUnsaved(o: Origin, s: State, step: Step)
    requires PoolOk(s) && LogStateOk(o, s) && UnsavedHeld(o, s) && Enabled(s, step) && PoolOk(Apply(s, step))
    requires step.Pin? || step.Unpin?
    ensures UnsavedHeld(o, Apply(s, step))
  {
    if step.Pin? {
      PinKeepsDirty(s, step.t, step.b);
    } else {
      UnpinKeepsDirty(s, step.t, step.b);
    }
    UnsavedKept(o, s, Apply(s, step));
  }

  /** Steps that touch neither frames nor disk. */
  ghost predicate SamePool(s: State, s': State) {
    s'.pool == s.pool && s'.disk == s.disk && s.saved <= s'.saved
  }

  /** Everything a run keeps true, with what a crash needs. */
  ghost predicate Safe(o: Origin, s: State) {
    Good(o, s) && LsnsOk(s) && CrashOk(o, s)
  }

  lemma TxnOnlySafe(o: Origin, s: State, step: Step)
    requires Safe(o, s) && Enabled(s, step) && TxnOnly(step) && LogStateOk(o, Apply(s, step))
    ensures CrashOk(o, Apply(s, step))
  {
    var s' := Apply(s, step);
    TxnOnlyFrame(s, step);
    UnsavedKept(o, s, s');
    forall c ensures DiskOk(o, s', c) {
      SameDisk(o, s, s', c);
    }
  }

  lemma EndingSafe(o: Origin, s: State, t: TxId, step: Step)
    requires Safe(o, s) && Enabled(s, step) && (step == AppendCommit(t) || step == AppendRollback(t))
    requires LogStateOk(o, Apply(s, step))
    ensures CrashOk(o, Apply(s, step))
  {
    var s' := Apply(s, step);
    var r := if step.AppendCommit? then Commit(t) else Rollback(t);
    assert s'.log == s.log + [r] && s'.news == s.news + [ZERO];
    UnsavedKept(o, s, s');
    forall c ensures DiskOk(o, s', c) {
      SameDisk(o, s, s', c);
    }
  }

  lemma SavingSafe(o: Origin, s: State, step: Step)
    requires Safe(o, s) && Enabled(s, step) && (step.FlushLog? || step.BeginRollback?)
    requires LogStateOk(o, Apply(s, step))
    ensures CrashOk(o, Apply(s, step))
  {
    var s' := Apply(s, step);
    assert SamePool(s, s') && s'.log == s.log && s'.news == s.news;
    UnsavedKept(o, s, s');
    forall c ensures DiskOk(o, s', c) {
      if s'.saved == s.saved {
        SameDisk(o, s, s', c);
      } else {
        SavedAll(o, s, s', c);
      }
    }
  }

  lemma CellSafe(o: Origin, s: State, step: Step)
    requires Safe(o, s) && Enabled(s, step) && (step.WriteCell? || step.UndoOne?)
    requires LogStateOk(o, Apply(s, step))
    ensures CrashOk(o, Apply(s, step))
  {
    var s' := Apply(s, step);
    if step.WriteCell? {
      WriteUnsaved(o, s, step.t, step.c, step.v);
      assert s'.log == s.log + [Update(step.t, step.c, Current(s, step.c))] && s'.news == s.news + [step.v];
    } else {
      UndoUnsaved(o, s, step.t);
    }
    forall c ensures DiskOk(o, s', c) {
      SameDisk(o, s, s', c);
    }
  }

  lemma PinsSafe(o: Origin, s: State, step: Step)
    requires Safe(o, s) && Enabled(s, step) && (step.Pin? || step.Unpin?)
    requires LogStateOk(o, Apply(s, step)) && PoolOk(Apply(s, step))
    ensures CrashOk(o, Apply(s, step))
  {
    var s' := Apply(s, step);
    PinsUnsaved(o, s, step);
    forall c ensures DiskOk(o, s', c) {
      SameDisk(o, s, s', c);
    }
  }

  /** Every step keeps a crash harmless. */
  lemma SafeKept(o: Origin, s: State, step: Step)
    requires Safe(o, s) && Enabled(s, step) && Fresh(o, step)
    ensures Safe(o, Apply(s, step))
  {
    GoodKept(o, s, step);
    LsnsKept(s, step);
    if TxnOnly(step) {
      TxnOnlySafe(o, s, step);
    } else if step.AppendCommit? || step.AppendRollback? {
      EndingSafe(o, s, step.t, step);
    } else if step.FlushLog? || step.BeginRollback? {
      SavingSafe(o, s, step);
    } else if step.WriteCell? || step.UndoOne? {
      CellSafe(o, s, step);
    } else if step.Pin? || step.Unpin? {
      PinsSafe(o, s, step);
    } else if s.pool[step.i].txn >= 0 {
      FlushFrameKept(o, s, step.i);
    }
  }

  /** The rollbacks of a run start only under numbers that the old log lacks. */
  ghost predicate FreshRun(o: Origin, steps: seq<Step>) {
    forall k :: 0 <= k < |steps| ==> Fresh(o, steps[k])
  }

  lemma {:induction false} SafeAlways(o: Origin, s: State, steps: seq<Step>, s': State)
    requires Safe(o, s) && Run(s, steps, s') && FreshRun(o, steps)
    ensures Safe(o, s')
    decreases |steps|
  {
    if steps != [] {
      SafeKept(o, s, steps[0]);
      SafeAlways(o, Apply(s, steps[0]), steps[1..], s');
    }
  }

  lemma InitSafe(o: Origin, s: State)
    requires Init(s) && o == Origin(s.log, s.disk)
    ensures Safe(o, s)
  {
    InitGood(o, s);
  }

  /** What decoding makes of the log: every rollback record reads as transaction 3's, because its
      decoder takes the operation code for the transaction number. */
  function DecodedRec(r: Rec): Rec {
    if r.Rollback? then Rollback(3) else r
  }

  function Decoded(log: seq<Rec>): (d: seq<Rec>)
    ensures |d| == |log| && forall i :: 0 <= i < |log| ==> d[i] == DecodedRec(log[i])
  {
    if log == [] then [] else Decoded(log[..|log| - 1]) + [DecodedRec(log[|log| - 1])]
  }

  /** Every process first recovers and writes a checkpoint. */
  predicate StartsClean(o: Origin) {
    o.past == [] || o.past[|o.past| - 1].Checkpoint?
  }

  predicate UpdateAt(log: seq<Rec>, i: int, c: Cell) {
    0 <= i < |log| && log[i].Update? && log[i].cell == c
  }

  /** An update of c by a transaction other than 3 whose rollback record was saved. */
  ghost predicate Reverted(o: Origin, s: State, i: int, c: Cell) {
    && Base(o) <= i < s.saved <= |s.log| && UpdateAt(s.log, i, c) && s.log[i].tx != 3
    && exists j :: i < j < s.saved && s.log[j] == Rollback(s.log[i].tx)
  }

  predicate RollbackAfter(log: seq<Rec>, i: int, n: int) {
    exists j :: i < j < n && 0 <= j < |log| && log[j].Rollback?
  }

  /** An update of c by transaction 3, unfinished, with a rollback record behind it, whoever's: read as
      transaction 3's, it keeps recovery from undoing the update. */
  ghost predicate Hidden(o: Origin, s: State, i: int, c: Cell) {
    Unfinished(o, s, i, c) && s.log[i].tx == 3 && RollbackAfter(s.log, i, s.saved)
  }

  /** When misread rollback records do no harm to a cell: no update of it that was rolled back is
      followed by a committed one, and before every hidden update of it one was rolled back. */
  ghost predicate Recoverable(o: Origin, s: State, c: Cell) {
    && s.saved <= |s.log|
    && (forall i, k :: Reverted(o, s, i, c) && i < k < s.saved ==>
        !Hit(s.log, k, CommittedTxs(s.log, Base(o), s.saved), c))
    && (forall i :: Hidden(o, s, i, c) ==> exists j :: j < i && Reverted(o, s, j, c))
  }

  /** An update of c that recovery undoes. */
  ghost predicate Resets(o: Origin, s: State, i: int, c: Cell) {
    && Base(o) <= i < s.saved <= |s.log| && UpdateAt(s.log, i, c)
    && s.log[i].tx !in CommittedTxs(s.log, Base(o), s.saved)
    && (s.log[i].tx == 3 ==> !RollbackAfter(s.log, i, s.saved))
  }

  lemma ResetsIsUndone(o: Origin, s: State, i: int, c: Cell)
    requires LogStateOk(o, s) && StartsClean(o)
    ensures Undone(Decoded(s.log[..s.saved]), i, c) <==> Resets(o, s, i, c)
  {
    var saved := s.log[..s.saved];
    var d := Decoded(saved);
    if 0 <= i < s.saved && UpdateAt(s.log, i, c) {
      var t := s.log[i].tx;
      if i < Base(o) {
        assert Shields(d[Base(o) - 1], t);
      } else {
        forall j | i < j < s.saved
          ensures Shields(d[j], t) <==> s.log[j] == Commit(t) || (t == 3 && s.log[j].Rollback?)
        {
          assert Tail(s.log, Base(o), j);
        }
        CommitLater(o, s, i);
      }
    }
  }

  /** A transaction that updates something commits behind it, if at all. */
  lemma CommitLater(o: Origin, s: State, i: int)
    requires LogStateOk(o, s) && Base(o) <= i < s.saved && s.log[i].Update?
    ensures s.log[i].tx in CommittedTxs(s.log, Base(o), s.saved) <==>
              exists j :: i < j < s.saved && s.log[j] == Commit(s.log[i].tx)
  {
    var t := s.log[i].tx;
    if t in CommittedTxs(s.log, Base(o), s.saved) {
      var j :| Base(o) <= j < s.saved && s.log[j].Commit? && s.log[j].tx == t;
      assert Ends(s.log, j, t) && TxNumber(s.log[i]) == t;
    }
  }

  /** A transaction whose update is neither committed nor unfinished was rolled back. */
  lemma EndedHow(o: Origin, s: State, i: int, c: Cell)
    requires LogStateOk(o, s) && Base(o) <= i < s.saved && UpdateAt(s.log, i, c)
    requires s.log[i].tx !in CommittedTxs(s.log, Base(o), s.saved) && !Unfinished(o, s, i, c)
    ensures exists j :: i < j < s.saved && s.log[j] == Rollback(s.log[i].tx)
  {
    var t := s.log[i].tx;
    var j :| Base(o) <= j < s.saved && Ends(s.log, j, t);
    assert TxNumber(s.log[i]) == t;
  }

  /** A rolled-back transaction did not commit. */
  lemma RevertedResets(o: Origin, s: State, j: int, c: Cell)
    requires LogStateOk(o, s) && Reverted(o, s, j, c)
    ensures Resets(o, s, j, c)
  {
    var t := s.log[j].tx;
    var e :| j < e < s.saved && s.log[e] == Rollback(t);
    if t in CommittedTxs(s.log, Base(o), s.saved) {
      var k :| Base(o) <= k < s.saved && s.log[k].Commit? && s.log[k].tx == t;
      assert TxNumber(s.log[e]) == TxNumber(s.log[k]) == t;
      assert k < e ==> Ends(s.log, k, t);
      assert k > e ==> Ends(s.log, e, t);
    }
  }

  /** What recovery makes of a cell after a crash, if it can read the log at all: it cannot while the
      log is torn. */
  ghost predicate RecoversTo(s: State, store: Store, c: Cell, v: Value) {
    s.saved <= |s.log| && !s.torn && Get(Recovered(Decoded(s.log[..s.saved]), store), c) == v
  }

  /** Crash atomicity.  After a crash in any reachable state in which the log is not torn, recovering the
      store that the disk blocks hold from the saved log leaves in a cell, unless misread rollback records
      harm it, the last value written by a transaction whose commit record was saved, or the value the
      process started with. */
  lemma CrashAtomic(o: Origin, s: State, store: Store, c: Cell)
    requires Safe(o, s) && StartsClean(o) && !s.torn && Recoverable(o, s, c) && Get(store, c) == DiskVal(s, c)
    ensures RecoversTo(s, store, c, Wanted(o, s.log, s.news, s.saved, c))
  {
    var d := Decoded(s.log[..s.saved]);
    forall i ensures Undone(d, i, c) <==> Resets(o, s, i, c) {
      ResetsIsUndone(o, s, i, c);
    }
    RecoveryMeaning(d, store, c);
    if i :| Undone(d, i, c) {
      var f := LeastUndone(d, i, c);
      FirstReset(o, s, f, c);
    } else {
      forall i ensures !Unfinished(o, s, i, c) {
        if Unfinished(o, s, i, c) {
          UnfinishedFound(o, s, i, c);
        }
      }
      assert DiskOk(o, s, c);
    }
  }

  /** An unfinished update of a recoverable cell is undone, or an earlier one of the cell is. */
  lemma UnfinishedFound(o: Origin, s: State, i: int, c: Cell)
    requires LogStateOk(o, s) && Recoverable(o, s, c) && Unfinished(o, s, i, c)
    ensures exists j :: Resets(o, s, j, c) && j <= i
  {
    if s.log[i].tx in CommittedTxs(s.log, Base(o), s.saved) {
      var k :| Base(o) <= k < s.saved && s.log[k].Commit? && s.log[k].tx == s.log[i].tx;
      assert Ends(s.log, k, s.log[i].tx);
    }
    if !Resets(o, s, i, c) {
      assert Hidden(o, s, i, c);
      var j :| j < i && Reverted(o, s, j, c);
      RevertedResets(o, s, j, c);
    }
  }

  /** The before-image of the first update that recovery undoes is the committed value. */
  lemma FirstReset(o: Origin, s: State, f: int, c: Cell)
    requires LogStateOk(o, s) && Recoverable(o, s, c) && Resets(o, s, f, c) && forall k :: Resets(o, s, k, c) ==> k >= f
    ensures s.log[f].before == Wanted(o, s.log, s.news, s.saved, c)
  {
    var t := s.log[f].tx;
    FirstOfItsOwn(o, s, f, c);
    assert Tail(s.log, Base(o), f);
    forall k | f < k < s.saved ensures !Hit(s.log, k, CommittedTxs(s.log, Base(o), s.saved), c) {
      if Hit(s.log, k, CommittedTxs(s.log, Base(o), s.saved), c) {
        EndedBetween(o, s, f, k, c);
      }
    }
    WantedBack(o, s.log, s.news, f, s.saved, c);
  }

  /** A committed update behind one that recovery undoes shows that the latter was rolled back. */
  lemma EndedBetween(o: Origin, s: State, f: int, k: int, c: Cell)
    requires LogStateOk(o, s) && Resets(o, s, f, c) && f < k < s.saved
    requires Hit(s.log, k, CommittedTxs(s.log, Base(o), s.saved), c)
    ensures Reverted(o, s, f, c)
  {
    var t, u := s.log[f].tx, s.log[k].tx;
    assert Hit(s.log, f, {t}, c) && Hit(s.log, k, {u}, c) && t != u;
    var e :| f + 1 <= e < k && Ends(s.log, e, t);
    assert s.log[e] == Rollback(t);
    assert t == 3 ==> RollbackAfter(s.log, f, s.saved);
  }

  /** The first update that recovery undoes is its transaction's first of the cell. */
  lemma FirstOfItsOwn(o: Origin, s: State, f: int, c: Cell)
    requires LogStateOk(o, s) && Recoverable(o, s, c) && Resets(o, s, f, c) && forall k :: Resets(o, s, k, c) ==> k >= f
    ensures NextHit(s.log, Base(o), {s.log[f].tx}, c) == f
  {
    var t := s.log[f].tx;
    var g := NextHit(s.log, Base(o), {t}, c);
    assert Hit(s.log, f, {t}, c);
    if g < f {
      assert !Resets(o, s, g, c);
      assert t == 3 && RollbackAfter(s.log, g, s.saved);
      if !Unfinished(o, s, g, c) {
        EndedHow(o, s, f, c);
      }
      assert Hidden(o, s, g, c);
      var j :| j < g && Reverted(o, s, j, c);
      RevertedResets(o, s, j, c);
    }
  }

  /** The committed value is unchanged since an uncommitted update that no committed one follows. */
  lemma WantedBack(o: Origin, log: seq<Rec>, news: seq<Value>, f: nat, n: nat, c: Cell)
    requires LogOk(o, log, news) && Base(o) <= f < n <= |log| && UpdateAt(log, f, c)
    requires log[f].tx !in CommittedTxs(log, Base(o), n)
    requires forall k :: f < k < n ==> !Hit(log, k, CommittedTxs(log, Base(o), n), c)
    ensures Wanted(o, log, news, f, c) == Wanted(o, log, news, n, c)
  {
    var early, late := CommittedTxs(log, Base(o), f), CommittedTxs(log, Base(o), n);
    forall k | Base(o) <= k < n ensures Hit(log, k, late, c) <==> k < f && Hit(log, k, early, c) {
      if Hit(log, k, late, c) {
        assert k != f;
        CommittedBefore(o, log, news, f, n, c, k);
      }
    }
    var i, j := LastHit(log, Base(o), n, late, c), LastHit(log, Base(o), f, early, c);
    assert i >= Base(o) ==> Hit(log, i, late, c);
    assert j >= Base(o) ==> Hit(log, j, early, c);
    assert i == j;
  }

  lemma CommittedBefore(o: Origin, log: seq<Rec>, news: seq<Value>, f: nat, n: nat, c: Cell, k: nat)
    requires LogOk(o, log, news) && Base(o) <= k < f < n <= |log| && UpdateAt(log, f, c)
    requires Hit(log, k, CommittedTxs(log, Base(o), n), c) && log[f].tx !in CommittedTxs(log, Base(o), n)
    ensures log[k].tx in CommittedTxs(log, Base(o), f)
  {
    var u := log[k].tx;
    assert Hit(log, k, {u}, c) && Hit(log, f, {log[f].tx}, c) && u != log[f].tx;
    assert EndedIn(log, k + 1, f, u);
    var e :| k + 1 <= e < f && Ends(log, e, u);
    var j :| Base(o) <= j < n && log[j].Commit? && log[j].tx == u;
    assert TxNumber(log[j]) == u;
  }

  /** The same for whole runs, from any start. */
  lemma CrashAtomicAlways(o: Origin, s: State, steps: seq<Step>, s': State, store: Store, c: Cell)
    requires Init(s) && o == Origin(s.log, s.disk) && StartsClean(o) && Run(s, steps, s') && FreshRun(o, steps)
    requires !s'.torn && Recoverable(o, s', c)
    requires Get(store, c) == DiskVal(s', c)
    ensures Base(o) <= s'.saved <= |s'.log| == |s'.news|
    ensures RecoversTo(s', store, c, Wanted(o, s'.log, s'.news, s'.saved, c))
  {
    InitSafe(o, s);
    SafeAlways(o, s, steps, s');
    CrashAtomic(o, s', store, c);
  }

  /** Force: a commit record on disk means that the transaction's updates are on disk, each until a
      later update of its cell; none of its records is unsaved and none of its frames is dirty. */
  lemma CommitForces(o: Origin, s: State, t: TxId, i: int, c: Cell)
    requires Safe(o, s) && t in CommittedTxs(s.log, Base(o), s.saved)
    requires Base(o) <= i && Hit(s.log, i, {t}, c)
    ensures i < s.saved && forall j :: 0 <= j < |s.pool| ==> s.pool[j].txn != t
    ensures (forall k :: i < k < s.saved && s.log[k].Update? ==> s.log[k].cell != c) ==> DiskVal(s, c) == s.news[i]
  {
    var e :| Base(o) <= e < s.saved && s.log[e].Commit? && s.log[e].tx == t;
    assert Ends(s.log, e, t);
    assert TxNumber(s.log[i]) == t;
    NoDirtyFrame(o, s, t, e);
    if forall k :: i < k < s.saved && s.log[k].Update? ==> s.log[k].cell != c {
      forall k ensures !Unfinished(o, s, k, c) {
        if Base(o) <= k < i && s.log[k].Update? && s.log[k].cell == c && s.log[k].tx != t {
          assert Hit(s.log, k, {s.log[k].tx}, c);
          assert EndedIn(s.log, k + 1, i, s.log[k].tx);
          EndedWider(s.log, k + 1, i, Base(o), s.saved, s.log[k].tx);
        }
      }
      assert DiskOk(o, s, c);
      assert Hit(s.log, i, CommittedTxs(s.log, Base(o), s.saved), c);
      assert LastHit(s.log, Base(o), s.saved, CommittedTxs(s.log, Base(o), s.saved), c) == i;
    }
  }

  lemma NoDirtyFrame(o: Origin, s: State, t: TxId, e: int)
    requires Good(o, s) && Base(o) <= e && Ends(s.log, e, t)
    ensures forall j :: 0 <= j < |s.pool| ==> s.pool[j].txn != t
  {
    assert EndedIn(s.log, Base(o), |s.log|, t);
    assert TxNumber(s.log[e]) > 0 by { assert Tail(s.log, Base(o), e); }
    forall j | 0 <= j < |s.pool| ensures s.pool[j].txn != t {
      var u := s.pool[j].txn;
      if u >= 0 {
        assert Writer(s, u, s.pool[j].block.value);
        assert PhaseOk(o, s, u);
      }
    }
  }
}
