/** Undo-only recovery (tx/recovery_manager.go): rollback of one transaction and restart recovery,
    over the log as a sequence of decoded records, oldest first, and a store of typed cells. */
module Recovery {
  import opened Keys
  import opened Locks

  datatype Cell = Cell(block: BlockId, offset: int)

  datatype Rec =
    | Checkpoint
    | Start(tx: TxId)
    | Commit(tx: TxId)
    | Rollback(tx: TxId)
    | Update(tx: TxId, cell: Cell, before: Value)

  type Store = map<Cell, Value>

  /** A cell never written reads as zero. */
  const ZERO := IntVal(0)

  function Get(store: Store, c: Cell): Value {
    if c in store then store[c] else ZERO
  }

  /** The transaction number of a record; a checkpoint answers a dummy. */
  function TxNumber(r: Rec): int {
    if r.Checkpoint? then -1 else r.tx
  }

  /** Undo restores the saved value of an update record and does nothing for the others. */
  function UndoRec(r: Rec, store: Store): Store {
    if r.Update? then store[r.cell := r.before] else store
  }

  /** doRollback over the newest n records, newest first. */
  function RollbackFrom(log: seq<Rec>, n: nat, t: TxId, store: Store): Store
    requires n <= |log|
  {
    if n == 0 then store
    else if TxNumber(log[n - 1]) != t then RollbackFrom(log, n - 1, t, store)
    else if log[n - 1].Start? then store
    else RollbackFrom(log, n - 1, t, UndoRec(log[n - 1], store))
  }

  /** doRecover over the oldest n records, newest first, knowing which transactions finished later. */
  function RecoverFrom(log: seq<Rec>, n: nat, finished: set<TxId>, store: Store): Store
    requires n <= |log|
  {
    if n == 0 || log[n - 1].Checkpoint? then store
    else if log[n - 1].Commit? || log[n - 1].Rollback? then RecoverFrom(log, n - 1, finished + {log[n - 1].tx}, store)
    else if log[n - 1].tx in finished then RecoverFrom(log, n - 1, finished, store)
    else RecoverFrom(log, n - 1, finished, UndoRec(log[n - 1], store))
  }

  function Recovered(log: seq<Rec>, store: Store): Store {
    RecoverFrom(log, |log|, {}, store)
  }

  function RolledBack(log: seq<Rec>, t: TxId, store: Store): Store {
    RollbackFrom(log, |log|, t, store)
  }

  /** The recovery manager of one transaction, over the cells its undo writes reach. */
  class RecoveryManager {
    const txNum: TxId
    var store: Store

    constructor (txNum: TxId, store: Store)
      ensures this.txNum == txNum && this.store == store
    {
      this.txNum := txNum;
      this.store := store;
    }

    method Undo(r: Rec)
      modifies this
      ensures store == UndoRec(r, old(store))
    {
      if r.Update? {
        store := store[r.cell := r.before];
      }
    }

    method DoRollback(log: seq<Rec>)
      modifies this
      ensures store == RolledBack(log, txNum, old(store))
    {
      var n := |log|;
      while n > 0
        invariant 0 <= n <= |log|
        invariant RollbackFrom(log, n, txNum, store) == RolledBack(log, txNum, old(store))
      {
        var logRecord := log[n - 1];
        if TxNumber(logRecord) == txNum {
          if logRecord.Start? {
            break;
          }
          Undo(logRecord);
        }
        n := n - 1;
      }
    }

    method DoRecover(log: seq<Rec>)
      modifies this
      ensures store == Recovered(log, old(store))
    {
      var finishedTransactions: seq<TxId> := [];
      var n := |log|;
      assert (set t | t in finishedTransactions) == {};
      while n > 0
        invariant 0 <= n <= |log|
        invariant RecoverFrom(log, n, (set t | t in finishedTransactions), store) == Recovered(log, old(store))
      {
        var logRecord := log[n - 1];
        if logRecord.Checkpoint? {
          return;
        }
        var done := Contains(finishedTransactions, logRecord.tx);
        if logRecord.Commit? || logRecord.Rollback? {
          assert (set t | t in finishedTransactions + [logRecord.tx]) ==
                   (set t | t in finishedTransactions) + {logRecord.tx};
          finishedTransactions := finishedTransactions + [logRecord.tx];
        } else if !done {
          Undo(logRecord);
        }
        n := n - 1;
      }
    }
  }

  method Contains(slice: seq<TxId>, element: TxId) returns (r: bool)
    ensures r <==> element in slice
  {
    for i := 0 to |slice|
      invariant element !in slice[..i]
    {
      if slice[i] == element {
        return true;
      }
    }
    return false;
  }

  /** A later record keeps recovery from undoing the updates of a transaction, or ends it. */
  predicate Shields(r: Rec, t: TxId) {
    r.Checkpoint? || (r.Commit? && r.tx == t) || (r.Rollback? && r.tx == t)
  }

  /** Record i is an update of cell c that recovery undoes. */
  ghost predicate Undone(log: seq<Rec>, i: int, c: Cell) {
    && 0 <= i < |log| && log[i].Update? && log[i].cell == c
    && forall j :: i < j < |log| ==> !Shields(log[j], log[i].tx)
  }

  ghost predicate FirstUndone(log: seq<Rec>, i: int, c: Cell) {
    Undone(log, i, c) && forall k :: 0 <= k < i ==> !Undone(log, k, c)
  }

  /** What recovery computes: a cell with undone updates gets the before-image of the oldest of them,
      every other cell keeps its value. */
  lemma RecoveryMeaning(log: seq<Rec>, store: Store, c: Cell)
    ensures forall i :: FirstUndone(log, i, c) ==> Get(Recovered(log, store), c) == log[i].before
    ensures (forall i :: !Undone(log, i, c)) ==> Get(Recovered(log, store), c) == Get(store, c)
  {
    RecoverPrefix(log, |log|, {}, store, c);
  }

  /** The invariant of the backward pass: finished holds the numbers of the later commit and
      rollback records, and no checkpoint came later. */
  ghost predicate Passed(log: seq<Rec>, n: nat, finished: set<TxId>)
    requires n <= |log|
  {
    && (forall j :: n <= j < |log| ==> !log[j].Checkpoint?)
    && (forall t :: t in finished <==> exists j :: n <= j < |log| && Shields(log[j], t))
  }

  lemma {:induction false} RecoverPrefix(log: seq<Rec>, n: nat, finished: set<TxId>, store: Store, c: Cell)
    requires n <= |log| && Passed(log, n, finished)
    ensures forall i :: 0 <= i < n && FirstUndone(log, i, c) ==>
              Get(RecoverFrom(log, n, finished, store), c) == log[i].before
    ensures (forall i :: 0 <= i < n ==> !Undone(log, i, c)) ==>
              Get(RecoverFrom(log, n, finished, store), c) == Get(store, c)
    decreases n
  {
    if n == 0 {
    } else if log[n - 1].Checkpoint? {
      forall i | 0 <= i < n ensures !Undone(log, i, c) {
        assert log[i].Update? && i < n - 1 ==> Shields(log[n - 1], log[i].tx);
      }
    } else {
      var r := log[n - 1];
      var finished' := if r.Commit? || r.Rollback? then finished + {r.tx} else finished;
      PassedStep(log, n, finished);
      var undone := !r.Commit? && !r.Rollback? && r.tx !in finished;
      var store' := if undone then UndoRec(r, store) else store;
      RecoverPrefix(log, n - 1, finished', store', c);
      assert Undone(log, n - 1, c) <==> undone && r.Update? && r.cell == c;
    }
  }

  lemma PassedStep(log: seq<Rec>, n: nat, finished: set<TxId>)
    requires 0 < n <= |log| && Passed(log, n, finished) && !log[n - 1].Checkpoint?
    ensures var r := log[n - 1];
            Passed(log, n - 1, if r.Commit? || r.Rollback? then finished + {r.tx} else finished)
  {
    var r := log[n - 1];
    var finished' := if r.Commit? || r.Rollback? then finished + {r.tx} else finished;
    forall t ensures t in finished' <==> exists j :: n - 1 <= j < |log| && Shields(log[j], t) {
      if t in finished {
        var j :| n <= j < |log| && Shields(log[j], t);
      }
      assert Shields(log[n - 1], t) <==> (r.Commit? || r.Rollback?) && r.tx == t;
    }
  }

  /** Recovery reads the store only where it undoes nothing: two stores that agree there are
      recovered to the same values.  A crash during recovery leaves such a store, whichever undo
      writes had reached the disk, so recovery can be restarted. */
  lemma RecoveryRestartable(log: seq<Rec>, store: Store, store': Store, c: Cell)
    requires (exists i :: Undone(log, i, c)) || Get(store', c) == Get(store, c)
    ensures Get(Recovered(log, store'), c) == Get(Recovered(log, store), c)
  {
    RecoveryMeaning(log, store, c);
    RecoveryMeaning(log, store', c);
    if i :| Undone(log, i, c) {
      var f := LeastUndone(log, i, c);
    }
  }

  lemma {:induction false} LeastUndone(log: seq<Rec>, i: int, c: Cell) returns (f: int)
    requires Undone(log, i, c)
    ensures FirstUndone(log, f, c) && f <= i
    decreases i
  {
    f := i;
    if k :| 0 <= k < i && Undone(log, k, c) {
      f := LeastUndone(log, k, c);
    }
  }

  /** The store when the backward pass has come down to record m. */
  function PartlyRecovered(log: seq<Rec>, n: nat, m: nat, finished: set<TxId>, store: Store): Store
    requires m <= n <= |log|
  {
    if n == m || log[n - 1].Checkpoint? then store
    else if log[n - 1].Commit? || log[n - 1].Rollback?
    then PartlyRecovered(log, n - 1, m, finished + {log[n - 1].tx}, store)
    else if log[n - 1].tx in finished then PartlyRecovered(log, n - 1, m, finished, store)
    else PartlyRecovered(log, n - 1, m, finished, UndoRec(log[n - 1], store))
  }

  lemma {:induction false} PartlyRecoveredOutside(log: seq<Rec>, n: nat, m: nat, finished: set<TxId>, store: Store,
        c: Cell)
    requires m <= n <= |log| && Passed(log, n, finished)
    requires forall i :: !Undone(log, i, c)
    ensures Get(PartlyRecovered(log, n, m, finished, store), c) == Get(store, c)
    decreases n
  {
    if n > m && !log[n - 1].Checkpoint? {
      var r := log[n - 1];
      PassedStep(log, n, finished);
      var finished' := if r.Commit? || r.Rollback? then finished + {r.tx} else finished;
      var undone := !r.Commit? && !r.Rollback? && r.tx !in finished;
      assert !Undone(log, n - 1, c);
      assert undone && r.Update? ==> r.cell != c;
      PartlyRecoveredOutside(log, n - 1, m, finished', if undone then UndoRec(r, store) else store, c);
    }
  }

  /** Stopping recovery after any prefix of its undo steps and starting over changes nothing, and
      recovering twice is recovering once (m = 0). */
  lemma RecoveryIdempotent(log: seq<Rec>, m: nat, store: Store, c: Cell)
    requires m <= |log|
    ensures Get(Recovered(log, PartlyRecovered(log, |log|, m, {}, store)), c) == Get(Recovered(log, store), c)
  {
    if forall i :: !Undone(log, i, c) {
      PartlyRecoveredOutside(log, |log|, m, {}, store, c);
    }
    RecoveryRestartable(log, store, PartlyRecovered(log, |log|, m, {}, store), c);
  }

  /** A recovery that is stopped after its last step is a whole recovery. */
  lemma {:induction false} FullyRecovered(log: seq<Rec>, n: nat, finished: set<TxId>, store: Store)
    requires n <= |log|
    ensures PartlyRecovered(log, n, 0, finished, store) == RecoverFrom(log, n, finished, store)
    decreases n
  {
    if n > 0 && !log[n - 1].Checkpoint? {
      var r := log[n - 1];
      var finished' := if r.Commit? || r.Rollback? then finished + {r.tx} else finished;
      var undone := !r.Commit? && !r.Rollback? && r.tx !in finished;
      FullyRecovered(log, n - 1, finished', if undone then UndoRec(r, store) else store);
    }
  }

  /** Record i is an update of cell c that rolling t back undoes. */
  ghost predicate UndoneBy(log: seq<Rec>, t: TxId, i: int, c: Cell) {
    && 0 <= i < |log| && log[i].Update? && log[i].tx == t && log[i].cell == c
    && forall j :: i < j < |log| ==> log[j] != Start(t)
  }

  ghost predicate FirstUndoneBy(log: seq<Rec>, t: TxId, i: int, c: Cell) {
    UndoneBy(log, t, i, c) && forall k :: 0 <= k < i ==> !UndoneBy(log, t, k, c)
  }

  /** What rollback computes: the before-image of the transaction's oldest update of each cell. */
  lemma RollbackMeaning(log: seq<Rec>, t: TxId, store: Store, c: Cell)
    ensures forall i :: FirstUndoneBy(log, t, i, c) ==> Get(RolledBack(log, t, store), c) == log[i].before
    ensures (forall i :: !UndoneBy(log, t, i, c)) ==> Get(RolledBack(log, t, store), c) == Get(store, c)
  {
    RollbackPrefix(log, |log|, t, store, c);
  }

  lemma {:induction false} RollbackPrefix(log: seq<Rec>, n: nat, t: TxId, store: Store, c: Cell)
    requires n <= |log| && forall j :: n <= j < |log| ==> log[j] != Start(t)
    ensures forall i :: 0 <= i < n && FirstUndoneBy(log, t, i, c) ==>
              Get(RollbackFrom(log, n, t, store), c) == log[i].before
    ensures (forall i :: 0 <= i < n ==> !UndoneBy(log, t, i, c)) ==>
              Get(RollbackFrom(log, n, t, store), c) == Get(store, c)
    decreases n
  {
    if n > 0 {
      var r := log[n - 1];
      if r == Start(t) {
      } else if TxNumber(r) != t {
        assert !UndoneBy(log, t, n - 1, c);
        RollbackPrefix(log, n - 1, t, store, c);
      } else {
        assert UndoneBy(log, t, n - 1, c) <==> r.Update? && r.cell == c;
        UndoRecGet(r, store, c);
        RollbackPrefix(log, n - 1, t, UndoRec(r, store), c);
      }
    }
  }

  lemma UndoRecGet(r: Rec, store: Store, c: Cell)
    ensures Get(UndoRec(r, store), c) == if r.Update? && r.cell == c then r.before else Get(store, c)
  {
  }

  lemma {:induction false} LeastUndoneBy(log: seq<Rec>, t: TxId, i: int, c: Cell) returns (f: int)
    requires UndoneBy(log, t, i, c)
    ensures FirstUndoneBy(log, t, f, c) && f <= i
    decreases i
  {
    f := i;
    if k :| 0 <= k < i && UndoneBy(log, t, k, c) {
      f := LeastUndoneBy(log, t, k, c);
    }
  }

  /** A logged write: the before-image goes to the log, then the cell is set. */
  datatype Write = Write(tx: TxId, cell: Cell, val: Value)

  function StoreAfter(ws: seq<Write>, store: Store): Store {
    if ws == [] then store
    else StoreAfter(ws[..|ws| - 1], store)[ws[|ws| - 1].cell := ws[|ws| - 1].val]
  }

  function LogOf(ws: seq<Write>, store: Store): (log: seq<Rec>)
    ensures |log| == |ws|
  {
    if ws == [] then []
    else
      var w := ws[|ws| - 1];
      LogOf(ws[..|ws| - 1], store) + [Update(w.tx, w.cell, Get(StoreAfter(ws[..|ws| - 1], store), w.cell))]
  }

  lemma {:induction false} LogOfAt(ws: seq<Write>, store: Store, i: nat)
    requires i < |ws|
    ensures LogOf(ws, store)[i] == Update(ws[i].tx, ws[i].cell, Get(StoreAfter(ws[..i], store), ws[i].cell))
    decreases |ws|
  {
    if i < |ws| - 1 {
      LogOfAt(ws[..|ws| - 1], store, i);
      assert ws[..|ws| - 1][..i] == ws[..i];
    }
  }

  ghost predicate WritesBy(ws: seq<Write>, t: TxId, i: int, c: Cell) {
    0 <= i < |ws| && ws[i].tx == t && ws[i].cell == c
  }

  ghost predicate FirstWriteBy(ws: seq<Write>, t: TxId, i: int, c: Cell) {
    WritesBy(ws, t, i, c) && forall k :: 0 <= k < i ==> !WritesBy(ws, t, k, c)
  }

  /** What a rollback of t should make of cell c after some writes: its value before t's first write of
      it, or what it was if t did not write it. */
  ghost predicate Restored(past: seq<Rec>, ws: seq<Write>, store: Store, t: TxId, c: Cell) {
    var after := Get(RolledBack(past + LogOf(ws, store), t, StoreAfter(ws, store)), c);
    && (forall i :: FirstWriteBy(ws, t, i, c) ==> after == Get(StoreAfter(ws[..i], store), c))
    && ((forall i :: !WritesBy(ws, t, i, c)) ==> after == Get(StoreAfter(ws, store), c))
  }

  /** Rollback restores a cell, for any writes of any transactions on top of an old log and any store,
      exactly when the old log holds no update of the cell that it undoes.  An earlier process leaves
      such updates: numbers start over with the process, and no start record stops the scan. */
  lemma RollbackRestoresIff(past: seq<Rec>, t: TxId, c: Cell)
    ensures (forall ws, store :: Restored(past, ws, store, t, c)) <==> (forall i :: !UndoneBy(past, t, i, c))
  {
    if i :| UndoneBy(past, t, i, c) {
      var store := RollbackHarms(past, t, i, c);
      assert !Restored(past, [], store, t, c);
    } else {
      forall ws, store ensures Restored(past, ws, store, t, c) {
        RollbackRestores(past, ws, store, t, c);
      }
    }
  }

  /** Where an old update is undone, even a transaction that wrote nothing changes the cell. */
  lemma RollbackHarms(past: seq<Rec>, t: TxId, i: int, c: Cell) returns (store: Store)
    requires UndoneBy(past, t, i, c)
    ensures !Restored(past, [], store, t, c)
  {
    var f := LeastUndoneBy(past, t, i, c);
    var other := if past[f].before == IntVal(0) then IntVal(1) else IntVal(0);
    store := map[c := other];
    assert past + LogOf([], store) == past;
    RollbackMeaning(past, t, store, c);
    assert forall k :: !WritesBy([], t, k, c);
  }

  lemma RollbackRestores(past: seq<Rec>, ws: seq<Write>, store: Store, t: TxId, c: Cell)
    requires forall i :: !UndoneBy(past, t, i, c)
    ensures Restored(past, ws, store, t, c)
  {
    var log := past + LogOf(ws, store);
    RollbackMeaning(log, t, StoreAfter(ws, store), c);
    forall i | FirstWriteBy(ws, t, i, c)
      ensures FirstUndoneBy(log, t, |past| + i, c) && log[|past| + i].before == Get(StoreAfter(ws[..i], store), c)
    {
      FirstWriteUndone(past, ws, store, t, i, c);
    }
    forall i | UndoneBy(log, t, i, c) ensures WritesBy(ws, t, i - |past|, c) {
      UndoneIsWrite(past, ws, store, t, i, c);
    }
  }

  lemma FirstWriteUndone(past: seq<Rec>, ws: seq<Write>, store: Store, t: TxId, i: nat, c: Cell)
    requires (forall k :: !UndoneBy(past, t, k, c)) && FirstWriteBy(ws, t, i, c)
    ensures var log := past + LogOf(ws, store);
            FirstUndoneBy(log, t, |past| + i, c) && log[|past| + i].before == Get(StoreAfter(ws[..i], store), c)
  {
    var log := past + LogOf(ws, store);
    LogOfAt(ws, store, i);
    UndoneWrites(past, ws, store, t, i, c);
    forall k | 0 <= k < |past| + i ensures !UndoneBy(log, t, k, c) {
      if UndoneBy(log, t, k, c) {
        UndoneIsWrite(past, ws, store, t, k, c);
      }
    }
  }

  lemma UndoneIsWrite(past: seq<Rec>, ws: seq<Write>, store: Store, t: TxId, k: int, c: Cell)
    requires forall i :: !UndoneBy(past, t, i, c)
    requires UndoneBy(past + LogOf(ws, store), t, k, c)
    ensures WritesBy(ws, t, k - |past|, c)
  {
    var log := past + LogOf(ws, store);
    if k < |past| {
      forall j | k < j < |past| ensures past[j] != Start(t) {
        assert log[j] == past[j];
      }
      assert UndoneBy(past, t, k, c);
    } else {
      UndoneWrites(past, ws, store, t, k - |past|, c);
    }
  }

  /** The updates a rollback undoes are the transaction's own writes. */
  lemma UndoneWrites(past: seq<Rec>, ws: seq<Write>, store: Store, t: TxId, i: int, c: Cell)
    ensures i >= 0 ==> (UndoneBy(past + LogOf(ws, store), t, |past| + i, c) <==> WritesBy(ws, t, i, c))
  {
    var log := past + LogOf(ws, store);
    if 0 <= i < |ws| {
      LogOfAt(ws, store, i);
      forall j | |past| + i < j < |log| ensures log[j] != Start(t) {
        LogOfAt(ws, store, j - |past|);
      }
    }
  }
}
