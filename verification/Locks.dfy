/** Block locks (tx/concurrency/lock_table.go, tx/concurrency/manager.go).

    The lock table keeps one signed count per block; each transaction's manager remembers which lock
    it holds.  A call that would wait is not enabled: waiting, timeouts and wake-ups are not modelled,
    a method answers false instead. */
module Locks {
  datatype BlockId = BlockId(file: string, number: int)
  datatype Mode = S | X

  type Table = map<BlockId, int>
  type Held = map<BlockId, Mode>
  type TxId = int

  function LockVal(table: Table, b: BlockId): int {
    if b in table then table[b] else 0
  }

  function TableSLock(table: Table, b: BlockId): Table {
    table[b := LockVal(table, b) + 1]
  }

  function TableXLock(table: Table, b: BlockId): Table {
    table[b := -1]
  }

  function TableUnlock(table: Table, b: BlockId): Table {
    if LockVal(table, b) > 1 then table[b := LockVal(table, b) - 1] else table - {b}
  }

  class LockTable {
    var locks: Table

    constructor ()
      ensures locks == map[]
    {
      locks := map[];
    }

    /** Granted iff no transaction holds the block exclusively. */
    method SLock(block: BlockId) returns (ok: bool)
      modifies this
      ensures ok <==> LockVal(old(locks), block) >= 0
      ensures locks == if ok then TableSLock(old(locks), block) else old(locks)
    {
      var exclusive := HasXLock(block);
      if exclusive {
        return false;
      }
      var val := GetLockVal(block);
      locks := locks[block := val + 1];
      ok := true;
    }

    /** Granted iff at most one shared lock is out: the caller is assumed to hold it. */
    method XLock(block: BlockId) returns (ok: bool)
      modifies this
      ensures ok <==> LockVal(old(locks), block) <= 1
      ensures locks == if ok then TableXLock(old(locks), block) else old(locks)
    {
      var others := HasOtherSLocks(block);
      if others {
        return false;
      }
      locks := locks[block := -1];
      ok := true;
    }

    method Unlock(block: BlockId)
      modifies this
      ensures locks == TableUnlock(old(locks), block)
    {
      var val := GetLockVal(block);
      if val > 1 {
        locks := locks[block := val - 1];
      } else {
        locks := locks - {block};
      }
    }

    method HasXLock(block: BlockId) returns (r: bool)
      ensures r <==> LockVal(locks, block) < 0
    {
      var val := GetLockVal(block);
      r := val < 0;
    }

    method HasOtherSLocks(block: BlockId) returns (r: bool)
      ensures r <==> LockVal(locks, block) > 1
    {
      var val := GetLockVal(block);
      r := val > 1;
    }

    method GetLockVal(block: BlockId) returns (val: int)
      ensures val == LockVal(locks, block)
    {
      val := if block in locks then locks[block] else 0;
    }
  }

  /** The table after every block of a set was unlocked once, in any order. */
  ghost function UnlockAll(table: Table, blocks: set<BlockId>): Table {
    map b | b in table.Keys && (b !in blocks || LockVal(table, b) > 1)
      :: if b in blocks then table[b] - 1 else table[b]
  }

  /** One transaction's locks. */
  class Manager {
    const lockTable: LockTable
    var locks: Held

    constructor (lockTable: LockTable)
      ensures this.lockTable == lockTable && locks == map[]
    {
      this.lockTable := lockTable;
      locks := map[];
    }

    /** Obtain at least a shared lock. */
    method SLock(block: BlockId) returns (ok: bool)
      modifies this, lockTable
      ensures block in old(locks) ==> ok && locks == old(locks) && lockTable.locks == old(lockTable.locks)
      ensures block !in old(locks) ==>
                && (ok <==> LockVal(old(lockTable.locks), block) >= 0)
                && (ok ==>
                      && locks == old(locks)[block := S]
                      && lockTable.locks == TableSLock(old(lockTable.locks), block))
                && (!ok ==> locks == old(locks) && lockTable.locks == old(lockTable.locks))
    {
      if block !in locks {
        var granted := lockTable.SLock(block);
        if !granted {
          return false;
        }
        locks := locks[block := S];
      }
      ok := true;
    }

    /** Obtain an exclusive lock: a shared one first, then the upgrade.  A refused upgrade leaves the
        shared lock in place. */
    method XLock(block: BlockId) returns (ok: bool)
      modifies this, lockTable
      ensures block in old(locks) && old(locks)[block] == X ==>
                ok && locks == old(locks) && lockTable.locks == old(lockTable.locks)
      ensures !(block in old(locks) && old(locks)[block] == X) ==>
                var shared := if block in old(locks) then old(lockTable.locks)
                    else TableSLock(old(lockTable.locks), block);
                var refused := block !in old(locks) && LockVal(old(lockTable.locks), block) < 0;
                && (ok <==> !refused && LockVal(shared, block) <= 1)
                && (ok ==> locks == old(locks)[block := X] && lockTable.locks == TableXLock(shared, block))
                && (!ok && refused ==> locks == old(locks) && lockTable.locks == old(lockTable.locks))
                && (!ok && !refused ==> lockTable.locks == shared)
                && (!ok && !refused ==> locks == if block in old(locks) then old(locks) else old(locks)[block := S])
    {
      var exclusive := HasXLock(block);
      if !exclusive {
        var shared := SLock(block);
        if !shared {
          return false;
        }
        var upgraded := lockTable.XLock(block);
        if !upgraded {
          return false;
        }
        locks := locks[block := X];
      }
      ok := true;
    }

    /** Give up every lock. */
    method Release()
      modifies this, lockTable
      ensures locks == map[]
      ensures lockTable.locks == UnlockAll(old(lockTable.locks), old(locks).Keys)
    {
      var todo := locks.Keys;
      ghost var done: set<BlockId> := {};
      while todo != {}
        invariant todo + done == old(locks).Keys && todo !! done
        invariant locks == old(locks)
        invariant lockTable.locks == UnlockAll(old(lockTable.locks), done)
        decreases |todo|
      {
        var block :| block in todo;
        UnlockOneMore(old(lockTable.locks), done, block);
        lockTable.Unlock(block);
        todo := todo - {block};
        done := done + {block};
      }
      locks := map[];
    }

    method HasXLock(block: BlockId) returns (r: bool)
      ensures r <==> block in locks && locks[block] == X
    {
      r := block in locks && locks[block] == X;
    }
  }

  lemma UnlockOneMore(table: Table, done: set<BlockId>, b: BlockId)
    requires b !in done
    ensures TableUnlock(UnlockAll(table, done), b) == UnlockAll(table, done + {b})
  {
  }
}
