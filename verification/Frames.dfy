/** Buffer pool frames (buffer/buffer.go, buffer/manager.go, buffer/naive_replacement_strategy.go) as
    values: what a buffer holds, and the searches the pool makes.  D is the contents of a block. */
module Frames {
  import opened Options
  import opened Locks

  /** A buffer: the block it holds, its contents, its pin count, and the last modifying transaction
      (-1 when clean) with the LSN of its newest log record. */
  datatype Frame<D> = Frame(block: Option<BlockId>, data: D, pins: int, txn: int, lsn: int)

  /** SetModified: an unlogged change (negative LSN) keeps the newest LSN. */
  function Modified<D>(f: Frame<D>, txn: int, lsn: int): Frame<D> {
    f.(txn := txn, lsn := if lsn >= 0 then lsn else f.lsn)
  }

  /** Flushing the log up to an LSN: saved is the newest saved LSN, latest the newest one. */
  function LogFlushed(saved: nat, lsn: int, latest: nat): nat {
    if lsn >= saved then latest else saved
  }

  /** The first frame holding a block, or -1. */
  function FindFrom<D>(pool: seq<Frame<D>>, b: BlockId, i: nat): (r: int)
    requires i <= |pool|
    ensures -1 <= r < |pool|
    ensures r >= 0 ==> i <= r && pool[r].block == Some(b)
    ensures r < 0 ==> forall j :: i <= j < |pool| ==> pool[j].block != Some(b)
    decreases |pool| - i
  {
    if i == |pool| then -1 else if pool[i].block == Some(b) then i else FindFrom(pool, b, i + 1)
  }

  function FindExisting<D>(pool: seq<Frame<D>>, b: BlockId): int {
    FindFrom(pool, b, 0)
  }

  /** The first unpinned frame, or -1. */
  function ChooseFrom<D>(pool: seq<Frame<D>>, i: nat): (r: int)
    requires i <= |pool|
    ensures -1 <= r < |pool|
    ensures r >= 0 ==> i <= r && pool[r].pins <= 0
    ensures r < 0 ==> forall j :: i <= j < |pool| ==> pool[j].pins > 0
    decreases |pool| - i
  {
    if i == |pool| then -1 else if pool[i].pins <= 0 then i else ChooseFrom(pool, i + 1)
  }

  function ChooseUnpinned<D>(pool: seq<Frame<D>>): int {
    ChooseFrom(pool, 0)
  }

  /** Both searches take the first frame there is. */
  lemma {:induction false} ChosenIsFirst<D>(pool: seq<Frame<D>>, i: nat)
    requires i <= |pool|
    ensures forall j :: i <= j < |pool| && pool[j].pins <= 0 ==> 0 <= ChooseFrom(pool, i) <= j
    decreases |pool| - i
  {
    if i < |pool| {
      ChosenIsFirst(pool, i + 1);
    }
  }

  lemma {:induction false} FoundIsFirst<D>(pool: seq<Frame<D>>, b: BlockId, i: nat)
    requires i <= |pool|
    ensures forall j :: i <= j < |pool| && pool[j].block == Some(b) ==> 0 <= FindFrom(pool, b, i) <= j
    decreases |pool| - i
  {
    if i < |pool| {
      FoundIsFirst(pool, b, i + 1);
    }
  }

  /** No block is held by two frames. */
  ghost predicate NoDuplicates<D>(pool: seq<Frame<D>>) {
    forall i, j :: 0 <= i < j < |pool| && pool[i].block.Some? ==> pool[i].block != pool[j].block
  }

  lemma FoundIsThe<D>(pool: seq<Frame<D>>, b: BlockId, i: nat)
    requires NoDuplicates(pool) && i < |pool| && pool[i].block == Some(b)
    ensures FindExisting(pool, b) == i
  {
  }
}
