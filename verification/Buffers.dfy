/** The buffer pool (buffer/buffer.go, buffer/manager.go, buffer/naive_replacement_strategy.go) and a
    transaction's list of pinned blocks (tx/buffer_list.go).

    D is the contents of a block; blocks are read and written atomically.  A call that would wait for a
    buffer answers -1. */
module Buffers {
  import opened Options
  import opened Locks
  import opened Frames

  /** What a page holds after a block was read into it: past the end of the file, what it held before. */
  function ReadInto<D>(blocks: map<BlockId, D>, b: BlockId, page: D): D {
    if b in blocks then blocks[b] else page
  }

  /** The data files: blocks that exist, with their contents. */
  class Disk<D(0)> {
    var blocks: map<BlockId, D>

    method Read(block: BlockId, page: D) returns (data: D)
      ensures data == ReadInto(blocks, block, page)
    {
      data := if block in blocks then blocks[block] else page;
    }

    method Write(block: BlockId, data: D)
      modifies this
      ensures blocks == old(blocks)[block := data]
    {
      blocks := blocks[block := data];
    }
  }

  /** The log manager as the buffers see it: the newest LSN and the newest saved one. */
  class LogMarks {
    var latestLSN: nat
    var lastSavedLSN: nat

    method Flush(lsn: int)
      modifies this`lastSavedLSN
      ensures lastSavedLSN == LogFlushed(old(lastSavedLSN), lsn, latestLSN)
    {
      if lsn >= lastSavedLSN {
        lastSavedLSN := latestLSN;
      }
    }
  }

  class Buffer<D(0)> {
    const disk: Disk<D>
    const log: LogMarks
    var contents: D
    var block: Option<BlockId>
    var pins: int
    var txnNum: int
    var lsn: int

    constructor (disk: Disk<D>, log: LogMarks, contents: D)
      ensures this.disk == disk && this.log == log && AsFrame() == Frame(None, contents, 0, -1, -1)
    {
      this.disk := disk;
      this.log := log;
      this.contents := contents;
      block := None;
      pins := 0;
      txnNum := -1;
      lsn := -1;
    }

    function AsFrame(): Frame<D>
      reads this
    {
      Frame(block, contents, pins, txnNum, lsn)
    }

    method SetModified(txnNum: int, lsn: int)
      modifies this`txnNum, this`lsn
      ensures AsFrame() == Modified(old(AsFrame()), txnNum, lsn)
      ensures this.txnNum == txnNum && this.lsn == if lsn >= 0 then lsn else old(this.lsn)
    {
      this.txnNum := txnNum;
      if lsn >= 0 {
        this.lsn := lsn;
      }
    }

    predicate IsPinned()
      reads this
    {
      pins > 0
    }

    /** Write a dirty buffer out: its log records first, then the block. */
    method Flush()
      requires txnNum >= 0 ==> block.Some?
      modifies this`txnNum, disk, log`lastSavedLSN
      ensures AsFrame() == Cleaned(old(AsFrame()))
      ensures disk.blocks == DiskAfter(old(disk.blocks), old(AsFrame()))
      ensures log.lastSavedLSN == SavedAfter(old(log.lastSavedLSN), old(AsFrame()), log.latestLSN)
    {
      if txnNum >= 0 {
        log.Flush(lsn);
        disk.Write(block.value, contents);
        txnNum := -1;
      }
    }

    /** Take over a block; what the buffer held is written out first. */
    method AssignToBlock(b: BlockId)
      requires txnNum >= 0 ==> block.Some?
      modifies this, disk, log`lastSavedLSN
      ensures disk.blocks == DiskAfter(old(disk.blocks), old(AsFrame()))
      ensures log.lastSavedLSN == SavedAfter(old(log.lastSavedLSN), old(AsFrame()), log.latestLSN)
      ensures AsFrame() == Cleaned(old(AsFrame())).(block := Some(b), data := ReadInto(disk.blocks, b, old(contents)),
              pins := 0)
    {
      Flush();
      block := Some(b);
      contents := disk.Read(b, contents);
      pins := 0;
    }
  }

  /** A buffer after it was flushed, the disk, and the newest saved LSN. */
  function Cleaned<D>(f: Frame<D>): Frame<D> {
    if f.txn >= 0 then f.(txn := -1) else f
  }

  function DiskAfter<D>(disk: map<BlockId, D>, f: Frame<D>): map<BlockId, D> {
    if f.txn >= 0 && f.block.Some? then disk[f.block.value := f.data] else disk
  }

  function SavedAfter<D>(saved: nat, f: Frame<D>, latest: nat): nat {
    if f.txn >= 0 then LogFlushed(saved, f.lsn, latest) else saved
  }

  /** How many frames are not pinned. */
  function Unpinned<D>(pool: seq<Frame<D>>): nat {
    if pool == [] then 0 else Unpinned(pool[..|pool| - 1]) + if pool[|pool| - 1].pins > 0 then 0 else 1
  }

  lemma {:induction false} UnpinnedUpdate<D>(pool: seq<Frame<D>>, i: nat, f: Frame<D>)
    requires i < |pool|
    ensures Unpinned(pool[i := f]) ==
              Unpinned(pool) - (if pool[i].pins > 0 then 0 else 1) + (if f.pins > 0 then 0 else 1)
  {
    var last := |pool| - 1;
    if i == last {
      assert pool[i := f][..last] == pool[..last];
    } else {
      UnpinnedUpdate(pool[..last], i, f);
      assert pool[i := f][..last] == pool[..last][i := f];
    }
  }

  /** A pool with its frames, the disk below it and the newest saved LSN. */
  datatype Pool<D> = Pool(frames: seq<Frame<D>>, disk: map<BlockId, D>, saved: nat)

  /** Flushing one frame. */
  function Flushed<D>(p: Pool<D>, i: nat, latest: nat): Pool<D>
    requires i < |p.frames|
  {
    var f := p.frames[i];
    Pool(p.frames[i := Cleaned(f)], DiskAfter(p.disk, f), SavedAfter(p.saved, f, latest))
  }

  /** Flushing the frames from i on that a transaction dirtied. */
  function FlushedFrom<D>(p: Pool<D>, i: nat, txn: int, latest: nat): (r: Pool<D>)
    requires i <= |p.frames|
    ensures |r.frames| == |p.frames|
    decreases |p.frames| - i
  {
    if i == |p.frames| then p
    else FlushedFrom(if p.frames[i].txn == txn then Flushed(p, i, latest) else p, i + 1, txn, latest)
  }

  /** Pinning a block: the frame it is in, else the first unpinned frame, flushed and reloaded; no
      frame, no change. */
  function PinFrameOf<D>(p: Pool<D>, b: BlockId): int {
    if FindExisting(p.frames, b) >= 0 then FindExisting(p.frames, b) else ChooseUnpinned(p.frames)
  }

  function MorePins<D>(p: Pool<D>, i: nat): Pool<D>
    requires i < |p.frames|
  {
    p.(frames := p.frames[i := p.frames[i].(pins := p.frames[i].pins + 1)])
  }

  function Loaded<D>(p: Pool<D>, i: nat, b: BlockId, latest: nat): Pool<D>
    requires i < |p.frames|
  {
    var q := Flushed(p, i, latest);
    q.(frames := q.frames[i := q.frames[i].(block := Some(b), data := ReadInto(q.disk, b, p.frames[i].data),
        pins := 0)])
  }

  function Pinned<D>(p: Pool<D>, b: BlockId, latest: nat): Pool<D> {
    var i := PinFrameOf(p, b);
    if i < 0 then p
    else if FindExisting(p.frames, b) >= 0 then MorePins(p, i)
    else MorePins(Loaded(p, i, b, latest), i)
  }

  /** What pinning a block does, for every pool. */
  ghost predicate PinnedAs<D>(p: Pool<D>, q: Pool<D>, b: BlockId, latest: nat) {
    if exists i :: FirstWith(p, b, i) then
      exists i :: FirstWith(p, b, i) && q == p.(frames := p.frames[i := p.frames[i].(pins := p.frames[i].pins + 1)])
    else if exists i :: FirstFree(p, i) then
      exists i :: FirstFree(p, i) && TakenOver(p, q, b, latest, i)
    else q == p
  }

  /** The first frame that holds a block. */
  ghost predicate FirstWith<D>(p: Pool<D>, b: BlockId, i: int) {
    0 <= i < |p.frames| && p.frames[i].block == Some(b) && forall j :: 0 <= j < i ==> p.frames[j].block != Some(b)
  }

  /** The first frame that nobody has pinned. */
  ghost predicate FirstFree<D>(p: Pool<D>, i: int) {
    0 <= i < |p.frames| && p.frames[i].pins <= 0 && forall j :: 0 <= j < i ==> p.frames[j].pins > 0
  }

  /** A frame was written out if it was dirty, its log records first, and then holds the block, clean and pinned
      once, with what is on disk then, or what it held before where nothing is. */
  ghost predicate TakenOver<D>(p: Pool<D>, q: Pool<D>, b: BlockId, latest: nat, i: nat)
    requires i < |p.frames|
  {
    var f := p.frames[i];
    && (if f.txn >= 0 && f.block.Some? then q.disk == p.disk[f.block.value := f.data] else q.disk == p.disk)
    && q.saved == (if f.txn >= 0 && f.lsn >= p.saved then latest else p.saved)
    && |q.frames| == |p.frames| && (forall j :: 0 <= j < |p.frames| && j != i ==> q.frames[j] == p.frames[j])
    && q.frames[i].block == Some(b) && q.frames[i].pins == 1 && q.frames[i].txn < 0 && q.frames[i].lsn == f.lsn
    && q.frames[i].data == if b in q.disk then q.disk[b] else f.data
  }

  lemma PinMeaning<D>(p: Pool<D>, b: BlockId, latest: nat)
    ensures PinnedAs(p, Pinned(p, b, latest), b, latest)
  {
    var e, u := FindExisting(p.frames, b), ChooseUnpinned(p.frames);
    FoundIsFirst(p.frames, b, 0);
    ChosenIsFirst(p.frames, 0);
    if e >= 0 {
      assert FirstWith(p, b, e);
    } else if u >= 0 {
      assert FirstFree(p, u);
      assert TakenOver(p, Pinned(p, b, latest), b, latest, u);
    }
  }

  /** A dirty frame holds a block; pins are counted from 0. */
  ghost predicate FramesOk<D>(frames: seq<Frame<D>>) {
    forall i :: 0 <= i < |frames| ==> (frames[i].txn >= 0 ==> frames[i].block.Some?) && frames[i].pins >= 0
  }

  class Manager<D(0)> {
    const bufferPool: seq<Buffer<D>>
    const disk: Disk<D>
    const log: LogMarks
    var numAvailable: int
    /** The frames the buffers hold. */
    ghost var view: seq<Frame<D>>

    /** Distinct buffers over one disk and one log; sound frames, counted right. */
    ghost predicate Valid()
      reads this, bufferPool
    {
      && Wired() && FramesOk(view) && numAvailable == Unpinned(view) && |view| == |bufferPool|
      && forall i :: 0 <= i < |bufferPool| ==> view[i] == bufferPool[i].AsFrame()
    }

    ghost predicate Wired() {
      && (forall i, j :: 0 <= i < j < |bufferPool| ==> bufferPool[i] != bufferPool[j])
      && (forall i :: 0 <= i < |bufferPool| ==> bufferPool[i].disk == disk && bufferPool[i].log == log)
    }

    ghost function State(): Pool<D>
      reads this, disk, log
    {
      Pool(view, disk.blocks, log.lastSavedLSN)
    }

    constructor (disk: Disk<D>, log: LogMarks, numBuffers: nat, blank: D)
      ensures Valid() && this.disk == disk && this.log == log && numAvailable == numBuffers
      ensures view == seq(numBuffers, i => Frame(None, blank, 0, -1, -1))
      ensures fresh(bufferPool)
    {
      var pool: seq<Buffer<D>> := [];
      while |pool| < numBuffers
        invariant |pool| <= numBuffers && fresh(pool)
        invariant forall i, j :: 0 <= i < j < |pool| ==> pool[i] != pool[j]
        invariant forall i :: 0 <= i < |pool| ==>
          pool[i].disk == disk && pool[i].log == log && pool[i].AsFrame() == Frame(None, blank, 0, -1, -1)
      {
        var buffer := new Buffer(disk, log, blank);
        pool := pool + [buffer];
      }
      bufferPool := pool;
      this.disk := disk;
      this.log := log;
      numAvailable := numBuffers;
      view := seq(numBuffers, i => Frame(None, blank, 0, -1, -1));
      AllUnpinned(seq(numBuffers, i => Frame(None, blank, 0, -1, -1)));
    }

    /** The frame assigned to a block, or -1. */
    method FindExistingBuffer(block: BlockId) returns (r: int)
      requires Valid()
      ensures r == FindExisting(view, block)
      ensures r >= 0 ==> r < |view| && view[r].block == Some(block) && forall j :: 0 <= j < r ==>
                view[j].block != Some(block)
      ensures r < 0 ==> forall j :: 0 <= j < |view| ==> view[j].block != Some(block)
    {
      var i := 0;
      while i < |bufferPool|
        invariant 0 <= i <= |bufferPool|
        invariant FindFrom(view, block, i) == FindExisting(view, block)
        invariant forall j :: 0 <= j < i ==> view[j].block != Some(block)
      {
        if bufferPool[i].block == Some(block) {
          return i;
        }
        i := i + 1;
      }
      r := -1;
    }

    /** The first unpinned frame, or -1. */
    method ChooseUnpinnedBuffer() returns (r: int)
      requires Valid()
      ensures r == ChooseUnpinned(view)
      ensures r >= 0 ==> r < |view| && view[r].pins <= 0 && forall j :: 0 <= j < r ==> view[j].pins > 0
      ensures r < 0 ==> forall j :: 0 <= j < |view| ==> view[j].pins > 0
    {
      var i := 0;
      while i < |bufferPool|
        invariant 0 <= i <= |bufferPool|
        invariant ChooseFrom(view, i) == ChooseUnpinned(view)
        invariant forall j :: 0 <= j < i ==> view[j].pins > 0
      {
        if !bufferPool[i].IsPinned() {
          return i;
        }
        i := i + 1;
      }
      r := -1;
    }

    /** Load a block into an unpinned frame. */
    method Assign(i: nat, block: BlockId)
      requires Valid() && i < |bufferPool| && bufferPool[i].pins <= 0
      modifies this`view, this`numAvailable, bufferPool[i], disk, log`lastSavedLSN
      ensures Valid()
      ensures State() == Loaded(old(State()), i, block, log.latestLSN)
    {
      ghost var before := view;
      bufferPool[i].AssignToBlock(block);
      view := before[i := bufferPool[i].AsFrame()];
      UnpinnedUpdate(before, i, bufferPool[i].AsFrame());
    }

    method Pin(block: BlockId) returns (r: int)
      requires Valid()
      modifies this, bufferPool, disk, log`lastSavedLSN
      ensures Valid()
      ensures r == PinFrameOf(old(State()), block) && State() == Pinned(old(State()), block, log.latestLSN)
    {
      r := FindExistingBuffer(block);
      if r < 0 {
        r := ChooseUnpinnedBuffer();
        if r < 0 {
          return;
        }
        Assign(r, block);
      }
      AddPin(r);
    }

    /** One more pin on a frame, and the count of available frames with it. */
    method AddPin(i: nat)
      requires Valid() && i < |bufferPool|
      modifies this`numAvailable, this`view, bufferPool[i]
      ensures State() == MorePins(old(State()), i)
      ensures Valid()
    {
      var buffer := bufferPool[i];
      ghost var before := view;
      if !buffer.IsPinned() {
        numAvailable := numAvailable - 1;
      }
      buffer.pins := buffer.pins + 1;
      view := before[i := buffer.AsFrame()];
      UnpinnedUpdate(before, i, buffer.AsFrame());
    }

    /** One pin less.  The count of available buffers is right afterwards exactly when there was one. */
    method Unpin(i: nat)
      requires Valid() && i < |bufferPool|
      modifies this`numAvailable, this`view, bufferPool[i]
      ensures view == LessPins(old(view), i)
      ensures numAvailable == old(numAvailable) + if view[i].pins > 0 then 0 else 1
      ensures numAvailable == Unpinned(view) <==> old(view)[i].pins > 0
      ensures old(view)[i].pins > 0 ==> Valid()
    {
      var buffer := bufferPool[i];
      ghost var before := view;
      buffer.pins := buffer.pins - 1;
      if !buffer.IsPinned() {
        numAvailable := numAvailable + 1;
      }
      view := before[i := buffer.AsFrame()];
      UnpinnedUpdate(before, i, buffer.AsFrame());
    }

    /** Write out every buffer a transaction dirtied. */
    method FlushAll(txnNum: int)
      requires Valid()
      modifies this`view, this`numAvailable, bufferPool, disk, log`lastSavedLSN
      ensures Valid()
      ensures State() == FlushedFrom(old(State()), 0, txnNum, log.latestLSN)
    {
      var i := 0;
      while i < |bufferPool|
        invariant 0 <= i <= |bufferPool| && Valid()
        invariant FlushedFrom(State(), i, txnNum, log.latestLSN) == FlushedFrom(old(State()), 0, txnNum, log.latestLSN)
      {
        if bufferPool[i].txnNum == txnNum {
          FlushOne(i);
        }
        i := i + 1;
      }
    }

    method FlushOne(i: nat)
      requires Valid() && i < |bufferPool|
      modifies this`view, this`numAvailable, bufferPool[i], disk, log`lastSavedLSN
      ensures Valid()
      ensures State() == Flushed(old(State()), i, log.latestLSN)
    {
      ghost var before := view;
      assert FramesOk(before) && before[i] == bufferPool[i].AsFrame();
      bufferPool[i].Flush();
      view := before[i := bufferPool[i].AsFrame()];
      UnpinnedUpdate(before, i, bufferPool[i].AsFrame());
    }
  }

  /** What flushing a transaction's buffers does: they are clean and on disk, and nothing else changed. */
  lemma FlushAllMeaning<D>(p: Pool<D>, k: nat, txn: int, latest: nat)
    requires k <= |p.frames| && txn >= 0 && NoDuplicates(p.frames)
    requires forall i :: 0 <= i < |p.frames| && p.frames[i].txn >= 0 ==> p.frames[i].block.Some?
    ensures var r := FlushedFrom(p, k, txn, latest);
            && (forall i :: 0 <= i < |p.frames| ==>
                  r.frames[i] == if i >= k && p.frames[i].txn == txn then p.frames[i].(txn := -1) else p.frames[i])
            && (forall i :: k <= i < |p.frames| && p.frames[i].txn == txn ==>
                  p.frames[i].block.value in r.disk && r.disk[p.frames[i].block.value] == p.frames[i].data)
            && (forall b :: (forall i :: k <= i < |p.frames| && p.frames[i].txn == txn ==>
                 p.frames[i].block != Some(b)) ==>
                  (b in r.disk <==> b in p.disk) && (b in p.disk ==> r.disk[b] == p.disk[b]))
  {
    FlushAllFrames(p, k, txn, latest);
    FlushAllBlocks(p, k, txn, latest);
  }

  lemma {:induction false} FlushAllFrames<D>(p: Pool<D>, k: nat, txn: int, latest: nat)
    requires k <= |p.frames| && txn >= 0
    requires forall i :: 0 <= i < |p.frames| && p.frames[i].txn >= 0 ==> p.frames[i].block.Some?
    ensures forall i :: 0 <= i < |p.frames| ==>
              FlushedFrom(p, k, txn, latest).frames[i] ==
              if i >= k && p.frames[i].txn == txn then p.frames[i].(txn := -1) else p.frames[i]
    decreases |p.frames| - k
  {
    if k < |p.frames| {
      if p.frames[k].txn == txn {
        FlushedOne(p, k, latest);
        FlushAllFrames(Flushed(p, k, latest), k + 1, txn, latest);
      } else {
        FlushAllFrames(p, k + 1, txn, latest);
      }
    }
  }

  lemma {:induction false} FlushAllBlocks<D>(p: Pool<D>, k: nat, txn: int, latest: nat)
    requires k <= |p.frames| && txn >= 0 && NoDuplicates(p.frames)
    requires forall i :: 0 <= i < |p.frames| && p.frames[i].txn >= 0 ==> p.frames[i].block.Some?
    ensures var r := FlushedFrom(p, k, txn, latest);
            && (forall i :: k <= i < |p.frames| && p.frames[i].txn == txn ==>
                  p.frames[i].block.value in r.disk && r.disk[p.frames[i].block.value] == p.frames[i].data)
            && (forall b :: (forall i :: k <= i < |p.frames| && p.frames[i].txn == txn ==>
                 p.frames[i].block != Some(b)) ==>
                  (b in r.disk <==> b in p.disk) && (b in p.disk ==> r.disk[b] == p.disk[b]))
    decreases |p.frames| - k
  {
    if k < |p.frames| {
      if p.frames[k].txn == txn {
        var p1 := Flushed(p, k, latest);
        FlushedOne(p, k, latest);
        FlushAllBlocks(p1, k + 1, txn, latest);
        assert forall i :: k < i < |p.frames| ==> p1.frames[i] == p.frames[i];
      } else {
        FlushAllBlocks(p, k + 1, txn, latest);
      }
    }
  }

  lemma FlushedOne<D>(p: Pool<D>, k: nat, latest: nat)
    requires k < |p.frames| && p.frames[k].txn >= 0 && p.frames[k].block.Some?
    ensures Flushed(p, k, latest).frames == p.frames[k := p.frames[k].(txn := -1)]
    ensures Flushed(p, k, latest).disk == p.disk[p.frames[k].block.value := p.frames[k].data]
  {
  }

  datatype PinnedBuffer = PinnedBuffer(buffer: nat, refCount: nat)

  /** Every block on a list is in its buffer, which is pinned. */
  ghost predicate ListOk<D>(buffers: map<BlockId, PinnedBuffer>, v: seq<Frame<D>>) {
    forall b :: b in buffers ==>
      && buffers[b].buffer < |v| && buffers[b].refCount >= 1
      && v[buffers[b].buffer].block == Some(b) && v[buffers[b].buffer].pins > 0
  }

  /** The blocks one transaction has pinned, each pinned once in the pool however often here. */
  class BufferList<D(0)> {
    const manager: Manager<D>
    var buffers: map<BlockId, PinnedBuffer>

    ghost predicate Valid()
      reads this, manager, manager.bufferPool
    {
      manager.Valid() && ListOk(buffers, manager.view)
    }

    constructor (manager: Manager<D>)
      requires manager.Valid()
      ensures Valid() && this.manager == manager && buffers == map[]
    {
      this.manager := manager;
      buffers := map[];
    }

    /** The buffer pinned to a block, or -1. */
    method GetBuffer(block: BlockId) returns (r: int)
      requires Valid()
      ensures r >= 0 <==> block in buffers
      ensures r >= 0 ==>
                r < |manager.bufferPool| && manager.view[r].block == Some(block) && manager.view[r].pins > 0
    {
      r := if block in buffers then buffers[block].buffer else -1;
    }

    /** A block already on the list only counts one more; a new one is pinned in the pool. */
    method Pin(block: BlockId) returns (ok: bool)
      requires Valid()
      modifies this, manager, manager.bufferPool, manager.disk, manager.log`lastSavedLSN
      ensures Valid()
      ensures block in old(buffers) ==>
                && ok && manager.State() == old(manager.State())
                && buffers == old(buffers)[block := old(buffers)[block].(refCount := old(buffers)[block].refCount + 1)]
      ensures block !in old(buffers) ==>
                && manager.State() == Pinned(old(manager.State()), block, manager.log.latestLSN)
                && (ok <==> PinFrameOf(old(manager.State()), block) >= 0)
                && buffers == Listed(old(buffers), block, PinFrameOf(old(manager.State()), block))
    {
      if block in buffers {
        buffers := buffers[block := buffers[block].(refCount := buffers[block].refCount + 1)];
        return true;
      }
      ok := PinNew(block);
    }

    method PinNew(block: BlockId) returns (ok: bool)
      requires Valid() && block !in buffers
      modifies this, manager, manager.bufferPool, manager.disk, manager.log`lastSavedLSN
      ensures Valid() && manager.State() == Pinned(old(manager.State()), block, manager.log.latestLSN)
      ensures ok <==> PinFrameOf(old(manager.State()), block) >= 0
      ensures buffers == Listed(old(buffers), block, PinFrameOf(old(manager.State()), block))
    {
      ghost var p := manager.State();
      ghost var list := Listed(buffers, block, PinFrameOf(p, block));
      assert ListOk(list, Pinned(p, block, manager.log.latestLSN).frames) by {
        ListPinned(buffers, p, block, manager.log.latestLSN);
      }
      var r := manager.Pin(block);
      buffers := Listed(buffers, block, r);
      ok := r >= 0;
      assert buffers == list && manager.view == Pinned(p, block, manager.log.latestLSN).frames;
    }

    /** The last unpin gives the pin in the pool back. */
    method Unpin(block: BlockId)
      requires Valid()
      modifies this, manager, manager.bufferPool
      ensures Valid() && manager.disk.blocks == old(manager.disk.blocks)
      ensures block !in old(buffers) ==> buffers == old(buffers) && manager.view == old(manager.view)
      ensures block in old(buffers) && old(buffers)[block].refCount > 1 ==>
                && manager.view == old(manager.view)
                && buffers == old(buffers)[block := old(buffers)[block].(refCount := old(buffers)[block].refCount - 1)]
      ensures block in old(buffers) && old(buffers)[block].refCount == 1 ==>
                && buffers == old(buffers) - {block}
                && manager.view == LessPins(old(manager.view), old(buffers)[block].buffer)
    {
      if block in buffers {
        var pinned := buffers[block];
        if pinned.refCount > 1 {
          buffers := buffers[block := pinned.(refCount := pinned.refCount - 1)];
        } else {
          manager.Unpin(pinned.buffer);
          buffers := buffers - {block};
        }
      }
    }

    /** Give every pin back, one for each block. */
    method UnpinAll()
      requires Valid()
      modifies this, manager, manager.bufferPool
      ensures Valid() && buffers == map[]
      ensures manager.view == LessPinsAll(old(manager.view), Indices(old(buffers), old(buffers).Keys))
    {
      GiveBackAll(manager, buffers, manager.view);
      buffers := map[];
    }
  }

  method GiveBackAll<D(0)>(manager: Manager<D>, list: map<BlockId, PinnedBuffer>, ghost before: seq<Frame<D>>)
    requires manager.Valid() && ListOk(list, before) && manager.view == before
    modifies manager, manager.bufferPool
    ensures manager.Valid() && manager.view == LessPinsAll(before, Indices(list, list.Keys))
  {
    var todo := list.Keys;
    NoneGivenBack(list, before);
    while todo != {}
      invariant manager.Valid() && todo <= list.Keys && GivenBack(manager.view, list, todo, before)
      decreases todo
    {
      var b :| b in todo;
      GiveBack(manager, list, b, todo, before);
      todo := todo - {b};
    }
    AllGivenBack(manager.view, list, before);
  }

  /** The pins of the blocks on a list that are not yet to do are given back. */
  ghost predicate GivenBack<D>(v: seq<Frame<D>>, list: map<BlockId, PinnedBuffer>, todo: set<BlockId>,
                               before: seq<Frame<D>>) {
    v == LessPinsAll(before, Indices(list, list.Keys - todo))
  }

  lemma NoneGivenBack<D>(list: map<BlockId, PinnedBuffer>, before: seq<Frame<D>>)
    ensures GivenBack(before, list, list.Keys, before)
  {
    NoneLess(before, Indices(list, list.Keys - list.Keys));
  }

  lemma AllGivenBack<D>(v: seq<Frame<D>>, list: map<BlockId, PinnedBuffer>, before: seq<Frame<D>>)
    requires GivenBack(v, list, {}, before)
    ensures v == LessPinsAll(before, Indices(list, list.Keys))
  {
    assert list.Keys - {} == list.Keys;
  }

  method GiveBack<D(0)>(manager: Manager<D>, list: map<BlockId, PinnedBuffer>, b: BlockId,
      ghost todo: set<BlockId>, ghost before: seq<Frame<D>>)
    requires manager.Valid() && ListOk(list, before) && todo <= list.Keys && b in todo
    requires GivenBack(manager.view, list, todo, before)
    modifies manager, manager.bufferPool
    ensures manager.Valid() && GivenBack(manager.view, list, todo - {b}, before)
  {
    var done := list.Keys - todo;
    OneMore(list, done, b, before);
    LessPinsOneMore(before, Indices(list, done), list[b].buffer);
    assert list.Keys - (todo - {b}) == done + {b};
    assert manager.view[list[b].buffer].pins > 0;
    manager.Unpin(list[b].buffer);
  }

  function LessPins<D>(v: seq<Frame<D>>, i: nat): seq<Frame<D>>
    requires i < |v|
  {
    v[i := v[i].(pins := v[i].pins - 1)]
  }

  /** One pin less on each of some frames. */
  ghost function LessPinsAll<D>(v: seq<Frame<D>>, indices: set<nat>): (r: seq<Frame<D>>)
    ensures |r| == |v| && forall i :: 0 <= i < |v| ==>
              r[i] == if i in indices then v[i].(pins := v[i].pins - 1) else v[i]
  {
    seq(|v|, i requires 0 <= i < |v| => if i in indices then v[i].(pins := v[i].pins - 1) else v[i])
  }

  lemma NoneLess<D>(v: seq<Frame<D>>, indices: set<nat>)
    requires indices == {}
    ensures LessPinsAll(v, indices) == v
  {
  }

  lemma LessPinsOneMore<D>(v: seq<Frame<D>>, indices: set<nat>, i: nat)
    requires i < |v| && i !in indices
    ensures LessPins(LessPinsAll(v, indices), i) == LessPinsAll(v, indices + {i})
  {
  }

  /** The buffers of some blocks on a list. */
  ghost function Indices(buffers: map<BlockId, PinnedBuffer>, blocks: set<BlockId>): set<nat>
    requires blocks <= buffers.Keys
  {
    set b | b in blocks :: buffers[b].buffer
  }

  lemma OneMore<D>(buffers: map<BlockId, PinnedBuffer>, done: set<BlockId>, b: BlockId, v: seq<Frame<D>>)
    requires ListOk(buffers, v) && done <= buffers.Keys && b in buffers.Keys - done
    ensures Indices(buffers, done + {b}) == Indices(buffers, done) + {buffers[b].buffer}
    ensures buffers[b].buffer !in Indices(buffers, done)
  {
  }

  /** Pinning a block leaves pinned frames with their blocks, and pins the frame it answers. */
  lemma PinnedFrames<D>(p: Pool<D>, b: BlockId, latest: nat)
    ensures |Pinned(p, b, latest).frames| == |p.frames|
    ensures forall j :: 0 <= j < |p.frames| && p.frames[j].pins > 0 ==>
              Pinned(p, b, latest).frames[j].block == p.frames[j].block && Pinned(p, b, latest).frames[j].pins > 0
    ensures var i := PinFrameOf(p, b);
            i >= 0 && p.frames[i].pins >= 0 ==>
              Pinned(p, b, latest).frames[i].block == Some(b) && Pinned(p, b, latest).frames[i].pins > 0
  {
  }

  /** A list after its transaction tried to pin another block, which frame i got unless it is -1. */
  function Listed(list: map<BlockId, PinnedBuffer>, b: BlockId, i: int): map<BlockId, PinnedBuffer> {
    if i >= 0 then list[b := PinnedBuffer(i, 1)] else list
  }

  lemma ListPinned<D>(list: map<BlockId, PinnedBuffer>, p: Pool<D>, b: BlockId, latest: nat)
    requires ListOk(list, p.frames) && FramesOk(p.frames)
    ensures ListOk(Listed(list, b, PinFrameOf(p, b)), Pinned(p, b, latest).frames)
  {
    PinnedFrames(p, b, latest);
  }

  lemma {:induction false} AllUnpinned<D>(pool: seq<Frame<D>>)
    requires forall i :: 0 <= i < |pool| ==> pool[i].pins <= 0
    ensures Unpinned(pool) == |pool|
  {
    if pool != [] {
      AllUnpinned(pool[..|pool| - 1]);
    }
  }
}
