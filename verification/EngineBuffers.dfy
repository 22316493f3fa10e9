/** The buffer manager's calls are steps of the engine. */
module EngineBuffers {
  import opened Locks
  import opened Frames
  import opened Engine
  import Buffers

  function PoolOf(s: State): Buffers.Pool<BlockData> {
    Buffers.Pool(s.pool, s.disk, s.saved)
  }

  lemma FlushIsStep(s: State, i: nat)
    requires i < |s.pool| && !s.torn
    ensures PoolOf(Apply(s, FlushFrame(i))) == Buffers.Flushed(PoolOf(s), i, |s.log|)
  {
  }

  lemma {:induction false} SameChoice<D>(p: seq<Frame<D>>, q: seq<Frame<D>>, i: nat)
    requires i <= |p| == |q| && forall j :: 0 <= j < |p| ==> p[j].pins == q[j].pins
    ensures ChooseFrom(p, i) == ChooseFrom(q, i)
    decreases |p| - i
  {
    if i < |p| {
      SameChoice(p, q, i + 1);
    }
  }

  /** The state in which a pin step can follow: a frame that has to be taken over is written out. */
  function Cleared(s: State, b: BlockId): State
    requires !s.torn && Buffers.PinFrameOf(PoolOf(s), b) >= 0
  {
    if FindExisting(s.pool, b) >= 0 then s else Apply(s, FlushFrame(ChooseUnpinned(s.pool)))
  }

  /** Reading a block past the end of the file leaves what the frame held; for the engine it is empty. */
  predicate LeavesBytes(s: State, b: BlockId)
    requires !s.torn
  {
    && FindExisting(s.pool, b) < 0 && ChooseUnpinned(s.pool) >= 0
    && b !in Cleared(s, b).disk && s.pool[ChooseUnpinned(s.pool)].data != map[]
  }

  /** Pinning a block is a pin step, after a flush step if a frame has to be taken over, exactly unless bytes
      are left in that frame. */
  lemma PinIsSteps(s: State, t: TxId, b: BlockId)
    requires t in s.txns && s.txns[t].phase.Active? && b !in s.txns[t].pinned
    requires Buffers.PinFrameOf(PoolOf(s), b) >= 0 && !s.torn
    ensures Enabled(Cleared(s, b), Pin(t, b))
    ensures PoolOf(Apply(Cleared(s, b), Pin(t, b))) == Buffers.Pinned(PoolOf(s), b, |s.log|) <==> !LeavesBytes(s, b)
  {
    if FindExisting(s.pool, b) < 0 {
      var i := ChooseUnpinned(s.pool);
      FlushIsStep(s, i);
      SameChoice(s.pool, Cleared(s, b).pool, 0);
      TakenOver(s, Cleared(s, b), t, b, i);
    }
  }

  lemma TakenOver(s: State, s1: State, t: TxId, b: BlockId, i: nat)
    requires t in s1.txns && b !in s1.txns[t].pinned && i < |s.pool| && ChooseUnpinned(s1.pool) == i < |s1.pool|
    requires FindExisting(s1.pool, b) < 0 && Enabled(s1, Pin(t, b))
    requires PoolOf(s1) == Buffers.Flushed(PoolOf(s), i, |s.log|)
    ensures PoolOf(DoPin(s1, t, b)) == Buffers.MorePins(Buffers.Loaded(PoolOf(s), i, b, |s.log|), i) <==>
              b in s1.disk || s.pool[i].data == map[]
  {
    var frames := PoolOf(DoPin(s1, t, b)).frames;
    var loaded := Buffers.MorePins(Buffers.Loaded(PoolOf(s), i, b, |s.log|), i).frames;
    assert frames[i].data == ReadBlock(s1.disk, b);
    assert loaded[i].data == Buffers.ReadInto(s1.disk, b, s.pool[i].data);
    assert frames == s1.pool[i := frames[i]] && loaded == s1.pool[i := loaded[i]];
  }

  /** Flushing a transaction's buffers is a run of flush steps that leaves nothing of it dirty. */
  lemma {:induction false} FlushAllIsRun(s: State, k: nat, t: TxId) returns (steps: seq<Step>, s': State)
    requires k <= |s.pool| && t >= 0 && !s.torn
    ensures Run(s, steps, s') && PoolOf(s') == Buffers.FlushedFrom(PoolOf(s), k, t, |s.log|)
    ensures s'.log == s.log && s'.txns == s.txns && s'.table == s.table && !s'.torn
    ensures forall i :: k <= i < |s'.pool| ==> s'.pool[i].txn != t
    ensures |s'.pool| == |s.pool| && forall i :: 0 <= i < k ==> s'.pool[i] == s.pool[i]
    decreases |s.pool| - k
  {
    steps, s' := [], s;
    if k < |s.pool| {
      if s.pool[k].txn == t {
        FlushIsStep(s, k);
        var s1 := Apply(s, FlushFrame(k));
        var rest;
        rest, s' := FlushAllIsRun(s1, k + 1, t);
        steps := [FlushFrame(k)] + rest;
        assert steps[1..] == rest;
      } else {
        steps, s' := FlushAllIsRun(s, k + 1, t);
      }
    }
  }
}
