/** Pin counts: a buffer is pinned once for every transaction whose buffer list holds its block. */
module EnginePins {
  import opened Options
  import opened Keys
  import opened Locks
  import opened Frames
  import opened Recovery
  import opened Engine
  import opened LockAgreement
  import opened EnginePool

  ghost predicate PinnedBy(s: State, t: TxId, b: BlockId) {
    t in s.txns && b in s.txns[t].pinned
  }

  ghost function Pinners(s: State, b: BlockId): set<TxId> {
    set t | t in s.txns && PinnedBy(s, t, b)
  }

  ghost predicate PinsMatch(s: State, i: nat)
    requires i < |s.pool|
  {
    s.pool[i].pins == match s.pool[i].block case None => 0 case Some(b) => |Pinners(s, b)|
  }

  /** Each buffer's pins equal the number of transactions whose list holds its block; a block on a list
      is in the pool, with a positive reference count. */
  ghost predicate PinsOk(s: State) {
    && (forall i :: 0 <= i < |s.pool| ==> PinsMatch(s, i))
    && (forall t, b :: PinnedBy(s, t, b) ==> FindExisting(s.pool, b) >= 0 && s.txns[t].pinned[b] >= 1)
  }

  /** Steps that leave blocks, pins and lists alone. */
  ghost predicate SamePins(s: State, s': State) {
    && |s'.pool| == |s.pool|
    && (forall i :: 0 <= i < |s.pool| ==> s'.pool[i].block == s.pool[i].block && s'.pool[i].pins == s.pool[i].pins)
    && (forall t, b :: PinnedBy(s', t, b) <==> PinnedBy(s, t, b))
    && (forall t, b :: PinnedBy(s, t, b) ==> s'.txns[t].pinned[b] == s.txns[t].pinned[b])
  }

  lemma SamePinsKept(s: State, s': State)
    requires PinsOk(s) && SamePins(s, s') && NoDuplicates(s'.pool)
    ensures PinsOk(s')
  {
    forall b ensures Pinners(s', b) == Pinners(s, b) {
      forall t ensures t in Pinners(s', b) <==> t in Pinners(s, b) {
        assert PinnedBy(s', t, b) <==> PinnedBy(s, t, b);
      }
    }
    forall i | 0 <= i < |s'.pool| ensures PinsMatch(s', i) {
      assert PinsMatch(s, i);
    }
    forall t, b | PinnedBy(s', t, b) ensures FindExisting(s'.pool, b) >= 0 {
      assert PinnedBy(s, t, b);
      FoundIsThe(s'.pool, b, FindExisting(s.pool, b));
    }
  }

  lemma PinsOfLocks(s: State, step: Step)
    requires LocksOk(s) && Enabled(s, step)
             && (step.Begin? || step.SLock? || step.XUpgrade? || step.Unlock? || step.End?)
    ensures SamePins(s, Apply(s, step))
  {
  }

  lemma PinsOfWrite(s: State, t: TxId, c: Cell, v: Value)
    requires Enabled(s, WriteCell(t, c, v))
    ensures SamePins(s, DoWrite(s, t, c, v))
  {
  }

  lemma PinsOfUndo(s: State, t: TxId)
    requires Enabled(s, UndoOne(t))
    ensures SamePins(s, DoUndo(s, t))
  {
  }

  lemma PinsOfReads(s: State, step: Step)
    requires Enabled(s, step) && (step.ReadCell? || step.FlushFrame?)
    ensures SamePins(s, Apply(s, step))
  {
  }

  lemma PinsOfPhases(s: State, step: Step)
    requires Enabled(s, step) && !step.Pin? && !step.Unpin? && !step.Begin? && !step.SLock? && !step.XUpgrade?
    requires !step.Unlock? && !step.End? && !step.ReadCell? && !step.WriteCell? && !step.UndoOne? && !step.FlushFrame?
    ensures SamePins(s, Apply(s, step))
  {
  }

  /** Adding a transaction to a block's pinners. */
  lemma PinnersAdd(s: State, s': State, t: TxId, b: BlockId)
    requires t in s.txns && b !in s.txns[t].pinned
    requires s'.txns == s.txns[t := s.txns[t].(pinned := s.txns[t].pinned[b := 1])]
    ensures |Pinners(s', b)| == |Pinners(s, b)| + 1
    ensures forall c :: c != b ==> Pinners(s', c) == Pinners(s, c)
  {
    assert Pinners(s', b) == Pinners(s, b) + {t};
    forall c | c != b ensures Pinners(s', c) == Pinners(s, c) {
      forall u ensures u in Pinners(s', c) <==> u in Pinners(s, c) { }
    }
  }

  lemma {:induction false} NewPinKept(s: State, t: TxId, b: BlockId)
    requires PinsOk(s) && PoolOk(s) && Enabled(s, Pin(t, b)) && b !in s.txns[t].pinned
             && NoDuplicates(DoPin(s, t, b).pool)
    ensures PinsOk(DoPin(s, t, b))
  {
    var s' := DoPin(s, t, b);
    PinnersAdd(s, s', t, b);
    var e := FindExisting(s.pool, b);
    var i := if e >= 0 then e else ChooseUnpinned(s.pool);
    assert e < 0 ==> Pinners(s, b) == {} by {
      if u :| u in Pinners(s, b) {
        assert PinnedBy(s, u, b);
      }
    }
    FoundIsThe(s'.pool, b, i);
    forall j | 0 <= j < |s'.pool| ensures PinsMatch(s', j) {
      assert PinsMatch(s, j);
      assert j != i ==> s'.pool[j].block != Some(b);
    }
    forall u, c | PinnedBy(s', u, c) ensures FindExisting(s'.pool, c) >= 0 && s'.txns[u].pinned[c] >= 1 {
      if !(u == t && c == b) {
        assert PinnedBy(s, u, c);
        StillFound(s, u, c);
        FoundIsThe(s'.pool, c, FindExisting(s.pool, c));
      }
    }
  }

  /** The frame of a block on somebody's list is pinned. */
  lemma StillFound(s: State, u: TxId, c: BlockId)
    requires PinsOk(s) && PinnedBy(s, u, c) && NoDuplicates(s.pool)
    ensures FindExisting(s.pool, c) >= 0 && s.pool[FindExisting(s.pool, c)].pins > 0
  {
    var j := FindExisting(s.pool, c);
    assert PinsMatch(s, j);
    assert u in Pinners(s, c);
  }

  lemma {:induction false} LastUnpinKept(s: State, t: TxId, b: BlockId)
    requires PinsOk(s) && PoolOk(s) && Enabled(s, Unpin(t, b)) && b in s.txns[t].pinned && s.txns[t].pinned[b] == 1
    requires NoDuplicates(DoUnpin(s, t, b).pool)
    ensures PinsOk(DoUnpin(s, t, b))
  {
    var s' := DoUnpin(s, t, b);
    assert PinnedBy(s, t, b);
    var i := FindExisting(s.pool, b);
    assert Pinners(s', b) == Pinners(s, b) - {t} && t in Pinners(s, b);
    forall c | c != b ensures Pinners(s', c) == Pinners(s, c) {
      forall u ensures u in Pinners(s', c) <==> u in Pinners(s, c) { }
    }
    forall j | 0 <= j < |s'.pool| ensures PinsMatch(s', j) {
      assert PinsMatch(s, j);
    }
    forall u, c | PinnedBy(s', u, c) ensures FindExisting(s'.pool, c) >= 0 && s'.txns[u].pinned[c] >= 1 {
      assert PinnedBy(s, u, c);
      FoundIsThe(s'.pool, c, FindExisting(s.pool, c));
    }
  }

  /** Pinning again, or unpinning one of several times, changes only the reference count. */
  lemma RecountKept(s: State, s': State, t: TxId, b: BlockId, n: nat)
    requires PinsOk(s) && t in s.txns && b in s.txns[t].pinned && n >= 1 && s'.pool == s.pool
    requires s'.txns == s.txns[t := s.txns[t].(pinned := s.txns[t].pinned[b := n])]
    ensures PinsOk(s')
  {
    forall c ensures Pinners(s', c) == Pinners(s, c) {
      forall u ensures u in Pinners(s', c) <==> u in Pinners(s, c) { }
    }
    forall j | 0 <= j < |s'.pool| ensures PinsMatch(s', j) {
      assert PinsMatch(s, j);
    }
    forall u, c | PinnedBy(s', u, c) ensures FindExisting(s'.pool, c) >= 0 && s'.txns[u].pinned[c] >= 1 {
      assert PinnedBy(s, u, c);
    }
  }

  lemma PinKept(s: State, t: TxId, b: BlockId)
    requires PinsOk(s) && PoolOk(s) && Enabled(s, Pin(t, b)) && NoDuplicates(DoPin(s, t, b).pool)
    ensures PinsOk(DoPin(s, t, b))
  {
    if b in s.txns[t].pinned {
      RecountKept(s, DoPin(s, t, b), t, b, s.txns[t].pinned[b] + 1);
    } else {
      NewPinKept(s, t, b);
    }
  }

  lemma UnpinKept(s: State, t: TxId, b: BlockId)
    requires PinsOk(s) && PoolOk(s) && Enabled(s, Unpin(t, b)) && NoDuplicates(DoUnpin(s, t, b).pool)
    ensures PinsOk(DoUnpin(s, t, b))
  {
    if b in s.txns[t].pinned {
      assert PinnedBy(s, t, b);
      if s.txns[t].pinned[b] > 1 {
        RecountKept(s, DoUnpin(s, t, b), t, b, s.txns[t].pinned[b] - 1);
      } else {
        LastUnpinKept(s, t, b);
      }
    }
  }

  lemma PinsKept(s: State, step: Step)
    requires PinsOk(s) && PoolOk(s) && Enabled(s, step)
    ensures PinsOk(Apply(s, step))
  {
    PoolKept(s, step);
    if step.Pin? {
      PinKept(s, step.t, step.b);
    } else if step.Unpin? {
      UnpinKept(s, step.t, step.b);
    } else {
      assert SamePins(s, Apply(s, step)) by {
        if step.Begin? || step.SLock? || step.XUpgrade? || step.Unlock? || step.End? {
          PinsOfLocks(s, step);
        } else if step.WriteCell? {
          PinsOfWrite(s, step.t, step.c, step.v);
        } else if step.UndoOne? {
          PinsOfUndo(s, step.t);
        } else if step.ReadCell? || step.FlushFrame? {
          PinsOfReads(s, step);
        } else {
          PinsOfPhases(s, step);
        }
      }
      SamePinsKept(s, Apply(s, step));
    }
  }

  lemma InitPinsOk(s: State)
    requires Init(s)
    ensures PinsOk(s) && PoolOk(s)
  {
    InitLocksOk(s);
  }

  /** In every state of every run. */
  lemma {:induction false} PinsAlwaysOk(s: State, steps: seq<Step>, s': State)
    requires PinsOk(s) && PoolOk(s) && Run(s, steps, s')
    ensures PinsOk(s') && PoolOk(s')
    decreases |steps|
  {
    if steps != [] {
      PinsKept(s, steps[0]);
      PoolKept(s, steps[0]);
      PinsAlwaysOk(Apply(s, steps[0]), steps[1..], s');
    }
  }

  /** No step takes a block on somebody's list out of its frame. */
  lemma PinnedStays(s: State, step: Step, t: TxId, b: BlockId)
    requires PinsOk(s) && PoolOk(s) && Enabled(s, step) && PinnedBy(s, t, b) && PinnedBy(Apply(s, step), t, b)
    ensures FindExisting(Apply(s, step).pool, b) == FindExisting(s.pool, b) >= 0
  {
    PoolKept(s, step);
    var i := FindExisting(s.pool, b);
    StillFound(s, t, b);
    BlockStays(s, step, i);
    FoundIsThe(Apply(s, step).pool, b, i);
  }

  /** A pinned frame keeps its block. */
  lemma BlockStays(s: State, step: Step, i: nat)
    requires Enabled(s, step) && i < |s.pool| && s.pool[i].pins > 0
    ensures i < |Apply(s, step).pool| && Apply(s, step).pool[i].block == s.pool[i].block
  {
  }
}
