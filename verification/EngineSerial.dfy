/** Serial equivalence: what committed transactions read, and the contents they leave, is what running
    them one after the other would give, in the order in which they began to release their locks. */
module EngineSerial {
  import opened Options
  import opened Keys
  import opened Locks
  import opened Frames
  import opened Recovery
  import opened Engine
  import opened LockAgreement
  import opened EnginePool
  import opened EngineLog
  import opened EngineValues

  /** The last value a transaction wrote to a cell. */
  function LastWrite(ops: seq<Op>, c: Cell): Option<Value> {
    if ops == [] then None
    else if ops[|ops| - 1].WriteOp? && ops[|ops| - 1].cell == c then Some(ops[|ops| - 1].val)
    else LastWrite(ops[..|ops| - 1], c)
  }

  /** A cell after running some operations alone. */
  function After(ops: seq<Op>, before: Value, c: Cell): Value {
    match LastWrite(ops, c)
    case None => before
    case Some(v) => v
  }

  /** A cell after running whole transactions one after the other. */
  function Serial(o: Origin, order: seq<seq<Op>>, c: Cell): Value {
    if order == [] then FirstVal(o, c)
    else After(order[|order| - 1], Serial(o, order[..|order| - 1], c), c)
  }

  /** Every read returned what it would return when run alone after those transactions. */
  ghost predicate Consistent(o: Origin, ops: seq<Op>, order: seq<seq<Op>>) {
    forall k :: 0 <= k < |ops| && ops[k].ReadOp? ==>
          ops[k].val == After(ops[..k], Serial(o, order, ops[k].cell), ops[k].cell)
  }

  ghost predicate SerialRun(o: Origin, order: seq<seq<Op>>) {
    forall k :: 0 <= k < |order| ==> Consistent(o, order[k], order[..k])
  }

  /** Running, or committing and still holding its locks. */
  predicate Serving(s: State, t: TxId) {
    t in s.txns && (s.txns[t].phase.Active? || s.txns[t].phase.Committing?)
  }

  /** Two-phase locking: a serving transaction holds a lock on all it read and owns all it wrote. */
  ghost predicate OpsLocked(s: State, t: TxId)
    requires t in s.txns
  {
    forall k :: 0 <= k < |s.txns[t].ops| ==>
      && s.txns[t].ops[k].cell.block in s.txns[t].held
      && (s.txns[t].ops[k].WriteOp? ==> s.txns[t].held[s.txns[t].ops[k].cell.block] == X)
  }

  /** The log agrees with what it did, and nobody has changed its cells since. */
  ghost predicate OpsLogged(o: Origin, s: State, t: TxId, c: Cell)
    requires t in s.txns && Base(o) <= |s.log| == |s.news|
  {
    var i := LastHit(s.log, Base(o), |s.log|, {t}, c);
    && LastWrite(s.txns[t].ops, c) == (if i >= Base(o) then Some(s.news[i]) else None)
    && (i >= Base(o) ==> forall k :: i < k < |s.log| ==> !Hit(s.log, k, {TxNumber(s.log[k])}, c))
  }

  predicate Committing(s: State, t: TxId) {
    t in s.txns && s.txns[t].phase.Committing?
  }

  /** The transactions that have begun to release their locks after a commit. */
  ghost function Done(o: Origin, s: State): set<TxId>
    requires Base(o) <= |s.log|
  {
    set t | t in CommittedTxs(s.log, Base(o), |s.log|) && !Committing(s, t)
  }

  ghost predicate OrderLogged(o: Origin, s: State, c: Cell)
    requires Base(o) <= |s.log| == |s.news|
  {
    Serial(o, s.order, c) == ValueBy(o, s.log, s.news, |s.log|, Done(o, s), c)
  }

  ghost predicate ServingOk(o: Origin, s: State, t: TxId)
    requires t in s.txns && Base(o) <= |s.log| == |s.news|
  {
    OpsLocked(s, t) && Consistent(o, s.txns[t].ops, s.order) && forall c :: OpsLogged(o, s, t, c)
  }

  ghost predicate SerialOk(o: Origin, s: State)
    requires Base(o) <= |s.log| == |s.news|
  {
    && (forall t :: Serving(s, t) ==> ServingOk(o, s, t))
    && (forall c :: OrderLogged(o, s, c))
    && SerialRun(o, s.order)
  }

  /** A serving transaction that changed a cell owns its block. */
  lemma ServingOwns(o: Origin, s: State, t: TxId, c: Cell)
    requires Base(o) <= |s.log| == |s.news| && t in s.txns && OpsLocked(s, t) && OpsLogged(o, s, t, c)
    requires LastHit(s.log, Base(o), |s.log|, {t}, c) >= Base(o)
    ensures Owns(s, t, c.block)
  {
    WroteIt(s.txns[t].ops, c);
  }

  lemma {:induction false} WroteIt(ops: seq<Op>, c: Cell)
    requires LastWrite(ops, c).Some?
    ensures exists k :: 0 <= k < |ops| && ops[k].WriteOp? && ops[k].cell == c
  {
    if !(ops[|ops| - 1].WriteOp? && ops[|ops| - 1].cell == c) {
      WroteIt(ops[..|ops| - 1], c);
      var k :| 0 <= k < |ops| - 1 && ops[..|ops| - 1][k].WriteOp? && ops[..|ops| - 1][k].cell == c;
      assert ops[k].WriteOp?;
    } else {
      assert ops[|ops| - 1].WriteOp?;
    }
  }

  /** What a read returns. */
  lemma ReadSees(o: Origin, s: State, t: TxId, c: Cell)
    requires Good(o, s) && SerialOk(o, s) && t in s.txns && s.txns[t].phase.Active? && c.block in s.txns[t].held
    ensures Current(s, c) == After(s.txns[t].ops, Serial(o, s.order, c), c)
  {
    assert ValueOk(o, s, c) && ServingOk(o, s, t) && OpsLogged(o, s, t, c) && OrderLogged(o, s, c);
    if !OpenOn(o, s, t, c) {
      NobodyElse(o, s, t, c);
      SameByDone(o, s, c);
    }
  }

  /** Nobody else has the cell open or is committing a change to it. */
  lemma NobodyElse(o: Origin, s: State, t: TxId, c: Cell)
    requires LogStateOk(o, s) && (forall u :: Serving(s, u) ==> ServingOk(o, s, u))
    requires t in s.txns && c.block in s.txns[t].held
    ensures forall u :: u != t ==> !OpenOn(o, s, u, c)
    ensures forall u :: u != t && Serving(s, u) ==> LastHit(s.log, Base(o), |s.log|, {u}, c) < Base(o)
  {
    forall u | u != t
      ensures !OpenOn(o, s, u, c) && (Serving(s, u) ==> LastHit(s.log, Base(o), |s.log|, {u}, c) < Base(o))
    {
      if OpenOn(o, s, u, c) {
        OpenOwns(o, s, u, c);
        Exclusive(s.table, HeldsOf(s), c.block, u, t);
      }
      if Serving(s, u) && LastHit(s.log, Base(o), |s.log|, {u}, c) >= Base(o) {
        assert ServingOk(o, s, u) && OpsLogged(o, s, u, c);
        ServingOwns(o, s, u, c);
        Exclusive(s.table, HeldsOf(s), c.block, u, t);
      }
    }
  }

  /** Committing transactions that did not change a cell make no difference to it. */
  lemma SameByDone(o: Origin, s: State, c: Cell)
    requires Base(o) <= |s.log| == |s.news|
    requires forall u :: Committing(s, u) ==> LastHit(s.log, Base(o), |s.log|, {u}, c) < Base(o)
    ensures Wanted(o, s.log, s.news, |s.log|, c) == ValueBy(o, s.log, s.news, |s.log|, Done(o, s), c)
  {
    var all, done := CommittedTxs(s.log, Base(o), |s.log|), Done(o, s);
    forall k | Base(o) <= k < |s.log| ensures Hit(s.log, k, all, c) <==> Hit(s.log, k, done, c) {
      assert Hit(s.log, k, all, c) && s.log[k].tx !in done ==> !Hit(s.log, k, {s.log[k].tx}, c);
    }
    SameLast(s.log, s.log, Base(o), |s.log|, all, done, c);
  }

  ghost predicate LocksGrow(s: State, s': State, t: TxId)
    requires t in s.txns && t in s'.txns
  {
    forall b :: b in s.txns[t].held ==> b in s'.txns[t].held && (s.txns[t].held[b] == X ==> s'.txns[t].held[b] == X)
  }

  /** Steps after which every serving transaction has done what it had done before. */
  ghost predicate SameDeeds(s: State, s': State) {
    && s'.log == s.log && s'.news == s.news && s'.order == s.order
    && (forall t :: Committing(s', t) <==> Committing(s, t))
    && (forall t :: Serving(s', t) && t in s.txns ==>
         Serving(s, t) && s'.txns[t].ops == s.txns[t].ops && LocksGrow(s, s', t))
    && (forall t :: Serving(s', t) && t !in s.txns ==> t == s.nextTx + 1 && s'.txns[t].ops == [])
  }

  lemma SameDeedsKept(o: Origin, s: State, s': State)
    requires LogStateOk(o, s) && SerialOk(o, s) && SameDeeds(s, s')
    ensures SerialOk(o, s')
  {
    assert Done(o, s') == Done(o, s);
    forall c ensures OrderLogged(o, s', c) {
      assert OrderLogged(o, s, c);
    }
    forall t | Serving(s', t) ensures ServingOk(o, s', t) {
      if t in s.txns {
        assert ServingOk(o, s, t);
        assert forall c :: OpsLogged(o, s, t, c) ==> OpsLogged(o, s', t, c);
      } else {
        forall c ensures OpsLogged(o, s', t, c) {
          NewcomerNotOpen(o, s, t, c);
        }
      }
    }
  }

  lemma DeedsSLock(s: State, t: TxId, b: BlockId)
    requires Enabled(s, SLock(t, b))
    ensures SameDeeds(s, DoSLock(s, t, b))
  {
  }

  lemma DeedsXUpgrade(s: State, t: TxId, b: BlockId)
    requires Enabled(s, XUpgrade(t, b))
    ensures SameDeeds(s, DoXUpgrade(s, t, b))
  {
  }

  lemma DeedsRelease(s: State, step: Step)
    requires Enabled(s, step) && (step.Unlock? || step.End?)
    ensures SameDeeds(s, Apply(s, step))
  {
  }

  lemma DeedsPin(s: State, t: TxId, b: BlockId)
    requires Enabled(s, Pin(t, b))
    ensures SameDeeds(s, DoPin(s, t, b))
  {
    DeedsOfPins(s, DoPin(s, t, b), t);
  }

  lemma DeedsUnpin(s: State, t: TxId, b: BlockId)
    requires Enabled(s, Unpin(t, b))
    ensures SameDeeds(s, DoUnpin(s, t, b))
  {
    DeedsOfPins(s, DoUnpin(s, t, b), t);
  }

  /** Only one transaction's list of pinned blocks changed. */
  lemma DeedsOfPins(s: State, s': State, t: TxId)
    requires s'.log == s.log && s'.news == s.news && s'.order == s.order && t in s.txns && t in s'.txns
    requires s'.txns == s.txns[t := s.txns[t].(pinned := s'.txns[t].pinned)]
    ensures SameDeeds(s, s')
  {
  }

  lemma DeedsFlush(s: State, i: nat)
    requires Enabled(s, FlushFrame(i))
    ensures SameDeeds(s, FlushedFrame(s, i))
  {
  }

  lemma DeedsLog(s: State, step: Step)
    requires Enabled(s, step) && (step.FlushLog? || StartsLogBlock(step))
    ensures SameDeeds(s, Apply(s, step))
  {
  }

  lemma DeedsPhase(s: State, step: Step)
    requires Enabled(s, step) && (step.BeginRollback? || step.Abandoned?)
    ensures SameDeeds(s, Apply(s, step))
  {
  }

  lemma DeedsUndo(s: State, t: TxId)
    requires Enabled(s, UndoOne(t))
    ensures SameDeeds(s, DoUndo(s, t))
  {
  }

  lemma DeedsBegin(s: State)
    requires LocksOk(s)
    ensures SameDeeds(s, DoBegin(s))
  {
    assert s.nextTx + 1 !in s.txns;
  }

  /** Reading adds a read that the serial order explains. */
  lemma ReadKept(o: Origin, s: State, t: TxId, c: Cell)
    requires Good(o, s) && SerialOk(o, s) && Enabled(s, ReadCell(t, c))
    ensures SerialOk(o, DoRead(s, t, c))
  {
    var s' := DoRead(s, t, c);
    var op := ReadOp(c, Current(s, c));
    ReadSees(o, s, t, c);
    assert Done(o, s') == Done(o, s);
    forall d ensures OrderLogged(o, s', d) {
      assert OrderLogged(o, s, d);
    }
    forall u | Serving(s', u) ensures ServingOk(o, s', u) {
      assert ServingOk(o, s, u);
      forall d ensures OpsLogged(o, s', u, d) {
        assert OpsLogged(o, s, u, d);
        if u == t {
          LastAppend(s.txns[t].ops, op, d);
        }
      }
      if u == t {
        ConsistentAppend(o, s.txns[t].ops, op, s.order);
      }
    }
  }

  lemma LastAppend(ops: seq<Op>, op: Op, c: Cell)
    ensures LastWrite(ops + [op], c) == if op.WriteOp? && op.cell == c then Some(op.val) else LastWrite(ops, c)
  {
    assert (ops + [op])[..|ops|] == ops;
  }

  lemma ConsistentAppend(o: Origin, ops: seq<Op>, op: Op, order: seq<seq<Op>>)
    requires Consistent(o, ops, order)
    requires op.ReadOp? ==> op.val == After(ops, Serial(o, order, op.cell), op.cell)
    ensures Consistent(o, ops + [op], order)
  {
    var ops' := ops + [op];
    forall k | 0 <= k < |ops'| && ops'[k].ReadOp?
      ensures ops'[k].val == After(ops'[..k], Serial(o, order, ops'[k].cell), ops'[k].cell)
    {
      assert ops'[..k] == ops[..k];
      assert ops[..|ops|] == ops;
    }
  }

  /** A record that is not an update by a transaction already done, and not the cell's. */
  lemma OrderAppend(o: Origin, s: State, s': State, r: Rec, v: Value, c: Cell)
    requires Base(o) <= |s.log| == |s.news| && OrderLogged(o, s, c)
    requires s'.log == s.log + [r] && s'.news == s.news + [v] && s'.order == s.order
    requires Done(o, s') == Done(o, s) && (r.Update? ==> r.tx !in Done(o, s))
    ensures OrderLogged(o, s', c)
  {
    AppendLast(o, s.log, s.news, r, v, Done(o, s), c);
  }

  lemma WriteSerial(o: Origin, s: State, t: TxId, c: Cell, v: Value)
    requires Good(o, s) && SerialOk(o, s) && Enabled(s, WriteCell(t, c, v))
    ensures SerialOk(o, DoWrite(s, t, c, v))
  {
    var s' := DoWrite(s, t, c, v);
    var r := Update(t, c, Current(s, c));
    AppendCommitted(s.log, r, Base(o));
    assert Done(o, s') == Done(o, s);
    assert PhaseOk(o, s, t);
    NotCommitted(o, s.log, t);
    forall d ensures OrderLogged(o, s', d) {
      assert OrderLogged(o, s, d);
      OrderAppend(o, s, s', r, v, d);
    }
    NobodyElse(o, s, t, c);
    forall u | Serving(s', u) ensures ServingOk(o, s', u) {
      assert ServingOk(o, s, u);
      if u == t {
        ConsistentAppend(o, s.txns[t].ops, WriteOp(c, v), s.order);
      }
      forall d ensures OpsLogged(o, s', u, d) {
        assert OpsLogged(o, s, u, d);
        WriteLogged(o, s, s', t, c, r, v, u, d);
      }
    }
  }

  lemma NotCommitted(o: Origin, log: seq<Rec>, t: TxId)
    requires Base(o) <= |log| && !EndedIn(log, Base(o), |log|, t)
    ensures t !in CommittedTxs(log, Base(o), |log|)
  {
    if t in CommittedTxs(log, Base(o), |log|) {
      var j :| Base(o) <= j < |log| && log[j].Commit? && log[j].tx == t;
      assert Ends(log, j, t);
    }
  }

  lemma WriteLogged(o: Origin, s: State, s': State, t: TxId, c: Cell, r: Rec, v: Value, u: TxId, d: Cell)
    requires Base(o) <= |s.log| == |s.news| && u in s.txns && u in s'.txns && OpsLogged(o, s, u, d)
    requires r.Update? && r.tx == t && r.cell == c && s'.log == s.log + [r] && s'.news == s.news + [v]
    requires s'.txns[u].ops == if u == t then s.txns[u].ops + [WriteOp(c, v)] else s.txns[u].ops
    requires u != t && d == c ==> LastHit(s.log, Base(o), |s.log|, {u}, c) < Base(o)
    ensures OpsLogged(o, s', u, d)
  {
    var log, log' := s.log, s'.log;
    AppendLast(o, log, s.news, r, v, {u}, d);
    LastAppend(s.txns[u].ops, WriteOp(c, v), d);
    var i, i' := LastHit(log, Base(o), |log|, {u}, d), LastHit(log', Base(o), |log'|, {u}, d);
    if i' >= Base(o) {
      assert i' == (if u == t && d == c then |log| else i);
      NoLaterHit(log, r, i, i', u, d);
    }
  }

  /** Behind the last update of a cell by u nobody has updated it, nor does a record added by u or to
      another cell. */
  lemma NoLaterHit(log: seq<Rec>, r: Rec, i: int, i': int, u: TxId, d: Cell)
    requires i' == |log| || (i' == i && !(r.Update? && r.cell == d))
    requires i' == i ==> forall k :: 0 <= k < |log| && i < k ==> !Hit(log, k, {TxNumber(log[k])}, d)
    ensures forall k :: 0 <= k <= |log| && i' < k ==> !Hit(log + [r], k, {TxNumber((log + [r])[k])}, d)
  {
    forall k | 0 <= k <= |log| && i' < k ensures !Hit(log + [r], k, {TxNumber((log + [r])[k])}, d) {
      if k < |log| {
        assert !Hit(log, k, {TxNumber(log[k])}, d);
      }
    }
  }

  /** Appending the last record of a transaction changes nobody's deeds. */
  lemma EndingSerial(o: Origin, s: State, s': State, t: TxId, r: Rec)
    requires Good(o, s) && SerialOk(o, s) && (r == Commit(t) || r == Rollback(t)) && Open(s, t)
    requires s'.log == s.log + [r] && s'.news == s.news + [ZERO] && s'.order == s.order
    requires s'.txns.Keys == s.txns.Keys && (forall u :: u in s.txns && u != t ==> s'.txns[u] == s.txns[u])
    requires s'.txns[t].ops == s.txns[t].ops && s'.txns[t].held == s.txns[t].held
    requires Committing(s', t) <==> r == Commit(t)
    requires Serving(s', t) ==> Serving(s, t)
    ensures SerialOk(o, s')
  {
    assert PhaseOk(o, s, t);
    NotCommitted(o, s.log, t);
    AppendCommitted(s.log, r, Base(o));
    assert Done(o, s') == Done(o, s);
    forall c ensures OrderLogged(o, s', c) {
      assert OrderLogged(o, s, c);
      OrderAppend(o, s, s', r, ZERO, c);
    }
    forall u | Serving(s', u) ensures ServingOk(o, s', u) {
      assert ServingOk(o, s, u);
      forall c ensures OpsLogged(o, s', u, c) {
        assert OpsLogged(o, s, u, c);
        EndLogged(o, s, s', r, u, c);
      }
    }
  }

  lemma EndLogged(o: Origin, s: State, s': State, r: Rec, u: TxId, c: Cell)
    requires Base(o) <= |s.log| == |s.news| && u in s.txns && u in s'.txns && OpsLogged(o, s, u, c)
    requires !r.Update? && s'.log == s.log + [r] && s'.news == s.news + [ZERO] && s'.txns[u].ops == s.txns[u].ops
    ensures OpsLogged(o, s', u, c)
  {
    AppendLast(o, s.log, s.news, r, ZERO, {u}, c);
    var i := LastHit(s.log, Base(o), |s.log|, {u}, c);
    forall k | i < k < |s.log| ensures Hit(s'.log, k, {TxNumber(s'.log[k])}, c) <==>
          Hit(s.log, k, {TxNumber(s.log[k])}, c) { }
  }

  /** Beginning to release extends the serial order by one transaction. */
  lemma CommittedSerial(o: Origin, s: State, t: TxId)
    requires Good(o, s) && SerialOk(o, s) && Enabled(s, Committed(t))
    ensures SerialOk(o, DoCommitted(s, t))
  {
    var s' := DoCommitted(s, t);
    var ops := s.txns[t].ops;
    assert ServingOk(o, s, t) && PhaseOk(o, s, t);
    CommittedDone(o, s, t);
    assert s'.order[..|s.order|] == s.order;
    forall c ensures OrderLogged(o, s', c) {
      assert OrderLogged(o, s, c) && OpsLogged(o, s, t, c);
      DoneWith(o, s, t, c);
    }
    forall k | 0 <= k < |s'.order| ensures Consistent(o, s'.order[k], s'.order[..k]) {
      assert s'.order[..k] == s.order[..k];
      assert s.order[..|s.order|] == s.order;
    }
    forall u | Serving(s', u) ensures ServingOk(o, s', u) {
      assert ServingOk(o, s, u);
      forall c ensures OpsLogged(o, s', u, c) {
        assert OpsLogged(o, s, u, c);
      }
      StillConsistent(o, s, t, u);
    }
  }

  lemma CommittedDone(o: Origin, s: State, t: TxId)
    requires Base(o) <= |s.log| && Committing(s, t) && PhaseOk(o, s, t)
    ensures Done(o, DoCommitted(s, t)) == Done(o, s) + {t}
  {
    var j := s.txns[t].phase.lsn - 1;
    assert s.log[j].Commit? && s.log[j].tx == t;
    assert t in CommittedTxs(s.log, Base(o), |s.log|);
  }

  lemma DoneWith(o: Origin, s: State, t: TxId, c: Cell)
    requires Base(o) <= |s.log| == |s.news| && t in s.txns && OpsLogged(o, s, t, c)
    ensures ValueBy(o, s.log, s.news, |s.log|, Done(o, s) + {t}, c) ==
              After(s.txns[t].ops, ValueBy(o, s.log, s.news, |s.log|, Done(o, s), c), c)
  {
    var log, done := s.log, Done(o, s);
    var i := LastHit(log, Base(o), |log|, {t}, c);
    if i >= Base(o) {
      assert Hit(log, i, done + {t}, c);
      forall k | i < k < |log| ensures !Hit(log, k, done + {t}, c) {
        assert !Hit(log, k, {TxNumber(log[k])}, c);
      }
      assert LastHit(log, Base(o), |log|, done + {t}, c) == i;
    } else {
      forall k | Base(o) <= k < |log| ensures Hit(log, k, done + {t}, c) <==> Hit(log, k, done, c) {
        assert !Hit(log, k, {t}, c);
      }
      SameLast(log, log, Base(o), |log|, done + {t}, done, c);
    }
  }

  /** The transactions still running read nothing that t wrote. */
  lemma StillConsistent(o: Origin, s: State, t: TxId, u: TxId)
    requires LogStateOk(o, s) && (forall x :: Serving(s, x) ==> ServingOk(o, s, x))
    requires Serving(s, t) && Serving(s, u) && u != t
    ensures Consistent(o, s.txns[u].ops, s.order + [s.txns[t].ops])
  {
    var ops, order' := s.txns[u].ops, s.order + [s.txns[t].ops];
    assert ServingOk(o, s, u) && ServingOk(o, s, t);
    assert order'[..|s.order|] == s.order;
    forall k | 0 <= k < |ops| && ops[k].ReadOp?
      ensures ops[k].val == After(ops[..k], Serial(o, order', ops[k].cell), ops[k].cell)
    {
      var c := ops[k].cell;
      assert OpsLogged(o, s, t, c);
      if LastWrite(s.txns[t].ops, c).Some? {
        ServingOwns(o, s, t, c);
        Exclusive(s.table, HeldsOf(s), c.block, t, u);
      }
      assert Serial(o, order', c) == Serial(o, s.order, c);
    }
  }

  /** Every step keeps the serial order an explanation. */
  lemma SerialKept(o: Origin, s: State, step: Step)
    requires Good(o, s) && SerialOk(o, s) && Enabled(s, step) && Good(o, Apply(s, step))
    ensures SerialOk(o, Apply(s, step))
  {
    if step.ReadCell? {
      ReadKept(o, s, step.t, step.c);
    } else if step.WriteCell? {
      WriteSerial(o, s, step.t, step.c, step.v);
    } else if step.AppendCommit? {
      EndingSerial(o, s, DoAppendCommit(s, step.t), step.t, Commit(step.t));
    } else if step.AppendRollback? {
      EndingSerial(o, s, DoAppendRollback(s, step.t), step.t, Rollback(step.t));
    } else if step.Committed? {
      CommittedSerial(o, s, step.t);
    } else {
      DeedsKept(o, s, step);
    }
  }

  lemma DeedsKept(o: Origin, s: State, step: Step)
    requires Good(o, s) && SerialOk(o, s) && Enabled(s, step) && Good(o, Apply(s, step))
    requires !step.ReadCell? && !step.WriteCell? && !step.AppendCommit? && !step.AppendRollback? && !step.Committed?
    ensures SerialOk(o, Apply(s, step))
  {
    assert SameDeeds(s, Apply(s, step)) by {
      if step.Begin? {
        DeedsBegin(s);
      } else if step.Pin? {
        DeedsPin(s, step.t, step.b);
      } else if step.Unpin? {
        DeedsUnpin(s, step.t, step.b);
      } else if step.FlushFrame? {
        DeedsFlush(s, step.i);
      } else if step.FlushLog? || StartsLogBlock(step) {
        DeedsLog(s, step);
      } else if step.UndoOne? {
        DeedsUndo(s, step.t);
      } else if step.BeginRollback? || step.Abandoned? {
        DeedsPhase(s, step);
      } else if step.SLock? {
        DeedsSLock(s, step.t, step.b);
      } else if step.XUpgrade? {
        DeedsXUpgrade(s, step.t, step.b);
      } else {
        DeedsRelease(s, step);
      }
    }
    SameDeedsKept(o, s, Apply(s, step));
  }

  lemma {:induction false} SerialAlways(o: Origin, s: State, steps: seq<Step>, s': State)
    requires Good(o, s) && SerialOk(o, s) && Run(s, steps, s') && forall k :: 0 <= k < |steps| ==> Fresh(o, steps[k])
    ensures Good(o, s') && SerialOk(o, s')
    decreases |steps|
  {
    if steps != [] {
      GoodKept(o, s, steps[0]);
      SerialKept(o, s, steps[0]);
      SerialAlways(o, Apply(s, steps[0]), steps[1..], s');
    }
  }

  /** Serial equivalence, for every interleaving of any number of transactions: all reads of committed
      transactions are those of the serial run, and when nobody is left the contents are its contents. */
  lemma SerialEquivalence(o: Origin, s: State, steps: seq<Step>, s': State)
    requires Init(s) && o == Origin(s.log, s.disk) && Run(s, steps, s')
    requires forall k :: 0 <= k < |steps| ==> Fresh(o, steps[k])
    ensures SerialRun(o, s'.order)
    ensures s'.txns == map[] ==> forall c :: Current(s', c) == Serial(o, s'.order, c)
  {
    InitGood(o, s);
    InitSerial(o, s);
    SerialAlways(o, s, steps, s');
    if s'.txns == map[] {
      forall c ensures Current(s', c) == Serial(o, s'.order, c) {
        assert ValueOk(o, s', c) && OrderLogged(o, s', c);
        SameByDone(o, s', c);
      }
    }
  }

  lemma InitSerial(o: Origin, s: State)
    requires Init(s) && o == Origin(s.log, s.disk)
    ensures SerialOk(o, s)
  {
    assert Done(o, s) == {};
  }
}
