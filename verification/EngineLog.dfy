/** What the log says about committed values, and what every run keeps true of the log. */
module EngineLog {
  import opened Keys
  import opened Locks
  import opened Recovery
  import opened Engine
  import opened LockAgreement

  /** Where a process started: the log it found and the blocks on disk. */
  datatype Origin = Origin(past: seq<Rec>, disk: map<BlockId, BlockData>)

  function Base(o: Origin): nat { |o.past| }

  function FirstVal(o: Origin, c: Cell): Value {
    ReadOff(ReadBlock(o.disk, c.block), c.offset)
  }

  /** Record i is an update of c by one of some transactions. */
  predicate Hit(log: seq<Rec>, i: int, ts: set<TxId>, c: Cell) {
    0 <= i < |log| && log[i].Update? && log[i].cell == c && log[i].tx in ts
  }

  /** The last of records start .. n - 1 that is such an update, or start - 1. */
  function LastHit(log: seq<Rec>, start: nat, n: nat, ts: set<TxId>, c: Cell): (i: int)
    requires start <= n <= |log|
    ensures start - 1 <= i < n
    ensures i >= start ==> Hit(log, i, ts, c)
    ensures forall k :: i < k < n ==> !Hit(log, k, ts, c)
  {
    if n == start then start - 1 else if Hit(log, n - 1, ts, c) then n - 1 else LastHit(log, start, n - 1, ts, c)
  }

  /** Two searches that meet the same updates end at the same record. */
  lemma SameLast(log: seq<Rec>, log': seq<Rec>, start: nat, n: nat, ts: set<TxId>, us: set<TxId>, c: Cell)
    requires start <= n <= |log| && n <= |log'|
    requires forall k :: start <= k < n ==> (Hit(log, k, ts, c) <==> Hit(log', k, us, c))
    ensures LastHit(log, start, n, ts, c) == LastHit(log', start, n, us, c)
  {
    var i, j := LastHit(log, start, n, ts, c), LastHit(log', start, n, us, c);
    assert i >= start ==> Hit(log, i, ts, c);
    assert j >= start ==> Hit(log', j, us, c);
  }

  /** The first of records n .. that is such an update, or the length of the log. */
  function NextHit(log: seq<Rec>, n: nat, ts: set<TxId>, c: Cell): (i: nat)
    requires n <= |log|
    ensures n <= i <= |log|
    ensures i < |log| ==> Hit(log, i, ts, c)
    ensures forall k :: n <= k < i ==> !Hit(log, k, ts, c)
    decreases |log| - n
  {
    if n == |log| || Hit(log, n, ts, c) then n else NextHit(log, n + 1, ts, c)
  }

  /** The transactions with a commit record among records start .. n - 1. */
  ghost function CommittedTxs(log: seq<Rec>, start: nat, n: nat): set<TxId>
    requires n <= |log|
  {
    set j | start <= j < n && log[j].Commit? :: log[j].tx
  }

  /** The value the updates of some transactions leave in a cell. */
  ghost function ValueBy(o: Origin, log: seq<Rec>, news: seq<Value>, n: nat, ts: set<TxId>, c: Cell): Value
    requires Base(o) <= n <= |log| == |news|
  {
    var i := LastHit(log, Base(o), n, ts, c);
    if i >= Base(o) then news[i] else FirstVal(o, c)
  }

  /** The last committed value of a cell, going by the first n records. */
  ghost function Wanted(o: Origin, log: seq<Rec>, news: seq<Value>, n: nat, c: Cell): Value
    requires Base(o) <= n <= |log| == |news|
  {
    ValueBy(o, log, news, n, CommittedTxs(log, Base(o), n), c)
  }

  /** Record j ends transaction t. */
  predicate Ends(log: seq<Rec>, j: int, t: TxId) {
    0 <= j < |log| && (log[j] == Commit(t) || log[j] == Rollback(t))
  }

  ghost predicate EndedIn(log: seq<Rec>, lo: int, hi: int, t: TxId) {
    exists j :: lo <= j < hi && Ends(log, j, t)
  }

  predicate Tail(log: seq<Rec>, start: nat, i: int) {
    start <= i < |log|
  }

  lemma EndedWider(log: seq<Rec>, lo: int, hi: int, lo': int, hi': int, t: TxId)
    requires lo' <= lo && hi <= hi'
    ensures EndedIn(log, lo, hi, t) ==> EndedIn(log, lo', hi', t)
  {
  }

  /** A transaction writes nothing more after its last record. */
  ghost predicate EndOnce(log: seq<Rec>, start: nat) {
    forall j, k, t :: start <= j < k < |log| && Ends(log, j, t) ==> TxNumber(log[k]) != t
  }

  /** Between updates of a cell by two transactions the first one ended. */
  ghost predicate Excluding(log: seq<Rec>, start: nat) {
    forall i, k, t, u, c :: start <= i < k && Hit(log, i, {t}, c) && Hit(log, k, {u}, c) && t != u ==>
          EndedIn(log, i + 1, k, t)
  }

  /** The before-image of a transaction's first update of a cell is the last committed value. */
  ghost predicate FirstBefores(o: Origin, log: seq<Rec>, news: seq<Value>)
    requires |log| == |news|
  {
    forall i, t, c :: Tail(log, Base(o), i) && NextHit(log, Base(o), {t}, c) == i ==>
          log[i].before == Wanted(o, log, news, i, c)
  }

  ghost predicate LogOk(o: Origin, log: seq<Rec>, news: seq<Value>) {
    && o.past <= log && |log| == |news|
    && (forall i :: Tail(log, Base(o), i) ==> log[i].Update? || log[i].Commit? || log[i].Rollback?)
    && EndOnce(log, Base(o)) && Excluding(log, Base(o)) && FirstBefores(o, log, news)
  }

  /** Not yet giving up its locks. */
  predicate Holding(s: State, t: TxId) {
    t in s.txns && !s.txns[t].phase.Releasing?
  }

  predicate Open(s: State, t: TxId) {
    t in s.txns && (s.txns[t].phase.Active? || s.txns[t].phase.Undoing?)
  }

  predicate Owns(s: State, t: TxId, b: BlockId) {
    t in s.txns && b in s.txns[t].held && s.txns[t].held[b] == X
  }

  /** An update's transaction has its last record on disk or still owns the block. */
  ghost predicate Owned(o: Origin, s: State) {
    forall i :: Tail(s.log, Base(o), i) && s.log[i].Update? ==>
      EndedIn(s.log, Base(o), s.saved, s.log[i].tx)
          || (Holding(s, s.log[i].tx) && Owns(s, s.log[i].tx, s.log[i].cell.block))
  }

  /** Rolling a transaction back undoes no update of an old log. */
  ghost predicate FreshNumber(past: seq<Rec>, t: TxId) {
    forall i, c :: !UndoneBy(past, t, i, c)
  }

  /** What is left of an old log below a log position. */
  function Below(past: seq<Rec>, pos: nat): seq<Rec> {
    if pos < |past| then past[..pos] else past
  }

  /** A transaction's phase is what the log says. */
  ghost predicate PhaseOk(o: Origin, s: State, t: TxId)
    requires t in s.txns
  {
    match s.txns[t].phase
    case Active => !EndedIn(s.log, Base(o), |s.log|, t)
    case Undoing(pos) => pos <= |s.log| && !EndedIn(s.log, Base(o), |s.log|, t) && FreshNumber(Below(o.past, pos), t)
    case Committing(lsn) => Base(o) < lsn <= |s.log| && s.log[lsn - 1] == Commit(t)
    case Undid(lsn) => Base(o) < lsn <= |s.log| && s.log[lsn - 1] == Rollback(t)
    case Releasing => true
  }

  ghost predicate LogStateOk(o: Origin, s: State) {
    && LocksOk(s) && LogOk(o, s.log, s.news) && Base(o) <= s.saved <= |s.log|
    && (forall i :: Tail(s.log, Base(o), i) ==> 0 < TxNumber(s.log[i]) <= s.nextTx)
    && Owned(o, s) && (forall t :: t in s.txns ==> PhaseOk(o, s, t))
  }

  /** The searches and the committed values read only the records they are told to read. */
  lemma AppendFrame(o: Origin, log: seq<Rec>, news: seq<Value>, r: Rec, v: Value, n: nat, ts: set<TxId>, c: Cell)
    requires Base(o) <= n <= |log| == |news|
    ensures LastHit(log + [r], Base(o), n, ts, c) == LastHit(log, Base(o), n, ts, c)
    ensures ValueBy(o, log + [r], news + [v], n, ts, c) == ValueBy(o, log, news, n, ts, c)
    ensures CommittedTxs(log + [r], Base(o), n) == CommittedTxs(log, Base(o), n)
    ensures Wanted(o, log + [r], news + [v], n, c) == Wanted(o, log, news, n, c)
  {
    forall k: int, b: set<TxId> ensures k < |log| ==> (Hit(log + [r], k, b, c) <==> Hit(log, k, b, c)) { }
    var cs := CommittedTxs(log, Base(o), n);
    assert forall j :: 0 <= j < n ==> (log + [r])[j] == log[j];
    forall t ensures t in CommittedTxs(log + [r], Base(o), n) <==> t in cs {
      assert t in cs <==> exists j :: Base(o) <= j < n && (log[j].Commit? && log[j].tx == t);
      assert t in CommittedTxs(log + [r], Base(o), n) <==>
               exists j :: Base(o) <= j < n && ((log + [r])[j].Commit? && (log + [r])[j].tx == t);
    }
    assert LastHit(log + [r], Base(o), n, ts, c) == LastHit(log, Base(o), n, ts, c);
    assert LastHit(log + [r], Base(o), n, cs, c) == LastHit(log, Base(o), n, cs, c);
  }

  lemma NextAppend(log: seq<Rec>, r: Rec, n: nat, ts: set<TxId>, c: Cell)
    requires n <= |log|
    ensures NextHit(log, n, ts, c) < |log| ==> NextHit(log + [r], n, ts, c) == NextHit(log, n, ts, c)
    ensures NextHit(log, n, ts, c) == |log| ==>
              NextHit(log + [r], n, ts, c) == |log| || NextHit(log + [r], n, ts, c) == |log| + 1
  {
    forall k ensures k < |log| ==> (Hit(log + [r], k, ts, c) <==> Hit(log, k, ts, c)) { }
  }

  /** Appending a record of a transaction that has not ended, whose cell nobody else holds open. */
  lemma LogAppend(o: Origin, log: seq<Rec>, news: seq<Value>, r: Rec, v: Value)
    requires LogOk(o, log, news) && (r.Update? || r.Commit? || r.Rollback?)
    requires !EndedIn(log, Base(o), |log|, r.tx)
    requires r.Update? ==> forall i, t :: Base(o) <= i && t != r.tx && Hit(log, i, {t}, r.cell) ==>
               EndedIn(log, i + 1, |log|, t)
    requires r.Update? && NextHit(log, Base(o), {r.tx}, r.cell) == |log| ==>
               r.before == Wanted(o, log, news, |log|, r.cell)
    ensures LogOk(o, log + [r], news + [v])
  {
    var log', news' := log + [r], news + [v];
    forall i, k, t, u, c | Base(o) <= i < k && Hit(log', i, {t}, c) && Hit(log', k, {u}, c) && t != u
      ensures EndedIn(log', i + 1, k, t)
    {
      assert Hit(log, i, {t}, c);
      assert k < |log| ==> Hit(log, k, {u}, c);
      assert EndedIn(log, i + 1, k, t);
      var j :| i + 1 <= j < k && Ends(log, j, t);
      assert Ends(log', j, t);
    }
    forall i, t, c | Tail(log', Base(o), i) && NextHit(log', Base(o), {t}, c) == i
      ensures log'[i].before == Wanted(o, log', news', i, c)
    {
      NextAppend(log, r, Base(o), {t}, c);
      AppendFrame(o, log, news, r, v, i, {}, c);
      assert i < |log| ==> Tail(log, Base(o), i);
    }
    forall j, k, t | Base(o) <= j < k < |log'| && Ends(log', j, t) ensures TxNumber(log'[k]) != t {
      assert Ends(log, j, t);
    }
  }

  /** A state with the same log, at least as much of it saved, whose transactions hold on to what they
      own unless their last record is saved. */
  lemma QuietLog(o: Origin, s: State, s': State)
    requires LogStateOk(o, s) && LocksOk(s')
    requires s'.log == s.log && s'.news == s.news && s.saved <= s'.saved <= |s.log| && s.nextTx <= s'.nextTx
    requires forall t :: Holding(s, t) ==> Holding(s', t) || EndedIn(s.log, Base(o), s'.saved, t)
    requires forall t, b :: Holding(s, t) && Owns(s, t, b) ==> Owns(s', t, b) || EndedIn(s.log, Base(o), s'.saved, t)
    requires forall t :: t in s'.txns ==> PhaseOk(o, s', t)
    ensures LogStateOk(o, s')
  {
    forall i | Tail(s'.log, Base(o), i) && s'.log[i].Update?
      ensures EndedIn(s'.log, Base(o), s'.saved, s'.log[i].tx)
              || (Holding(s', s'.log[i].tx) && Owns(s', s'.log[i].tx, s'.log[i].cell.block))
    {
      if EndedIn(s.log, Base(o), s.saved, s.log[i].tx) {
        var j :| Base(o) <= j < s.saved && Ends(s.log, j, s.log[i].tx);
      }
    }
  }

  /** Steps that change neither the log nor anybody's phase. */
  predicate Quiet(step: Step) {
    step.Begin? || step.SLock? || step.XUpgrade? || step.Pin? || step.Unpin? || step.FlushLog? || step.FlushFrame?
    || step.ReadCell? || step.Unlock? || step.End? || StartsLogBlock(step)
  }

  /** What they leave alone. */
  ghost predicate QuietStep(s: State, s': State) {
    && s'.log == s.log && s'.news == s.news && s.saved <= s'.saved
       && s'.saved <= (if s.saved > |s.log| then s.saved else |s.log|)
    && s.nextTx <= s'.nextTx
    && (forall t :: Holding(s, t) ==> Holding(s', t) && s'.txns[t].phase == s.txns[t].phase)
    && (forall t, b :: Holding(s, t) && Owns(s, t, b) ==> Owns(s', t, b))
    && (forall t :: t in s'.txns && t !in s.txns ==> t == s.nextTx + 1 && s'.txns[t].phase.Active?)
    && (forall t :: t in s'.txns && t in s.txns ==> s'.txns[t].phase == s.txns[t].phase)
  }

  lemma QuietSLock(s: State, t: TxId, b: BlockId)
    requires Enabled(s, SLock(t, b))
    ensures QuietStep(s, DoSLock(s, t, b))
  {
  }

  lemma QuietXUpgrade(s: State, t: TxId, b: BlockId)
    requires Enabled(s, XUpgrade(t, b))
    ensures QuietStep(s, DoXUpgrade(s, t, b))
  {
  }

  lemma QuietRelease(s: State, step: Step)
    requires Enabled(s, step) && (step.Unlock? || step.End?)
    ensures QuietStep(s, Apply(s, step))
  {
  }

  lemma QuietPin(s: State, t: TxId, b: BlockId)
    requires Enabled(s, Pin(t, b))
    ensures QuietStep(s, DoPin(s, t, b))
  {
  }

  lemma QuietUnpin(s: State, t: TxId, b: BlockId)
    requires Enabled(s, Unpin(t, b))
    ensures QuietStep(s, DoUnpin(s, t, b))
  {
  }

  lemma QuietRead(s: State, step: Step)
    requires Enabled(s, step) && step.ReadCell?
    ensures QuietStep(s, Apply(s, step))
  {
  }

  lemma QuietFlush(s: State, step: Step)
    requires Enabled(s, step) && (step.FlushLog? || step.FlushFrame?) && s.saved <= |s.log|
    ensures QuietStep(s, Apply(s, step))
  {
  }

  lemma QuietTorn(s: State, step: Step)
    requires Enabled(s, step) && StartsLogBlock(step) && s.saved <= |s.log|
    ensures QuietStep(s, Apply(s, step))
  {
  }

  lemma QuietBegin(s: State)
    requires LocksOk(s)
    ensures QuietStep(s, Apply(s, Begin))
  {
    assert s.nextTx + 1 !in s.txns;
  }

  lemma QuietIs(o: Origin, s: State, step: Step)
    requires LogStateOk(o, s) && Enabled(s, step) && Quiet(step)
    ensures QuietStep(s, Apply(s, step))
  {
    if step.Begin? {
      QuietBegin(s);
    } else if step.FlushLog? || step.FlushFrame? {
      QuietFlush(s, step);
    } else if step.Pin? {
      QuietPin(s, step.t, step.b);
    } else if step.Unpin? {
      QuietUnpin(s, step.t, step.b);
    } else if step.ReadCell? {
      QuietRead(s, step);
    } else if StartsLogBlock(step) {
      QuietTorn(s, step);
    } else if step.SLock? {
      QuietSLock(s, step.t, step.b);
    } else if step.XUpgrade? {
      QuietXUpgrade(s, step.t, step.b);
    } else {
      QuietRelease(s, step);
    }
  }

  lemma QuietKept(o: Origin, s: State, step: Step)
    requires LogStateOk(o, s) && Enabled(s, step) && Quiet(step)
    ensures LogStateOk(o, Apply(s, step))
  {
    LocksKept(s, step);
    QuietIs(o, s, step);
    QuietLogState(o, s, Apply(s, step));
  }

  lemma QuietLogState(o: Origin, s: State, s': State)
    requires LogStateOk(o, s) && LocksOk(s') && QuietStep(s, s')
    ensures LogStateOk(o, s')
  {
    forall t | t in s'.txns ensures PhaseOk(o, s', t) {
      if t in s.txns {
        assert PhaseOk(o, s, t);
      } else {
        forall j ensures !(Base(o) <= j < |s.log| && Ends(s.log, j, t)) {
          assert Tail(s.log, Base(o), j) ==> TxNumber(s.log[j]) <= s.nextTx;
        }
      }
    }
    QuietLog(o, s, s');
  }

  /** A transaction is done once its last record is on disk. */
  lemma ReleaseKept(o: Origin, s: State, t: TxId, step: Step)
    requires LogStateOk(o, s) && Enabled(s, step) && (step == Committed(t) || step == Abandoned(t))
    ensures LogStateOk(o, Apply(s, step))
  {
    LocksKept(s, step);
    assert PhaseOk(o, s, t);
    assert Ends(s.log, s.txns[t].phase.lsn - 1, t);
    Released(o, s, Apply(s, step), t);
  }

  /** A transaction whose last record is saved starts to release. */
  lemma Released(o: Origin, s: State, s': State, t: TxId)
    requires LogStateOk(o, s) && LocksOk(s') && t in s.txns && EndedIn(s.log, Base(o), s.saved, t)
    requires s'.log == s.log && s'.news == s.news && s'.saved == s.saved && s'.nextTx == s.nextTx
    requires s'.txns == s.txns[t := s.txns[t].(phase := Releasing)]
    ensures LogStateOk(o, s')
  {
    forall u | u in s'.txns ensures PhaseOk(o, s', u) {
      assert PhaseOk(o, s, u);
    }
    QuietLog(o, s, s');
  }

  lemma BeginRollbackKept(o: Origin, s: State, t: TxId)
    requires LogStateOk(o, s) && Enabled(s, BeginRollback(t)) && FreshNumber(o.past, t)
    ensures LogStateOk(o, DoBeginRollback(s, t))
  {
    var s' := DoBeginRollback(s, t);
    LocksKept(s, BeginRollback(t));
    forall u | u in s'.txns ensures PhaseOk(o, s', u) {
      assert PhaseOk(o, s, u);
    }
    QuietLog(o, s, s');
  }

  /** One record further down an old log there is still nothing to undo. */
  lemma BelowStep(past: seq<Rec>, pos: nat, t: TxId)
    requires pos > 0 && FreshNumber(Below(past, pos), t) && (pos <= |past| ==> past[pos - 1] != Start(t))
    ensures FreshNumber(Below(past, pos - 1), t)
  {
    var rest := Below(past, pos - 1);
    forall i, c ensures !UndoneBy(rest, t, i, c) {
      assert !UndoneBy(Below(past, pos), t, i, c);
    }
  }

  lemma UndoPhase(o: Origin, s: State, t: TxId)
    requires LogStateOk(o, s) && Enabled(s, UndoOne(t))
    ensures PhaseOk(o, DoUndo(s, t), t)
  {
    var pos := s.txns[t].phase.pos;
    assert PhaseOk(o, s, t);
    if s.log[pos - 1] != Start(t) {
      BelowStep(o.past, pos, t);
    }
  }

  lemma UndoKept(o: Origin, s: State, t: TxId)
    requires LogStateOk(o, s) && Enabled(s, UndoOne(t))
    ensures LogStateOk(o, DoUndo(s, t))
  {
    LocksKept(s, UndoOne(t));
    UndoPhase(o, s, t);
    PhaseMoved(o, s, DoUndo(s, t), t);
  }

  /** One open transaction moved on, and nothing else the log has to do with changed. */
  lemma PhaseMoved(o: Origin, s: State, s': State, t: TxId)
    requires LogStateOk(o, s) && LocksOk(s') && t in s.txns && t in s'.txns && PhaseOk(o, s', t)
    requires s'.log == s.log && s'.news == s.news && s'.saved == s.saved && s'.nextTx == s.nextTx
    requires s'.txns == s.txns[t := s.txns[t].(phase := s'.txns[t].phase)] && !s'.txns[t].phase.Releasing?
    ensures LogStateOk(o, s')
  {
    forall u | u in s'.txns ensures PhaseOk(o, s', u) {
      assert PhaseOk(o, s, u);
    }
    QuietLog(o, s, s');
  }

  /** Appending a record changes nothing about who has ended in the log so far. */
  lemma EndedBefore(log: seq<Rec>, r: Rec)
    ensures forall j, u :: j < |log| ==> (Ends(log + [r], j, u) <==> Ends(log, j, u))
    ensures forall lo, hi, u :: hi <= |log| ==> (EndedIn(log + [r], lo, hi, u) <==> EndedIn(log, lo, hi, u))
  {
    forall j, u ensures j < |log| ==> (Ends(log + [r], j, u) <==> Ends(log, j, u)) { }
    forall lo, hi, u | hi <= |log| ensures EndedIn(log + [r], lo, hi, u) <==> EndedIn(log, lo, hi, u) {
      if EndedIn(log, lo, hi, u) {
        var j :| lo <= j < hi && Ends(log, j, u);
        assert Ends(log + [r], j, u);
      }
    }
  }

  /** The state after appending a record, whatever else happened to the frames. */
  lemma AppendedState(o: Origin, s: State, s': State, r: Rec, v: Value, t: TxId)
    requires LogStateOk(o, s) && LocksOk(s') && Open(s, t) && !r.Checkpoint? && r.tx == t
             && LogOk(o, s.log + [r], s.news + [v])
    requires r.Commit? || r.Rollback? || (r.Update? && Owns(s, t, r.cell.block))
    requires s'.log == s.log + [r] && s'.news == s.news + [v] && s'.saved == s.saved && s'.nextTx == s.nextTx
    requires s'.txns.Keys == s.txns.Keys && s'.txns[t].held == s.txns[t].held && !s'.txns[t].phase.Releasing?
    requires forall u :: u in s.txns && u != t ==> s'.txns[u] == s.txns[u]
    requires PhaseOk(o, s', t)
    ensures LogStateOk(o, s')
  {
    EndedBefore(s.log, r);
    forall u | u in s'.txns ensures PhaseOk(o, s', u) {
      if u != t {
        assert PhaseOk(o, s, u);
        assert EndedIn(s'.log, Base(o), |s'.log|, u) ==> EndedIn(s.log, Base(o), |s.log|, u);
      }
    }
    forall i | Tail(s'.log, Base(o), i)
      ensures 0 < TxNumber(s'.log[i]) <= s'.nextTx
      ensures s'.log[i].Update? ==>
                || EndedIn(s'.log, Base(o), s'.saved, s'.log[i].tx)
                || (Holding(s', s'.log[i].tx) && Owns(s', s'.log[i].tx, s'.log[i].cell.block))
    {
      assert i < |s.log| ==> Tail(s.log, Base(o), i);
    }
  }

  lemma WriteKept(o: Origin, s: State, t: TxId, c: Cell, v: Value)
    requires LogStateOk(o, s) && Enabled(s, WriteCell(t, c, v))
    requires NextHit(s.log, Base(o), {t}, c) == |s.log| ==> Current(s, c) == Wanted(o, s.log, s.news, |s.log|, c)
    ensures LogStateOk(o, DoWrite(s, t, c, v))
  {
    LocksKept(s, WriteCell(t, c, v));
    assert PhaseOk(o, s, t);
    forall i, u | Base(o) <= i && u != t && Hit(s.log, i, {u}, c) ensures EndedIn(s.log, i + 1, |s.log|, u) {
      EndedAfter(o, s, i, u, t, c.block);
    }
    LogAppend(o, s.log, s.news, Update(t, c, Current(s, c)), v);
    var s' := DoWrite(s, t, c, v);
    assert forall j :: Ends(s'.log, j, t) ==> Ends(s.log, j, t);
    AppendedState(o, s, s', Update(t, c, Current(s, c)), v, t);
  }

  /** Whoever updated a block that t owns has ended since. */
  lemma EndedAfter(o: Origin, s: State, i: int, u: TxId, t: TxId, b: BlockId)
    requires LogStateOk(o, s) && Owns(s, t, b) && u != t
    requires Tail(s.log, Base(o), i) && s.log[i].Update? && s.log[i].tx == u && s.log[i].cell.block == b
    ensures EndedIn(s.log, i + 1, s.saved, u)
  {
    if Holding(s, u) && Owns(s, u, b) {
      Exclusive(s.table, HeldsOf(s), b, t, u);
    }
    var j :| Base(o) <= j < s.saved && Ends(s.log, j, u);
  }

  lemma AppendCommitKept(o: Origin, s: State, t: TxId)
    requires LogStateOk(o, s) && Enabled(s, AppendCommit(t))
    ensures LogStateOk(o, DoAppendCommit(s, t))
  {
    LocksKept(s, AppendCommit(t));
    assert PhaseOk(o, s, t);
    LogAppend(o, s.log, s.news, Commit(t), ZERO);
    AppendedState(o, s, DoAppendCommit(s, t), Commit(t), ZERO, t);
  }

  lemma AppendRollbackKept(o: Origin, s: State, t: TxId)
    requires LogStateOk(o, s) && Enabled(s, AppendRollback(t))
    ensures LogStateOk(o, DoAppendRollback(s, t))
  {
    LocksKept(s, AppendRollback(t));
    assert PhaseOk(o, s, t);
    LogAppend(o, s.log, s.news, Rollback(t), ZERO);
    AppendedState(o, s, DoAppendRollback(s, t), Rollback(t), ZERO, t);
  }

  /** Every step keeps the log in order, provided a transaction's first before-image of a cell is the
      last committed value and a transaction rolls back only under a number the old log lacks. */
  lemma LogStateKept(o: Origin, s: State, step: Step)
    requires LogStateOk(o, s) && Enabled(s, step)
    requires step.BeginRollback? ==> FreshNumber(o.past, step.t)
    requires step.WriteCell? && NextHit(s.log, Base(o), {step.t}, step.c) == |s.log| ==>
               Current(s, step.c) == Wanted(o, s.log, s.news, |s.log|, step.c)
    ensures LogStateOk(o, Apply(s, step))
  {
    if Quiet(step) {
      QuietKept(o, s, step);
    } else {
      match step {
        case WriteCell(t, c, v) => WriteKept(o, s, t, c, v);
        case AppendCommit(t) => AppendCommitKept(o, s, t);
        case Committed(t) => ReleaseKept(o, s, t, step);
        case BeginRollback(t) => BeginRollbackKept(o, s, t);
        case UndoOne(t) => UndoKept(o, s, t);
        case AppendRollback(t) => AppendRollbackKept(o, s, t);
        case Abandoned(t) => ReleaseKept(o, s, t, step);
      }
    }
  }
}
