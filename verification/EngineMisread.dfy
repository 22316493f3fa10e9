/** Where recovery fails: the guard of crash atomicity is exact.  Whatever the values, recovery is right
    for a log of a given shape only if the log is not torn and no misread rollback record harms a cell. */
module EngineMisread {
  import opened Keys
  import opened Locks
  import opened Frames
  import opened Recovery
  import opened Engine
  import opened LockAgreement
  import opened EnginePool
  import opened EngineLog
  import opened EngineValues
  import opened EngineCrash

  /** The same record but for the value it saves. */
  predicate SameShape(r: Rec, r': Rec) {
    r' == r || (r.Update? && r'.Update? && r'.tx == r.tx && r'.cell == r.cell)
  }

  /** Another crash whose saved log has the same shape. */
  ghost predicate SameCrash(o: Origin, s: State, s': State) {
    && s'.torn == s.torn && s'.saved == s.saved <= |s.log| && s.saved <= |s'.log|
    && forall i :: 0 <= i < s.saved ==> SameShape(s.log[i], s'.log[i])
  }

  /** Recovery gives the cell its committed value. */
  ghost predicate Recovers(o: Origin, s: State, store: Store, c: Cell)
    requires Safe(o, s)
  {
    RecoversTo(s, store, c, Wanted(o, s.log, s.news, s.saved, c))
  }

  /** Recovery is right for every crash of a shape, whatever values were written and whatever had reached
      the disk, exactly when the log is not torn and misread rollback records do no harm. */
  lemma RecoversIff(o: Origin, s: State, c: Cell)
    requires Safe(o, s) && StartsClean(o)
    ensures (forall s', store :: Safe(o, s') && SameCrash(o, s, s') && Get(store, c) == DiskVal(s', c) ==>
              Recovers(o, s', store, c))
            <==> !s.torn && Recoverable(o, s, c)
  {
    if !s.torn && Recoverable(o, s, c) {
      forall s', store | Safe(o, s') && SameCrash(o, s, s') && Get(store, c) == DiskVal(s', c)
        ensures Recovers(o, s', store, c) {
        SameRecoverable(o, s, s', c);
        CrashAtomic(o, s', store, c);
      }
    } else if s.torn {
      var store: Store := map[c := DiskVal(s, c)];
      assert SameCrash(o, s, s) && !Recovers(o, s, store, c);
    } else {
      var s', store := Harmed(o, s, c);
    }
  }

  /** The guard is a matter of shape. */
  lemma SameRecoverable(o: Origin, s: State, s': State, c: Cell)
    requires SameCrash(o, s, s') && Recoverable(o, s, c)
    ensures Recoverable(o, s', c)
  {
    SameCommitted(o, s, s');
    forall i ensures Reverted(o, s', i, c) <==> Reverted(o, s, i, c) {
      SameReverted(o, s, s', i, c);
    }
    forall i ensures Hidden(o, s', i, c) <==> Hidden(o, s, i, c) {
      SameHidden(o, s, s', i, c);
    }
    forall i, k | Reverted(o, s', i, c) && i < k < s'.saved
      ensures !Hit(s'.log, k, CommittedTxs(s'.log, Base(o), s'.saved), c)
    {
      assert SameShape(s.log[k], s'.log[k]);
      assert !Hit(s.log, k, CommittedTxs(s.log, Base(o), s.saved), c);
    }
  }

  lemma SameCommitted(o: Origin, s: State, s': State)
    requires SameCrash(o, s, s')
    ensures CommittedTxs(s'.log, Base(o), s.saved) == CommittedTxs(s.log, Base(o), s.saved)
  {
    forall t ensures t in CommittedTxs(s'.log, Base(o), s.saved) <==> t in CommittedTxs(s.log, Base(o), s.saved) {
      assert forall j :: Base(o) <= j < s.saved ==> SameShape(s.log[j], s'.log[j]);
      assert t in CommittedTxs(s.log, Base(o), s.saved) <==>
               exists j :: Base(o) <= j < s.saved && s.log[j].Commit? && s.log[j].tx == t;
      assert t in CommittedTxs(s'.log, Base(o), s.saved) <==>
               exists j :: Base(o) <= j < s.saved && s'.log[j].Commit? && s'.log[j].tx == t;
    }
  }

  lemma SameReverted(o: Origin, s: State, s': State, i: int, c: Cell)
    requires SameCrash(o, s, s')
    ensures Reverted(o, s', i, c) <==> Reverted(o, s, i, c)
  {
    assert forall j :: 0 <= j < s.saved ==> SameShape(s.log[j], s'.log[j]);
  }

  lemma SameHidden(o: Origin, s: State, s': State, i: int, c: Cell)
    requires SameCrash(o, s, s')
    ensures Hidden(o, s', i, c) <==> Hidden(o, s, i, c)
  {
    assert forall j :: 0 <= j < s.saved ==> SameShape(s.log[j], s'.log[j]);
    assert RollbackAfter(s'.log, i, s.saved) <==> RollbackAfter(s.log, i, s.saved);
    forall t, j | 0 <= j < s.saved ensures Ends(s'.log, j, t) <==> Ends(s.log, j, t) { }
    assert Unfinished(o, s', i, c) <==> Unfinished(o, s, i, c);
  }

  // A crash of the same shape in which every update stores a value of its own.

  /** A value that only update i stores. */
  function Mark(o: Origin, c: Cell, i: int): (v: Value)
    ensures v != FirstVal(o, c) || i < 0
  {
    IntVal(i + if FirstVal(o, c).IntVal? && FirstVal(o, c).i >= 0 then FirstVal(o, c).i + 1 else 0)
  }

  lemma MarksDiffer(o: Origin, c: Cell, i: int, j: int)
    ensures Mark(o, c, i) == Mark(o, c, j) ==> i == j
  {
  }

  function Marks(o: Origin, c: Cell, n: nat): (news: seq<Value>)
    ensures |news| == n && forall i :: 0 <= i < n ==> news[i] == Mark(o, c, i)
  {
    seq(n, i => Mark(o, c, i))
  }

  /** What update i of a log finds: the committed value, or what its transaction wrote before. */
  ghost function Found(o: Origin, log: seq<Rec>, news: seq<Value>, i: nat): Value
    requires Base(o) <= i < |log| == |news| && log[i].Update?
  {
    var own := LastHit(log, Base(o), i, {log[i].tx}, log[i].cell);
    if own >= Base(o) then news[own] else Wanted(o, log, news, i, log[i].cell)
  }

  ghost function Remade(o: Origin, log: seq<Rec>, news: seq<Value>): (log': seq<Rec>)
    requires Base(o) <= |log| == |news|
    ensures |log'| == |log|
    ensures forall i :: 0 <= i < |log| ==> SameShape(log[i], log'[i])
    ensures forall i :: 0 <= i < Base(o) ==> log'[i] == log[i]
    ensures forall i :: Base(o) <= i < |log| && log[i].Update? ==>
              log'[i] == Update(log[i].tx, log[i].cell, Found(o, log, news, i))
  {
    seq(|log|, i requires 0 <= i < |log| =>
      if i >= Base(o) && log[i].Update? then Update(log[i].tx, log[i].cell, Found(o, log, news, i)) else log[i])
  }

  ghost predicate AllSameShape(log: seq<Rec>, log': seq<Rec>) {
    |log'| == |log| && forall i :: 0 <= i < |log| ==> SameShape(log[i], log'[i])
  }

  /** Which records are updates of whom, and who ended, is a matter of shape. */
  lemma ShapeHits(log: seq<Rec>, log': seq<Rec>)
    requires AllSameShape(log, log')
    ensures forall i, ts, c :: Hit(log', i, ts, c) <==> Hit(log, i, ts, c)
    ensures forall j, t :: Ends(log', j, t) <==> Ends(log, j, t)
    ensures forall lo, hi, t :: EndedIn(log', lo, hi, t) <==> EndedIn(log, lo, hi, t)
  {
    forall i, ts: set<TxId>, c ensures Hit(log', i, ts, c) <==> Hit(log, i, ts, c) {
      assert 0 <= i < |log| ==> SameShape(log[i], log'[i]);
    }
    forall j, t ensures Ends(log', j, t) <==> Ends(log, j, t) {
      assert 0 <= j < |log| ==> SameShape(log[j], log'[j]);
    }
  }

  lemma ShapeCommitted(log: seq<Rec>, log': seq<Rec>, start: nat, n: nat)
    requires AllSameShape(log, log') && n <= |log|
    ensures CommittedTxs(log', start, n) == CommittedTxs(log, start, n)
  {
    var cs, cs' := CommittedTxs(log, start, n), CommittedTxs(log', start, n);
    assert forall j :: start <= j < n ==> SameShape(log[j], log'[j]);
    forall t ensures t in cs' <==> t in cs {
      assert t in cs <==> exists j :: start <= j < n && log[j].Commit? && log[j].tx == t;
      assert t in cs' <==> exists j :: start <= j < n && log'[j].Commit? && log'[j].tx == t;
    }
  }

  lemma ShapeSearch(o: Origin, log: seq<Rec>, log': seq<Rec>, news: seq<Value>, n: nat, ts: set<TxId>, c: Cell)
    requires AllSameShape(log, log') && Base(o) <= n <= |log| == |news|
    ensures LastHit(log', Base(o), n, ts, c) == LastHit(log, Base(o), n, ts, c)
    ensures NextHit(log', n, ts, c) == NextHit(log, n, ts, c)
    ensures Wanted(o, log', news, n, c) == Wanted(o, log, news, n, c)
    ensures ValueBy(o, log', news, n, ts, c) == ValueBy(o, log, news, n, ts, c)
  {
    ShapeHits(log, log');
    ShapeCommitted(log, log', Base(o), n);
    SameLast(log, log', Base(o), n, ts, ts, c);
    var cs := CommittedTxs(log, Base(o), n);
    SameLast(log, log', Base(o), n, cs, cs, c);
  }

  /** The transactions with updates that were not rolled back. */
  ghost function Alive(log: seq<Rec>, start: nat): set<TxId> {
    set i | start <= i < |log| && log[i].Update? && !RolledBackIn(log, start, log[i].tx) :: log[i].tx
  }

  ghost predicate RolledBackIn(log: seq<Rec>, start: nat, t: TxId) {
    exists j :: start <= j < |log| && log[j] == Rollback(t)
  }

  /** The value that the updates not rolled back leave in a cell. */
  ghost function Left(o: Origin, log: seq<Rec>, news: seq<Value>, c: Cell): Value
    requires Base(o) <= |log| == |news|
  {
    ValueBy(o, log, news, |log|, Alive(log, Base(o)), c)
  }

  /** What the log keeps true that is a matter of shape. */
  ghost predicate Orderly(o: Origin, log: seq<Rec>) {
    && (forall i :: Tail(log, Base(o), i) ==> log[i].Update? || log[i].Commit? || log[i].Rollback?)
    && Base(o) <= |log| && EndOnce(log, Base(o)) && Excluding(log, Base(o))
  }

  lemma SavedOrderly(o: Origin, s: State)
    requires LogStateOk(o, s)
    ensures Orderly(o, s.log[..s.saved])
  {
    var log := s.log[..s.saved];
    forall j, t ensures Ends(log, j, t) <==> j < s.saved && Ends(s.log, j, t) { }
    forall i, ts: set<TxId>, c ensures Hit(log, i, ts, c) <==> i < s.saved && Hit(s.log, i, ts, c) { }
    forall i, k, t, u, c | Base(o) <= i < k && Hit(log, i, {t}, c) && Hit(log, k, {u}, c) && t != u
      ensures EndedIn(log, i + 1, k, t)
    {
      assert EndedIn(s.log, i + 1, k, t);
      var j :| i + 1 <= j < k && Ends(s.log, j, t);
      assert Ends(log, j, t);
    }
    forall i | Tail(log, Base(o), i) ensures log[i].Update? || log[i].Commit? || log[i].Rollback? {
      assert Tail(s.log, Base(o), i);
    }
  }

  /** An unfinished transaction's update of a cell is the last that was not rolled back. */
  lemma LeftOpen(o: Origin, log: seq<Rec>, news: seq<Value>, t: TxId, c: Cell)
    requires Orderly(o, log) && |news| == |log| && !EndedIn(log, Base(o), |log|, t)
    requires LastHit(log, Base(o), |log|, {t}, c) >= Base(o)
    ensures Left(o, log, news, c) == news[LastHit(log, Base(o), |log|, {t}, c)]
  {
    var alive := Alive(log, Base(o));
    var i := LastHit(log, Base(o), |log|, {t}, c);
    assert t in alive by {
      if j :| Base(o) <= j < |log| && log[j] == Rollback(t) {
        assert Ends(log, j, t);
      }
      assert log[i].Update? && !RolledBackIn(log, Base(o), log[i].tx);
    }
    assert Hit(log, i, alive, c);
    forall k | i < k < |log| ensures !Hit(log, k, alive, c) {
      if Hit(log, k, alive, c) {
        var u := log[k].tx;
        assert Hit(log, k, {u}, c);
        EndedWider(log, i + 1, k, Base(o), |log|, t);
      }
    }
  }

  /** If every update of a cell is by a transaction that has ended, the committed ones are left. */
  lemma LeftClosed(o: Origin, log: seq<Rec>, news: seq<Value>, c: Cell)
    requires Orderly(o, log) && |news| == |log|
    requires forall i :: Base(o) <= i && UpdateAt(log, i, c) ==> EndedIn(log, Base(o), |log|, log[i].tx)
    ensures Left(o, log, news, c) == Wanted(o, log, news, |log|, c)
  {
    var alive, cs := Alive(log, Base(o)), CommittedTxs(log, Base(o), |log|);
    forall k | Base(o) <= k < |log| ensures Hit(log, k, alive, c) <==> Hit(log, k, cs, c) {
      if UpdateAt(log, k, c) {
        AliveIsCommitted(o, log, k);
      }
    }
    SameLast(log, log, Base(o), |log|, alive, cs, c);
  }

  lemma AliveIsCommitted(o: Origin, log: seq<Rec>, k: nat)
    requires Orderly(o, log) && Base(o) <= k < |log| && log[k].Update? && EndedIn(log, Base(o), |log|, log[k].tx)
    ensures log[k].tx in Alive(log, Base(o)) <==> log[k].tx in CommittedTxs(log, Base(o), |log|)
  {
    var t := log[k].tx;
    var e :| Base(o) <= e < |log| && Ends(log, e, t);
    if log[e] == Commit(t) {
      if j :| Base(o) <= j < |log| && log[j] == Rollback(t) {
        OneEnd(o, log, e, j, t);
      }
      assert !RolledBackIn(log, Base(o), t);
    } else {
      if t in CommittedTxs(log, Base(o), |log|) {
        var j :| Base(o) <= j < |log| && log[j].Commit? && log[j].tx == t;
        OneEnd(o, log, e, j, t);
      }
    }
  }

  /** A transaction ends once. */
  lemma OneEnd(o: Origin, log: seq<Rec>, e: int, j: int, t: TxId)
    requires Orderly(o, log) && Base(o) <= e < |log| && Base(o) <= j < |log| && Ends(log, e, t) && Ends(log, j, t)
    ensures e == j
  {
    assert TxNumber(log[e]) == TxNumber(log[j]) == t;
  }

  // The disk that holds what is left.

  ghost function RemadeBlock(o: Origin, log: seq<Rec>, news: seq<Value>, b: BlockId): BlockData
    requires Base(o) <= |log| == |news|
  {
    var offsets := ReadBlock(o.disk, b).Keys
                   + set i | Base(o) <= i < |log| && log[i].Update? && log[i].cell.block == b :: log[i].cell.offset;
    map off | off in offsets :: Left(o, log, news, Cell(b, off))
  }

  ghost function RemadeDisk(o: Origin, log: seq<Rec>, news: seq<Value>): map<BlockId, BlockData>
    requires Base(o) <= |log| == |news|
  {
    var blocks := o.disk.Keys + set i | Base(o) <= i < |log| && log[i].Update? :: log[i].cell.block;
    map b | b in blocks :: RemadeBlock(o, log, news, b)
  }

  lemma RemadeVal(o: Origin, log: seq<Rec>, news: seq<Value>, c: Cell)
    requires Base(o) <= |log| == |news|
    ensures ReadOff(ReadBlock(RemadeDisk(o, log, news), c.block), c.offset) == Left(o, log, news, c)
  {
    var i := LastHit(log, Base(o), |log|, Alive(log, Base(o)), c);
    if i >= Base(o) {
      assert Hit(log, i, Alive(log, Base(o)), c);
    }
    assert Cell(c.block, c.offset) == c;
  }

  ghost function RemadeTxn(o: Origin, log: seq<Rec>, t: TxId, x: Txn): Txn {
    x.(phase := if EndedIn(log, Base(o), |log|, t) then Releasing else Active)
  }

  /** The state: nothing in the pool, all on disk, whoever has not ended running. */
  ghost function RemadeState(o: Origin, s: State, c: Cell): State
    requires Base(o) <= s.saved <= |s.log|
  {
    var log := s.log[..s.saved];
    var news := Marks(o, c, s.saved);
    s.(disk := RemadeDisk(o, log, news), pool := [], log := Remade(o, log, news), news := news,
       txns := map t | t in s.txns :: RemadeTxn(o, log, t, s.txns[t]))
  }

  lemma RemadeLogOk(o: Origin, s: State, c: Cell)
    requires LogStateOk(o, s)
    ensures LogOk(o, RemadeState(o, s, c).log, RemadeState(o, s, c).news)
  {
    var log := s.log[..s.saved];
    var news := Marks(o, c, s.saved);
    var log' := Remade(o, log, news);
    SavedOrderly(o, s);
    ShapeHits(log, log');
    forall i | Tail(log', Base(o), i) ensures log'[i].Update? || log'[i].Commit? || log'[i].Rollback? {
      assert Tail(log, Base(o), i) && SameShape(log[i], log'[i]);
    }
    forall j, k, t | Base(o) <= j < k < |log'| && Ends(log', j, t) ensures TxNumber(log'[k]) != t {
      assert Ends(log, j, t) && SameShape(log[k], log'[k]);
    }
    forall i, t, d | Tail(log', Base(o), i) && NextHit(log', Base(o), {t}, d) == i
      ensures log'[i].before == Wanted(o, log', news, i, d)
    {
      FirstFound(o, log, news, i, t, d);
    }
    assert o.past <= log';
  }

  /** A transaction's first update of a cell finds the committed value. */
  lemma FirstFound(o: Origin, log: seq<Rec>, news: seq<Value>, i: nat, t: TxId, d: Cell)
    requires Base(o) <= i < |log| == |news| && NextHit(Remade(o, log, news), Base(o), {t}, d) == i
    ensures Remade(o, log, news)[i].Update?
    ensures Remade(o, log, news)[i].before == Wanted(o, Remade(o, log, news), news, i, d)
  {
    var log' := Remade(o, log, news);
    ShapeHits(log, log');
    assert Hit(log', i, {t}, d) && Hit(log, i, {t}, d);
    ShapeSearch(o, log, log', news, i, {t}, d);
    ShapeSearch(o, log, log', news, Base(o), {t}, d);
    assert LastHit(log, Base(o), i, {t}, d) < Base(o);
  }

  lemma RemadeLogState(o: Origin, s: State, c: Cell)
    requires LogStateOk(o, s)
    ensures LogStateOk(o, RemadeState(o, s, c))
  {
    var s' := RemadeState(o, s, c);
    RemadeLogOk(o, s, c);
    ShapeHits(s.log[..s.saved], s'.log);
    RemadeTxns(o, s, c);
    forall i | Tail(s'.log, Base(o), i)
      ensures 0 < TxNumber(s'.log[i]) <= s'.nextTx
      ensures s'.log[i].Update? ==>
                || EndedIn(s'.log, Base(o), s'.saved, s'.log[i].tx)
                || (Holding(s', s'.log[i].tx) && Owns(s', s'.log[i].tx, s'.log[i].cell.block))
    {
      RemadeAt(o, s, s', c, i);
    }
  }

  lemma RemadeTxns(o: Origin, s: State, c: Cell)
    requires LogStateOk(o, s)
    requires forall lo, hi, t ::
               EndedIn(RemadeState(o, s, c).log, lo, hi, t) <==> EndedIn(s.log[..s.saved], lo, hi, t)
    ensures var s' := RemadeState(o, s, c); LocksOk(s') && forall t :: t in s'.txns ==> PhaseOk(o, s', t)
  {
    var s' := RemadeState(o, s, c);
    assert HeldsOf(s') == HeldsOf(s);
    assert |s'.log| == s.saved;
  }

  lemma RemadeAt(o: Origin, s: State, s': State, c: Cell, i: int)
    requires LogStateOk(o, s) && s' == RemadeState(o, s, c) && Tail(s'.log, Base(o), i)
    requires forall lo, hi, t :: EndedIn(s'.log, lo, hi, t) <==> EndedIn(s.log[..s.saved], lo, hi, t)
    ensures 0 < TxNumber(s'.log[i]) <= s'.nextTx
    ensures s'.log[i].Update? ==>
              || EndedIn(s'.log, Base(o), s'.saved, s'.log[i].tx)
              || (Holding(s', s'.log[i].tx) && Owns(s', s'.log[i].tx, s'.log[i].cell.block))
  {
    assert Tail(s.log, Base(o), i) && SameShape(s.log[..s.saved][i], s'.log[i]);
    SavedEnded(o, s, TxNumber(s.log[i]));
  }

  lemma SavedEnded(o: Origin, s: State, t: TxId)
    requires s.saved <= |s.log|
    ensures EndedIn(s.log[..s.saved], Base(o), s.saved, t) <==> EndedIn(s.log, Base(o), s.saved, t)
  {
    forall j ensures Ends(s.log[..s.saved], j, t) <==> j < s.saved && Ends(s.log, j, t) { }
    if EndedIn(s.log, Base(o), s.saved, t) {
      var j :| Base(o) <= j < s.saved && Ends(s.log, j, t);
      assert Ends(s.log[..s.saved], j, t);
    }
  }

  lemma RemadeCell(o: Origin, s: State, c: Cell, d: Cell)
    requires LogStateOk(o, s)
    ensures ValueOk(o, RemadeState(o, s, c), d) && DiskOk(o, RemadeState(o, s, c), d)
  {
    var s' := RemadeState(o, s, c);
    var log := s.log[..s.saved];
    RemadeLogState(o, s, c);
    SavedOrderly(o, s);
    ShapeHits(log, s'.log);
    RemadeVal(o, log, s'.news, d);
    assert Current(s', d) == DiskVal(s', d) == Left(o, log, s'.news, d);
    forall t | OpenOn(o, s', t, d) ensures Current(s', d) == OpenVal(o, s', t, d) {
      ShapeSearch(o, log, s'.log, s'.news, |log|, {t}, d);
      LeftOpen(o, log, s'.news, t, d);
    }
    if (forall t :: !OpenOn(o, s', t, d)) || (forall i :: !Unfinished(o, s', i, d)) {
      forall i | Base(o) <= i && UpdateAt(log, i, d) ensures EndedIn(log, Base(o), |log|, log[i].tx) {
        assert Tail(s'.log, Base(o), i) && SameShape(log[i], s'.log[i]);
        if !EndedIn(s'.log, Base(o), |s'.log|, log[i].tx) {
          assert Unfinished(o, s', i, d);
          assert Hit(s'.log, i, {log[i].tx}, d);
          assert OpenOn(o, s', log[i].tx, d);
        }
      }
      LeftClosed(o, log, s'.news, d);
      ShapeSearch(o, log, s'.log, s'.news, |log|, {}, d);
    }
  }

  lemma RemadeSafe(o: Origin, s: State, c: Cell)
    requires LogStateOk(o, s)
    ensures Safe(o, RemadeState(o, s, c)) && SameCrash(o, s, RemadeState(o, s, c))
  {
    var s' := RemadeState(o, s, c);
    RemadeLogState(o, s, c);
    forall d ensures ValueOk(o, s', d) && DiskOk(o, s', d) {
      RemadeCell(o, s, c, d);
    }
    forall i | 0 <= i < s.saved ensures SameShape(s.log[i], s'.log[i]) {
      assert s.log[..s.saved][i] == s.log[i];
    }
  }

  // What recovery makes of it.

  /** The committed value: the first, or the mark of a committed update. */
  lemma WantedMark(o: Origin, log: seq<Rec>, n: nat, c: Cell) returns (m: int)
    requires Base(o) <= n <= |log|
    ensures m == LastHit(log, Base(o), n, CommittedTxs(log, Base(o), n), c)
    ensures Wanted(o, log, Marks(o, c, |log|), n, c) == if m >= Base(o) then Mark(o, c, m) else FirstVal(o, c)
  {
    m := LastHit(log, Base(o), n, CommittedTxs(log, Base(o), n), c);
  }

  /** The value an update found: the first, or the mark of an older update. */
  lemma FoundMark(o: Origin, log: seq<Rec>, i: nat) returns (m: int)
    requires Base(o) <= i < |log| && log[i].Update?
    ensures m < i && (m >= Base(o) ==> UpdateAt(log, m, log[i].cell))
    ensures LastHit(log, Base(o), i, {log[i].tx}, log[i].cell) >= Base(o) ==>
              m == LastHit(log, Base(o), i, {log[i].tx}, log[i].cell)
    ensures forall c :: log[i].cell == c ==>
              Found(o, log, Marks(o, c, |log|), i) == if m >= Base(o) then Mark(o, c, m) else FirstVal(o, c)
  {
    m := LastHit(log, Base(o), i, {log[i].tx}, log[i].cell);
    if m < Base(o) {
      m := WantedMark(o, log, i, log[i].cell);
    }
  }

  /** Where the guard fails, recovery leaves another mark than the committed one. */
  lemma Harmed(o: Origin, s: State, c: Cell) returns (s': State, store: Store)
    requires Safe(o, s) && StartsClean(o) && !s.torn && !Recoverable(o, s, c)
    ensures Safe(o, s') && SameCrash(o, s, s') && Get(store, c) == DiskVal(s', c) && !Recovers(o, s', store, c)
  {
    s' := RemadeState(o, s, c);
    RemadeSafe(o, s, c);
    store := map[c := DiskVal(s', c)];
    if Recoverable(o, s', c) {
      SameRecoverable(o, s', s, c);
    }
    HarmedBy(o, s, c, store);
  }

  lemma HarmedBy(o: Origin, s: State, c: Cell, store: Store)
    requires Safe(o, s) && StartsClean(o)
    requires var s' := RemadeState(o, s, c);
             Safe(o, s') && !Recoverable(o, s', c) && |s'.log| == s'.saved && Get(store, c) == DiskVal(s', c)
    ensures !Recovers(o, RemadeState(o, s, c), store, c)
  {
    var s' := RemadeState(o, s, c);
    RecoversBy(o, s', store, c);
    if i :| Resets(o, s', i, c) {
      var f := FirstOfResets(o, s', i, c);
      HarmedReset(o, s, c, f);
    } else {
      HarmedLeft(o, s, c);
    }
  }

  /** What recovery leaves in a cell: the before-image of the first update it undoes, or what is on disk. */
  lemma RecoversBy(o: Origin, s: State, store: Store, c: Cell)
    requires Safe(o, s) && StartsClean(o) && Get(store, c) == DiskVal(s, c)
    ensures forall f :: ResetFirst(o, s, f, c) && Recovers(o, s, store, c) ==>
              s.log[f].before == Wanted(o, s.log, s.news, s.saved, c)
    ensures (forall k :: !Resets(o, s, k, c)) && Recovers(o, s, store, c) ==>
              DiskVal(s, c) == Wanted(o, s.log, s.news, s.saved, c)
  {
    var d := Decoded(s.log[..s.saved]);
    forall i ensures Undone(d, i, c) <==> Resets(o, s, i, c) {
      ResetsIsUndone(o, s, i, c);
    }
    RecoveryMeaning(d, store, c);
    forall f | ResetFirst(o, s, f, c) ensures FirstUndone(d, f, c) { }
  }

  ghost predicate ResetFirst(o: Origin, s: State, f: int, c: Cell) {
    Resets(o, s, f, c) && forall k :: Resets(o, s, k, c) ==> k >= f
  }

  lemma {:induction false} FirstOfResets(o: Origin, s: State, i: int, c: Cell) returns (f: int)
    requires Resets(o, s, i, c)
    ensures ResetFirst(o, s, f, c)
    decreases i
  {
    f := i;
    if j :| j < i && Resets(o, s, j, c) {
      f := FirstOfResets(o, s, j, c);
    }
  }

  /** The first update undone brings back a wrong value. */
  lemma HarmedReset(o: Origin, s: State, c: Cell, f: int)
    requires Safe(o, s) && Safe(o, RemadeState(o, s, c)) && !Recoverable(o, RemadeState(o, s, c), c)
    requires Resets(o, RemadeState(o, s, c), f, c) && forall k :: Resets(o, RemadeState(o, s, c), k, c) ==> k >= f
    ensures var s' := RemadeState(o, s, c); s'.log[f].before != Wanted(o, s'.log, s'.news, s'.saved, c)
  {
    var s' := RemadeState(o, s, c);
    var log := s.log[..s.saved];
    assert SameShape(log[f], s'.log[f]) && log[f].cell == c;
    var m := FoundMark(o, log, f);
    assert s'.log[f].before == Found(o, log, s'.news, f);
    var w := WantedMark(o, s'.log, s'.saved, c);
    if i, k :| Reverted(o, s', i, c) && i < k < s'.saved && Hit(s'.log, k, CommittedTxs(s'.log, Base(o), s'.saved), c) {
      RevertedResets(o, s', i, c);
      assert w >= k > f > m;
    } else {
      var i :| Hidden(o, s', i, c) && forall j :: j < i ==> !Reverted(o, s', j, c);
      ResetIsHidden3(o, s', i, f, c);
      OwnMark(o, log, s', i, f, c, m);
      assert w != m;
    }
    MarksDiffer(o, c, m, w);
  }

  /** What the update that is undone first found there is transaction 3's own, which is not committed. */
  lemma OwnMark(o: Origin, log: seq<Rec>, s': State, i: int, f: int, c: Cell, m: int)
    requires AllSameShape(log, s'.log) && s'.saved == |log| && Hidden(o, s', i, c) && Base(o) <= i < f < |log|
    requires UpdateAt(log, f, c) && log[f].tx == 3
    requires LastHit(log, Base(o), f, {3}, c) >= Base(o) ==> m == LastHit(log, Base(o), f, {3}, c)
    ensures m >= Base(o) && Hit(s'.log, m, {3}, c) && 3 !in CommittedTxs(s'.log, Base(o), s'.saved)
  {
    ShapeHits(log, s'.log);
    assert Hit(s'.log, i, {3}, c) && Hit(log, i, {3}, c);
    assert Hit(log, m, {3}, c);
    NotCommitted3(o, s', i, c);
  }

  /** An unfinished transaction has not committed. */
  lemma NotCommitted3(o: Origin, s: State, i: int, c: Cell)
    requires Unfinished(o, s, i, c)
    ensures s.log[i].tx !in CommittedTxs(s.log, Base(o), s.saved)
  {
    if s.log[i].tx in CommittedTxs(s.log, Base(o), s.saved) {
      var j :| Base(o) <= j < s.saved && s.log[j].Commit? && s.log[j].tx == s.log[i].tx;
      assert Ends(s.log, j, s.log[i].tx);
    }
  }

  /** The first update undone, where a hidden one comes before all that were rolled back, is transaction
      3's as well, and later. */
  lemma ResetIsHidden3(o: Origin, s: State, i: int, f: int, c: Cell)
    requires LogStateOk(o, s) && Hidden(o, s, i, c) && forall j :: j < i ==> !Reverted(o, s, j, c)
    requires Resets(o, s, f, c)
    ensures f > i && s.log[f].tx == 3
  {
    var t := s.log[f].tx;
    assert Hit(s.log, f, {t}, c) && Hit(s.log, i, {3}, c);
    if f < i {
      if t != 3 {
        assert EndedIn(s.log, f + 1, i, t);
        var e :| f + 1 <= e < i && Ends(s.log, e, t);
        assert s.log[e] == Rollback(t);
        assert Reverted(o, s, f, c);
      }
    } else if t != 3 && i < f {
      assert EndedIn(s.log, i + 1, f, 3);
      EndedWider(s.log, i + 1, f, Base(o), s.saved, 3);
    }
  }

  /** Nothing is undone, and what is left is a hidden update. */
  lemma HarmedLeft(o: Origin, s: State, c: Cell)
    requires Safe(o, s) && Safe(o, RemadeState(o, s, c)) && !Recoverable(o, RemadeState(o, s, c), c)
    requires forall k :: !Resets(o, RemadeState(o, s, c), k, c)
    ensures var s' := RemadeState(o, s, c); DiskVal(s', c) != Wanted(o, s'.log, s'.news, s'.saved, c)
  {
    var s' := RemadeState(o, s, c);
    var log := s.log[..s.saved];
    forall i ensures !Reverted(o, s', i, c) {
      if Reverted(o, s', i, c) {
        RevertedResets(o, s', i, c);
      }
    }
    var i :| Hidden(o, s', i, c);
    NotCommitted3(o, s', i, c);
    ShapeHits(log, s'.log);
    SavedOrderly(o, s);
    assert Hit(s'.log, i, {3}, c) && Hit(log, i, {3}, c);
    RemadeVal(o, log, s'.news, c);
    LeftOpen(o, log, s'.news, 3, c);
    var m := LastHit(log, Base(o), |log|, {3}, c);
    assert Hit(log, m, {3}, c) && Hit(s'.log, m, {3}, c);
    var w := WantedMark(o, s'.log, s'.saved, c);
    assert w != m;
    MarksDiffer(o, c, m, w);
  }
}
