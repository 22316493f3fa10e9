/** What a client sees in a cell, in every state of every run: the last committed value, unless a
    running transaction has changed the cell. */
module EngineValues {
  import opened Keys
  import opened Locks
  import opened Frames
  import opened Recovery
  import opened Engine
  import opened LockAgreement
  import opened EnginePool
  import opened EngineLog

  /** A running transaction has changed the cell. */
  ghost predicate OpenOn(o: Origin, s: State, t: TxId, c: Cell)
    requires Base(o) <= |s.log|
  {
    Open(s, t) && LastHit(s.log, Base(o), |s.log|, {t}, c) >= Base(o)
  }

  /** The records of this process from a log position on. */
  function From(o: Origin, pos: nat): nat {
    if pos < Base(o) then Base(o) else pos
  }

  /** The value it gave the cell: the last one it wrote, or, while it undoes, the before-image of the
      oldest update it has undone. */
  ghost function OpenVal(o: Origin, s: State, t: TxId, c: Cell): Value
    requires Base(o) <= |s.log| == |s.news| && OpenOn(o, s, t, c)
  {
    var last := s.news[LastHit(s.log, Base(o), |s.log|, {t}, c)];
    if s.txns[t].phase.Active? then last
    else
      var pos := s.txns[t].phase.pos;
      var i := if pos <= |s.log| then NextHit(s.log, From(o, pos), {t}, c) else |s.log|;
      if i < |s.log| then s.log[i].before else last
  }

  ghost predicate ValueOk(o: Origin, s: State, c: Cell)
    requires Base(o) <= |s.log| == |s.news|
  {
    && (forall t :: OpenOn(o, s, t, c) ==> Current(s, c) == OpenVal(o, s, t, c))
    && ((forall t :: !OpenOn(o, s, t, c)) ==> Current(s, c) == Wanted(o, s.log, s.news, |s.log|, c))
  }

  /** Everything a run keeps true. */
  ghost predicate Good(o: Origin, s: State) {
    PoolOk(s) && LogStateOk(o, s) && forall c :: ValueOk(o, s, c)
  }

  lemma OpenOwns(o: Origin, s: State, t: TxId, c: Cell)
    requires LogStateOk(o, s) && OpenOn(o, s, t, c)
    ensures Owns(s, t, c.block) && PhaseOk(o, s, t) && !EndedIn(s.log, Base(o), |s.log|, t)
  {
    var i := LastHit(s.log, Base(o), |s.log|, {t}, c);
    assert Hit(s.log, i, {t}, c) && Tail(s.log, Base(o), i);
    assert PhaseOk(o, s, t);
    EndedWider(s.log, Base(o), s.saved, Base(o), |s.log|, t);
  }

  /** Only the owner of its block can have a cell open. */
  lemma OnlyOwnerOpen(o: Origin, s: State, t: TxId, u: TxId, c: Cell)
    requires LogStateOk(o, s) && Owns(s, t, c.block) && OpenOn(o, s, u, c)
    ensures u == t
  {
    OpenOwns(o, s, u, c);
    Exclusive(s.table, HeldsOf(s), c.block, t, u);
  }

  /** The last committed value is unchanged from a transaction's first update of the cell for as long
      as that transaction has not ended. */
  lemma WantedAcross(o: Origin, log: seq<Rec>, news: seq<Value>, f: nat, n: nat, t: TxId, c: Cell)
    requires LogOk(o, log, news) && Base(o) <= f < n <= |log| && f == NextHit(log, Base(o), {t}, c)
    requires !EndedIn(log, Base(o), n, t)
    ensures Wanted(o, log, news, f, c) == Wanted(o, log, news, n, c)
  {
    var early, late := CommittedTxs(log, Base(o), f), CommittedTxs(log, Base(o), n);
    forall k | Base(o) <= k < n ensures Hit(log, k, late, c) <==> k < f && Hit(log, k, early, c) {
      if Hit(log, k, late, c) {
        HitEarly(o, log, news, f, n, t, c, k);
      }
    }
    var i, j := LastHit(log, Base(o), n, late, c), LastHit(log, Base(o), f, early, c);
    assert i >= Base(o) ==> Hit(log, i, late, c);
    assert j >= Base(o) ==> Hit(log, j, early, c);
    assert i == j;
  }

  lemma HitEarly(o: Origin, log: seq<Rec>, news: seq<Value>, f: nat, n: nat, t: TxId, c: Cell, k: nat)
    requires LogOk(o, log, news) && Base(o) <= f < n <= |log| && f == NextHit(log, Base(o), {t}, c)
    requires !EndedIn(log, Base(o), n, t)
    requires Base(o) <= k < n && Hit(log, k, CommittedTxs(log, Base(o), n), c)
    ensures k < f && Hit(log, k, CommittedTxs(log, Base(o), f), c)
  {
    var u := log[k].tx;
    var j :| Base(o) <= j < n && log[j].Commit? && log[j].tx == u;
    assert Ends(log, j, u);
    assert Hit(log, f, {t}, c) && Hit(log, k, {u}, c);
    assert k > f && u != t ==> EndedIn(log, f + 1, k, t);
    EndedWider(log, f + 1, k, Base(o), n, t);
    EndedWider(log, j, j + 1, Base(o), n, u);
    if k < f {
      assert EndedIn(log, k + 1, f, u);
      var e :| k + 1 <= e < f && Ends(log, e, u);
      assert j <= e;
    }
  }

  /** Steps that change neither the log nor any cell, and reopen nothing. */
  lemma SameValues(o: Origin, s: State, s': State, c: Cell)
    requires Base(o) <= |s.log| == |s.news| && ValueOk(o, s, c)
    requires s'.log == s.log && s'.news == s.news && Current(s', c) == Current(s, c)
    requires forall t :: OpenOn(o, s', t, c) ==> OpenOn(o, s, t, c) && s'.txns[t].phase == s.txns[t].phase
    requires forall t :: OpenOn(o, s, t, c) ==> OpenOn(o, s', t, c)
    ensures ValueOk(o, s', c)
  {
    forall t | OpenOn(o, s', t, c) ensures Current(s', c) == OpenVal(o, s', t, c) {
      assert OpenVal(o, s', t, c) == OpenVal(o, s, t, c);
    }
  }

  lemma NewcomerNotOpen(o: Origin, s: State, t: TxId, c: Cell)
    requires LogStateOk(o, s) && t == s.nextTx + 1
    ensures LastHit(s.log, Base(o), |s.log|, {t}, c) < Base(o)
  {
    forall k ensures Tail(s.log, Base(o), k) ==> !Hit(s.log, k, {t}, c) {
      assert Tail(s.log, Base(o), k) ==> TxNumber(s.log[k]) <= s.nextTx;
    }
  }

  /** Steps other than a write or an undo that leave the log alone. */
  lemma QuietValues(o: Origin, s: State, s': State, c: Cell)
    requires LogStateOk(o, s) && ValueOk(o, s, c) && QuietStep(s, s') && Current(s', c) == Current(s, c)
    ensures ValueOk(o, s', c)
  {
    forall t ensures OpenOn(o, s', t, c) <==> OpenOn(o, s, t, c) {
      if t == s.nextTx + 1 {
        NewcomerNotOpen(o, s, t, c);
      }
    }
    SameValues(o, s, s', c);
  }

  lemma ReleaseValues(o: Origin, s: State, t: TxId, step: Step, c: Cell)
    requires LogStateOk(o, s) && ValueOk(o, s, c) && Enabled(s, step) && (step == Committed(t) || step == Abandoned(t))
    ensures ValueOk(o, Apply(s, step), c)
  {
    Released(o, s, Apply(s, step), t, c);
  }

  lemma Released(o: Origin, s: State, s': State, t: TxId, c: Cell)
    requires Base(o) <= |s.log| == |s.news| && ValueOk(o, s, c) && t in s.txns && !Open(s, t)
    requires s'.log == s.log && s'.news == s.news && Current(s', c) == Current(s, c)
    requires s'.txns == s.txns[t := s.txns[t].(phase := Releasing)]
    ensures ValueOk(o, s', c)
  {
    forall u ensures OpenOn(o, s', u, c) <==> OpenOn(o, s, u, c) { }
    SameValues(o, s, s', c);
  }

  lemma BeginRollbackValues(o: Origin, s: State, t: TxId, c: Cell)
    requires LogStateOk(o, s) && ValueOk(o, s, c) && Enabled(s, BeginRollback(t))
    ensures ValueOk(o, DoBeginRollback(s, t), c)
  {
    BegunOk(o, s, DoBeginRollback(s, t), t, c);
  }

  lemma BegunOk(o: Origin, s: State, s': State, t: TxId, c: Cell)
    requires Base(o) <= |s.log| == |s.news| && ValueOk(o, s, c) && t in s.txns && s.txns[t].phase.Active?
    requires s'.log == s.log && s'.news == s.news && Current(s', c) == Current(s, c)
    requires s'.txns == s.txns[t := s.txns[t].(phase := Undoing(|s.log|))]
    ensures ValueOk(o, s', c)
  {
    forall u ensures OpenOn(o, s', u, c) <==> OpenOn(o, s, u, c) { }
    forall u | OpenOn(o, s', u, c) ensures OpenVal(o, s', u, c) == OpenVal(o, s, u, c) { }
  }

  /** An undo step moves the transaction one record down, or to the end of what it has to undo. */
  lemma UndoMoves(o: Origin, s: State, t: TxId)
    requires LogStateOk(o, s) && Enabled(s, UndoOne(t))
    ensures MovedDown(o, s, DoUndo(s, t), t)
  {
    assert PhaseOk(o, s, t);
    var pos := s.txns[t].phase.pos;
    assert pos > Base(o) ==> Tail(s.log, Base(o), pos - 1);
  }

  /** No update in an old log is undone. */
  lemma UndoneInTail(o: Origin, s: State, t: TxId, c: Cell)
    requires LogStateOk(o, s) && t in s.txns && s.txns[t].phase.Undoing? && 0 < s.txns[t].phase.pos <= |s.log|
    requires s.log[s.txns[t].phase.pos - 1].Update? && s.log[s.txns[t].phase.pos - 1].tx == t
    requires s.log[s.txns[t].phase.pos - 1].cell == c
    ensures s.txns[t].phase.pos > Base(o)
  {
    assert PhaseOk(o, s, t);
    var pos := s.txns[t].phase.pos;
    if pos <= Base(o) {
      assert s.log[pos - 1] == Below(o.past, pos)[pos - 1];
      assert UndoneBy(Below(o.past, pos), t, pos - 1, c);
    }
  }

  lemma UndoValues(o: Origin, s: State, s': State, t: TxId, c: Cell)
    requires LogStateOk(o, s) && ValueOk(o, s, c) && MovedDown(o, s, s', t)
    requires Current(s', c) == EffectOn(s, UndoOne(t), c)
    ensures ValueOk(o, s', c)
  {
    if UndoHits(s, t, c) {
      UndoneIsOpen(o, s, t, c);
      OpenOwns(o, s, t, c);
      forall u | OpenOn(o, s, u, c) ensures u == t {
        OnlyOwnerOpen(o, s, t, u, c);
      }
      UndoneInTail(o, s, t, c);
      UndoHit(o, s, s', t, c);
    } else {
      UndoMiss(o, s, s', t, c);
    }
  }

  ghost predicate MovedDown(o: Origin, s: State, s': State, t: TxId)
  {
    && Base(o) <= |s.log| == |s.news| && Enabled(s, UndoOne(t)) && s'.log == s.log && s'.news == s.news
    && t in s'.txns && s'.txns[t].phase.Undoing? && s'.txns == s.txns[t := s.txns[t].(phase := s'.txns[t].phase)]
    && s'.txns[t].phase.pos < s.txns[t].phase.pos
    && From(o, s'.txns[t].phase.pos) == From(o, s.txns[t].phase.pos - 1)
  }

  lemma UndoHit(o: Origin, s: State, s': State, t: TxId, c: Cell)
    requires MovedDown(o, s, s', t) && UndoHits(s, t, c) && s.txns[t].phase.pos > Base(o)
    requires OpenOn(o, s, t, c) && forall u :: OpenOn(o, s, u, c) ==> u == t
    requires Current(s', c) == s.log[s.txns[t].phase.pos - 1].before
    ensures ValueOk(o, s', c)
  {
    var i := s.txns[t].phase.pos - 1;
    assert Hit(s.log, i, {t}, c) && NextHit(s.log, i, {t}, c) == i;
    assert OpenOn(o, s', t, c);
    forall u | OpenOn(o, s', u, c) ensures u == t {
      assert OpenOn(o, s, u, c);
    }
  }

  lemma UndoMiss(o: Origin, s: State, s': State, t: TxId, c: Cell)
    requires MovedDown(o, s, s', t) && !UndoHits(s, t, c)
    requires ValueOk(o, s, c) && Current(s', c) == Current(s, c)
    ensures ValueOk(o, s', c)
  {
    var i := s.txns[t].phase.pos - 1;
    assert !Hit(s.log, i, {t}, c);
    assert i >= Base(o) ==> NextHit(s.log, i, {t}, c) == NextHit(s.log, i + 1, {t}, c);
    assert NextHit(s.log, From(o, s'.txns[t].phase.pos), {t}, c) == NextHit(s.log, From(o, i + 1), {t}, c);
    forall u ensures OpenOn(o, s', u, c) <==> OpenOn(o, s, u, c) { }
    forall u | OpenOn(o, s', u, c) ensures OpenVal(o, s', u, c) == OpenVal(o, s, u, c) {
      if u == t {
        SameOpenVal(o, s, s', t, c);
      } else {
        assert s'.txns[u] == s.txns[u];
      }
    }
  }

  lemma SameOpenVal(o: Origin, s: State, s': State, t: TxId, c: Cell)
    requires MovedDown(o, s, s', t) && OpenOn(o, s, t, c) && OpenOn(o, s', t, c)
    requires NextHit(s.log, From(o, s'.txns[t].phase.pos), {t}, c) ==
               NextHit(s.log, From(o, s.txns[t].phase.pos), {t}, c)
    ensures OpenVal(o, s', t, c) == OpenVal(o, s, t, c)
  {
  }

  /** A transaction that undoes an update of c has c open: the record is not from an earlier process. */
  lemma UndoneIsOpen(o: Origin, s: State, t: TxId, c: Cell)
    requires LogStateOk(o, s) && Enabled(s, UndoOne(t)) && UndoHits(s, t, c)
    ensures OpenOn(o, s, t, c)
  {
    assert PhaseOk(o, s, t);
    UndoneInTail(o, s, t, c);
    assert Hit(s.log, s.txns[t].phase.pos - 1, {t}, c);
  }

  lemma AppendLast(o: Origin, log: seq<Rec>, news: seq<Value>, r: Rec, v: Value, ts: set<TxId>, c: Cell)
    requires Base(o) <= |log| == |news|
    ensures LastHit(log + [r], Base(o), |log| + 1, ts, c) ==
              if r.Update? && r.cell == c && r.tx in ts then |log| else LastHit(log, Base(o), |log|, ts, c)
    ensures !(r.Update? && r.cell == c && r.tx in ts) ==>
              ValueBy(o, log + [r], news + [v], |log| + 1, ts, c) == ValueBy(o, log, news, |log|, ts, c)
  {
    AppendFrame(o, log, news, r, v, |log|, ts, c);
  }

  lemma AppendCommitted(log: seq<Rec>, r: Rec, start: nat)
    requires start <= |log|
    ensures CommittedTxs(log + [r], start, |log| + 1) ==
              CommittedTxs(log, start, |log|) + (if r.Commit? then {r.tx} else {})
  {
    var log' := log + [r];
    var cs, cs' := CommittedTxs(log, start, |log|), CommittedTxs(log', start, |log| + 1);
    assert forall j :: 0 <= j < |log| ==> log'[j] == log[j];
    forall t ensures t in cs' <==> t in cs || (r.Commit? && t == r.tx) {
      assert t in cs <==> exists j :: start <= j < |log| && (log[j].Commit? && log[j].tx == t);
      assert t in cs' <==> exists j :: start <= j < |log| + 1 && (log'[j].Commit? && log'[j].tx == t);
      assert log'[|log|] == r;
    }
  }

  /** A new record that is not an update of the cell and commits nobody who changed it. */
  lemma AppendElsewhere(o: Origin, s: State, s': State, r: Rec, v: Value, c: Cell)
    requires Base(o) <= |s.log| == |s.news| && ValueOk(o, s, c)
    requires s'.log == s.log + [r] && s'.news == s.news + [v] && Current(s', c) == Current(s, c)
    requires !(r.Update? && r.cell == c)
    requires r.Commit? ==> LastHit(s.log, Base(o), |s.log|, {r.tx}, c) < Base(o)
    requires forall u :: LastHit(s.log, Base(o), |s.log|, {u}, c) >= Base(o) ==> (Open(s', u) <==> Open(s, u))
    requires forall u :: Open(s', u) && Open(s, u) ==> s'.txns[u].phase == s.txns[u].phase
    requires forall u :: Open(s, u) && s.txns[u].phase.Undoing? ==> s.txns[u].phase.pos <= |s.log|
    ensures ValueOk(o, s', c)
  {
    forall u ensures LastHit(s'.log, Base(o), |s'.log|, {u}, c) == LastHit(s.log, Base(o), |s.log|, {u}, c) {
      AppendLast(o, s.log, s.news, r, v, {u}, c);
    }
    forall u ensures OpenOn(o, s', u, c) <==> OpenOn(o, s, u, c) { }
    forall u | OpenOn(o, s', u, c) ensures OpenVal(o, s', u, c) == OpenVal(o, s, u, c) {
      if s.txns[u].phase.Undoing? {
        var pos := s.txns[u].phase.pos;
        NextAppend(s.log, r, From(o, pos), {u}, c);
        assert !Hit(s'.log, |s.log|, {u}, c);
      }
    }
    WantedElsewhere(o, s.log, s.news, r, v, c);
  }

  lemma WantedElsewhere(o: Origin, log: seq<Rec>, news: seq<Value>, r: Rec, v: Value, c: Cell)
    requires Base(o) <= |log| == |news| && !(r.Update? && r.cell == c)
    requires r.Commit? ==> LastHit(log, Base(o), |log|, {r.tx}, c) < Base(o)
    ensures Wanted(o, log + [r], news + [v], |log| + 1, c) == Wanted(o, log, news, |log|, c)
  {
    var cs := CommittedTxs(log, Base(o), |log|);
    var cs' := CommittedTxs(log + [r], Base(o), |log| + 1);
    AppendCommitted(log, r, Base(o));
    AppendLast(o, log, news, r, v, cs', c);
    forall k | Base(o) <= k < |log| ensures Hit(log, k, cs', c) <==> Hit(log, k, cs, c) {
      assert r.Commit? ==> !Hit(log, k, {r.tx}, c);
    }
    var i, j := LastHit(log, Base(o), |log|, cs, c), LastHit(log, Base(o), |log|, cs', c);
    assert i >= Base(o) ==> Hit(log, i, cs, c);
    assert j >= Base(o) ==> Hit(log, j, cs', c);
    assert i == j;
  }

  /** A write by the transaction that owns the cell's block. */
  lemma WriteHere(o: Origin, s: State, s': State, t: TxId, c: Cell, r: Rec, v: Value)
    requires Base(o) <= |s.log| == |s.news|
    requires s'.log == s.log + [r] && s'.news == s.news + [v] && Current(s', c) == v
    requires r.Update? && r.cell == c && r.tx == t && Open(s', t) && s'.txns[t].phase.Active?
    requires forall u :: OpenOn(o, s, u, c) ==> u == t
    requires forall u :: Open(s', u) ==> Open(s, u)
    ensures ValueOk(o, s', c)
  {
    forall u | OpenOn(o, s', u, c) ensures u == t {
      AppendLast(o, s.log, s.news, r, v, {u}, c);
      assert u != t ==> OpenOn(o, s, u, c);
    }
    AppendLast(o, s.log, s.news, r, v, {t}, c);
    assert OpenOn(o, s', t, c);
  }

  lemma OnlyOpen(o: Origin, s: State, t: TxId, c: Cell)
    requires LogStateOk(o, s) && Owns(s, t, c.block)
    ensures forall u :: OpenOn(o, s, u, c) ==> u == t
  {
    forall u | OpenOn(o, s, u, c) ensures u == t {
      OnlyOwnerOpen(o, s, t, u, c);
    }
  }

  lemma PosOk(o: Origin, s: State)
    requires LogStateOk(o, s)
    ensures forall u :: Open(s, u) && s.txns[u].phase.Undoing? ==> s.txns[u].phase.pos <= |s.log|
  {
    forall u | Open(s, u) && s.txns[u].phase.Undoing? ensures s.txns[u].phase.pos <= |s.log| {
      assert PhaseOk(o, s, u);
    }
  }

  lemma WriteValues(o: Origin, s: State, t: TxId, c: Cell, v: Value, d: Cell)
    requires LogStateOk(o, s) && ValueOk(o, s, d) && Enabled(s, WriteCell(t, c, v))
    requires Current(DoWrite(s, t, c, v), d) == if d == c then v else Current(s, d)
    ensures ValueOk(o, DoWrite(s, t, c, v), d)
  {
    var s' := DoWrite(s, t, c, v);
    var r := Update(t, c, Current(s, c));
    if d == c {
      OnlyOpen(o, s, t, c);
      WriteHere(o, s, s', t, c, r, v);
    } else {
      PosOk(o, s);
      AppendElsewhere(o, s, s', r, v, d);
    }
  }

  /** Committing makes the last value a transaction wrote the committed one. */
  lemma CommitHere(o: Origin, log: seq<Rec>, news: seq<Value>, t: TxId, c: Cell)
    requires LogOk(o, log, news) && !EndedIn(log, Base(o), |log|, t)
    requires LastHit(log, Base(o), |log|, {t}, c) >= Base(o)
    ensures Wanted(o, log + [Commit(t)], news + [ZERO], |log| + 1, c) == news[LastHit(log, Base(o), |log|, {t}, c)]
  {
    var cs := CommittedTxs(log, Base(o), |log|);
    var i := LastHit(log, Base(o), |log|, {t}, c);
    AppendCommitted(log, Commit(t), Base(o));
    AppendLast(o, log, news, Commit(t), ZERO, cs + {t}, c);
    assert Hit(log, i, {t}, c) && Hit(log, i, cs + {t}, c);
    forall k | i < k < |log| ensures !Hit(log, k, cs + {t}, c) {
      assert Hit(log, k, cs + {t}, c) ==> Hit(log, k, {log[k].tx}, c) && EndedIn(log, i + 1, k, t) by {
        assert !Hit(log, k, {t}, c);
      }
      EndedWider(log, i + 1, k, Base(o), |log|, t);
    }
    var m := LastHit(log, Base(o), |log|, cs + {t}, c);
    assert m == i;
    assert (news + [ZERO])[i] == news[i];
  }

  lemma CommitValues(o: Origin, s: State, t: TxId, c: Cell)
    requires LogStateOk(o, s) && ValueOk(o, s, c) && Enabled(s, AppendCommit(t))
    ensures ValueOk(o, DoAppendCommit(s, t), c)
  {
    var s' := DoAppendCommit(s, t);
    assert Current(s', c) == Current(s, c);
    if OpenOn(o, s, t, c) {
      OpenOwns(o, s, t, c);
      OnlyOpen(o, s, t, c);
      CommitHere(o, s.log, s.news, t, c);
      NobodyOpen(o, s, s', t, c, Commit(t), ZERO);
    } else {
      PosOk(o, s);
      AppendElsewhere(o, s, s', Commit(t), ZERO, c);
    }
  }

  lemma NobodyOpen(o: Origin, s: State, s': State, t: TxId, c: Cell, r: Rec, v: Value)
    requires Base(o) <= |s.log| == |s.news| && s'.log == s.log + [r] && !r.Update?
    requires forall u :: OpenOn(o, s, u, c) ==> u == t
    requires forall u :: Open(s', u) ==> Open(s, u) && u != t
    ensures forall u :: !OpenOn(o, s', u, c)
  {
    forall u ensures !OpenOn(o, s', u, c) {
      AppendLast(o, s.log, s.news, r, v, {u}, c);
      assert OpenOn(o, s', u, c) ==> OpenOn(o, s, u, c);
    }
  }

  /** A finished rollback has put the committed value back. */
  lemma RollbackValues(o: Origin, s: State, t: TxId, c: Cell)
    requires LogStateOk(o, s) && ValueOk(o, s, c) && Enabled(s, AppendRollback(t))
    ensures ValueOk(o, DoAppendRollback(s, t), c)
  {
    var s' := DoAppendRollback(s, t);
    assert Current(s', c) == Current(s, c);
    if OpenOn(o, s, t, c) {
      RollbackHere(o, s, t, c);
    } else {
      PosOk(o, s);
      AppendElsewhere(o, s, s', Rollback(t), ZERO, c);
    }
  }

  lemma RollbackHere(o: Origin, s: State, t: TxId, c: Cell)
    requires LogStateOk(o, s) && ValueOk(o, s, c) && Enabled(s, AppendRollback(t)) && OpenOn(o, s, t, c)
    ensures ValueOk(o, DoAppendRollback(s, t), c)
  {
    OnlyOpen(o, s, t, c);
    FullyUndone(o, s, t, c);
    var s' := DoAppendRollback(s, t);
    assert Current(s', c) == Current(s, c);
    RolledBackOk(o, s, s', t, c);
  }

  lemma RolledBackOk(o: Origin, s: State, s': State, t: TxId, c: Cell)
    requires Base(o) <= |s.log| == |s.news| && (forall u :: OpenOn(o, s, u, c) ==> u == t)
    requires s'.log == s.log + [Rollback(t)] && s'.news == s.news + [ZERO]
    requires Current(s', c) == Wanted(o, s.log, s.news, |s.log|, c)
    requires forall u :: Open(s', u) ==> Open(s, u) && u != t
    ensures ValueOk(o, s', c)
  {
    WantedElsewhere(o, s.log, s.news, Rollback(t), ZERO, c);
    NobodyOpen(o, s, s', t, c, Rollback(t), ZERO);
    ClosedOk(o, s', c);
  }

  lemma ClosedOk(o: Origin, s: State, c: Cell)
    requires Base(o) <= |s.log| == |s.news| && (forall u :: !OpenOn(o, s, u, c))
    requires Current(s, c) == Wanted(o, s.log, s.news, |s.log|, c)
    ensures ValueOk(o, s, c)
  {
  }

  /** Undoing down to the start of the log restores the committed value. */
  lemma FullyUndone(o: Origin, s: State, t: TxId, c: Cell)
    requires LogStateOk(o, s) && OpenOn(o, s, t, c) && s.txns[t].phase == Undoing(0)
    ensures OpenVal(o, s, t, c) == Wanted(o, s.log, s.news, |s.log|, c)
  {
    OpenOwns(o, s, t, c);
    FullyUndoneFirst(o, s, t, c);
    var f := NextHit(s.log, Base(o), {t}, c);
    assert Tail(s.log, Base(o), f);
    WantedAcross(o, s.log, s.news, f, |s.log|, t, c);
  }

  /** The first write of a cell finds the committed value there. */
  lemma FirstWriteSees(o: Origin, s: State, t: TxId, c: Cell)
    requires LogStateOk(o, s) && ValueOk(o, s, c) && Owns(s, t, c.block)
    requires NextHit(s.log, Base(o), {t}, c) == |s.log|
    ensures Current(s, c) == Wanted(o, s.log, s.news, |s.log|, c)
  {
    OnlyOpen(o, s, t, c);
    var i := LastHit(s.log, Base(o), |s.log|, {t}, c);
    assert !OpenOn(o, s, t, c);
  }

  lemma ValuesKept(o: Origin, s: State, step: Step, c: Cell)
    requires LogStateOk(o, s) && ValueOk(o, s, c) && Enabled(s, step)
    requires Current(Apply(s, step), c) == EffectOn(s, step, c)
    requires o.past <= Apply(s, step).log && |Apply(s, step).log| == |Apply(s, step).news|
    ensures ValueOk(o, Apply(s, step), c)
  {
    if Quiet(step) {
      QuietIs(o, s, step);
      QuietValues(o, s, Apply(s, step), c);
    } else if step.Committed? || step.Abandoned? {
      ReleaseValues(o, s, step.t, step, c);
    } else {
      LoggedValues(o, s, step, c);
    }
  }

  lemma LoggedValues(o: Origin, s: State, step: Step, c: Cell)
    requires LogStateOk(o, s) && ValueOk(o, s, c) && Enabled(s, step)
    requires !Quiet(step) && !step.Committed? && !step.Abandoned?
    requires Current(Apply(s, step), c) == EffectOn(s, step, c)
    requires o.past <= Apply(s, step).log && |Apply(s, step).log| == |Apply(s, step).news|
    ensures ValueOk(o, Apply(s, step), c)
  {
    match step {
      case WriteCell(t, d, v) => WriteValues(o, s, t, d, v, c);
      case AppendCommit(t) => CommitValues(o, s, t, c);
      case BeginRollback(t) => BeginRollbackValues(o, s, t, c);
      case UndoOne(t) => { UndoMoves(o, s, t); UndoValues(o, s, DoUndo(s, t), t, c); }
      case AppendRollback(t) => RollbackValues(o, s, t, c);
    }
  }

  /** A rollback starts only under a number that the old log lacks. */
  ghost predicate Fresh(o: Origin, step: Step) {
    step.BeginRollback? ==> FreshNumber(o.past, step.t)
  }

  /** Every step keeps all of it. */
  lemma GoodKept(o: Origin, s: State, step: Step)
    requires Good(o, s) && Enabled(s, step) && Fresh(o, step)
    ensures Good(o, Apply(s, step))
  {
    PoolKept(s, step);
    if step.WriteCell? && NextHit(s.log, Base(o), {step.t}, step.c) == |s.log| {
      FirstWriteSees(o, s, step.t, step.c);
    }
    LogStateKept(o, s, step);
    forall c ensures ValueOk(o, Apply(s, step), c) {
      ValuesKept(o, s, step, c);
    }
  }

  lemma InitGood(o: Origin, s: State)
    requires Init(s) && o == Origin(s.log, s.disk)
    ensures Good(o, s)
  {
    InitLocksOk(s);
    forall c ensures Current(s, c) == FirstVal(o, c) { }
  }

  /** Rollback restores: when a transaction is about to log its rollback, every cell it changed again
      holds the committed value, which is the before-image of its first update of that cell. */
  lemma RolledBackValue(o: Origin, s: State, t: TxId, c: Cell)
    requires Good(o, s) && Enabled(s, AppendRollback(t)) && OpenOn(o, s, t, c)
    ensures NextHit(s.log, Base(o), {t}, c) < |s.log|
    ensures Current(s, c) == s.log[NextHit(s.log, Base(o), {t}, c)].before == Wanted(o, s.log, s.news, |s.log|, c)
  {
    assert ValueOk(o, s, c);
    FullyUndone(o, s, t, c);
    FullyUndoneFirst(o, s, t, c);
  }

  lemma FullyUndoneFirst(o: Origin, s: State, t: TxId, c: Cell)
    requires LogStateOk(o, s) && OpenOn(o, s, t, c) && s.txns[t].phase == Undoing(0)
    ensures NextHit(s.log, Base(o), {t}, c) < |s.log|
  {
    var i := LastHit(s.log, Base(o), |s.log|, {t}, c);
    assert Hit(s.log, i, {t}, c);
  }
}
