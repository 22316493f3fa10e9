/** The counts of the lock table agree with the locks the transactions believe they hold. */
module LockAgreement {
  import opened Locks
  import opened Keys
  import opened Recovery
  import opened Engine

  type Helds = map<TxId, Held>

  ghost function Holders(helds: Helds, b: BlockId, m: Mode): set<TxId> {
    set t | t in helds && b in helds[t] && helds[t][b] == m
  }

  /** The count of b is k >= 0 exactly when k transactions share b and nobody owns it, and -1 exactly
      when one transaction owns b and nobody else holds anything. */
  ghost predicate AgreeOn(table: Table, helds: Helds, b: BlockId) {
    if Holders(helds, b, X) == {} then LockVal(table, b) == |Holders(helds, b, S)|
    else Holders(helds, b, S) == {} && |Holders(helds, b, X)| == 1 && LockVal(table, b) == -1
  }

  ghost predicate Agree(table: Table, helds: Helds) {
    forall b :: AgreeOn(table, helds, b)
  }

  lemma SingletonHas(s: set<TxId>, t: TxId, u: TxId)
    requires |s| == 1 && t in s && u in s
    ensures t == u
  {
    var rest := s - {t};
    assert |rest| == 0;
    assert u !in rest;
  }

  lemma TheHolder(s: set<TxId>) returns (t: TxId)
    requires |s| == 1
    ensures s == {t}
  {
    assert (forall u :: u !in s) ==> s == {};
    t :| t in s;
    forall u | u in s ensures u == t {
      SingletonHas(s, t, u);
    }
  }

  /** The two directions read off the count. */
  lemma CountsTell(table: Table, helds: Helds, b: BlockId, k: nat)
    requires Agree(table, helds)
    ensures LockVal(table, b) == k <==> Holders(helds, b, X) == {} && |Holders(helds, b, S)| == k
    ensures LockVal(table, b) == -1 <==>
              (exists t :: Holders(helds, b, X) == {t} && Holders(helds, b, S) == {})
  {
    assert AgreeOn(table, helds, b);
    if LockVal(table, b) == -1 {
      var t := TheHolder(Holders(helds, b, X));
    }
  }

  /** An exclusive holder excludes every other holder. */
  lemma Exclusive(table: Table, helds: Helds, b: BlockId, t: TxId, u: TxId)
    requires Agree(table, helds)
    requires t in helds && b in helds[t] && helds[t][b] == X
    requires u in helds && b in helds[u]
    ensures u == t
  {
    assert AgreeOn(table, helds, b);
    assert t in Holders(helds, b, X);
    assert u in Holders(helds, b, helds[u][b]);
    if helds[u][b] == X {
      SingletonHas(Holders(helds, b, X), t, u);
    }
  }

  /** A change to one transaction's entry for one block. */
  lemma OtherBlocks(table: Table, table': Table, helds: Helds, helds': Helds, t: TxId, b: BlockId)
    requires Agree(table, helds)
    requires helds'.Keys == helds.Keys && forall u :: u in helds && u != t ==> helds'[u] == helds[u]
    requires t in helds && forall c :: c != b ==>
               (c in helds'[t] <==> c in helds[t]) && (c in helds[t] ==> helds'[t][c] == helds[t][c])
    requires forall c :: c != b ==> LockVal(table', c) == LockVal(table, c)
    requires AgreeOn(table', helds', b)
    ensures Agree(table', helds')
  {
    forall c ensures AgreeOn(table', helds', c) {
      if c != b {
        assert AgreeOn(table, helds, c);
        forall m ensures Holders(helds', c, m) == Holders(helds, c, m) {
          forall u ensures u in Holders(helds', c, m) <==> u in Holders(helds, c, m) { }
        }
      }
    }
  }

  lemma SharedGranted(table: Table, helds: Helds, t: TxId, b: BlockId)
    requires Agree(table, helds) && t in helds && b !in helds[t] && LockVal(table, b) >= 0
    ensures Agree(TableSLock(table, b), helds[t := helds[t][b := S]])
  {
    var helds' := helds[t := helds[t][b := S]];
    assert AgreeOn(table, helds, b);
    assert Holders(helds', b, S) == Holders(helds, b, S) + {t};
    assert Holders(helds', b, X) == Holders(helds, b, X);
    OtherBlocks(table, TableSLock(table, b), helds, helds', t, b);
  }

  /** The upgrade test of the lock table (at most one shared lock out) keeps the agreement exactly
      when the caller already holds a lock on the block or nobody does: the manager's rule of taking
      the shared lock first is what makes it sound. */
  lemma UpgradeSoundIff(table: Table, helds: Helds, t: TxId, b: BlockId)
    requires Agree(table, helds) && t in helds && LockVal(table, b) <= 1
    ensures Agree(TableXLock(table, b), helds[t := helds[t][b := X]]) <==> b in helds[t] || LockVal(table, b) == 0
  {
    if b in helds[t] || LockVal(table, b) == 0 {
      Upgraded(table, helds, t, b);
    } else {
      UpgradeBreaks(table, helds, t, b);
    }
  }

  lemma Upgraded(table: Table, helds: Helds, t: TxId, b: BlockId)
    requires Agree(table, helds) && t in helds && LockVal(table, b) <= 1
    requires b in helds[t] || LockVal(table, b) == 0
    ensures Agree(TableXLock(table, b), helds[t := helds[t][b := X]])
  {
    var helds' := helds[t := helds[t][b := X]];
    assert AgreeOn(table, helds, b);
    var ss, xs := Holders(helds, b, S), Holders(helds, b, X);
    assert Holders(helds', b, S) == ss - {t};
    assert Holders(helds', b, X) == xs + {t};
    assert t in xs ==> xs == {t} by { if t in xs { var u := TheHolder(xs); } }
    assert t in ss ==> ss == {t} by { if t in ss { var u := TheHolder(ss); } }
    OtherBlocks(table, TableXLock(table, b), helds, helds', t, b);
  }

  lemma UpgradeBreaks(table: Table, helds: Helds, t: TxId, b: BlockId)
    requires Agree(table, helds) && t in helds && LockVal(table, b) <= 1
    requires b !in helds[t] && LockVal(table, b) != 0
    ensures !Agree(TableXLock(table, b), helds[t := helds[t][b := X]])
  {
    var helds' := helds[t := helds[t][b := X]];
    assert AgreeOn(table, helds, b);
    var ss, xs := Holders(helds, b, S), Holders(helds, b, X);
    assert Holders(helds', b, S) == ss;
    assert Holders(helds', b, X) == xs + {t};
    assert |xs + {t}| == |xs| + 1;
    assert !AgreeOn(TableXLock(table, b), helds', b);
  }

  lemma Unlocked(table: Table, helds: Helds, t: TxId, b: BlockId)
    requires Agree(table, helds) && t in helds && b in helds[t]
    ensures Agree(TableUnlock(table, b), helds[t := helds[t] - {b}])
  {
    var helds' := helds[t := helds[t] - {b}];
    assert AgreeOn(table, helds, b);
    var ss, xs := Holders(helds, b, S), Holders(helds, b, X);
    assert Holders(helds', b, S) == ss - {t};
    assert Holders(helds', b, X) == xs - {t};
    if t in xs {
      assert |xs - {t}| == |xs| - 1;
    } else {
      assert t in ss;
      assert |ss - {t}| == |ss| - 1;
      assert xs - {t} == xs;
    }
    OtherBlocks(table, TableUnlock(table, b), helds, helds', t, b);
  }

  ghost function HeldsOf(s: State): Helds {
    map t | t in s.txns :: s.txns[t].held
  }

  ghost predicate LocksOk(s: State) {
    s.nextTx >= 0 && Agree(s.table, HeldsOf(s)) && forall t :: t in s.txns ==> 0 < t <= s.nextTx
  }

  /** A transaction without locks comes or goes. */
  lemma EmptyHolder(table: Table, helds: Helds, helds': Helds, t: TxId)
    requires Agree(table, helds)
    requires helds'.Keys + {t} == helds.Keys + {t}
    requires forall u :: u != t && u in helds ==> helds'[u] == helds[u]
    requires t in helds ==> helds[t] == map[]
    requires t in helds' ==> helds'[t] == map[]
    ensures Agree(table, helds')
  {
    forall b ensures AgreeOn(table, helds', b) {
      assert AgreeOn(table, helds, b);
      forall m ensures Holders(helds', b, m) == Holders(helds, b, m) {
        forall u ensures u in Holders(helds', b, m) <==> u in Holders(helds, b, m) {
          assert u in helds' + map[t := map[]] <==> u in helds.Keys + {t};
        }
      }
    }
  }

  predicate TouchesLocks(step: Step) {
    step.Begin? || step.SLock? || step.XUpgrade? || step.Unlock? || step.End?
  }

  /** The other steps keep every transaction's locks. */
  ghost predicate SameLocks(s: State, s': State) {
    && s'.table == s.table && s'.nextTx == s.nextTx && s'.txns.Keys == s.txns.Keys
    && forall t :: t in s.txns ==> s'.txns[t].held == s.txns[t].held
  }

  lemma PinLocks(s: State, t: TxId, b: BlockId)
    requires Enabled(s, Pin(t, b))
    ensures SameLocks(s, DoPin(s, t, b))
  {
  }

  lemma UnpinLocks(s: State, t: TxId, b: BlockId)
    requires Enabled(s, Unpin(t, b))
    ensures SameLocks(s, DoUnpin(s, t, b))
  {
  }

  lemma FlushSteps(s: State, step: Step)
    requires Enabled(s, step) && (step.FlushLog? || step.FlushFrame? || StartsLogBlock(step))
    ensures SameLocks(s, Apply(s, step))
  {
  }

  lemma ReadLocks(s: State, t: TxId, c: Cell)
    requires Enabled(s, ReadCell(t, c))
    ensures SameLocks(s, DoRead(s, t, c))
  {
  }

  lemma WriteLocks(s: State, t: TxId, c: Cell, v: Value)
    requires Enabled(s, WriteCell(t, c, v))
    ensures SameLocks(s, DoWrite(s, t, c, v))
  {
  }

  lemma UndoLocks(s: State, t: TxId)
    requires Enabled(s, UndoOne(t))
    ensures SameLocks(s, DoUndo(s, t))
  {
  }

  lemma AppendSteps(s: State, step: Step)
    requires Enabled(s, step) && (step.AppendCommit? || step.AppendRollback?)
    ensures SameLocks(s, Apply(s, step))
  {
  }

  lemma PhaseSteps(s: State, step: Step)
    requires Enabled(s, step) && (step.Committed? || step.BeginRollback? || step.Abandoned?)
    ensures SameLocks(s, Apply(s, step))
  {
  }

  lemma OtherSteps(s: State, step: Step)
    requires Enabled(s, step) && !TouchesLocks(step)
    ensures SameLocks(s, Apply(s, step))
  {
    match step {
      case Pin(t, b) => PinLocks(s, t, b);
      case Unpin(t, b) => UnpinLocks(s, t, b);
      case ReadCell(t, c) => ReadLocks(s, t, c);
      case WriteCell(t, c, v) => WriteLocks(s, t, c, v);
      case UndoOne(t) => UndoLocks(s, t);
      case AppendCommit(t) => AppendSteps(s, step);
      case AppendRollback(t) => AppendSteps(s, step);
      case FlushLog(lsn) => FlushSteps(s, step);
      case FlushFrame(i) => FlushSteps(s, step);
      case ExtendLog => FlushSteps(s, step);
      case StartBlock => FlushSteps(s, step);
      case _ => PhaseSteps(s, step);
    }
  }

  lemma SameLocksKept(s: State, s': State)
    requires LocksOk(s) && SameLocks(s, s')
    ensures LocksOk(s')
  {
    forall t
      ensures t in HeldsOf(s') <==> t in HeldsOf(s)
      ensures t in HeldsOf(s) ==> HeldsOf(s')[t] == HeldsOf(s)[t]
    {
      assert t in s'.txns.Keys <==> t in s.txns.Keys;
    }
    assert HeldsOf(s').Keys == HeldsOf(s).Keys;
    assert HeldsOf(s') == HeldsOf(s);
    assert forall t :: t in s'.txns ==> t in s.txns;
  }

  /** Transaction numbers stay in range. */
  lemma NumbersKept(s: State, step: Step)
    requires LocksOk(s) && Enabled(s, step) && TouchesLocks(step)
    ensures var s' := Apply(s, step); s'.nextTx >= 0 && forall t :: t in s'.txns ==> 0 < t <= s'.nextTx
  {
  }

  lemma LocksKept(s: State, step: Step)
    requires LocksOk(s) && Enabled(s, step)
    ensures LocksOk(Apply(s, step))
  {
    if TouchesLocks(step) {
      LockStepKept(s, step);
      NumbersKept(s, step);
    } else {
      OtherSteps(s, step);
      SameLocksKept(s, Apply(s, step));
    }
  }

  lemma LockStepKept(s: State, step: Step)
    requires LocksOk(s) && Enabled(s, step) && TouchesLocks(step)
    ensures Agree(Apply(s, step).table, HeldsOf(Apply(s, step)))
  {
    match step {
      case Begin => BeginKept(s);
      case SLock(t, b) => SLockKept(s, t, b);
      case XUpgrade(t, b) => XUpgradeKept(s, t, b);
      case Unlock(t, b) => UnlockKept(s, t, b);
      case End(t) => EndKept(s, t);
    }
  }

  lemma BeginKept(s: State)
    requires LocksOk(s)
    ensures Agree(DoBegin(s).table, HeldsOf(DoBegin(s)))
  {
    EmptyHolder(s.table, HeldsOf(s), HeldsOf(DoBegin(s)), s.nextTx + 1);
  }

  lemma SLockKept(s: State, t: TxId, b: BlockId)
    requires LocksOk(s) && Enabled(s, SLock(t, b))
    ensures Agree(DoSLock(s, t, b).table, HeldsOf(DoSLock(s, t, b)))
  {
    if b !in s.txns[t].held {
      SharedGranted(s.table, HeldsOf(s), t, b);
      assert HeldsOf(DoSLock(s, t, b)) == HeldsOf(s)[t := HeldsOf(s)[t][b := S]];
    }
  }

  lemma XUpgradeKept(s: State, t: TxId, b: BlockId)
    requires LocksOk(s) && Enabled(s, XUpgrade(t, b))
    ensures Agree(DoXUpgrade(s, t, b).table, HeldsOf(DoXUpgrade(s, t, b)))
  {
    if s.txns[t].held[b] != X {
      Upgraded(s.table, HeldsOf(s), t, b);
      assert HeldsOf(DoXUpgrade(s, t, b)) == HeldsOf(s)[t := HeldsOf(s)[t][b := X]];
    }
  }

  lemma UnlockKept(s: State, t: TxId, b: BlockId)
    requires LocksOk(s) && Enabled(s, Unlock(t, b))
    ensures Agree(DoUnlock(s, t, b).table, HeldsOf(DoUnlock(s, t, b)))
  {
    Unlocked(s.table, HeldsOf(s), t, b);
    assert HeldsOf(DoUnlock(s, t, b)) == HeldsOf(s)[t := HeldsOf(s)[t] - {b}];
  }

  lemma EndKept(s: State, t: TxId)
    requires LocksOk(s) && Enabled(s, End(t))
    ensures Agree(s.table, HeldsOf(s.(txns := s.txns - {t})))
  {
    EmptyHolder(s.table, HeldsOf(s), HeldsOf(s.(txns := s.txns - {t})), t);
  }

  /** Lock agreement holds in every state of every run. */
  lemma {:induction false} LocksAgreeAlways(s: State, steps: seq<Step>, s': State)
    requires LocksOk(s) && Run(s, steps, s')
    ensures LocksOk(s')
    decreases |steps|
  {
    if steps != [] {
      LocksKept(s, steps[0]);
      LocksAgreeAlways(Apply(s, steps[0]), steps[1..], s');
    }
  }

  lemma InitLocksOk(s: State)
    requires Init(s)
    ensures LocksOk(s)
  {
    forall b ensures AgreeOn(s.table, HeldsOf(s), b) {
      assert Holders(HeldsOf(s), b, X) == {} && Holders(HeldsOf(s), b, S) == {};
    }
  }
}
