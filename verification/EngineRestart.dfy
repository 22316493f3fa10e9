/** Restart recovery as steps (tx/recovery_manager.go, tx/transaction.go), with crashes inside it, and the
    processes that follow one another over one disk and one log. */
module EngineRestart {
  import opened Keys
  import opened Locks
  import opened Frames
  import opened Recovery
  import opened Engine
  import opened EngineLog
  import opened EngineValues
  import opened EngineCrash

  /** How far the checkpoint behind it has come: not there yet; a new log block for it begun; saved.  And
      the end of it all: a crash while that block was begun, after which the log cannot be read. */
  datatype Stage = Pending | Torn | Saved | Lost

  /** Recovery under way: the disk, the blocks in buffers, the log position it has come down to, and the
      transactions it knows to have finished. */
  datatype Recovering = Recovering(disk: map<BlockId, BlockData>, cache: map<BlockId, BlockData>, pos: nat,
      finished: set<TxId>, stage: Stage)

  /** One record; a buffer written out, for whatever reason; a clean buffer taken over; a crash.  At the end,
      the two writes that start a log block, if there is no room for the checkpoint, and the checkpoint. */
  datatype RecStep =
    | Record
    | WriteBack(b: BlockId)
    | Drop(b: BlockId)
    | Crash
    | ExtendLog
    | StartBlock
    | SaveCheckpoint

  function Restarted(log: seq<Rec>, disk: map<BlockId, BlockData>): Recovering {
    Recovering(disk, map[], |log|, {}, Pending)
  }

  function Loaded(r: Recovering, b: BlockId): BlockData {
    if b in r.cache then r.cache[b] else ReadBlock(r.disk, b)
  }

  function BlockVal(disk: map<BlockId, BlockData>, c: Cell): Value {
    ReadOff(ReadBlock(disk, c.block), c.offset)
  }

  predicate AtBottom(log: seq<Rec>, pos: nat) {
    pos <= |log| && (pos == 0 || log[pos - 1].Checkpoint?)
  }

  predicate RecEnabled(log: seq<Rec>, r: Recovering, step: RecStep) {
    match step
    case Record => r.stage.Pending? && r.pos <= |log| && !AtBottom(log, r.pos)
    case WriteBack(b) => !r.stage.Lost? && b in r.cache
    case Drop(b) => !r.stage.Lost? && b in r.cache && r.cache[b] == ReadBlock(r.disk, b)
    case Crash => !r.stage.Saved?
    case ExtendLog => r.stage.Pending? && AllWritten(log, r)
    case StartBlock => r.stage.Torn?
    case SaveCheckpoint => r.stage.Pending? && AllWritten(log, r)
  }

  /** The whole log is done and every buffer written out. */
  predicate AllWritten(log: seq<Rec>, r: Recovering) {
    AtBottom(log, r.pos) && forall b :: b in r.cache ==> r.cache[b] == ReadBlock(r.disk, b)
  }

  function RecApply(log: seq<Rec>, r: Recovering, step: RecStep): Recovering
    requires RecEnabled(log, r, step)
  {
    match step
    case Record =>
      var rec := log[r.pos - 1];
      var r1 := r.(pos := r.pos - 1);
      if rec.Commit? || rec.Rollback? then r1.(finished := r.finished + {rec.tx})
      else if rec.tx !in r.finished && rec.Update? then
        r1.(cache := r.cache[rec.cell.block := Loaded(r, rec.cell.block)[rec.cell.offset := rec.before]])
      else r1
    case WriteBack(b) => r.(disk := r.disk[b := r.cache[b]])
    case Drop(b) => r.(cache := r.cache - {b})
    case Crash =>
      if r.stage.Torn? || r.stage.Lost? then Restarted(log, r.disk).(stage := Lost) else Restarted(log, r.disk)
    case ExtendLog => r.(stage := Torn)
    case StartBlock => r.(stage := Pending)
    case SaveCheckpoint => r.(stage := Saved)
  }

  ghost predicate RecRun(log: seq<Rec>, r: Recovering, steps: seq<RecStep>, r': Recovering)
    decreases |steps|
  {
    if steps == [] then r' == r
    else RecEnabled(log, r, steps[0]) && RecRun(log, RecApply(log, r, steps[0]), steps[1..], r')
  }

  /** The oldest of the updates of c from record n on that recovery undoes. */
  ghost predicate FirstFrom(log: seq<Rec>, n: nat, i: int, c: Cell) {
    n <= i && Undone(log, i, c) && forall k :: n <= k < i ==> !Undone(log, k, c)
  }

  /** What recovery keeps true of a cell, with the value it had on disk at first. */
  ghost predicate CellOk(log: seq<Rec>, r: Recovering, c: Cell, first: Value) {
    && ((forall i :: !Undone(log, i, c)) ==> BlockVal(r.disk, c) == ReadOff(Loaded(r, c.block), c.offset) == first)
    && forall i :: FirstFrom(log, r.pos, i, c) ==> ReadOff(Loaded(r, c.block), c.offset) == log[i].before
  }

  ghost predicate RecOk(log: seq<Rec>, disk: map<BlockId, BlockData>, r: Recovering) {
    && r.pos <= |log| && Passed(log, r.pos, r.finished) && (forall c :: CellOk(log, r, c, BlockVal(disk, c)))
    && (r.stage.Torn? || r.stage.Saved? ==> AllWritten(log, r))
  }

  lemma RecordKept(log: seq<Rec>, disk: map<BlockId, BlockData>, r: Recovering)
    requires RecOk(log, disk, r) && RecEnabled(log, r, Record)
    ensures RecOk(log, disk, RecApply(log, r, Record))
  {
    var n := r.pos - 1;
    var rec := log[n];
    var r' := RecApply(log, r, Record);
    PassedStep(log, r.pos, r.finished);
    forall c ensures CellOk(log, r', c, BlockVal(disk, c)) {
      assert CellOk(log, r, c, BlockVal(disk, c));
      assert Undone(log, n, c) <==> rec.Update? && rec.tx !in r.finished && rec.cell == c;
      forall i | FirstFrom(log, n, i, c) ensures ReadOff(Loaded(r', c.block), c.offset) == log[i].before {
        if i != n {
          assert FirstFrom(log, r.pos, i, c);
        }
      }
    }
  }

  lemma CellKept(log: seq<Rec>, r: Recovering, step: RecStep, c: Cell, first: Value)
    requires CellOk(log, r, c, first) && RecEnabled(log, r, step) && !step.Record? && !step.Crash?
    ensures CellOk(log, RecApply(log, r, step), c, first)
  {
    var r' := RecApply(log, r, step);
    assert r'.pos == r.pos && Loaded(r', c.block) == Loaded(r, c.block);
  }

  lemma CellCrashed(log: seq<Rec>, r: Recovering, c: Cell, first: Value)
    requires CellOk(log, r, c, first) && RecEnabled(log, r, Crash)
    ensures CellOk(log, RecApply(log, r, Crash), c, first)
  {
    assert forall i :: !FirstFrom(log, |log|, i, c);
  }

  lemma RecKept(log: seq<Rec>, disk: map<BlockId, BlockData>, r: Recovering, step: RecStep)
    requires RecOk(log, disk, r) && RecEnabled(log, r, step)
    ensures RecOk(log, disk, RecApply(log, r, step))
  {
    var r' := RecApply(log, r, step);
    if step.Record? {
      RecordKept(log, disk, r);
    } else {
      forall c ensures CellOk(log, r', c, BlockVal(disk, c)) {
        if step.Crash? {
          CellCrashed(log, r, c, BlockVal(disk, c));
        } else {
          CellKept(log, r, step, c, BlockVal(disk, c));
        }
      }
    }
  }

  lemma {:induction false} RecAlways(log: seq<Rec>, disk: map<BlockId, BlockData>, r: Recovering, steps: seq<RecStep>,
        r': Recovering)
    requires RecOk(log, disk, r) && RecRun(log, r, steps, r')
    ensures RecOk(log, disk, r')
    decreases |steps|
  {
    if steps != [] {
      RecKept(log, disk, r, steps[0]);
      RecAlways(log, disk, RecApply(log, r, steps[0]), steps[1..], r');
    }
  }

  /** However often recovery is interrupted and whichever buffers were written out before, when it gets to
      its end the disk holds what the backward pass over the log makes of the first disk. */
  lemma RecoveryEnds(log: seq<Rec>, disk: map<BlockId, BlockData>, steps: seq<RecStep>, r: Recovering, store: Store,
        c: Cell)
    requires RecRun(log, Restarted(log, disk), steps, r) && r.stage.Saved? && Get(store, c) == BlockVal(disk, c)
    ensures BlockVal(r.disk, c) == Get(Recovered(log, store), c)
  {
    RestartedOk(log, disk);
    RecAlways(log, disk, Restarted(log, disk), steps, r);
    assert CellOk(log, r, c, BlockVal(disk, c));
    WrittenCell(log, r, store, c);
  }

  lemma RestartedOk(log: seq<Rec>, disk: map<BlockId, BlockData>)
    ensures RecOk(log, disk, Restarted(log, disk))
  {
    forall c ensures CellOk(log, Restarted(log, disk), c, BlockVal(disk, c)) {
      assert forall i :: !FirstFrom(log, |log|, i, c);
    }
  }

  /** A cell when everything is undone and written out. */
  lemma WrittenCell(log: seq<Rec>, r: Recovering, store: Store, c: Cell)
    requires CellOk(log, r, c, Get(store, c)) && AllWritten(log, r)
    ensures BlockVal(r.disk, c) == Get(Recovered(log, store), c)
  {
    RecoveryMeaning(log, store, c);
    assert BlockVal(r.disk, c) == ReadOff(Loaded(r, c.block), c.offset);
    if i :| Undone(log, i, c) {
      var f := LeastUndone(log, i, c);
      NoneBelow(log, r.pos, f, c);
      assert FirstFrom(log, r.pos, f, c);
    }
  }

  /** Recovery undoes nothing below its last position. */
  lemma NoneBelow(log: seq<Rec>, pos: nat, i: int, c: Cell)
    requires AtBottom(log, pos) && Undone(log, i, c)
    ensures pos <= i
  {
    if i < pos - 1 {
      assert Shields(log[pos - 1], log[i].tx);
    }
  }

  /** The buffers that are not written out. */
  function Dirty(r: Recovering): set<BlockId> {
    set b | b in r.cache && r.cache[b] != ReadBlock(r.disk, b)
  }

  ghost predicate RunsToEnd(log: seq<Rec>, r: Recovering, steps: seq<RecStep>, r': Recovering) {
    RecRun(log, r, steps, r') && r'.stage.Saved?
  }

  /** Recovery can be brought to its end, whatever happened before, exactly unless a crash fell between the
      two writes that start the log block of the checkpoint. */
  lemma CanEndIff(log: seq<Rec>, disk: map<BlockId, BlockData>, r: Recovering)
    requires RecOk(log, disk, r)
    ensures (exists steps, r' :: RunsToEnd(log, r, steps, r')) <==> !r.stage.Lost?
  {
    if r.stage.Lost? {
      forall steps, r' ensures !RunsToEnd(log, r, steps, r') {
        if RecRun(log, r, steps, r') {
          LostStays(log, r, steps, r');
        }
      }
    } else {
      var steps, r' := EndRun(log, disk, r);
      assert RunsToEnd(log, r, steps, r');
    }
  }

  lemma {:induction false} LostStays(log: seq<Rec>, r: Recovering, steps: seq<RecStep>, r': Recovering)
    requires r.stage.Lost? && RecRun(log, r, steps, r')
    ensures r'.stage.Lost?
    decreases |steps|
  {
    if steps != [] {
      LostStays(log, RecApply(log, r, steps[0]), steps[1..], r');
    }
  }

  /** What is left to do: start the block, undo the records, write the buffers out, save the checkpoint. */
  function NextStep(log: seq<Rec>, r: Recovering, b: BlockId): RecStep {
    if r.stage.Torn? then RecStep.StartBlock
    else if !AtBottom(log, r.pos) then Record
    else if b in Dirty(r) then WriteBack(b)
    else SaveCheckpoint
  }

  lemma {:induction false} EndRun(log: seq<Rec>, disk: map<BlockId, BlockData>, r: Recovering)
    returns (steps: seq<RecStep>, r': Recovering)
    requires RecOk(log, disk, r) && !r.stage.Lost?
    ensures RecRun(log, r, steps, r') && r'.stage.Saved?
    decreases if r.stage.Saved? then 0 else if r.stage.Torn? then 2 else 1, r.pos, Dirty(r)
  {
    steps, r' := [], r;
    if !r.stage.Saved? {
      var b := if Dirty(r) == {} then BlockId("", 0) else PickDirty(r);
      var step := NextStep(log, r, b);
      if step.SaveCheckpoint? {
        forall x | x in r.cache ensures r.cache[x] == ReadBlock(r.disk, x) {
          assert x !in Dirty(r);
        }
      }
      var r1 := RecApply(log, r, step);
      RecKept(log, disk, r, step);
      if step.WriteBack? {
        WrittenOne(r, b);
      }
      var rest;
      rest, r' := EndRun(log, disk, r1);
      steps := [step] + rest;
      assert steps[1..] == rest;
    }
  }

  ghost function PickDirty(r: Recovering): (b: BlockId)
    requires Dirty(r) != {}
    ensures b in Dirty(r)
  {
    var b :| b in Dirty(r);
    b
  }

  lemma WrittenOne(r: Recovering, b: BlockId)
    requires b in Dirty(r)
    ensures Dirty(r.(disk := r.disk[b := r.cache[b]])) < Dirty(r)
  {
    assert b !in Dirty(r.(disk := r.disk[b := r.cache[b]]));
  }

  /** A process: where it starts, what it does up to its crash, and the recovery that follows, with all the
      crashes inside it. */
  datatype Process = Process(start: State, steps: seq<Step>, crash: State, recovery: seq<RecStep>,
      recovered: Recovering)

  function OriginOf(p: Process): Origin {
    Origin(p.start.log, p.start.disk)
  }

  /** What it leaves of the log. */
  function LogLeft(p: Process): seq<Rec>
    requires p.crash.saved <= |p.crash.log|
  {
    p.crash.log[..p.crash.saved]
  }

  /** It ran, crashed with its log whole and cell c recoverable, and was recovered. */
  ghost predicate Lived(p: Process, c: Cell) {
    && Init(p.start) && StartsClean(OriginOf(p)) && Run(p.start, p.steps, p.crash) && FreshRun(OriginOf(p), p.steps)
    && !p.crash.torn && p.crash.saved <= |p.crash.log| && Recoverable(OriginOf(p), p.crash, c)
    && RecRun(Decoded(LogLeft(p)), Restarted(Decoded(LogLeft(p)), p.crash.disk), p.recovery, p.recovered)
    && p.recovered.stage.Saved?
  }

  /** The next process starts where recovery ended, behind the checkpoint it wrote. */
  ghost predicate Follows(p: Process, start: State) {
    && p.crash.saved <= |p.crash.log|
    && Init(start) && start.disk == p.recovered.disk && start.log == LogLeft(p) + [Checkpoint]
  }

  /** The value a process leaves in a cell: the last one it committed, or what it found. */
  ghost function Leaves(p: Process, c: Cell): Value
    requires Base(OriginOf(p)) <= p.crash.saved <= |p.crash.log| == |p.crash.news|
  {
    Wanted(OriginOf(p), p.crash.log, p.crash.news, p.crash.saved, c)
  }

  /** A process that starts clean is safe up to its crash, and its recovery leaves on disk what it committed. */
  lemma LifeOf(p: Process, c: Cell)
    requires Lived(p, c)
    ensures Safe(OriginOf(p), p.crash)
    ensures BlockVal(p.recovered.disk, c) == Leaves(p, c)
  {
    var o, s := OriginOf(p), p.crash;
    InitSafe(o, p.start);
    SafeAlways(o, p.start, p.steps, s);
    var store: Store := map[c := DiskVal(s, c)];
    CrashAtomic(o, s, store, c);
    RecoveryEnds(Decoded(LogLeft(p)), s.disk, p.recovery, p.recovered, store, c);
  }

  /** The process after it starts clean, safe and with those values. */
  lemma NextProcess(p: Process, start: State, c: Cell)
    requires Lived(p, c) && Follows(p, start)
    ensures StartsClean(Origin(start.log, start.disk)) && Safe(Origin(start.log, start.disk), start)
    ensures Safe(OriginOf(p), p.crash) && Current(start, c) == Leaves(p, c)
  {
    InitSafe(Origin(start.log, start.disk), start);
    LifeOf(p, c);
    assert FindExisting(start.pool, c.block) < 0;
  }

  /** Processes that follow one another. */
  ghost predicate Lives(ps: seq<Process>, c: Cell) {
    && (forall j :: 0 <= j < |ps| ==> Lived(ps[j], c))
    && forall j :: 0 < j < |ps| ==> Follows(ps[j - 1], ps[j].start)
  }

  /** The last value of a cell that any of them committed, or the first one. */
  ghost function LastCommitted(ps: seq<Process>, disk: map<BlockId, BlockData>, c: Cell): Value {
    if ps == [] then BlockVal(disk, c)
    else
      var s, start := ps[|ps| - 1].crash, |ps[|ps| - 1].start.log|;
      if !(start <= s.saved <= |s.log| == |s.news|) then LastCommitted(ps[..|ps| - 1], disk, c)
      else
        var i := LastHit(s.log, start, s.saved, CommittedTxs(s.log, start, s.saved), c);
        if i >= start then s.news[i] else LastCommitted(ps[..|ps| - 1], disk, c)
  }

  /** Durability and atomicity over any number of processes: after the last recovery a cell has the last
      value that was committed by any transaction of any of the processes. */
  lemma {:induction false} ManyProcesses(ps: seq<Process>, c: Cell)
    requires ps != [] && Lives(ps, c)
    ensures BlockVal(ps[|ps| - 1].recovered.disk, c) == LastCommitted(ps, ps[0].start.disk, c)
    decreases |ps|
  {
    var p, older := ps[|ps| - 1], ps[..|ps| - 1];
    LifeOf(p, c);
    if older != [] {
      LivesOlder(ps, c);
      ManyProcesses(older, c);
    }
    LeftNow(ps, ps[0].start.disk, c);
  }

  /** What the last process leaves is its own last committed value, or what the older ones left. */
  lemma LeftNow(ps: seq<Process>, disk: map<BlockId, BlockData>, c: Cell)
    requires ps != [] && var p := ps[|ps| - 1]; |p.start.log| <= p.crash.saved <= |p.crash.log| == |p.crash.news|
    requires BlockVal(ps[|ps| - 1].start.disk, c) == LastCommitted(ps[..|ps| - 1], disk, c)
    ensures Leaves(ps[|ps| - 1], c) == LastCommitted(ps, disk, c)
  {
  }

  lemma LivesOlder(ps: seq<Process>, c: Cell)
    requires |ps| > 1 && Lives(ps, c)
    ensures Lives(ps[..|ps| - 1], c) && ps[..|ps| - 1][|ps| - 2] == ps[|ps| - 2]
    ensures ps[|ps| - 1].start.disk == ps[|ps| - 2].recovered.disk
  {
    assert Follows(ps[|ps| - 2], ps[|ps| - 1].start);
  }
}
