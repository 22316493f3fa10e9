/** The byte form of log records (tx/log_record.go, tx/set_int.go and its siblings, tx/set_string.go,
    tx/commit.go, tx/rollback.go). */
module LogRecords {
  import opened Options
  import opened Pages
  import LogFile

  /** A saved value of one of the six logged types; a date is its Unix time in seconds. */
  datatype SavedVal =
    | IntV(n: int)
    | TextV(s: seq<Byte>)
    | BoolV(b: bool)
    | LongV(n: int)
    | ShortV(n: int)
    | DateV(n: int)

  datatype LogRecord =
    | CheckpointRecord
    | StartRecord(txNum: int)
    | CommitRecord(txNum: int)
    | RollbackRecord(txNum: int)
    | SetRecord(txNum: int, file: seq<Byte>, block: int, offset: int, val: SavedVal)

  /** The code of a record's type. */
  function Code(r: LogRecord): int {
    match r
    case CheckpointRecord => 0
    case StartRecord(_) => 1
    case CommitRecord(_) => 2
    case RollbackRecord(_) => 3
    case SetRecord(_, _, _, _, v) => ValCode(v)
  }

  function ValCode(v: SavedVal): int {
    match v
    case IntV(_) => 4
    case TextV(_) => 5
    case BoolV(_) => 6
    case LongV(_) => 7
    case ShortV(_) => 8
    case DateV(_) => 9
  }

  const FILE_POS := 2 * INT_SIZE

  function BlockPos(file: seq<Byte>): nat { FILE_POS + MaxLength(|file|) }

  function OffsetPos(file: seq<Byte>): nat { BlockPos(file) + INT_SIZE }

  function ValuePos(file: seq<Byte>): nat { OffsetPos(file) + INT_SIZE }

  /** The room a saved value takes. */
  function ValSize(v: SavedVal): nat {
    match v
    case IntV(_) => INT_SIZE
    case TextV(s) => MaxLength(|s|)
    case BoolV(_) => 1
    case LongV(_) => 8
    case ShortV(_) => 2
    case DateV(_) => 8
  }

  function RecordSize(r: LogRecord): nat {
    match r
    case CheckpointRecord => INT_SIZE
    case SetRecord(_, file, _, _, v) => ValuePos(file) + ValSize(v)
    case _ => 2 * INT_SIZE
  }

  function SetVal(p: seq<Byte>, pos: nat, v: SavedVal): seq<Byte>
    requires pos + ValSize(v) <= |p|
  {
    match v
    case IntV(n) => SetNum(p, pos, INT_SIZE, n)
    case TextV(s) => SetBytes(p, pos, s)
    case BoolV(b) => SetBool(p, pos, b)
    case LongV(n) => SetNum(p, pos, 8, n)
    case ShortV(n) => SetNum(p, pos, 2, n)
    case DateV(n) => SetNum(p, pos, 8, n)
  }

  /** Texts in a record must be valid; otherwise writing it fails. */
  predicate Writable(r: LogRecord) {
    r.SetRecord? ==> ValidText(r.file) && (r.val.TextV? ==> ValidText(r.val.s))
  }

  function Zeros(n: nat): (p: seq<Byte>)
    ensures |p| == n
  {
    seq(n, i => 0)
  }

  /** The bytes of a set record after its type, transaction, file name, block number and offset. */
  function Typed(r: LogRecord): (p: seq<Byte>)
    ensures |p| == RecordSize(r)
  {
    SetInt(Zeros(RecordSize(r)), 0, Code(r))
  }

  function Numbered(r: LogRecord): (p: seq<Byte>)
    requires r.SetRecord?
    ensures |p| == RecordSize(r)
  {
    SetInt(Typed(r), INT_SIZE, r.txNum)
  }

  function Named(r: LogRecord): (p: seq<Byte>)
    requires r.SetRecord?
    ensures |p| == RecordSize(r)
  {
    SetBytes(Numbered(r), FILE_POS, r.file)
  }

  function Blocked(r: LogRecord): (p: seq<Byte>)
    requires r.SetRecord?
    ensures |p| == RecordSize(r)
  {
    SetInt(Named(r), BlockPos(r.file), r.block)
  }

  function Placed(r: LogRecord): (p: seq<Byte>)
    requires r.SetRecord?
    ensures |p| == RecordSize(r)
  {
    SetInt(Blocked(r), OffsetPos(r.file), r.offset)
  }

  /** The bytes of a record, written field by field. */
  function Encode(r: LogRecord): (p: seq<Byte>)
    ensures |p| == RecordSize(r)
  {
    match r
    case CheckpointRecord => Typed(r)
    case SetRecord(_, file, _, _, v) => SetVal(Placed(r), ValuePos(file), v)
    case _ => SetInt(Typed(r), INT_SIZE, r.txNum)
  }

  function GetVal(p: seq<Byte>, pos: nat, code: int): Option<SavedVal>
    requires 4 <= code <= 9
  {
    if pos + (if code == 6 then 1 else if code == 8 then 2 else if code == 7 || code == 9 then 8 else INT_SIZE) > |p|
        then None
    else if code == 4 then Some(IntV(GetInt(p, pos)))
    else if code == 5 then
      match GetString(p, pos)
      case None => None
      case Some(s) => Some(TextV(s))
    else if code == 6 then Some(BoolV(GetBool(p, pos)))
    else if code == 7 then Some(LongV(GetNum(p, pos, 8)))
    else if code == 8 then Some(ShortV(GetNum(p, pos, 2)))
    else Some(DateV(GetNum(p, pos, 8)))
  }

  function DecodeSet(p: seq<Byte>, code: int): Option<LogRecord>
    requires 4 <= code <= 9
  {
    if |p| < FILE_POS + INT_SIZE then None
    else
      match GetString(p, FILE_POS)
      case None => None
      case Some(file) =>
        if |p| < ValuePos(file) then None
        else
          match GetVal(p, ValuePos(file), code)
          case None => None
          case Some(v) => Some(SetRecord(GetInt(p, INT_SIZE), file, GetInt(p, BlockPos(file)),
              GetInt(p, OffsetPos(file)), v))
  }

  /** The record some bytes stand for; None for an error or an index out of range.  The number of a
      rollback record is read at offset 0, where the type code is. */
  function Decode(p: seq<Byte>): Option<LogRecord> {
    if |p| < INT_SIZE then None
    else
      var code := GetInt(p, 0);
      if code == 0 then Some(CheckpointRecord)
      else if code == 3 then Some(RollbackRecord(GetInt(p, 0)))
      else if 4 <= code <= 9 then DecodeSet(p, code)
      else if |p| < 2 * INT_SIZE then None
      else if code == 1 then Some(StartRecord(GetInt(p, INT_SIZE)))
      else if code == 2 then Some(CommitRecord(GetInt(p, INT_SIZE)))
      else None
  }

  function NarrowVal(v: SavedVal): SavedVal {
    match v
    case IntV(n) => IntV(Narrow(n, INT_SIZE))
    case LongV(n) => LongV(Narrow(n, 8))
    case ShortV(n) => ShortV(Narrow(n, 2))
    case DateV(n) => DateV(Narrow(n, 8))
    case _ => v
  }

  /** What a record keeps of its numbers, and of a rollback its type code only. */
  function Kept(r: LogRecord): LogRecord {
    match r
    case CheckpointRecord => r
    case StartRecord(t) => StartRecord(Narrow(t, INT_SIZE))
    case CommitRecord(t) => CommitRecord(Narrow(t, INT_SIZE))
    case RollbackRecord(_) => RollbackRecord(3)
    case SetRecord(t, file, block, offset, v) =>
      SetRecord(Narrow(t, INT_SIZE), file, Narrow(block, INT_SIZE), Narrow(offset, INT_SIZE), NarrowVal(v))
  }

  /** Pages that agree up to some position. */
  ghost predicate SameUpTo(p: seq<Byte>, q: seq<Byte>, n: nat) {
    |p| == |q| && n <= |p| && p[..n] == q[..n]
  }

  lemma SameSlice(p: seq<Byte>, q: seq<Byte>, n: nat, at: nat, k: nat)
    requires SameUpTo(p, q, n) && at + k <= n
    ensures Slice(p, at, k) == Slice(q, at, k)
  {
    forall i | at <= i < at + k ensures p[i] == q[i] {
      assert p[..n][i] == q[..n][i];
    }
  }

  lemma SameNum(p: seq<Byte>, q: seq<Byte>, n: nat, at: nat, k: nat)
    requires SameUpTo(p, q, n) && at + k <= n && k > 0
    ensures GetNum(p, at, k) == GetNum(q, at, k)
  {
    SameSlice(p, q, n, at, k);
  }

  lemma SameBytes(p: seq<Byte>, q: seq<Byte>, n: nat, at: nat, b: seq<Byte>)
    requires SameUpTo(p, q, n) && at + INT_SIZE + |b| <= n && GetBytes(q, at) == Some(b)
    ensures GetBytes(p, at) == Some(b)
  {
    SameNum(p, q, n, at, INT_SIZE);
    SameSlice(p, q, n, at + INT_SIZE, |b|);
  }

  lemma SpliceFrom(p: seq<Byte>, offset: nat, bs: seq<Byte>)
    requires offset + |bs| <= |p|
    ensures SameUpTo(Splice(p, offset, bs), p, offset)
  {
  }

  lemma SetBytesFrom(p: seq<Byte>, offset: nat, b: seq<Byte>)
    requires offset + INT_SIZE + |b| <= |p|
    ensures SameUpTo(SetBytes(p, offset, b), p, offset)
  {
    SetBytesIs(p, offset, b);
  }

  lemma SetValFrom(p: seq<Byte>, pos: nat, v: SavedVal)
    requires pos + ValSize(v) <= |p|
    ensures SameUpTo(SetVal(p, pos, v), p, pos)
  {
    match v {
      case TextV(s) => SetBytesFrom(p, pos, s);
      case _ =>
    }
  }

  lemma ValRoundTrip(p: seq<Byte>, pos: nat, v: SavedVal)
    requires pos + ValSize(v) <= |p| < 0x8000_0000 && (v.TextV? ==> ValidText(v.s))
    ensures GetVal(SetVal(p, pos, v), pos, ValCode(v)) == Some(NarrowVal(v))
  {
    match v {
      case IntV(n) => NumRoundTrip(p, pos, INT_SIZE, n);
      case TextV(s) => BytesRoundTrip(p, pos, s);
      case BoolV(b) =>
      case LongV(n) => NumRoundTrip(p, pos, 8, n);
      case ShortV(n) => NumRoundTrip(p, pos, 2, n);
      case DateV(n) => NumRoundTrip(p, pos, 8, n);
    }
  }

  lemma CodeKept(p: seq<Byte>, r: LogRecord)
    requires |p| >= INT_SIZE
    ensures GetInt(SetInt(p, 0, Code(r)), 0) == Code(r)
  {
    SizeOfBases();
    NumRoundTrip(p, 0, INT_SIZE, Code(r));
  }

  /** What some bytes decode to, whoever wrote them: the type by its code, the fields where they begin; bytes
      of another code, or too few, decode to nothing. */
  lemma DecodedFields(p: seq<Byte>)
    ensures |p| < 4 ==> Decode(p) == None
    ensures |p| >= 4 && !(0 <= GetInt(p, 0) <= 9) ==> Decode(p) == None
    ensures |p| >= 4 && GetInt(p, 0) == 0 ==> Decode(p) == Some(CheckpointRecord)
    ensures |p| >= 4 && GetInt(p, 0) == 1 ==> Decode(p) == if |p| < 8 then None else Some(StartRecord(GetInt(p, 4)))
    ensures |p| >= 4 && GetInt(p, 0) == 2 ==> Decode(p) == if |p| < 8 then None else Some(CommitRecord(GetInt(p, 4)))
    ensures |p| >= 4 && GetInt(p, 0) == 3 ==> Decode(p) == Some(RollbackRecord(3))
    ensures |p| >= 4 && 4 <= GetInt(p, 0) <= 9 && Decode(p).Some? ==> SetFields(p, Decode(p).value)
  {
    if |p| >= 4 && 4 <= GetInt(p, 0) <= 9 && Decode(p).Some? {
      PositionsAre(Decode(p).value.file);
    }
  }

  /** The fields of a set record in some bytes. */
  predicate SetFields(p: seq<Byte>, r: LogRecord) {
    && |p| >= 12 && r.SetRecord? && r.txNum == GetInt(p, 4) && GetBytes(p, 8) == Some(r.file) && ValidText(r.file)
    && var n := 12 + 4 * |r.file|;
       |p| >= n + 8 && r.block == GetInt(p, n) && r.offset == GetInt(p, n + 4) && ValueAt(p, n + 8, r.val)
  }

  predicate ValueAt(p: seq<Byte>, pos: nat, v: SavedVal) {
    match v
    case IntV(n) => pos + 4 <= |p| && n == GetNum(p, pos, 4)
    case TextV(s) => pos + 4 <= |p| && GetBytes(p, pos) == Some(s) && ValidText(s)
    case BoolV(b) => pos < |p| && b == (p[pos] != 0)
    case LongV(n) => pos + 8 <= |p| && n == GetNum(p, pos, 8)
    case ShortV(n) => pos + 2 <= |p| && n == GetNum(p, pos, 2)
    case DateV(n) => pos + 8 <= |p| && n == GetNum(p, pos, 8)
  }

  /** Where the fields of a set record begin, and the codes of the record types. */
  lemma RecordLayout(r: LogRecord)
    requires Writable(r) && RecordSize(r) < 0x8000_0000
    ensures GetInt(Encode(r), 0) ==
              match r
              case CheckpointRecord => 0
              case StartRecord(_) => 1
              case CommitRecord(_) => 2
              case RollbackRecord(_) => 3
              case SetRecord(_, _, _, _, v) =>
                match v
                case IntV(_) => 4
                case TextV(_) => 5
                case BoolV(_) => 6
                case LongV(_) => 7
                case ShortV(_) => 8
                case DateV(_) => 9
    ensures !r.CheckpointRecord? ==> |Encode(r)| >= 8 && GetInt(Encode(r), 4) == Narrow(r.txNum, 4)
    ensures r.SetRecord? ==>
              var p, n := Encode(r), 12 + 4 * |r.file|;
              && |p| >= n + 8 && GetBytes(p, 8) == Some(r.file)
              && GetInt(p, n) == Narrow(r.block, 4) && GetInt(p, n + 4) == Narrow(r.offset, 4)
              && GetVal(p, n + 8, Code(r)) == Some(NarrowVal(r.val))
  {
    if r.SetRecord? {
      SetLayout(r);
    } else {
      ShortFields(r);
    }
  }

  lemma SetLayout(r: LogRecord)
    requires r.SetRecord? && Writable(r) && RecordSize(r) < 0x8000_0000
    ensures GetInt(Encode(r), 0) == Code(r) && |Encode(r)| >= 8 && GetInt(Encode(r), 4) == Narrow(r.txNum, 4)
    ensures var p, n := Encode(r), 12 + 4 * |r.file|;
            && |p| >= n + 8 && GetBytes(p, 8) == Some(r.file)
            && GetInt(p, n) == Narrow(r.block, 4) && GetInt(p, n + 4) == Narrow(r.offset, 4)
            && GetVal(p, n + 8, Code(r)) == Some(NarrowVal(r.val))
  {
    PositionsAre(r.file);
    FieldsKept(r);
  }

  lemma PositionsAre(file: seq<Byte>)
    ensures FILE_POS == 8 && BlockPos(file) == 12 + 4 * |file|
    ensures OffsetPos(file) == BlockPos(file) + 4 && ValuePos(file) == BlockPos(file) + 8
  {
  }

  lemma ShortFields(r: LogRecord)
    requires !r.SetRecord?
    ensures GetInt(Encode(r), 0) == Code(r)
    ensures !r.CheckpointRecord? ==> GetInt(Encode(r), INT_SIZE) == Narrow(r.txNum, INT_SIZE)
  {
    CodeKept(Zeros(RecordSize(r)), r);
    if !r.CheckpointRecord? {
      NumRoundTrip(Typed(r), INT_SIZE, INT_SIZE, r.txNum);
      NumElsewhere(Typed(r), INT_SIZE, Enc(r.txNum, INT_SIZE), 0, INT_SIZE);
    }
  }

  /** Decoding what was encoded gives what the record keeps. */
  lemma RoundTrip(r: LogRecord)
    requires Writable(r) && RecordSize(r) < 0x8000_0000
    ensures Decode(Encode(r)) == Some(Kept(r))
  {
    if r.SetRecord? {
      FieldsKept(r);
      SetDecoded(r, Encode(r));
    } else {
      ShortRoundTrip(r);
    }
  }

  /** The records that hold at most a transaction number. */
  lemma ShortRoundTrip(r: LogRecord)
    requires !r.SetRecord?
    ensures Decode(Encode(r)) == Some(Kept(r))
  {
    ShortFields(r);
  }

  lemma SetDecoded(r: LogRecord, p: seq<Byte>)
    requires r.SetRecord? && Writable(r) && |p| == RecordSize(r)
    requires GetInt(p, 0) == Code(r) && GetInt(p, INT_SIZE) == Narrow(r.txNum, INT_SIZE)
    requires GetBytes(p, FILE_POS) == Some(r.file)
    requires GetInt(p, BlockPos(r.file)) == Narrow(r.block, INT_SIZE)
    requires GetInt(p, OffsetPos(r.file)) == Narrow(r.offset, INT_SIZE)
    requires GetVal(p, ValuePos(r.file), Code(r)) == Some(NarrowVal(r.val))
    ensures Decode(p) == Some(Kept(r))
  {
  }

  /** Later writes leave the earlier fields alone. */
  lemma StagesKept(r: LogRecord)
    requires r.SetRecord?
    ensures SameUpTo(Encode(r), Placed(r), ValuePos(r.file)) && SameUpTo(Encode(r), Blocked(r), OffsetPos(r.file))
    ensures SameUpTo(Encode(r), Named(r), BlockPos(r.file)) && SameUpTo(Encode(r), Numbered(r), FILE_POS)
    ensures SameUpTo(Encode(r), Typed(r), INT_SIZE)
  {
    var p := Encode(r);
    SpliceFrom(Typed(r), INT_SIZE, Enc(r.txNum, INT_SIZE));
    SetBytesFrom(Numbered(r), FILE_POS, r.file);
    SpliceFrom(Named(r), BlockPos(r.file), Enc(r.block, INT_SIZE));
    SpliceFrom(Blocked(r), OffsetPos(r.file), Enc(r.offset, INT_SIZE));
    SetValFrom(Placed(r), ValuePos(r.file), r.val);
    Shorten(p, Placed(r), Blocked(r), ValuePos(r.file), OffsetPos(r.file));
    Shorten(p, Blocked(r), Named(r), OffsetPos(r.file), BlockPos(r.file));
    Shorten(p, Named(r), Numbered(r), BlockPos(r.file), FILE_POS);
    Shorten(p, Numbered(r), Typed(r), FILE_POS, INT_SIZE);
  }

  /** Each field reads back what it can hold. */
  lemma FieldsKept(r: LogRecord)
    requires r.SetRecord? && Writable(r) && RecordSize(r) < 0x8000_0000
    ensures var p := Encode(r);
            && GetInt(p, 0) == Code(r) && GetInt(p, INT_SIZE) == Narrow(r.txNum, INT_SIZE)
            && GetBytes(p, FILE_POS) == Some(r.file)
            && GetInt(p, BlockPos(r.file)) == Narrow(r.block, INT_SIZE)
            && GetInt(p, OffsetPos(r.file)) == Narrow(r.offset, INT_SIZE)
            && GetVal(p, ValuePos(r.file), Code(r)) == Some(NarrowVal(r.val))
  {
    StagesKept(r);
    var p, file := Encode(r), r.file;
    CodeKept(Zeros(RecordSize(r)), r);
    SameNum(p, Typed(r), INT_SIZE, 0, INT_SIZE);
    NumRoundTrip(Typed(r), INT_SIZE, INT_SIZE, r.txNum);
    SameNum(p, Numbered(r), FILE_POS, INT_SIZE, INT_SIZE);
    BytesRoundTrip(Numbered(r), FILE_POS, file);
    SameBytes(p, Named(r), BlockPos(file), FILE_POS, file);
    NumRoundTrip(Named(r), BlockPos(file), INT_SIZE, r.block);
    SameNum(p, Blocked(r), OffsetPos(file), BlockPos(file), INT_SIZE);
    NumRoundTrip(Blocked(r), OffsetPos(file), INT_SIZE, r.offset);
    SameNum(p, Placed(r), ValuePos(file), OffsetPos(file), INT_SIZE);
    ValRoundTrip(Placed(r), ValuePos(file), r.val);
  }

  lemma Shorten(p: seq<Byte>, q: seq<Byte>, q': seq<Byte>, n: nat, m: nat)
    requires SameUpTo(p, q, n) && SameUpTo(q, q', m) && m <= n
    ensures SameUpTo(p, q', m)
  {
    assert p[..m] == p[..n][..m] && q[..m] == q[..n][..m];
  }

  /** The numbers of a record fit their fields. */
  predicate Fits(r: LogRecord) {
    match r
    case CheckpointRecord => true
    case SetRecord(t, _, block, offset, v) =>
      InRange(t, INT_SIZE) && InRange(block, INT_SIZE) && InRange(offset, INT_SIZE) && FitsVal(v)
    case _ => InRange(r.txNum, INT_SIZE)
  }

  predicate FitsVal(v: SavedVal) {
    match v
    case IntV(n) => InRange(n, INT_SIZE)
    case LongV(n) => InRange(n, 8)
    case ShortV(n) => InRange(n, 2)
    case DateV(n) => InRange(n, 8)
    case _ => true
  }

  /** The codec returns a record exactly when its numbers fit and, for a rollback record, when it is
      transaction 3's. */
  lemma RoundTripIff(r: LogRecord)
    requires Writable(r) && RecordSize(r) < 0x8000_0000
    ensures Decode(Encode(r)) == Some(r) <==> if r.RollbackRecord? then r.txNum == 3 else Fits(r)
  {
    RoundTrip(r);
    match r {
      case CheckpointRecord =>
      case RollbackRecord(_) =>
      case SetRecord(t, _, block, offset, v) => {
        NarrowIff(t, INT_SIZE);
        NarrowIff(block, INT_SIZE);
        NarrowIff(offset, INT_SIZE);
        match v {
          case IntV(n) => NarrowIff(n, INT_SIZE);
          case LongV(n) => NarrowIff(n, 8);
          case ShortV(n) => NarrowIff(n, 2);
          case DateV(n) => NarrowIff(n, 8);
          case _ =>
        }
      }
      case StartRecord(t) => NarrowIff(t, INT_SIZE);
      case CommitRecord(t) => NarrowIff(t, INT_SIZE);
    }
  }

  /** Fill a page with a record, field by field, and append it; -1 stands for the error on invalid text. */
  method WriteToLog(log: LogFile.Manager, r: LogRecord) returns (lsn: int)
    requires log.Valid() && RecordSize(r) + 2 * INT_SIZE <= log.fm.blockSize
    modifies log`currentBlock, log`latestLSN, log`lastSavedLSN, log.fm, log.logPage.buffer
    ensures log.Valid()
    ensures Writable(r) ==>
              && lsn == log.latestLSN == old(log.latestLSN) + 1
              && log.Contents() == [Encode(r)] + old(log.Contents())
    ensures !Writable(r) ==> lsn == -1 && log.Contents() == old(log.Contents())
  {
    var page := new Page.OfSize(RecordSize(r));
    var ok := Fill(page, r);
    if !ok {
      return -1;
    }
    lsn := log.Append(page.buffer[..]);
  }

  method Fill(page: Page, r: LogRecord) returns (ok: bool)
    requires page.buffer[..] == Zeros(RecordSize(r))
    modifies page.buffer
    ensures ok <==> Writable(r)
    ensures ok ==> page.buffer[..] == Encode(r)
  {
    assert page.buffer.Length == |page.buffer[..]|;
    page.PutNum(0, INT_SIZE, Code(r));
    ok := true;
    match r {
      case CheckpointRecord =>
      case SetRecord(txNum, file, block, offset, v) => {
        page.PutNum(INT_SIZE, INT_SIZE, txNum);
        ok := page.PutString(FILE_POS, file);
        if !ok {
          return;
        }
        page.PutNum(BlockPos(file), INT_SIZE, block);
        page.PutNum(OffsetPos(file), INT_SIZE, offset);
        ok := FillVal(page, ValuePos(file), v);
      }
      case _ => page.PutNum(INT_SIZE, INT_SIZE, r.txNum);
    }
  }

  method FillVal(page: Page, pos: nat, v: SavedVal) returns (ok: bool)
    requires pos + ValSize(v) <= page.buffer.Length
    modifies page.buffer
    ensures ok <==> (v.TextV? ==> ValidText(v.s))
    ensures ok ==> page.buffer[..] == SetVal(old(page.buffer[..]), pos, v)
  {
    ok := true;
    match v {
      case IntV(n) => page.PutNum(pos, INT_SIZE, n);
      case TextV(s) => ok := page.PutString(pos, s);
      case BoolV(b) => page.PutBool(pos, b);
      case LongV(n) => page.PutNum(pos, 8, n);
      case ShortV(n) => page.PutNum(pos, 2, n);
      case DateV(n) => page.PutNum(pos, 8, n);
    }
  }
}
