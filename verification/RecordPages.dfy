/** Records in the slots of a block (record/page.go), over the bytes of the block. */
module RecordPages {
  import opened Options
  import opened Pages
  import opened Layouts
  import opened LogRecords

  const FLAG_EMPTY := 0
  const FLAG_USED := 1

  /** A value a field of some type can hold; a text may have at most the declared number of characters. */
  predicate Holds(t: FieldType, v: SavedVal) {
    match t
    case Integer => v.IntV? && FitsVal(v)
    case Long => v.LongV? && FitsVal(v)
    case Short => v.ShortV? && FitsVal(v)
    case Boolean => v.BoolV?
    case Date => v.DateV? && FitsVal(v)
    case Varchar(n) => v.TextV? && ValidText(v.s) && Runes(v.s).value <= n
  }

  /** The bytes a value takes. */
  function StoredSize(v: SavedVal): nat {
    if v.TextV? then INT_SIZE + |v.s| else ValSize(v)
  }

  /** The bytes that have to be there for it: for a text only its length, the rest is cut off at the end of
      the page. */
  function HeadSize(v: SavedVal): nat {
    if v.TextV? then INT_SIZE else ValSize(v)
  }

  /** The type of a field, whatever the size of the value. */
  predicate OfType(t: FieldType, v: SavedVal) {
    match t
    case Integer => v.IntV?
    case Long => v.LongV?
    case Short => v.ShortV?
    case Boolean => v.BoolV?
    case Date => v.DateV?
    case Varchar(_) => v.TextV?
  }

  function PutField(p: seq<Byte>, pos: nat, v: SavedVal): (r: seq<Byte>)
    requires pos + HeadSize(v) <= |p|
    ensures |r| == |p|
  {
    match v
    case IntV(n) => SetNum(p, pos, INT_SIZE, n)
    case TextV(s) => SetBytes(p, pos, s)
    case BoolV(b) => SetBool(p, pos, b)
    case LongV(n) => SetNum(p, pos, 8, n)
    case ShortV(n) => SetNum(p, pos, 2, n)
    case DateV(n) => SetNum(p, pos, 8, n)
  }

  function GetField(p: seq<Byte>, pos: nat, t: FieldType): Option<SavedVal>
    requires pos + LengthInBytes(t) <= |p|
  {
    match t
    case Integer => Some(IntV(GetInt(p, pos)))
    case Long => Some(LongV(GetNum(p, pos, 8)))
    case Short => Some(ShortV(GetNum(p, pos, 2)))
    case Boolean => Some(BoolV(GetBool(p, pos)))
    case Date => Some(DateV(GetNum(p, pos, 8)))
    case Varchar(_) =>
      match GetString(p, pos)
      case None => None
      case Some(s) => Some(TextV(s))
  }

  /** A value that a field can hold fits in the room the layout gives the field. */
  lemma StoredFits(t: FieldType, v: SavedVal)
    requires Holds(t, v)
    ensures StoredSize(v) <= LengthInBytes(t)
  {
    if t.Varchar? {
      TextFits(v.s);
    }
  }

  lemma FieldRoundTrip(p: seq<Byte>, pos: nat, t: FieldType, v: SavedVal)
    requires Holds(t, v) && pos + LengthInBytes(t) <= |p| < 0x8000_0000 && pos + StoredSize(v) <= |p|
    ensures GetField(PutField(p, pos, v), pos, t) == Some(v)
  {
    match v {
      case IntV(n) => NumRoundTrip(p, pos, INT_SIZE, n);
      case TextV(s) => BytesRoundTrip(p, pos, s);
      case BoolV(b) =>
      case LongV(n) => NumRoundTrip(p, pos, 8, n);
      case ShortV(n) => NumRoundTrip(p, pos, 2, n);
      case DateV(n) => NumRoundTrip(p, pos, 8, n);
    }
  }

  /** Writing a value changes no byte outside it. */
  lemma PutElsewhere(p: seq<Byte>, pos: nat, v: SavedVal, other: nat, k: nat)
    requires pos + StoredSize(v) <= |p| && other + k <= |p|
    requires other + k <= pos || pos + StoredSize(v) <= other
    ensures Slice(PutField(p, pos, v), other, k) == Slice(p, other, k)
  {
    if v.TextV? {
      SetBytesIs(p, pos, v.s);
      SpliceElsewhere(p, pos, Enc(|v.s|, INT_SIZE) + v.s, other, k);
    }
  }

  /** A number depends only on its bytes. */
  lemma NumFrom(p: seq<Byte>, q: seq<Byte>, pos: nat, m: nat, k: nat)
    requires k > 0 && k <= m && pos + m <= |p| == |q| && Slice(p, pos, m) == Slice(q, pos, m)
    ensures GetNum(p, pos, k) == GetNum(q, pos, k)
  {
    assert Slice(p, pos, k) == Slice(p, pos, m)[..k];
    assert Slice(q, pos, k) == Slice(q, pos, m)[..k];
  }

  /** What a field holds depends only on the bytes of the field. */
  lemma FieldFrom(p: seq<Byte>, q: seq<Byte>, pos: nat, t: FieldType, w: SavedVal)
    requires pos + LengthInBytes(t) <= |p| == |q| && Slice(p, pos, LengthInBytes(t)) == Slice(q, pos, LengthInBytes(t))
    requires Holds(t, w) && GetField(p, pos, t) == Some(w)
    ensures GetField(q, pos, t) == Some(w)
  {
    match t {
      case Integer => NumFrom(p, q, pos, INT_SIZE, INT_SIZE);
      case Long => NumFrom(p, q, pos, 8, 8);
      case Short => NumFrom(p, q, pos, 2, 2);
      case Boolean => assert Slice(p, pos, 1)[0] == Slice(q, pos, 1)[0];
      case Date => NumFrom(p, q, pos, 8, 8);
      case Varchar(n) => TextFrom(p, q, pos, n, w.s);
    }
  }

  lemma TextFrom(p: seq<Byte>, q: seq<Byte>, pos: nat, n: nat, s: seq<Byte>)
    requires pos + MaxLength(n) <= |p| == |q| && Slice(p, pos, MaxLength(n)) == Slice(q, pos, MaxLength(n))
    requires ValidText(s) && Runes(s).value <= n && GetBytes(p, pos) == Some(s)
    ensures GetBytes(q, pos) == Some(s)
  {
    StoredFits(Varchar(n), TextV(s));
    NumFrom(p, q, pos, MaxLength(n), INT_SIZE);
    forall i | 0 <= i < |s| ensures q[pos + INT_SIZE + i] == s[i] {
      assert Slice(p, pos, MaxLength(n))[INT_SIZE + i] == Slice(q, pos, MaxLength(n))[INT_SIZE + i];
      assert s[i] == Slice(p, pos + INT_SIZE, |s|)[i];
    }
    assert Slice(q, pos + INT_SIZE, |s|) == s;
  }

  /** Where a slot begins. */
  function SlotPos(l: Layout, slot: nat): nat {
    slot * l.slotSize
  }

  predicate IsValidSlot(l: Layout, slot: int, blockSize: nat) {
    slot >= 0 && SlotPos(l, slot + 1) <= blockSize
  }

  /** A block is filled with slots from its first byte on, each with its flag in front. */
  lemma SlotsFill(l: Layout, slot: nat, f: string, blockSize: nat)
    requires l.slotSize >= 1 && f in l.offsets
    ensures SlotPos(l, 0) == 0 && SlotPos(l, slot + 1) == SlotPos(l, slot) + l.slotSize
    ensures PartPos(l, slot, None) == SlotPos(l, slot) && PartPos(l, slot, Some(f)) == SlotPos(l, slot) + l.offsets[f]
    ensures IsValidSlot(l, slot, blockSize) <==> slot < blockSize / l.slotSize
  {
    assert (slot + 1) * l.slotSize == slot * l.slotSize + l.slotSize;
    QuotientAbove(slot + 1, l.slotSize, blockSize);
  }

  lemma QuotientAbove(k: nat, z: nat, n: nat)
    requires z >= 1
    ensures k * z <= n <==> k <= n / z
  {
    var q, r := n / z, n % z;
    assert n == q * z + r;
    if k <= q {
      Scaled(q - k, z);
      assert q * z == (q - k) * z + k * z;
    } else {
      Scaled(k - q - 1, z);
      assert k * z == (k - q - 1) * z + q * z + z;
    }
  }

  lemma Scaled(a: nat, b: nat)
    ensures a * b >= 0
  {
  }

  /** Slots do not overlap. */
  lemma {:induction false} SlotsApart(l: Layout, slot: nat, other: nat)
    requires slot < other
    ensures SlotPos(l, slot) + l.slotSize <= SlotPos(l, other)
    decreases other
  {
    assert SlotPos(l, other) == SlotPos(l, other - 1) + l.slotSize;
    if slot < other - 1 {
      SlotsApart(l, slot, other - 1);
    }
  }

  lemma SlotInside(l: Layout, slot: nat, blockSize: nat)
    requires IsValidSlot(l, slot, blockSize)
    ensures SlotPos(l, slot) + l.slotSize <= blockSize
  {
    assert (slot + 1) * l.slotSize == slot * l.slotSize + l.slotSize;
  }

  /** The stretch of a field, or of the flag (None), in a slot. */
  function PartPos(l: Layout, slot: nat, part: Option<string>): nat
    requires part.Some? ==> part.value in l.offsets
  {
    SlotPos(l, slot) + match part case None => 0 case Some(f) => l.offsets[f]
  }

  function PartSize(l: Layout, part: Option<string>): nat
    requires part.Some? ==> part.value in l.info
  {
    match part case None => INT_SIZE case Some(f) => LengthInBytes(l.info[f])
  }

  predicate IsPart(l: Layout, part: Option<string>) {
    part.Some? ==> part.value in l.fields && part.value in l.info && part.value in l.offsets
  }

  /** Different parts of a block do not overlap, and all lie inside it. */
  lemma PartsApart(l: Layout, slot: nat, part: Option<string>, slot': nat, part': Option<string>)
    requires LayoutOk(l) && IsPart(l, part) && IsPart(l, part') && (slot != slot' || part != part')
    ensures || PartPos(l, slot, part) + PartSize(l, part) <= PartPos(l, slot', part')
            || PartPos(l, slot', part') + PartSize(l, part') <= PartPos(l, slot, part)
  {
    PartInSlot(l, slot, part);
    PartInSlot(l, slot', part');
    if slot < slot' {
      SlotsApart(l, slot, slot');
    } else if slot' < slot {
      SlotsApart(l, slot', slot);
    } else if part.Some? && part'.Some? {
      assert Apart(l, part.value, part'.value);
    } else if part.Some? {
      assert FieldOk(l, part.value);
    } else {
      assert FieldOk(l, part'.value);
    }
  }

  lemma PartInSlot(l: Layout, slot: nat, part: Option<string>)
    requires LayoutOk(l) && IsPart(l, part)
    ensures SlotPos(l, slot) <= PartPos(l, slot, part)
    ensures PartPos(l, slot, part) + PartSize(l, part) <= SlotPos(l, slot) + l.slotSize
  {
    if part.Some? {
      assert FieldOk(l, part.value);
    }
  }

  /** Another part that lies in the block. */
  predicate Elsewhere(l: Layout, blockSize: nat, slot': nat, part': Option<string>, slot: nat, part: Option<string>)
    requires IsPart(l, part')
  {
    && IsValidSlot(l, slot', blockSize) && (slot' != slot || part' != part)
    && PartPos(l, slot', part') + PartSize(l, part') <= blockSize
  }

  /** The block's bytes are unchanged but for one part. */
  ghost predicate OnlyPart(l: Layout, block: seq<Byte>, block': seq<Byte>, slot: nat, part: Option<string>) {
    |block'| == |block|
    && forall slot', part' :: IsPart(l, part') && Elsewhere(l, |block|, slot', part', slot, part) ==>
         Slice(block', PartPos(l, slot', part'), PartSize(l, part')) ==
               Slice(block, PartPos(l, slot', part'), PartSize(l, part'))
  }

  function Flag(block: seq<Byte>, l: Layout, slot: nat): int
    requires SlotPos(l, slot) + INT_SIZE <= |block|
  {
    GetInt(block, SlotPos(l, slot))
  }

  function WithFlag(block: seq<Byte>, l: Layout, slot: nat, flag: int): (r: seq<Byte>)
    requires SlotPos(l, slot) + INT_SIZE <= |block|
    ensures |r| == |block|
  {
    SetInt(block, SlotPos(l, slot), flag)
  }

  function WithField(block: seq<Byte>, l: Layout, slot: nat, f: string, v: SavedVal): (r: seq<Byte>)
    requires f in l.offsets && PartPos(l, slot, Some(f)) + HeadSize(v) <= |block|
    ensures |r| == |block|
  {
    PutField(block, PartPos(l, slot, Some(f)), v)
  }

  lemma FieldInside(l: Layout, slot: nat, f: string, blockSize: nat)
    requires LayoutOk(l) && f in l.fields && IsValidSlot(l, slot, blockSize)
    ensures PartPos(l, slot, Some(f)) + LengthInBytes(l.info[f]) <= blockSize
    ensures SlotPos(l, slot) + INT_SIZE <= blockSize
  {
    PartInSlot(l, slot, Some(f));
    SlotInside(l, slot, blockSize);
  }

  /** Field independence: writing a value that the field can hold is read back, and every other field
      and every flag of every slot keeps its bytes. */
  lemma FieldHeld(block: seq<Byte>, l: Layout, slot: nat, f: string, v: SavedVal)
    requires LayoutOk(l) && f in l.fields && Holds(l.info[f], v)
    requires IsValidSlot(l, slot, |block|) && |block| < 0x8000_0000
    ensures (v.TextV? ==> ValidText(v.s)) && PartPos(l, slot, Some(f)) + HeadSize(v) <= |block|
    ensures HasField(WithField(block, l, slot, f, v), l, slot, f, v)
    ensures OnlyPart(l, block, WithField(block, l, slot, f, v), slot, Some(f))
  {
    FieldWritten(block, l, slot, f, v);
  }

  lemma FieldWritten(block: seq<Byte>, l: Layout, slot: nat, f: string, v: SavedVal)
    requires LayoutOk(l) && f in l.fields && Holds(l.info[f], v)
    requires IsValidSlot(l, slot, |block|) && |block| < 0x8000_0000
    ensures PartPos(l, slot, Some(f)) + LengthInBytes(l.info[f]) <= |block|
    ensures PartPos(l, slot, Some(f)) + StoredSize(v) <= |block|
    ensures GetField(WithField(block, l, slot, f, v), PartPos(l, slot, Some(f)), l.info[f]) == Some(v)
    ensures OnlyPart(l, block, WithField(block, l, slot, f, v), slot, Some(f))
  {
    FieldInside(l, slot, f, |block|);
    StoredFits(l.info[f], v);
    FieldRoundTrip(block, PartPos(l, slot, Some(f)), l.info[f], v);
    forall slot', part' | IsPart(l, part') && Elsewhere(l, |block|, slot', part', slot, Some(f))
      ensures Slice(WithField(block, l, slot, f, v), PartPos(l, slot', part'), PartSize(l, part'))
           == Slice(block, PartPos(l, slot', part'), PartSize(l, part'))
    {
      PartsApart(l, slot, Some(f), slot', part');
      PutElsewhere(block, PartPos(l, slot, Some(f)), v, PartPos(l, slot', part'), PartSize(l, part'));
    }
  }

  lemma FlagWritten(block: seq<Byte>, l: Layout, slot: nat, flag: int)
    requires LayoutOk(l) && IsValidSlot(l, slot, |block|) && InRange(flag, INT_SIZE)
    ensures SlotPos(l, slot) + INT_SIZE <= |block|
    ensures Flag(WithFlag(block, l, slot, flag), l, slot) == flag
    ensures OnlyPart(l, block, WithFlag(block, l, slot, flag), slot, None)
  {
    SlotInside(l, slot, |block|);
    NumRoundTrip(block, SlotPos(l, slot), INT_SIZE, flag);
    forall slot', part' | IsPart(l, part') && Elsewhere(l, |block|, slot', part', slot, None)
      ensures Slice(WithFlag(block, l, slot, flag), PartPos(l, slot', part'), PartSize(l, part'))
           == Slice(block, PartPos(l, slot', part'), PartSize(l, part'))
    {
      PartsApart(l, slot, None, slot', part');
      SpliceElsewhere(block, SlotPos(l, slot), Enc(flag, INT_SIZE), PartPos(l, slot', part'), PartSize(l, part'));
    }
  }

  /** A write to another part leaves what a field holds, and every flag, alone. */
  lemma OthersKept(block: seq<Byte>, block': seq<Byte>, l: Layout, slot: nat, part: Option<string>, slot': nat)
    requires LayoutOk(l) && OnlyPart(l, block, block', slot, part) && IsValidSlot(l, slot', |block|)
    ensures SlotPos(l, slot') + INT_SIZE <= |block|
    ensures slot' != slot || part != None ==> Flag(block', l, slot') == Flag(block, l, slot')
    ensures forall f, w :: f in l.fields && (slot' != slot || part != Some(f)) && HasField(block, l, slot', f, w) ==>
              HasField(block', l, slot', f, w)
  {
    SlotInside(l, slot', |block|);
    if slot' != slot || part != None {
      assert IsPart(l, None) && Elsewhere(l, |block|, slot', None, slot, part);
      NumFrom(block', block, SlotPos(l, slot'), INT_SIZE, INT_SIZE);
    }
    forall f, w | f in l.fields && (slot' != slot || part != Some(f)) && HasField(block, l, slot', f, w)
      ensures HasField(block', l, slot', f, w)
    {
      assert IsPart(l, Some(f)) && Elsewhere(l, |block|, slot', Some(f), slot, part);
      FieldFrom(block, block', PartPos(l, slot', Some(f)), l.info[f], w);
    }
  }

  /** The field of a slot holds a value. */
  ghost predicate HasField(block: seq<Byte>, l: Layout, slot: nat, f: string, w: SavedVal)
    requires LayoutOk(l) && f in l.fields
  {
    && PartPos(l, slot, Some(f)) + LengthInBytes(l.info[f]) <= |block| && Holds(l.info[f], w)
    && GetField(block, PartPos(l, slot, Some(f)), l.info[f]) == Some(w)
  }

  /** The zero date, in seconds. */
  const ZERO_DATE := -62135596800

  function Default(t: FieldType): SavedVal {
    match t
    case Integer => IntV(0)
    case Long => LongV(0)
    case Short => ShortV(0)
    case Boolean => BoolV(false)
    case Date => DateV(ZERO_DATE)
    case Varchar(_) => TextV([])
  }

  /** What a field of a freshly formatted slot reads as: zero, false, the empty text, or midnight of the first
      of January in the year 1, in seconds from 1970. */
  predicate Blank(t: FieldType, v: Option<SavedVal>) {
    match t
    case Integer => v == Some(IntV(0))
    case Long => v == Some(LongV(0))
    case Short => v == Some(ShortV(0))
    case Boolean => v == Some(BoolV(false))
    case Date => v == Some(DateV(-62_135_596_800))
    case Varchar(_) => v == Some(TextV([]))
  }

  /** So reads every field of a slot that is not in use. */
  ghost predicate BlankSlot(block: seq<Byte>, l: Layout, slot: nat) {
    BlankFields(block, l, slot) && FlagIs(block, l, slot, 0)
  }

  ghost predicate BlankFields(block: seq<Byte>, l: Layout, slot: nat) {
    forall f :: f in l.fields ==> f in l.info && f in l.offsets && BlankField(block, l, slot, f)
  }

  ghost predicate BlankField(block: seq<Byte>, l: Layout, slot: nat, f: string)
    requires f in l.info && f in l.offsets
  {
    && PartPos(l, slot, Some(f)) + LengthInBytes(l.info[f]) <= |block|
    && Blank(l.info[f], GetField(block, PartPos(l, slot, Some(f)), l.info[f]))
  }

  /** Formatting blanks a slot. */
  lemma FormattedIsBlank(block: seq<Byte>, l: Layout, slot: nat)
    requires LayoutOk(l) && Formatted(block, l, slot)
    ensures BlankSlot(block, l, slot)
  {
    forall f | f in l.fields ensures f in l.offsets && BlankField(block, l, slot, f) {
      var i :| 0 <= i < |l.fields| && l.fields[i] == f;
      assert HasField(block, l, slot, l.fields[i], Default(l.info[l.fields[i]]));
    }
  }

  /** Blank fields are still blank after a write to another part. */
  lemma BlankKept(block: seq<Byte>, block': seq<Byte>, l: Layout, slot: nat, part: Option<string>, slot': nat)
    requires LayoutOk(l) && OnlyPart(l, block, block', slot, part) && IsValidSlot(l, slot', |block|)
    requires BlankFields(block, l, slot') && (slot' != slot || part == None)
    ensures BlankFields(block', l, slot')
  {
    OthersKept(block, block', l, slot, part, slot');
    forall f | f in l.fields ensures BlankField(block', l, slot', f) {
      DefaultHolds(l.info[f]);
      assert HasField(block, l, slot', f, Default(l.info[f]));
    }
  }

  lemma DefaultHolds(t: FieldType)
    ensures Holds(t, Default(t))
  {
    SizeOfBases();
  }

  /** An empty slot with default values in its first k fields. */
  ghost predicate FormattedUpTo(block: seq<Byte>, l: Layout, slot: nat, k: nat)
    requires LayoutOk(l) && k <= |l.fields|
  {
    && SlotPos(l, slot) + INT_SIZE <= |block| && Flag(block, l, slot) == FLAG_EMPTY
    && forall i :: 0 <= i < k ==> HasField(block, l, slot, l.fields[i], Default(l.info[l.fields[i]]))
  }

  ghost predicate Formatted(block: seq<Byte>, l: Layout, slot: nat)
    requires LayoutOk(l)
  {
    FormattedUpTo(block, l, slot, |l.fields|)
  }

  /** Writing the default of field k of a slot. */
  lemma DefaultWritten(block: seq<Byte>, l: Layout, slot: nat, k: nat)
    requires LayoutOk(l) && k < |l.fields| && IsValidSlot(l, slot, |block|) && |block| < 0x8000_0000
    requires FormattedUpTo(block, l, slot, k)
    ensures PartPos(l, slot, Some(l.fields[k])) + StoredSize(Default(l.info[l.fields[k]])) <= |block|
    ensures var block' := WithField(block, l, slot, l.fields[k], Default(l.info[l.fields[k]]));
            && FormattedUpTo(block', l, slot, k + 1)
            && forall other :: other != slot && IsValidSlot(l, other, |block|) && Formatted(block, l, other) ==>
                 Formatted(block', l, other)
  {
    var f := l.fields[k];
    var v := Default(l.info[f]);
    DefaultHolds(l.info[f]);
    FieldWritten(block, l, slot, f, v);
    var block' := WithField(block, l, slot, f, v);
    OneMoreField(block, block', l, slot, k);
    forall other | other != slot && IsValidSlot(l, other, |block|) && Formatted(block, l, other)
      ensures Formatted(block', l, other)
    {
      FormattedStays(block, block', l, slot, f, other);
    }
  }

  lemma OneMoreField(block: seq<Byte>, block': seq<Byte>, l: Layout, slot: nat, k: nat)
    requires LayoutOk(l) && k < |l.fields| && IsValidSlot(l, slot, |block|) && FormattedUpTo(block, l, slot, k)
    requires OnlyPart(l, block, block', slot, Some(l.fields[k]))
    requires HasField(block', l, slot, l.fields[k], Default(l.info[l.fields[k]]))
    ensures FormattedUpTo(block', l, slot, k + 1)
  {
    OthersKept(block, block', l, slot, Some(l.fields[k]), slot);
    forall i | 0 <= i < k + 1 ensures HasField(block', l, slot, l.fields[i], Default(l.info[l.fields[i]])) {
      assert i < k ==> l.fields[i] != l.fields[k];
    }
  }

  lemma FormattedStays(block: seq<Byte>, block': seq<Byte>, l: Layout, slot: nat, f: string, other: nat)
    requires LayoutOk(l) && f in l.fields && OnlyPart(l, block, block', slot, Some(f))
    requires other != slot && IsValidSlot(l, other, |block|) && Formatted(block, l, other)
    ensures Formatted(block', l, other)
  {
    OthersKept(block, block', l, slot, Some(f), other);
  }

  /** Emptying a slot. */
  lemma Emptied(block: seq<Byte>, l: Layout, slot: nat)
    requires LayoutOk(l) && IsValidSlot(l, slot, |block|)
    ensures SlotPos(l, slot) + INT_SIZE <= |block|
    ensures FormattedUpTo(WithFlag(block, l, slot, FLAG_EMPTY), l, slot, 0)
    ensures forall other :: other != slot && IsValidSlot(l, other, |block|) && Formatted(block, l, other) ==>
              Formatted(WithFlag(block, l, slot, FLAG_EMPTY), l, other)
  {
    SizeOfBases();
    FlagWritten(block, l, slot, FLAG_EMPTY);
    forall other | other != slot && IsValidSlot(l, other, |block|) && Formatted(block, l, other)
      ensures Formatted(WithFlag(block, l, slot, FLAG_EMPTY), l, other)
    {
      OthersKept(block, WithFlag(block, l, slot, FLAG_EMPTY), l, slot, None, other);
    }
  }

  /** The first slot after one with a given flag, or -1. */
  ghost predicate FirstAfter(block: seq<Byte>, l: Layout, slot: int, flag: int, r: int)
    requires LayoutOk(l)
  {
    && (r == -1 || (r > slot && IsValidSlot(l, r, |block|) && FlagIs(block, l, r, flag)))
    && forall s :: slot < s && s >= 0 && IsValidSlot(l, s, |block|) && (r == -1 || s < r) ==> !FlagIs(block, l, s, flag)
  }

  predicate FlagIs(block: seq<Byte>, l: Layout, slot: nat, flag: int) {
    SlotPos(l, slot) + INT_SIZE <= |block| && Flag(block, l, slot) == flag
  }

  lemma SlotGrows(l: Layout, slot: nat)
    requires l.slotSize >= 1
    ensures SlotPos(l, slot) >= slot
  {
    assert slot * (l.slotSize - 1) >= 0;
  }

  /** The blocks of a table file, as a transaction reads and writes them. */
  class BlockFile {
    const blockSize: nat
    var blocks: seq<seq<Byte>>

    ghost predicate Valid()
      reads this
    {
      blockSize < 0x8000_0000 && forall i :: 0 <= i < |blocks| ==> |blocks[i]| == blockSize
    }

    constructor (blockSize: nat)
      requires blockSize < 0x8000_0000
      ensures Valid() && this.blockSize == blockSize && blocks == []
    {
      this.blockSize := blockSize;
      blocks := [];
    }

    method SetInt(number: nat, offset: nat, n: int)
      requires Valid() && number < |blocks| && offset + INT_SIZE <= blockSize
      modifies this
      ensures Valid() && blocks == old(blocks)[number := Pages.SetInt(old(blocks)[number], offset, n)]
    {
      blocks := blocks[number := Pages.SetInt(blocks[number], offset, n)];
    }

    method SetVal(number: nat, offset: nat, v: SavedVal)
      requires Valid() && number < |blocks| && offset + HeadSize(v) <= blockSize
      modifies this
      ensures Valid() && blocks == old(blocks)[number := PutField(old(blocks)[number], offset, v)]
    {
      blocks := blocks[number := PutField(blocks[number], offset, v)];
    }

    /** A new block of zeros at the end. */
    method Append() returns (number: nat)
      requires Valid()
      modifies this
      ensures Valid() && number == |old(blocks)| && blocks == old(blocks) + [Zeros(blockSize)]
    {
      number := |blocks|;
      blocks := blocks + [Zeros(blockSize)];
    }
  }

  /** The records of one block. */
  class Page {
    const file: BlockFile
    const number: nat
    const layout: Layout

    ghost predicate Valid()
      reads file
    {
      file.Valid() && number < |file.blocks| && LayoutOk(layout)
    }

    constructor (file: BlockFile, number: nat, layout: Layout)
      requires file.Valid() && number < |file.blocks| && LayoutOk(layout)
      ensures Valid() && this.file == file && this.number == number && this.layout == layout
    {
      this.file := file;
      this.number := number;
      this.layout := layout;
    }

    function Bytes(): (b: seq<Byte>)
      requires Valid()
      reads file
      ensures |b| == file.blockSize
    {
      file.blocks[number]
    }

    /** Only this block changed, and in it only one part. */
    twostate predicate OnlyPartOf(slot: nat, part: Option<string>)
      requires old(Valid()) && Valid()
      reads file
    {
      file.blocks == old(file.blocks)[number := Bytes()] && OnlyPart(layout, old(Bytes()), Bytes(), slot, part)
    }

    method GetVal(slot: nat, f: string) returns (v: Option<SavedVal>)
      requires Valid() && f in layout.fields && IsValidSlot(layout, slot, file.blockSize)
      ensures PartPos(layout, slot, Some(f)) + LengthInBytes(layout.info[f]) <= file.blockSize
      ensures v == GetField(Bytes(), PartPos(layout, slot, Some(f)), layout.info[f])
    {
      FieldInside(layout, slot, f, file.blockSize);
      v := GetField(Bytes(), SlotPos(layout, slot) + layout.offsets[f], layout.info[f]);
    }

    /** An error, with nothing changed, for text that is not valid.  Otherwise the bytes of the value are
        written from the field on, as far as the block reaches; if the field can hold the value, it does
        afterwards, and every other field and flag is as it was. */
    method SetVal(slot: nat, f: string, v: SavedVal) returns (ok: bool)
      requires Valid() && f in layout.fields && OfType(layout.info[f], v)
      requires IsValidSlot(layout, slot, file.blockSize)
      modifies file
      ensures Valid() && (ok <==> (v.TextV? ==> ValidText(v.s)))
      ensures !ok ==> file.blocks == old(file.blocks)
      ensures PartPos(layout, slot, Some(f)) + HeadSize(v) <= file.blockSize
      ensures ok ==> file.blocks == old(file.blocks)[number := WithField(old(Bytes()), layout, slot, f, v)]
      ensures Holds(layout.info[f], v) ==> ok && HasField(Bytes(), layout, slot, f, v) && OnlyPartOf(slot, Some(f))
    {
      FieldInside(layout, slot, f, file.blockSize);
      if Holds(layout.info[f], v) {
        FieldHeld(Bytes(), layout, slot, f, v);
      }
      if v.TextV? && !ValidText(v.s) {
        return false;
      }
      Put(slot, f, v);
      ok := true;
    }

    method Put(slot: nat, f: string, v: SavedVal)
      requires Valid() && f in layout.fields && PartPos(layout, slot, Some(f)) + HeadSize(v) <= file.blockSize
      modifies file
      ensures Valid() && file.blocks == old(file.blocks)[number := Bytes()]
      ensures Bytes() == WithField(old(Bytes()), layout, slot, f, v)
    {
      file.SetVal(number, SlotPos(layout, slot) + layout.offsets[f], v);
    }

    method SetFlag(slot: nat, flag: int)
      requires Valid() && IsValidSlot(layout, slot, file.blockSize) && InRange(flag, INT_SIZE)
      modifies file
      ensures Valid() && FlagIs(Bytes(), layout, slot, flag) && OnlyPartOf(slot, None)
    {
      FlagWritten(Bytes(), layout, slot, flag);
      file.SetInt(number, SlotPos(layout, slot), flag);
    }

    method Delete(slot: nat)
      requires Valid() && IsValidSlot(layout, slot, file.blockSize)
      modifies file
      ensures Valid() && FlagIs(Bytes(), layout, slot, FLAG_EMPTY) && OnlyPartOf(slot, None)
    {
      SizeOfBases();
      SetFlag(slot, FLAG_EMPTY);
    }

    method SearchAfter(slot: int, flag: int) returns (r: int)
      requires Valid() && slot >= -1
      ensures FirstAfter(Bytes(), layout, slot, flag, r)
    {
      var s := slot + 1;
      while IsValidSlot(layout, s, file.blockSize)
        invariant slot < s
        invariant forall t :: slot < t < s && t >= 0 ==> !FlagIs(Bytes(), layout, t, flag)
        decreases file.blockSize - s
      {
        SlotInside(layout, s, file.blockSize);
        SlotGrows(layout, s + 1);
        var currentFlag := GetInt(Bytes(), SlotPos(layout, s));
        if currentFlag == flag {
          return s;
        }
        s := s + 1;
      }
      ValidUpTo(layout, s, file.blockSize);
      r := -1;
    }

    method NextAfter(slot: int) returns (r: int)
      requires Valid() && slot >= -1
      ensures FirstAfter(Bytes(), layout, slot, FLAG_USED, r)
    {
      r := SearchAfter(slot, FLAG_USED);
    }

    /** Claim the first empty slot after one. */
    method InsertAfter(slot: int) returns (r: int)
      requires Valid() && slot >= -1
      modifies file
      ensures Valid() && FirstAfter(old(Bytes()), layout, slot, FLAG_EMPTY, r)
      ensures r == -1 ==> file.blocks == old(file.blocks)
      ensures r >= 0 ==> FlagIs(Bytes(), layout, r, FLAG_USED) && OnlyPartOf(r, None)
    {
      SizeOfBases();
      r := SearchAfter(slot, FLAG_EMPTY);
      if r >= 0 {
        SetFlag(r, FLAG_USED);
      }
    }

    /** Empty every slot and give its fields their defaults; fails if a slot is larger than the block. */
    method Format() returns (ok: bool)
      requires Valid()
      modifies file
      ensures Valid() && file.blocks == old(file.blocks)[number := Bytes()]
      ensures ok <==> layout.slotSize <= file.blockSize
      ensures !ok ==> file.blocks == old(file.blocks)
      ensures ok ==> forall s :: IsValidSlot(layout, s, file.blockSize) ==>
                Formatted(Bytes(), layout, s) && BlankSlot(Bytes(), layout, s)
    {
      if layout.slotSize > file.blockSize {
        return false;
      }
      var slot := 0;
      while IsValidSlot(layout, slot, file.blockSize)
        invariant slot >= 0 && Valid() && file.blocks == old(file.blocks)[number := Bytes()]
        invariant forall s :: 0 <= s < slot && IsValidSlot(layout, s, file.blockSize) ==> Formatted(Bytes(), layout, s)
        decreases file.blockSize - slot
      {
        SlotGrows(layout, slot + 1);
        FormatSlot(slot);
        slot := slot + 1;
      }
      ValidUpTo(layout, slot, file.blockSize);
      forall s | IsValidSlot(layout, s, file.blockSize) ensures BlankSlot(Bytes(), layout, s) {
        FormattedIsBlank(Bytes(), layout, s);
      }
      ok := true;
    }

    method FormatSlot(slot: nat)
      requires Valid() && IsValidSlot(layout, slot, file.blockSize)
      modifies file
      ensures Valid() && file.blocks == old(file.blocks)[number := Bytes()]
      ensures Formatted(Bytes(), layout, slot)
      ensures forall s :: s != slot && IsValidSlot(layout, s, file.blockSize) && Formatted(old(Bytes()), layout, s) ==>
                Formatted(Bytes(), layout, s)
    {
      Emptied(Bytes(), layout, slot);
      file.SetInt(number, SlotPos(layout, slot), FLAG_EMPTY);
      for k := 0 to |layout.fields|
        invariant Valid() && file.blocks == old(file.blocks)[number := Bytes()]
        invariant FormattedUpTo(Bytes(), layout, slot, k)
        invariant forall s ::
                    s != slot && IsValidSlot(layout, s, file.blockSize) && Formatted(old(Bytes()), layout, s) ==>
                      Formatted(Bytes(), layout, s)
      {
        var f := layout.fields[k];
        DefaultHolds(layout.info[f]);
        DefaultWritten(Bytes(), layout, slot, k);
        var _ := SetVal(slot, f, Default(layout.info[f]));
      }
    }
  }

  /** If a slot is past the end of the block, so are the later ones. */
  lemma ValidUpTo(l: Layout, slot: int, blockSize: nat)
    requires slot >= 0 && !IsValidSlot(l, slot, blockSize)
    ensures forall s :: s >= slot ==> !IsValidSlot(l, s, blockSize)
  {
    forall s | s >= slot ensures !IsValidSlot(l, s, blockSize) {
      if s > slot {
        SlotsApart(l, slot + 1, s + 1);
      }
    }
  }
}
