/** Record layouts (record/layout.go, record/alignment.go): fields by falling alignment behind the
    slot's flag, padded so that every field and every slot is aligned. */
module Layouts {
  import opened Pages

  datatype FieldType = Integer | Long | Short | Boolean | Date | Varchar(length: nat)

  predicate IsAlignment(a: int) {
    a == 1 || a == 2 || a == 4 || a == 8
  }

  function AlignmentRequirement(t: FieldType): (a: nat)
    ensures IsAlignment(a)
  {
    match t
    case Integer => INT_SIZE
    case Long => 8
    case Short => 2
    case Boolean => 1
    case Date => 8
    case Varchar(_) => 1
  }

  function LengthInBytes(t: FieldType): nat {
    match t
    case Integer => INT_SIZE
    case Long => 8
    case Short => 2
    case Boolean => 1
    case Date => 8
    case Varchar(n) => MaxLength(n)
  }

  /** The least multiple of an alignment from a position on. */
  function AlignUp(pos: nat, align: nat): (r: nat)
    requires IsAlignment(align)
    ensures pos <= r < pos + align && r % align == 0
  {
    if pos % align != 0 then pos + align - pos % align else pos
  }

  /** A record layout: the fields in the order they are placed, where each begins, and the slot size. */
  datatype Layout = Layout(fields: seq<string>, info: map<string, FieldType>, offsets: map<string, nat>, slotSize: nat)

  predicate Known(fields: seq<string>, info: map<string, FieldType>) {
    forall f :: f in fields ==> f in info
  }

  predicate Distinct(fields: seq<string>) {
    forall i, j :: 0 <= i < j < |fields| ==> fields[i] != fields[j]
  }

  /** The position behind the first k fields, each aligned, with the flag in front. */
  function PosAfter(fields: seq<string>, info: map<string, FieldType>, k: nat): nat
    requires k <= |fields| && Known(fields, info)
    decreases k, 0
  {
    if k == 0 then INT_SIZE
    else OffsetOf(fields, info, k - 1) + LengthInBytes(info[fields[k - 1]])
  }

  function OffsetOf(fields: seq<string>, info: map<string, FieldType>, k: nat): (r: nat)
    requires k < |fields| && Known(fields, info)
    ensures r % AlignmentRequirement(info[fields[k]]) == 0
    decreases k, 1
  {
    AlignUp(PosAfter(fields, info, k), AlignmentRequirement(info[fields[k]]))
  }

  /** Positions only grow. */
  lemma {:induction false} PosGrows(fields: seq<string>, info: map<string, FieldType>, j: nat, k: nat)
    requires j <= k <= |fields| && Known(fields, info)
    ensures PosAfter(fields, info, j) <= PosAfter(fields, info, k)
    decreases k
  {
    if j < k {
      PosGrows(fields, info, j, k - 1);
    }
  }

  /** The largest alignment among the first k fields. */
  function MaxAlign(fields: seq<string>, info: map<string, FieldType>, k: nat): (a: nat)
    requires k <= |fields| && Known(fields, info)
    ensures IsAlignment(a)
  {
    if k == 0 then 1
    else
      var a := MaxAlign(fields, info, k - 1);
      var b := AlignmentRequirement(info[fields[k - 1]]);
      if b > a then b else a
  }

  lemma {:induction false} MaxAlignBounds(fields: seq<string>, info: map<string, FieldType>, k: nat, j: nat)
    requires j < k <= |fields| && Known(fields, info)
    ensures MaxAlign(fields, info, k) % AlignmentRequirement(info[fields[j]]) == 0
    decreases k
  {
    if j < k - 1 {
      MaxAlignBounds(fields, info, k - 1, j);
    }
  }

  /** Fields aligned, disjoint, behind the flag and inside the slot; slots a multiple of every alignment. */
  ghost predicate LayoutOk(l: Layout) {
    && Known(l.fields, l.info) && Distinct(l.fields) && l.slotSize >= INT_SIZE
    && (forall f :: f in l.fields ==> f in l.offsets && FieldOk(l, f))
    && (forall f, g :: f in l.fields && g in l.fields && f != g ==> Apart(l, f, g))
  }

  predicate FieldOk(l: Layout, f: string)
    requires f in l.info && f in l.offsets
  {
    var a := AlignmentRequirement(l.info[f]);
    && l.offsets[f] % a == 0 && l.slotSize % a == 0
    && INT_SIZE <= l.offsets[f] && l.offsets[f] + LengthInBytes(l.info[f]) <= l.slotSize
  }

  predicate Apart(l: Layout, f: string, g: string)
    requires f in l.info && f in l.offsets && g in l.info && g in l.offsets
  {
    || l.offsets[f] + LengthInBytes(l.info[f]) <= l.offsets[g]
    || l.offsets[g] + LengthInBytes(l.info[g]) <= l.offsets[f]
  }

  /** Falling alignment. */
  predicate Falling(fields: seq<string>, info: map<string, FieldType>)
    requires Known(fields, info)
  {
    forall i, j :: 0 <= i < j < |fields| ==>
          AlignmentRequirement(info[fields[i]]) >= AlignmentRequirement(info[fields[j]])
  }

  /** The bytes that a field of each type takes. */
  function ByteSize(t: FieldType): nat {
    match t
    case Integer => 4
    case Long => 8
    case Short => 2
    case Boolean => 1
    case Date => 8
    case Varchar(n) => 4 + 4 * n
  }

  /** What the position of a field of each type is a multiple of: its size, but for texts. */
  function ByteAlign(t: FieldType): nat {
    if t.Varchar? then 1 else ByteSize(t)
  }

  /** Where a list of fields that begins behind byte 4 has come to in front of field i. */
  function EndBefore(l: Layout, i: nat): nat
    requires i <= |l.fields| && forall j :: 0 <= j < |l.fields| ==> l.fields[j] in l.info && l.fields[j] in l.offsets
  {
    if i == 0 then 4 else l.offsets[l.fields[i - 1]] + ByteSize(l.info[l.fields[i - 1]])
  }

  /** No room is given away: every field is at the first multiple of its alignment behind the field in front
      of it, the first one behind the flag's four bytes, and the slot ends at the first multiple of the
      largest alignment, which is the first field's, behind the last field. */
  ghost predicate Packed(l: Layout) {
    && (forall j :: 0 <= j < |l.fields| ==> l.fields[j] in l.info && l.fields[j] in l.offsets)
    && (forall i :: 0 <= i < |l.fields| ==> PackedAt(l, i))
    && (forall i, j :: 0 <= i < j < |l.fields| ==> ByteAlign(l.info[l.fields[i]]) >= ByteAlign(l.info[l.fields[j]]))
    && var largest := if l.fields == [] then 1 else ByteAlign(l.info[l.fields[0]]);
       EndBefore(l, |l.fields|) <= l.slotSize < EndBefore(l, |l.fields|) + largest && l.slotSize % largest == 0
  }

  ghost predicate PackedAt(l: Layout, i: nat)
    requires i < |l.fields| && forall j :: 0 <= j < |l.fields| ==> l.fields[j] in l.info && l.fields[j] in l.offsets
  {
    var align, pos := ByteAlign(l.info[l.fields[i]]), l.offsets[l.fields[i]];
    EndBefore(l, i) <= pos < EndBefore(l, i) + align && pos % align == 0
  }

  class Schema {
    var fields: seq<string>
    var info: map<string, FieldType>

    /** The listed fields are those with a type. */
    ghost predicate Valid()
      reads this
    {
      Known(fields, info) && forall f :: f in info ==> f in fields
    }

    constructor ()
      ensures Valid() && fields == [] && info == map[]
    {
      fields := [];
      info := map[];
    }

    /** A name added twice is listed twice, with its last type. */
    method AddField(name: string, t: FieldType)
      requires Valid()
      modifies this
      ensures Valid() && fields == old(fields) + [name] && info == old(info)[name := t]
      ensures Distinct(fields) <==> Distinct(old(fields)) && name !in old(info)
    {
      OneMoreDistinct(fields, name);
      fields := fields + [name];
      info := info[name := t];
    }
  }

  lemma OneMoreDistinct(fields: seq<string>, name: string)
    ensures Distinct(fields + [name]) <==> Distinct(fields) && name !in fields
  {
    var more := fields + [name];
    assert forall i :: 0 <= i < |fields| ==> more[i] == fields[i];
    assert more[|fields|] == name;
  }

  /** Sort fields by falling alignment. */
  method SortByAlignment(fields: seq<string>, info: map<string, FieldType>) returns (r: seq<string>)
    requires Known(fields, info)
    ensures multiset(r) == multiset(fields) && Known(r, info) && Falling(r, info)
  {
    r := [];
    var i := 0;
    while i < |fields|
      invariant 0 <= i <= |fields| && multiset(r) == multiset(fields[..i]) && Known(r, info) && Falling(r, info)
    {
      assert fields[..i + 1] == fields[..i] + [fields[i]];
      r := InsertField(r, fields[i], info);
      i := i + 1;
    }
    assert fields[..i] == fields;
  }

  /** Put a field behind those whose alignment is not smaller. */
  method InsertField(r: seq<string>, f: string, info: map<string, FieldType>) returns (r': seq<string>)
    requires Known(r, info) && f in info && Falling(r, info)
    ensures multiset(r') == multiset(r) + multiset{f} && Known(r', info) && Falling(r', info)
  {
    var k := 0;
    while k < |r| && AlignmentRequirement(info[r[k]]) >= AlignmentRequirement(info[f])
      invariant 0 <= k <= |r|
      invariant forall j :: 0 <= j < k ==> AlignmentRequirement(info[r[j]]) >= AlignmentRequirement(info[f])
    {
      k := k + 1;
    }
    Inserted(r, k, f, info);
    r' := r[..k] + [f] + r[k..];
  }

  lemma Inserted(r: seq<string>, k: nat, f: string, info: map<string, FieldType>)
    requires k <= |r| && Known(r, info) && f in info && Falling(r, info)
    requires forall j :: 0 <= j < k ==> AlignmentRequirement(info[r[j]]) >= AlignmentRequirement(info[f])
    requires k < |r| ==> AlignmentRequirement(info[r[k]]) < AlignmentRequirement(info[f])
    ensures var r' := r[..k] + [f] + r[k..];
            multiset(r') == multiset(r) + multiset{f} && Known(r', info) && Falling(r', info)
  {
    var r' := r[..k] + [f] + r[k..];
    InsertedSame(r, k, f);
    InsertedAt(r, r', k, f);
    assert Known(r', info) by {
      forall i | 0 <= i < |r'| ensures r'[i] in info { }
    }
    InsertedFalling(r, r', k, f, info);
  }

  lemma InsertedSame(r: seq<string>, k: nat, f: string)
    requires k <= |r|
    ensures multiset(r[..k] + [f] + r[k..]) == multiset(r) + multiset{f}
  {
    assert r == r[..k] + r[k..];
  }

  lemma InsertedAt(r: seq<string>, r': seq<string>, k: nat, f: string)
    requires k <= |r| && r' == r[..k] + [f] + r[k..]
    ensures |r'| == |r| + 1 && r'[k] == f
    ensures (forall i :: 0 <= i < k ==> r'[i] == r[i]) && forall i :: k < i < |r'| ==> r'[i] == r[i - 1]
  {
  }

  lemma InsertedFalling(r: seq<string>, r': seq<string>, k: nat, f: string, info: map<string, FieldType>)
    requires k <= |r| && |r'| == |r| + 1 && Known(r, info) && Known(r', info) && f in info && Falling(r, info)
    requires r'[k] == f && (forall i :: 0 <= i < k ==> r'[i] == r[i]) && forall i :: k < i < |r'| ==> r'[i] == r[i - 1]
    requires forall j :: 0 <= j < k ==> AlignmentRequirement(info[r[j]]) >= AlignmentRequirement(info[f])
    requires k < |r| ==> AlignmentRequirement(info[r[k]]) < AlignmentRequirement(info[f])
    ensures Falling(r', info)
  {
    forall i, j | 0 <= i < j < |r'|
      ensures AlignmentRequirement(info[r'[i]]) >= AlignmentRequirement(info[r'[j]])
    {
      if i == k {
        assert j - 1 > k ==> AlignmentRequirement(info[r[k]]) >= AlignmentRequirement(info[r[j - 1]]);
      } else if j != k {
        var i', j' := if i > k then i - 1 else i, if j > k then j - 1 else j;
        assert i' < j' < |r|;
      }
    }
  }

  /** Lay a schema out.  The schema's own list of fields is sorted in place. */
  method NewLayout(schema: Schema) returns (l: Layout)
    requires schema.Valid()
    modifies schema
    ensures schema.Valid() && schema.info == old(schema.info) && multiset(schema.fields) == multiset(old(schema.fields))
    ensures Falling(schema.fields, schema.info)
    ensures l == LayoutOf(schema.fields, schema.info)
    ensures Distinct(old(schema.fields)) ==> LayoutOk(l) && Packed(l)
  {
    var info := schema.info;
    var fields := SortByAlignment(schema.fields, info);
    SameNames(schema.fields, fields);
    schema.fields := fields;
    var offsets, pos := Place(fields, info);
    var largest := MaxAlignment(fields, info);
    if pos % largest != 0 {
      pos := pos + largest - pos % largest;
    }
    l := Layout(fields, info, offsets, pos);
    if Distinct(old(schema.fields)) {
      DistinctStays(old(schema.fields), fields);
      LayoutOfOk(fields, info);
      LayoutOfPacked(fields, info);
    }
  }

  /** Place the fields one behind the other, each at its alignment. */
  method Place(fields: seq<string>, info: map<string, FieldType>) returns (offsets: map<string, nat>, pos: nat)
    requires Known(fields, info)
    ensures offsets == Offsets(fields, info, |fields|) && pos == PosAfter(fields, info, |fields|)
  {
    offsets := map[];
    pos := INT_SIZE;
    for i := 0 to |fields|
      invariant pos == PosAfter(fields, info, i) && offsets == Offsets(fields, info, i)
    {
      var align := AlignmentRequirement(info[fields[i]]);
      if pos % align != 0 {
        pos := pos + align - pos % align;
      }
      offsets := offsets[fields[i] := pos];
      pos := pos + LengthInBytes(info[fields[i]]);
    }
  }

  lemma SameNames(a: seq<string>, b: seq<string>)
    requires multiset(a) == multiset(b)
    ensures forall f :: f in a <==> f in b
  {
    forall f ensures f in a <==> f in b {
      assert f in a <==> f in multiset(a);
      assert f in b <==> f in multiset(b);
    }
  }

  /** A field's alignment or 1, and a multiple of every field's alignment. */
  ghost predicate IsLargest(a: nat, fields: seq<string>, info: map<string, FieldType>)
    requires Known(fields, info)
  {
    && (forall f :: f in fields ==> AlignmentRequirement(info[f]) <= a && a % AlignmentRequirement(info[f]) == 0)
    && (a == 1 || exists f :: f in fields && a == AlignmentRequirement(info[f]))
  }

  method MaxAlignment(fields: seq<string>, info: map<string, FieldType>) returns (maxAlign: nat)
    requires Known(fields, info)
    ensures maxAlign == MaxAlign(fields, info, |fields|)
    ensures IsLargest(maxAlign, fields, info)
  {
    maxAlign := 1;
    for i := 0 to |fields|
      invariant maxAlign == MaxAlign(fields, info, i)
      invariant forall j :: 0 <= j < i ==> AlignmentRequirement(info[fields[j]]) <= maxAlign
      invariant maxAlign == 1 || exists f :: f in fields && maxAlign == AlignmentRequirement(info[f])
    {
      var align := AlignmentRequirement(info[fields[i]]);
      if align > maxAlign {
        maxAlign := align;
      }
    }
    forall f | f in fields ensures maxAlign % AlignmentRequirement(info[f]) == 0 {
      var j :| 0 <= j < |fields| && fields[j] == f;
      MaxAlignBounds(fields, info, |fields|, j);
    }
  }

  function Offsets(fields: seq<string>, info: map<string, FieldType>, k: nat): map<string, nat>
    requires k <= |fields| && Known(fields, info)
  {
    if k == 0 then map[] else Offsets(fields, info, k - 1)[fields[k - 1] := OffsetOf(fields, info, k - 1)]
  }

  /** The layout of fields in a given order. */
  function LayoutOf(fields: seq<string>, info: map<string, FieldType>): Layout
    requires Known(fields, info)
  {
    Layout(fields, info, Offsets(fields, info, |fields|),
           AlignUp(PosAfter(fields, info, |fields|), MaxAlign(fields, info, |fields|)))
  }

  lemma {:induction false} OffsetsAt(fields: seq<string>, info: map<string, FieldType>, k: nat, j: nat)
    requires j < k <= |fields| && Known(fields, info) && Distinct(fields)
    ensures fields[j] in Offsets(fields, info, k) && Offsets(fields, info, k)[fields[j]] == OffsetOf(fields, info, j)
    decreases k
  {
    if j < k - 1 {
      OffsetsAt(fields, info, k - 1, j);
    }
  }

  /** Field independence, for every schema with distinct names and whatever order its fields are in. */
  lemma LayoutOfOk(fields: seq<string>, info: map<string, FieldType>)
    requires Known(fields, info) && Distinct(fields)
    ensures LayoutOk(LayoutOf(fields, info))
  {
    var l := LayoutOf(fields, info);
    forall f | f in fields ensures f in l.offsets && FieldOk(l, f) {
      var j :| 0 <= j < |fields| && fields[j] == f;
      PlacedAt(fields, info, j);
    }
    forall f, g | f in fields && g in fields && f != g ensures Apart(l, f, g) {
      var i :| 0 <= i < |fields| && fields[i] == f;
      var j :| 0 <= j < |fields| && fields[j] == g;
      if i < j {
        InOrder(fields, info, i, j);
      } else {
        InOrder(fields, info, j, i);
      }
    }
    PosGrows(fields, info, 0, |fields|);
  }

  /** Nor is there more room between them than their alignment asks for. */
  lemma LayoutOfPacked(fields: seq<string>, info: map<string, FieldType>)
    requires Known(fields, info) && Distinct(fields) && Falling(fields, info)
    ensures Packed(LayoutOf(fields, info))
  {
    var l := LayoutOf(fields, info);
    SizesAre();
    forall j | 0 <= j < |fields| ensures fields[j] in l.offsets && l.offsets[fields[j]] == OffsetOf(fields, info, j) {
      OffsetsAt(fields, info, |fields|, j);
    }
    forall i | 0 <= i <= |fields| ensures EndBefore(l, i) == PosAfter(fields, info, i) { }
    LargestIsFirst(fields, info, |fields|);
  }

  lemma SizesAre()
    ensures forall t :: LengthInBytes(t) == ByteSize(t) && AlignmentRequirement(t) == ByteAlign(t)
  {
  }

  lemma {:induction false} LargestIsFirst(fields: seq<string>, info: map<string, FieldType>, k: nat)
    requires Known(fields, info) && Falling(fields, info) && k <= |fields|
    ensures MaxAlign(fields, info, k) == if k == 0 then 1 else AlignmentRequirement(info[fields[0]])
    decreases k
  {
    if k > 0 {
      LargestIsFirst(fields, info, k - 1);
    }
  }

  lemma InOrder(fields: seq<string>, info: map<string, FieldType>, i: nat, j: nat)
    requires Known(fields, info) && Distinct(fields) && i < j < |fields|
    ensures var l := LayoutOf(fields, info);
            && fields[i] in l.offsets && fields[j] in l.offsets
            && l.offsets[fields[i]] + LengthInBytes(info[fields[i]]) <= l.offsets[fields[j]]
  {
    PlacedAt(fields, info, i);
    PlacedAt(fields, info, j);
    PosGrows(fields, info, i + 1, j);
  }

  lemma PlacedAt(fields: seq<string>, info: map<string, FieldType>, j: nat)
    requires Known(fields, info) && Distinct(fields) && j < |fields|
    ensures var l := LayoutOf(fields, info);
            fields[j] in l.offsets && l.offsets[fields[j]] == OffsetOf(fields, info, j) && FieldOk(l, fields[j])
  {
    OffsetsAt(fields, info, |fields|, j);
    PosGrows(fields, info, 0, j);
    PosGrows(fields, info, j + 1, |fields|);
    MaxAlignBounds(fields, info, |fields|, j);
    Divides(LayoutOf(fields, info).slotSize, MaxAlign(fields, info, |fields|), AlignmentRequirement(info[fields[j]]));
  }

  lemma Divides(n: nat, a: nat, b: nat)
    requires IsAlignment(a) && IsAlignment(b) && n % a == 0 && a % b == 0
    ensures n % b == 0
  {
    match a {
      case 8 => DividesEight(n, b);
      case 4 => DividesFour(n, b);
      case 2 => DividesTwo(n, b);
      case _ =>
    }
  }

  lemma DividesEight(n: nat, b: nat)
    requires IsAlignment(b) && n % 8 == 0
    ensures n % b == 0
  {
    var q := n / 8;
    match b {
      case 4 => assert n == 4 * (2 * q);
      case 2 => assert n == 2 * (4 * q);
      case _ =>
    }
  }

  lemma DividesFour(n: nat, b: nat)
    requires IsAlignment(b) && n % 4 == 0 && 4 % b == 0
    ensures n % b == 0
  {
    var q := n / 4;
    match b {
      case 2 => assert n == 2 * (2 * q);
      case _ =>
    }
  }

  lemma DividesTwo(n: nat, b: nat)
    requires IsAlignment(b) && n % 2 == 0 && 2 % b == 0
    ensures n % b == 0
  {
  }

  lemma DistinctStays(a: seq<string>, b: seq<string>)
    requires multiset(a) == multiset(b) && Distinct(a)
    ensures Distinct(b)
  {
    forall i, j | 0 <= i < j < |b| ensures b[i] != b[j] {
      if b[i] == b[j] {
        TwoOf(b, i, j);
        OneOf(a, b[i]);
      }
    }
  }

  lemma TwoOf(b: seq<string>, i: nat, j: nat)
    requires i < j < |b| && b[i] == b[j]
    ensures multiset(b)[b[i]] >= 2
  {
    assert b == b[..i] + [b[i]] + b[i + 1..j] + [b[j]] + b[j + 1..];
  }

  lemma {:induction false} OneOf(a: seq<string>, f: string)
    requires Distinct(a)
    ensures multiset(a)[f] <= 1
  {
    if a != [] {
      OneOf(a[1..], f);
      assert a == [a[0]] + a[1..];
      assert a[0] == f ==> f !in a[1..];
    }
  }

  /** A field is aligned in every slot of a block, not only in the first. */
  lemma {:induction false} AlignedInSlot(l: Layout, f: string, slot: nat)
    requires LayoutOk(l) && f in l.fields
    ensures (slot * l.slotSize + l.offsets[f]) % AlignmentRequirement(l.info[f]) == 0
    decreases slot
  {
    assert FieldOk(l, f);
    if slot > 0 {
      AlignedInSlot(l, f, slot - 1);
      NextMultiple((slot - 1) * l.slotSize + l.offsets[f], l.slotSize, AlignmentRequirement(l.info[f]));
      assert slot * l.slotSize == (slot - 1) * l.slotSize + l.slotSize;
    }
  }

  lemma NextMultiple(n: nat, m: nat, a: nat)
    requires IsAlignment(a) && n % a == 0 && m % a == 0
    ensures (n + m) % a == 0
  {
  }
}
