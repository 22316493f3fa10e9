/** The pages of the B+ tree (index/btree/page.go).

    A page handle of the source names a transaction and a block and reads and writes that block, so
    here a file of pages is the object and a page is a block number in it.  A block has a header of
    three integers (record count, extra1, extra2) followed by a fixed number of entry slots. */
module BTreePage {
  type Key = real

  const HEADER_SIZE: nat := 12

  datatype Entry<V> = Entry(key: Key, val: V)
  datatype Block<V> = Block(numRecs: nat, extra1: int, extra2: int, slots: seq<Entry<V>>)

  function InsertAt<T>(s: seq<T>, i: nat, x: T): (r: seq<T>)
    requires i <= |s|
    ensures |r| == |s| + 1 && r[i] == x
    ensures forall p :: 0 <= p < i ==> r[p] == s[p]
    ensures forall p :: i < p < |r| ==> r[p] == s[p - 1]
  {
    s[..i] + [x] + s[i..]
  }

  lemma InsertInPrefix<T>(s: seq<T>, i: nat, x: T, m: nat)
    requires i <= m <= |s|
    ensures InsertAt(s, i, x)[..m + 1] == InsertAt(s[..m], i, x)
    ensures InsertAt(s, i, x)[m + 1..] == s[m..]
  {
  }

  lemma InsertInSuffix<T>(s: seq<T>, i: nat, x: T, m: nat)
    requires m <= i <= |s|
    ensures InsertAt(s, i, x)[..m] == s[..m]
    ensures InsertAt(s, i, x)[m..] == InsertAt(s[m..], i - m, x)
  {
  }

  function RemoveAt<T>(s: seq<T>, i: nat): seq<T>
    requires i < |s|
  {
    s[..i] + s[i + 1..]
  }

  lemma RemoveFirstOfSuffix<T>(a: seq<T>, b: seq<T>)
    requires b != []
    ensures (a + b)[|a|] == b[0] && RemoveAt(a + b, |a|) == a + b[1..]
  {
  }

  /** One more element moved from behind a cut to a sequence that has the ones before it. */
  lemma OneMoved<T>(s: seq<T>, cut: nat, k: nat)
    requires cut + k < |s|
    ensures (s[..cut] + s[cut + k..])[cut] == s[cut + k]
    ensures RemoveAt(s[..cut] + s[cut + k..], cut) == s[..cut] + s[cut + k + 1..]
    ensures s[cut..cut + k] + [s[cut + k]] == s[cut..cut + k + 1]
  {
    RemoveFirstOfSuffix(s[..cut], s[cut + k..]);
    assert s[cut + k..][1..] == s[cut + k + 1..];
  }

  /** The entries a block holds: the slots in use, in slot order. */
  function Entries<V>(b: Block<V>): seq<Entry<V>>
    requires b.numRecs <= |b.slots|
  {
    b.slots[..b.numRecs]
  }

  ghost predicate Sorted<V>(s: seq<Entry<V>>) {
    forall i, j :: 0 <= i < j < |s| ==> s[i].key < s[j].key
  }

  /** The number of leading entries whose key is at most k. */
  function CountLE<V>(s: seq<Entry<V>>, k: Key): (r: nat)
    ensures r <= |s|
  {
    if s == [] || k < s[0].key then 0 else 1 + CountLE(s[1..], k)
  }

  lemma {:induction false} CountLEBounds<V>(s: seq<Entry<V>>, k: Key)
    ensures forall j :: 0 <= j < CountLE(s, k) ==> s[j].key <= k
    ensures CountLE(s, k) < |s| ==> k < s[CountLE(s, k)].key
  {
    if s != [] && s[0].key <= k {
      CountLEBounds(s[1..], k);
    }
  }

  /** The number of leading entries whose key is below k. */
  function CountLT<V>(s: seq<Entry<V>>, k: Key): (r: nat)
    ensures r <= |s|
  {
    if s == [] || k <= s[0].key then 0 else 1 + CountLT(s[1..], k)
  }

  lemma {:induction false} CountLTBounds<V>(s: seq<Entry<V>>, k: Key)
    ensures forall j :: 0 <= j < CountLT(s, k) ==> s[j].key < k
    ensures CountLT(s, k) < |s| ==> k <= s[CountLT(s, k)].key
  {
    if s != [] && s[0].key < k {
      CountLTBounds(s[1..], k);
    }
  }

  /** Where a full page is cut when an entry for key arrives, counted in the page as it would be if it could
      hold one more. */
  function CutAt<V>(E: seq<Entry<V>>, key: Key): nat
    requires |E| > 0
  {
    if key < E[|E| / 2].key then |E| / 2 + 1 else |E| / 2
  }

  lemma CountLEUnique<V>(s: seq<Entry<V>>, k: Key, i: nat)
    requires Sorted(s) && i <= |s|
    requires i > 0 ==> s[i - 1].key <= k
    requires i < |s| ==> k < s[i].key
    ensures CountLE(s, k) == i
  {
    CountLEBounds(s, k);
  }

  /** How many entries a page has room for. */
  function Capacity(blockSize: nat, slotSize: nat): nat
    requires slotSize > 0 && blockSize >= HEADER_SIZE
  {
    (blockSize - HEADER_SIZE) / slotSize
  }

  lemma DivisionBounds(a: nat, b: nat)
    requires b > 0
    ensures (a / b) * b <= a < (a / b + 1) * b
  {
    assert a == (a / b) * b + a % b;
    assert (a / b + 1) * b == (a / b) * b + b;
  }

  /** A page within capacity fits in its block behind the three integers of its header, and isFull answers
      true exactly at capacity. */
  lemma FullIffAtCapacity(blockSize: nat, slotSize: nat, n: nat)
    requires slotSize > 0 && blockSize >= HEADER_SIZE
    requires n <= Capacity(blockSize, slotSize)
    ensures 12 + n * slotSize <= blockSize
    ensures 12 + (n + 1) * slotSize > blockSize <==> n == Capacity(blockSize, slotSize)
  {
    var c := Capacity(blockSize, slotSize);
    DivisionBounds(blockSize - HEADER_SIZE, slotSize);
    MultiplyMonotone(n, c, slotSize);
    if n < c {
      MultiplyMonotone(n + 1, c, slotSize);
    }
  }

  /** Splitting a full page in the middle leaves its larger half room for the entry that is waiting
      exactly when a page holds at least two entries. */
  lemma SplitMakesRoomIff(blockSize: nat, slotSize: nat)
    requires slotSize > 0 && blockSize >= HEADER_SIZE
    ensures var c := Capacity(blockSize, slotSize);
            12 + (c - c / 2 + 1) * slotSize <= blockSize <==> c >= 2
  {
    var c := Capacity(blockSize, slotSize);
    FullIffAtCapacity(blockSize, slotSize, c - c / 2);
  }

  lemma MultiplyMonotone(a: nat, b: nat, m: nat)
    requires a <= b
    ensures a * m <= b * m
  {
    assert (b - a) * m >= 0;
    assert b * m == a * m + (b - a) * m;
  }

  class PageFile<V(0)> {
    const blockSize: nat
    const slotSize: nat
    var blocks: seq<Block<V>>

    ghost predicate Valid()
      reads this
    {
      slotSize > 0 && blockSize >= HEADER_SIZE
      && forall b :: 0 <= b < |blocks| ==> BlockOk(blocks[b])
    }

    /** The page capacity bound: header and entries fit in the block. */
    ghost predicate BlockOk(b: Block<V>)
    {
      slotSize > 0 && blockSize >= HEADER_SIZE
      && |b.slots| == Capacity(blockSize, slotSize) && b.numRecs <= |b.slots|
    }

    constructor (blockSize: nat, slotSize: nat)
      requires slotSize > 0 && blockSize >= HEADER_SIZE
      ensures Valid() && blocks == []
      ensures this.blockSize == blockSize && this.slotSize == slotSize
    {
      this.blockSize := blockSize;
      this.slotSize := slotSize;
      blocks := [];
    }

    /** A new zeroed block at the end of the file. */
    method Append(zero: V) returns (blk: nat)
      requires Valid()
      modifies this
      ensures Valid()
      ensures blk == |old(blocks)| && |blocks| == blk + 1
      ensures blocks[..blk] == old(blocks)
      ensures blocks[blk].numRecs == 0 && blocks[blk].extra1 == 0 && blocks[blk].extra2 == 0
    {
      blk := |blocks|;
      var slots := seq(Capacity(blockSize, slotSize), _ => Entry(0.0, zero));
      blocks := blocks + [Block(0, 0, 0, slots)];
    }

    method Format(blk: nat)
      requires Valid() && blk < |blocks|
      modifies this
      ensures Valid()
      ensures blocks == old(blocks)[blk := Block(0, -1, -1, old(blocks)[blk].slots)]
    {
      blocks := blocks[blk := blocks[blk].(numRecs := 0)];
      blocks := blocks[blk := blocks[blk].(extra1 := -1)];
      blocks := blocks[blk := blocks[blk].(extra2 := -1)];
    }

    method SetExtra1(blk: nat, val: int)
      requires Valid() && blk < |blocks|
      modifies this
      ensures Valid() && blocks == old(blocks)[blk := old(blocks)[blk].(extra1 := val)]
    {
      blocks := blocks[blk := blocks[blk].(extra1 := val)];
    }

    method SetExtra2(blk: nat, val: int)
      requires Valid() && blk < |blocks|
      modifies this
      ensures Valid() && blocks == old(blocks)[blk := old(blocks)[blk].(extra2 := val)]
    {
      blocks := blocks[blk := blocks[blk].(extra2 := val)];
    }

    method IsFull(blk: nat) returns (full: bool)
      requires Valid() && blk < |blocks|
      ensures full <==> blocks[blk].numRecs == Capacity(blockSize, slotSize)
    {
      FullIffAtCapacity(blockSize, slotSize, blocks[blk].numRecs);
      full := HEADER_SIZE + (blocks[blk].numRecs + 1) * slotSize > blockSize;
    }

    /** The last slot whose key is at most the search key, or -1: the child to follow. */
    method FindDirSlot(blk: nat, searchKey: Key) returns (slot: int)
      requires Valid() && blk < |blocks|
      ensures slot == CountLE(Entries(blocks[blk]), searchKey) - 1
    {
      var page := blocks[blk];
      slot := 0;
      while slot < page.numRecs
        invariant 0 <= slot <= page.numRecs
        invariant CountLE(Entries(page), searchKey) == slot + CountLE(Entries(page)[slot..], searchKey)
      {
        assert Entries(page)[slot..][1..] == Entries(page)[slot + 1..];
        if page.slots[slot].key > searchKey {
          break;
        }
        slot := slot + 1;
      }
      slot := slot - 1;
    }

    /** The last slot whose key is below the search key, or -1: just before the first match. */
    method FindLeafSlot(blk: nat, searchKey: Key) returns (slot: int)
      requires Valid() && blk < |blocks|
      ensures slot == CountLT(Entries(blocks[blk]), searchKey) - 1
    {
      var page := blocks[blk];
      slot := 0;
      while slot < page.numRecs
        invariant 0 <= slot <= page.numRecs
        invariant CountLT(Entries(page), searchKey) == slot + CountLT(Entries(page)[slot..], searchKey)
      {
        assert Entries(page)[slot..][1..] == Entries(page)[slot + 1..];
        if page.slots[slot].key >= searchKey {
          break;
        }
        slot := slot + 1;
      }
      slot := slot - 1;
    }

    /** Copy one entry, possibly to another page. */
    method TransferTo(src: nat, srcSlot: nat, dst: nat, dstSlot: nat)
      requires Valid() && src < |blocks| && dst < |blocks|
      requires srcSlot < |blocks[src].slots| && dstSlot < |blocks[dst].slots|
      modifies this
      ensures Valid()
      ensures blocks == old(blocks)[dst :=
                old(blocks)[dst].(slots := old(blocks)[dst].slots[dstSlot := old(blocks)[src].slots[srcSlot]])]
    {
      var entry := blocks[src].slots[srcSlot];
      blocks := blocks[dst := blocks[dst].(slots := blocks[dst].slots[dstSlot := entry])];
    }

    /** Shift the entries from slot on one place to the right; the slot keeps its old value. */
    method InsertSlot(blk: nat, slot: nat)
      requires Valid() && blk < |blocks|
      requires slot <= blocks[blk].numRecs < |blocks[blk].slots|
      modifies this
      ensures Valid() && |blocks| == |old(blocks)|
      ensures blocks == old(blocks)[blk := blocks[blk]]
      ensures blocks[blk].extra1 == old(blocks)[blk].extra1 && blocks[blk].extra2 == old(blocks)[blk].extra2
      ensures Entries(blocks[blk]) ==
                InsertAt(Entries(old(blocks)[blk]), slot, old(blocks)[blk].slots[slot])
    {
      ghost var was := blocks[blk];
      var n := blocks[blk].numRecs;
      var i := n;
      while i > slot
        invariant slot <= i <= n
        invariant Valid() && |blocks| == |old(blocks)| && blocks == old(blocks)[blk := blocks[blk]]
        invariant blocks[blk] == was.(slots := blocks[blk].slots)
        invariant forall j :: 0 <= j <= i ==> blocks[blk].slots[j] == was.slots[j]
        invariant forall j :: i < j <= n ==> blocks[blk].slots[j] == was.slots[j - 1]
      {
        TransferTo(blk, i - 1, blk, i);
        i := i - 1;
      }
      blocks := blocks[blk := blocks[blk].(numRecs := n + 1)];
    }

    /** Remove the entry in a slot by shifting its successors one place to the left. */
    method DeleteSlot(blk: nat, slot: nat)
      requires Valid() && blk < |blocks|
      requires slot < blocks[blk].numRecs
      modifies this
      ensures Valid() && |blocks| == |old(blocks)|
      ensures blocks == old(blocks)[blk := blocks[blk]]
      ensures blocks[blk].extra1 == old(blocks)[blk].extra1 && blocks[blk].extra2 == old(blocks)[blk].extra2
      ensures Entries(blocks[blk]) == RemoveAt(Entries(old(blocks)[blk]), slot)
    {
      ghost var was := blocks[blk];
      var n := blocks[blk].numRecs;
      var i := slot + 1;
      while i < n
        invariant slot < i <= n
        invariant Valid() && |blocks| == |old(blocks)| && blocks == old(blocks)[blk := blocks[blk]]
        invariant blocks[blk] == was.(slots := blocks[blk].slots)
        invariant forall j :: 0 <= j < slot ==> blocks[blk].slots[j] == was.slots[j]
        invariant forall j :: slot <= j < i - 1 ==> blocks[blk].slots[j] == was.slots[j + 1]
        invariant forall j :: i - 1 <= j < n ==> blocks[blk].slots[j] == was.slots[j]
      {
        TransferTo(blk, i, blk, i - 1);
        i := i + 1;
      }
      blocks := blocks[blk := blocks[blk].(numRecs := n - 1)];
    }

    /** Open a slot and store an entry in it. */
    method InsertEntryAt(blk: nat, slot: nat, key: Key, val: V)
      requires Valid() && blk < |blocks|
      requires slot <= blocks[blk].numRecs < |blocks[blk].slots|
      modifies this
      ensures Valid() && |blocks| == |old(blocks)|
      ensures blocks == old(blocks)[blk := blocks[blk]]
      ensures blocks[blk].extra1 == old(blocks)[blk].extra1 && blocks[blk].extra2 == old(blocks)[blk].extra2
      ensures Entries(blocks[blk]) == InsertAt(Entries(old(blocks)[blk]), slot, Entry(key, val))
    {
      InsertSlot(blk, slot);
      var entry := blocks[blk].slots[slot];
      blocks := blocks[blk := blocks[blk].(slots := blocks[blk].slots[slot := entry.(key := key)])];
      entry := blocks[blk].slots[slot];
      blocks := blocks[blk := blocks[blk].(slots := blocks[blk].slots[slot := entry.(val := val)])];
    }

    /** Move one entry to the end of another page. */
    method MoveEntry(blk: nat, slot: nat, dst: nat)
      requires Valid() && blk < |blocks| && dst < |blocks| && dst != blk
      requires slot < blocks[blk].numRecs && blocks[dst].numRecs < |blocks[dst].slots|
      modifies this
      ensures Valid() && |blocks| == |old(blocks)|
      ensures forall b :: 0 <= b < |blocks| && b != blk && b != dst ==> blocks[b] == old(blocks)[b]
      ensures blocks[blk].extra1 == old(blocks)[blk].extra1 && blocks[blk].extra2 == old(blocks)[blk].extra2
      ensures blocks[dst].extra1 == old(blocks)[dst].extra1 && blocks[dst].extra2 == old(blocks)[dst].extra2
      ensures Entries(blocks[blk]) == RemoveAt(Entries(old(blocks)[blk]), slot)
      ensures Entries(blocks[dst]) == Entries(old(blocks)[dst]) + [Entries(old(blocks)[blk])[slot]]
    {
      var n := blocks[dst].numRecs;
      InsertSlot(dst, n);
      TransferTo(blk, slot, dst, n);
      assert Entries(blocks[dst]) == Entries(old(blocks)[dst]) + [Entries(old(blocks)[blk])[slot]];
      DeleteSlot(blk, slot);
    }

    /** Move the entries from splitPos on to a new page at the end of the file, in order. */
    method Split(blk: nat, splitPos: nat, siblingVal: int, zero: V) returns (newBlk: nat)
      requires Valid() && blk < |blocks|
      requires splitPos <= blocks[blk].numRecs
      modifies this
      ensures Valid()
      ensures newBlk == |old(blocks)| && |blocks| == newBlk + 1
      ensures forall b :: 0 <= b < newBlk && b != blk ==> blocks[b] == old(blocks)[b]
      ensures blocks[blk].extra1 == old(blocks)[blk].extra1 && blocks[blk].extra2 == old(blocks)[blk].extra2
      ensures blocks[newBlk].extra1 == siblingVal
      ensures Entries(blocks[blk]) == Entries(old(blocks)[blk])[..splitPos]
      ensures Entries(blocks[newBlk]) == Entries(old(blocks)[blk])[splitPos..]
    {
      ghost var was := Entries(blocks[blk]);
      newBlk := Append(zero);
      Format(newBlk);
      SetExtra1(newBlk, siblingVal);
      var n := blocks[blk].numRecs;
      var transferSlot := 0;
      while splitPos < n
        invariant Valid() && |blocks| == newBlk + 1 && newBlk == |old(blocks)|
        invariant forall b :: 0 <= b < newBlk && b != blk ==> blocks[b] == old(blocks)[b]
        invariant blocks[blk].extra1 == old(blocks)[blk].extra1 && blocks[blk].extra2 == old(blocks)[blk].extra2
        invariant blocks[newBlk].extra1 == siblingVal
        invariant splitPos <= n == blocks[blk].numRecs && blocks[newBlk].numRecs == transferSlot
        invariant splitPos + transferSlot <= |was| && n + transferSlot == |was|
        invariant Entries(blocks[newBlk]) == was[splitPos..splitPos + transferSlot]
        invariant Entries(blocks[blk]) == was[..splitPos] + was[splitPos + transferSlot..]
      {
        MoveEntry(blk, splitPos, newBlk);
        OneMoved(was, splitPos, transferSlot);
        n := n - 1;
        transferSlot := transferSlot + 1;
      }
    }
  }
}
