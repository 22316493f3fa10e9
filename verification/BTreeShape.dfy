/** What it means for a file of directory pages to be a search tree over leaf blocks, and what the
    directory algorithms do to that meaning. */
module BTreeShape {
  import opened Options
  import opened BTreePage

  /** An end of a key interval. */
  datatype Bound = NegInf | At(key: Key) | PosInf

  predicate Leq(a: Bound, b: Bound) {
    a.NegInf? || b.PosInf? || (a.At? && b.At? && a.key <= b.key)
  }

  predicate Less(a: Bound, b: Bound) { !Leq(b, a) }

  /** k lies in the half-open interval [lo, hi). */
  predicate Within(lo: Bound, k: Key, hi: Bound) { Leq(lo, At(k)) && Less(At(k), hi) }

  /** A leaf block together with the interval of keys that are looked up in it. */
  datatype Cell = Cell(leaf: int, lo: Bound, hi: Bound)

  /** The place of a directory block in the tree: its level and the lower end of its interval.  No
      two blocks of one tree share a place, so labels stand for the disjointness of subtrees. */
  datatype Label = Label(level: nat, lo: Bound)

  type Dirs = seq<Block<nat>>

  /** A node is a leftmost child and a list of (separator, child) entries. */
  function Kid(leftmost: int, E: seq<Entry<nat>>, i: nat): int
    requires i <= |E|
  {
    if i == 0 then leftmost else E[i - 1].val
  }

  function Lo(lo: Bound, E: seq<Entry<nat>>, i: nat): Bound
    requires i <= |E|
  {
    if i == 0 then lo else At(E[i - 1].key)
  }

  function Hi(hi: Bound, E: seq<Entry<nat>>, i: nat): Bound
    requires i <= |E|
  {
    if i == |E| then hi else At(E[i].key)
  }

  /** Gap i of a node: its i-th child between the separators around it. */
  function Gap(lo: Bound, hi: Bound, leftmost: int, E: seq<Entry<nat>>, i: nat): Cell
    requires i <= |E|
  {
    Cell(Kid(leftmost, E, i), Lo(lo, E, i), Hi(hi, E, i))
  }

  ghost predicate SeparatorsOk(lo: Bound, E: seq<Entry<nat>>, hi: Bound) {
    && Sorted(E)
    && Less(lo, hi)
    && forall i :: 0 <= i < |E| ==> Less(lo, At(E[i].key)) && Less(At(E[i].key), hi)
  }

  /** A node whose children at the level below are well-formed over the gaps between separators. */
  ghost predicate NodeOk(dirs: Dirs, own: seq<Label>, level: nat, lo: Bound, hi: Bound,
                         leftmost: int, E: seq<Entry<nat>>)
    decreases level, 0
  {
    && SeparatorsOk(lo, E, hi)
    && leftmost >= 0
    && (level > 0 ==>
          forall i :: 0 <= i <= |E| ==>
            TreeOk(dirs, own, Kid(leftmost, E, i), level - 1, Lo(lo, E, i), Hi(hi, E, i)))
  }

  /** The subtree rooted in block b: every level is stored in its page, and level 0 points to leaves,
      so all leaves are equally deep. */
  ghost predicate TreeOk(dirs: Dirs, own: seq<Label>, b: int, level: nat, lo: Bound, hi: Bound)
    decreases level, 1
  {
    && 0 <= b < |dirs| && |own| == |dirs|
    && own[b] == Label(level, lo)
    && dirs[b].numRecs <= |dirs[b].slots|
    && dirs[b].extra1 == level
    && NodeOk(dirs, own, level, lo, hi, dirs[b].extra2, Entries(dirs[b]))
  }

  /** Where a key is looked up below a node, and between which separators that leaf stands. */
  ghost function DescendNode(dirs: Dirs, own: seq<Label>, level: nat, lo: Bound, hi: Bound,
                             leftmost: int, E: seq<Entry<nat>>, k: Key): Cell
    requires NodeOk(dirs, own, level, lo, hi, leftmost, E)
    decreases level, 0
  {
    var i := CountLE(E, k);
    if level == 0 then Gap(lo, hi, leftmost, E, i)
    else Descend(dirs, own, Kid(leftmost, E, i), level - 1, Lo(lo, E, i), Hi(hi, E, i), k)
  }

  ghost function Descend(dirs: Dirs, own: seq<Label>, b: int, level: nat, lo: Bound, hi: Bound, k: Key): Cell
    requires TreeOk(dirs, own, b, level, lo, hi)
    decreases level, 1
  {
    DescendNode(dirs, own, level, lo, hi, dirs[b].extra2, Entries(dirs[b]), k)
  }

  /** The cell a key is looked up in contains the key and lies inside the subtree's interval. */
  lemma {:induction false} DescendContains(dirs: Dirs, own: seq<Label>, b: int, level: nat, lo: Bound, hi: Bound,
        k: Key)
    requires TreeOk(dirs, own, b, level, lo, hi) && Within(lo, k, hi)
    ensures var c := Descend(dirs, own, b, level, lo, hi, k);
            Within(c.lo, k, c.hi) && Leq(lo, c.lo) && Leq(c.hi, hi) && c.leaf >= 0
    decreases level
  {
    NodeDescendContains(dirs, own, level, lo, hi, dirs[b].extra2, Entries(dirs[b]), k);
  }

  lemma {:induction false} NodeDescendContains(dirs: Dirs, own: seq<Label>, level: nat, lo: Bound, hi: Bound,
                                               leftmost: int, E: seq<Entry<nat>>, k: Key)
    requires NodeOk(dirs, own, level, lo, hi, leftmost, E) && Within(lo, k, hi)
    ensures var c := DescendNode(dirs, own, level, lo, hi, leftmost, E, k);
            Within(c.lo, k, c.hi) && Leq(lo, c.lo) && Leq(c.hi, hi) && c.leaf >= 0
    decreases level, 0
  {
    var i := CountLE(E, k);
    CountLEBounds(E, k);
    if level > 0 {
      DescendContains(dirs, own, Kid(leftmost, E, i), level - 1, Lo(lo, E, i), Hi(hi, E, i), k);
    }
  }

  /** Every block placed inside an interval and not above a level is unchanged. */
  ghost predicate SameInside(dirs: Dirs, own: seq<Label>, dirs': Dirs, own': seq<Label>,
                             level: int, lo: Bound, hi: Bound)
  {
    && |own| == |dirs| <= |dirs'| == |own'|
    && forall x :: 0 <= x < |dirs| && own[x].level <= level && Leq(lo, own[x].lo) && Less(own[x].lo, hi) ==>
         dirs'[x] == dirs[x] && own'[x] == own[x]
  }

  /** A subtree none of whose places changed is still well-formed and routes as before. */
  lemma {:induction false} Frame(dirs: Dirs, own: seq<Label>, dirs': Dirs, own': seq<Label>,
                                 b: int, level: nat, lo: Bound, hi: Bound)
    requires TreeOk(dirs, own, b, level, lo, hi)
    requires SameInside(dirs, own, dirs', own', level, lo, hi)
    ensures TreeOk(dirs', own', b, level, lo, hi)
    ensures forall k :: Descend(dirs', own', b, level, lo, hi, k) == Descend(dirs, own, b, level, lo, hi, k)
    decreases level, 1
  {
    NodeFrame(dirs, own, dirs', own', level, lo, hi, dirs[b].extra2, Entries(dirs[b]));
  }

  lemma {:induction false} NodeFrame(dirs: Dirs, own: seq<Label>, dirs': Dirs, own': seq<Label>,
                                     level: nat, lo: Bound, hi: Bound, leftmost: int, E: seq<Entry<nat>>)
    requires NodeOk(dirs, own, level, lo, hi, leftmost, E)
    requires SameInside(dirs, own, dirs', own', level - 1, lo, hi)
    ensures NodeOk(dirs', own', level, lo, hi, leftmost, E)
    ensures forall k :: DescendNode(dirs', own', level, lo, hi, leftmost, E, k)
                     == DescendNode(dirs, own, level, lo, hi, leftmost, E, k)
    decreases level, 0
  {
    if level > 0 {
      forall i | 0 <= i <= |E|
        ensures TreeOk(dirs', own', Kid(leftmost, E, i), level - 1, Lo(lo, E, i), Hi(hi, E, i))
      {
        Frame(dirs, own, dirs', own', Kid(leftmost, E, i), level - 1, Lo(lo, E, i), Hi(hi, E, i));
      }
      forall k
        ensures DescendNode(dirs', own', level, lo, hi, leftmost, E, k)
             == DescendNode(dirs, own, level, lo, hi, leftmost, E, k)
      {
        var i := CountLE(E, k);
        Frame(dirs, own, dirs', own', Kid(leftmost, E, i), level - 1, Lo(lo, E, i), Hi(hi, E, i));
      }
    }
  }

  /** The effect of registering a new leaf under a separator: the cell that held the separator's
      key is cut there, and every other key is looked up where it was. */
  function Recut(c: Cell, c0: Cell, s: Key, newLeaf: int, k: Key): Cell {
    if Within(c0.lo, k, c0.hi) then
      if k < s then Cell(c0.leaf, c0.lo, At(s)) else Cell(newLeaf, At(s), c0.hi)
    else c
  }

  /** Cutting one node in two at a separator: both halves are well-formed over their part of the
      interval, and together they route every key as the uncut node does. */
  lemma SplitNode(dirs: Dirs, own: seq<Label>, level: nat, lo: Bound, hi: Bound,
                  leftmost: int, E: seq<Entry<nat>>, m: nat)
    requires NodeOk(dirs, own, level, lo, hi, leftmost, E) && m < |E|
    ensures NodeOk(dirs, own, level, lo, At(E[m].key), leftmost, E[..m])
    ensures NodeOk(dirs, own, level, At(E[m].key), hi, E[m].val, E[m + 1..])
  {
    SplitSeparators(lo, hi, E, m);
    if level > 0 {
      var mid := At(E[m].key);
      var left, right := E[..m], E[m + 1..];
      forall i | 0 <= i <= |left|
        ensures TreeOk(dirs, own, Kid(leftmost, left, i), level - 1, Lo(lo, left, i), Hi(mid, left, i))
      {
        assert TreeOk(dirs, own, Kid(leftmost, E, i), level - 1, Lo(lo, E, i), Hi(hi, E, i));
      }
      forall i | 0 <= i <= |right|
        ensures TreeOk(dirs, own, Kid(E[m].val, right, i), level - 1, Lo(mid, right, i), Hi(hi, right, i))
      {
        var j := m + 1 + i;
        assert TreeOk(dirs, own, Kid(leftmost, E, j), level - 1, Lo(lo, E, j), Hi(hi, E, j));
      }
    }
  }

  lemma SplitSeparators(lo: Bound, hi: Bound, E: seq<Entry<nat>>, m: nat)
    requires SeparatorsOk(lo, E, hi) && m < |E|
    ensures SeparatorsOk(lo, E[..m], At(E[m].key))
    ensures SeparatorsOk(At(E[m].key), E[m + 1..], hi)
  {
  }

  lemma LeftRoutes(dirs: Dirs, own: seq<Label>, level: nat, lo: Bound, hi: Bound,
                   leftmost: int, E: seq<Entry<nat>>, m: nat, k: Key)
    requires NodeOk(dirs, own, level, lo, hi, leftmost, E) && m < |E|
    requires NodeOk(dirs, own, level, lo, At(E[m].key), leftmost, E[..m])
    requires k < E[m].key
    ensures DescendNode(dirs, own, level, lo, At(E[m].key), leftmost, E[..m], k)
         == DescendNode(dirs, own, level, lo, hi, leftmost, E, k)
  {
    var i, left := CountLE(E, k), E[..m];
    CountLEBounds(E, k);
    CountLEUnique(left, k, i);
    assert Gap(lo, hi, leftmost, E, i) == Gap(lo, At(E[m].key), leftmost, left, i);
  }

  lemma RightCount(E: seq<Entry<nat>>, m: nat, k: Key)
    requires m < |E| && Sorted(E) && Sorted(E[m + 1..]) && k >= E[m].key
    ensures CountLE(E, k) > m && CountLE(E[m + 1..], k) == CountLE(E, k) - m - 1
  {
    CountLEBounds(E, k);
    assert CountLE(E, k) > m;
    CountLEUnique(E[m + 1..], k, CountLE(E, k) - m - 1);
  }

  lemma RightRoutes(dirs: Dirs, own: seq<Label>, level: nat, lo: Bound, hi: Bound,
                    leftmost: int, E: seq<Entry<nat>>, m: nat, k: Key)
    requires NodeOk(dirs, own, level, lo, hi, leftmost, E) && m < |E|
    requires NodeOk(dirs, own, level, At(E[m].key), hi, E[m].val, E[m + 1..])
    requires k >= E[m].key
    ensures DescendNode(dirs, own, level, At(E[m].key), hi, E[m].val, E[m + 1..], k)
         == DescendNode(dirs, own, level, lo, hi, leftmost, E, k)
  {
    var i, right := CountLE(E, k), E[m + 1..];
    RightCount(E, m, k);
    assert Gap(lo, hi, leftmost, E, i) == Gap(At(E[m].key), hi, E[m].val, right, i - m - 1);
  }

  /** An entry pushed up by a page that split: its separator and the new right page. */
  datatype DirEntry = DirEntry(key: Key, blockNum: nat)

  /** Only places inside an interval, not above a level, changed or were added. */
  ghost predicate OnlyInside(dirs: Dirs, own: seq<Label>, dirs': Dirs, own': seq<Label>,
                             level: int, lo: Bound, hi: Bound)
  {
    && |own| == |dirs| <= |dirs'| == |own'|
    && own == own'[..|own|]
    && forall x :: 0 <= x < |dirs| && dirs'[x] != dirs[x] ==>
         own[x].level <= level && Leq(lo, own[x].lo) && Less(own[x].lo, hi)
  }

  /** Under a node that kept its page, a new leaf was registered. */
  ghost predicate NodeRecut(dirs: Dirs, own: seq<Label>, L: int, E: seq<Entry<nat>>,
                            dirs': Dirs, own': seq<Label>, L': int, E': seq<Entry<nat>>,
                            level: nat, lo: Bound, hi: Bound, s: Key, newLeaf: int)
    requires NodeOk(dirs, own, level, lo, hi, L, E)
  {
    && NodeOk(dirs', own', level, lo, hi, L', E')
    && forall k :: Within(lo, k, hi) ==>
         DescendNode(dirs', own', level, lo, hi, L', E', k)
         == Recut(DescendNode(dirs, own, level, lo, hi, L, E, k),
                  DescendNode(dirs, own, level, lo, hi, L, E, s), s, newLeaf, k)
  }

  /** What inserting a new leaf below block b achieves.  Either b is still the root of its subtree,
      or b and a new block share its interval; either way the keys are routed to their old leaves
      except that the separator's cell is cut. */
  ghost predicate Inserted(dirs: Dirs, own: seq<Label>, dirs': Dirs, own': seq<Label>, b: int,
                           level: nat, lo: Bound, hi: Bound, s: Key, newLeaf: int, split: Option<DirEntry>)
    requires TreeOk(dirs, own, b, level, lo, hi)
  {
    match split
    case None =>
      && TreeOk(dirs', own', b, level, lo, hi)
      && forall k :: Within(lo, k, hi) ==>
           Descend(dirs', own', b, level, lo, hi, k)
           == Recut(Descend(dirs, own, b, level, lo, hi, k), Descend(dirs, own, b, level, lo, hi, s), s, newLeaf, k)
    case Some(e) =>
      && Less(lo, At(e.key)) && Less(At(e.key), hi)
      && TreeOk(dirs', own', b, level, lo, At(e.key))
      && TreeOk(dirs', own', e.blockNum, level, At(e.key), hi)
      && forall k :: Within(lo, k, hi) ==>
           (if k < e.key then Descend(dirs', own', b, level, lo, At(e.key), k)
            else Descend(dirs', own', e.blockNum, level, At(e.key), hi, k))
           == Recut(Descend(dirs, own, b, level, lo, hi, k), Descend(dirs, own, b, level, lo, hi, s), s, newLeaf, k)
  }

  lemma InsertSeparators(lo: Bound, hi: Bound, E: seq<Entry<nat>>, i: nat, e: Entry<nat>)
    requires SeparatorsOk(lo, E, hi) && i <= |E|
    requires Less(Lo(lo, E, i), At(e.key)) && Less(At(e.key), Hi(hi, E, i))
    ensures SeparatorsOk(lo, InsertAt(E, i, e), hi)
  {
    var E' := InsertAt(E, i, e);
    forall p, q | 0 <= p < q < |E'| ensures E'[p].key < E'[q].key {
      assert p > i ==> E'[p] == E[p - 1];
      assert q > i ==> E'[q] == E[q - 1];
    }
    forall p | 0 <= p < |E'| ensures Less(lo, At(E'[p].key)) && Less(At(E'[p].key), hi) {
      assert p > i ==> E'[p] == E[p - 1];
    }
  }

  /** Which gap of the widened node a key falls in. */
  lemma InsertedCount(E: seq<Entry<nat>>, i: nat, e: Entry<nat>, k: Key)
    requires Sorted(E) && i <= |E|
    requires i > 0 ==> E[i - 1].key < e.key
    requires i < |E| ==> e.key < E[i].key
    requires Sorted(InsertAt(E, i, e))
    ensures CountLE(InsertAt(E, i, e), k) == if k < e.key then CountLE(E, k) else CountLE(E, k) + 1
    ensures if k < e.key then CountLE(E, k) <= i else CountLE(E, k) >= i
  {
    CountLEBounds(E, k);
    if k < e.key {
      InsertedBefore(E, i, e, k, CountLE(E, k));
    } else {
      InsertedBehind(E, i, e, k, CountLE(E, k));
    }
  }

  lemma InsertedBefore(E: seq<Entry<nat>>, i: nat, e: Entry<nat>, k: Key, j: nat)
    requires Sorted(E) && i <= |E| && Sorted(InsertAt(E, i, e)) && k < e.key
    requires i < |E| ==> e.key < E[i].key
    requires j <= |E| && (j > 0 ==> E[j - 1].key <= k) && (j < |E| ==> k < E[j].key)
    ensures CountLE(InsertAt(E, i, e), k) == j <= i
  {
    assert j <= i;
    assert j < i ==> InsertAt(E, i, e)[j] == E[j];
    assert j == i ==> InsertAt(E, i, e)[j] == e;
    CountLEUnique(InsertAt(E, i, e), k, j);
  }

  lemma InsertedBehind(E: seq<Entry<nat>>, i: nat, e: Entry<nat>, k: Key, j: nat)
    requires Sorted(E) && i <= |E| && Sorted(InsertAt(E, i, e)) && k >= e.key
    requires i > 0 ==> E[i - 1].key < e.key
    requires j <= |E| && (j > 0 ==> E[j - 1].key <= k) && (j < |E| ==> k < E[j].key)
    ensures CountLE(InsertAt(E, i, e), k) == j + 1 > i
  {
    assert j >= i;
    assert j == i ==> InsertAt(E, i, e)[j] == e;
    assert j > i ==> InsertAt(E, i, e)[j] == E[j - 1];
    assert j < |E| ==> InsertAt(E, i, e)[j + 1] == E[j];
    CountLEUnique(InsertAt(E, i, e), k, j + 1);
  }

  /** The gaps of a node widened by one entry. */
  lemma WidenedGaps(lo: Bound, hi: Bound, L: int, E: seq<Entry<nat>>, i: nat, e: Entry<nat>, j: nat)
    requires i <= |E| && j <= |E| + 1
    ensures Gap(lo, hi, L, InsertAt(E, i, e), j) ==
              if j < i then Gap(lo, hi, L, E, j)
              else if j == i then Cell(Kid(L, E, i), Lo(lo, E, i), At(e.key))
              else if j == i + 1 then Cell(e.val, At(e.key), Hi(hi, E, i))
              else Gap(lo, hi, L, E, j - 1)
  {
  }

  lemma GapsDisjoint(lo: Bound, hi: Bound, E: seq<Entry<nat>>, i: nat, k: Key)
    requires SeparatorsOk(lo, E, hi) && i <= |E|
    requires Within(lo, k, hi)
    ensures Within(Lo(lo, E, i), k, Hi(hi, E, i)) <==> CountLE(E, k) == i
  {
    var j := CountLE(E, k);
    CountLEBounds(E, k);
    if j < i { assert k < E[j].key <= E[i - 1].key; } else if j > i { assert E[i].key <= k; }
  }

  /** Inserting an entry in gap i cuts that gap and leaves the others: j is the gap of k before. */
  lemma WidenedRoute(lo: Bound, hi: Bound, L: int, E: seq<Entry<nat>>, i: nat, e: Entry<nat>, k: Key, j: nat, j': nat)
    requires SeparatorsOk(lo, E, hi) && i <= |E| && Within(lo, k, hi)
    requires j == CountLE(E, k) && j' == (if k < e.key then j else j + 1)
    requires if k < e.key then j <= i else j >= i
    ensures Gap(lo, hi, L, InsertAt(E, i, e), j')
         == Recut(Gap(lo, hi, L, E, j), Gap(lo, hi, L, E, i), e.key, e.val, k)
  {
    GapsDisjoint(lo, hi, E, i, k);
    WidenedGaps(lo, hi, L, E, i, e, j');
  }

  /** Registering a leaf in a level-0 node. */
  lemma InsertLeafPointer(dirs: Dirs, own: seq<Label>, lo: Bound, hi: Bound, L: int, E: seq<Entry<nat>>, s: Key,
        newLeaf: nat)
    requires NodeOk(dirs, own, 0, lo, hi, L, E) && Within(lo, s, hi)
    requires Less(DescendNode(dirs, own, 0, lo, hi, L, E, s).lo, At(s))
    ensures NodeRecut(dirs, own, L, E, dirs, own, L, InsertAt(E, CountLE(E, s), Entry(s, newLeaf)), 0, lo, hi, s,
            newLeaf)
  {
    var i, e := CountLE(E, s), Entry(s, newLeaf);
    var E' := InsertAt(E, i, e);
    CountLEBounds(E, s);
    InsertSeparators(lo, hi, E, i, e);
    assert NodeOk(dirs, own, 0, lo, hi, L, E');
    forall k | Within(lo, k, hi)
      ensures DescendNode(dirs, own, 0, lo, hi, L, E', k)
           == Recut(DescendNode(dirs, own, 0, lo, hi, L, E, k), DescendNode(dirs, own, 0, lo, hi, L, E, s), s,
               newLeaf, k)
    {
      InsertedCount(E, i, e, k);
      WidenedRoute(lo, hi, L, E, i, e, k, CountLE(E, k), CountLE(E', k));
    }
  }

  /** Changes inside one child's interval leave every sibling's interval alone. */
  lemma SiblingsUntouched(dirs: Dirs, own: seq<Label>, dirs': Dirs, own': seq<Label>, level: nat,
                          lo: Bound, hi: Bound, E: seq<Entry<nat>>, i: nat, j: nat)
    requires SeparatorsOk(lo, E, hi) && i <= |E| && j <= |E| && i != j && level > 0
    requires OnlyInside(dirs, own, dirs', own', level - 1, Lo(lo, E, i), Hi(hi, E, i))
    ensures SameInside(dirs, own, dirs', own', level - 1, Lo(lo, E, j), Hi(hi, E, j))
  {
    if i < j {
      assert Leq(Hi(hi, E, i), Lo(lo, E, j)) by { assert j - 1 > i ==> E[i].key < E[j - 1].key; }
    } else {
      assert Leq(Hi(hi, E, j), Lo(lo, E, i)) by { assert i - 1 > j ==> E[j].key < E[i - 1].key; }
    }
    assert forall x :: 0 <= x < |dirs| ==> own'[..|own|][x] == own'[x];
  }

  /** The child absorbed the new leaf without splitting. */
  lemma ChildAbsorbed(dirs: Dirs, own: seq<Label>, dirs': Dirs, own': seq<Label>, level: nat, lo: Bound, hi: Bound,
                      L: int, E: seq<Entry<nat>>, s: Key, newLeaf: int)
    requires level > 0 && NodeOk(dirs, own, level, lo, hi, L, E) && Within(lo, s, hi)
    requires var i := CountLE(E, s);
             && OnlyInside(dirs, own, dirs', own', level - 1, Lo(lo, E, i), Hi(hi, E, i))
             && Inserted(dirs, own, dirs', own', Kid(L, E, i), level - 1, Lo(lo, E, i), Hi(hi, E, i), s, newLeaf, None)
    ensures NodeRecut(dirs, own, L, E, dirs', own', L, E, level, lo, hi, s, newLeaf)
  {
    var i := CountLE(E, s);
    forall j | 0 <= j <= |E|
      ensures TreeOk(dirs', own', Kid(L, E, j), level - 1, Lo(lo, E, j), Hi(hi, E, j))
    {
      if j != i {
        SiblingsUntouched(dirs, own, dirs', own', level, lo, hi, E, i, j);
        Frame(dirs, own, dirs', own', Kid(L, E, j), level - 1, Lo(lo, E, j), Hi(hi, E, j));
      }
    }
    assert NodeOk(dirs', own', level, lo, hi, L, E);
    forall k | Within(lo, k, hi)
      ensures DescendNode(dirs', own', level, lo, hi, L, E, k)
           == Recut(DescendNode(dirs, own, level, lo, hi, L, E, k), DescendNode(dirs, own, level, lo, hi, L, E, s), s,
               newLeaf, k)
    {
      GapsDisjoint(lo, hi, E, i, k);
      if CountLE(E, k) != i {
        OtherGapRoutes(dirs, own, dirs', own', level, lo, hi, L, E, s, k);
      }
    }
  }

  /** A key in another gap is routed as before, and its cell is not the one that is cut. */
  lemma OtherGapRoutes(dirs: Dirs, own: seq<Label>, dirs': Dirs, own': seq<Label>, level: nat, lo: Bound, hi: Bound,
                       L: int, E: seq<Entry<nat>>, s: Key, k: Key)
    requires level > 0 && NodeOk(dirs, own, level, lo, hi, L, E) && Within(lo, s, hi) && Within(lo, k, hi)
    requires CountLE(E, k) != CountLE(E, s)
    requires var i := CountLE(E, s);
             OnlyInside(dirs, own, dirs', own', level - 1, Lo(lo, E, i), Hi(hi, E, i))
    ensures var j := CountLE(E, k);
            && TreeOk(dirs', own', Kid(L, E, j), level - 1, Lo(lo, E, j), Hi(hi, E, j))
            && Descend(dirs', own', Kid(L, E, j), level - 1, Lo(lo, E, j), Hi(hi, E, j), k)
               == DescendNode(dirs, own, level, lo, hi, L, E, k)
    ensures var c0 := DescendNode(dirs, own, level, lo, hi, L, E, s);
            !Within(c0.lo, k, c0.hi)
  {
    var i, j := CountLE(E, s), CountLE(E, k);
    GapsDisjoint(lo, hi, E, i, k);
    SiblingsUntouched(dirs, own, dirs', own', level, lo, hi, E, i, j);
    Frame(dirs, own, dirs', own', Kid(L, E, j), level - 1, Lo(lo, E, j), Hi(hi, E, j));
    GapsDisjoint(lo, hi, E, i, s);
    DescendContains(dirs, own, Kid(L, E, i), level - 1, Lo(lo, E, i), Hi(hi, E, i), s);
  }

  /** The children of the node with the promoted entry. */
  lemma SplitKids(dirs: Dirs, own: seq<Label>, dirs': Dirs, own': seq<Label>, level: nat, lo: Bound, hi: Bound,
                  L: int, E: seq<Entry<nat>>, s: Key, newLeaf: int, e: DirEntry)
    requires level > 0 && NodeOk(dirs, own, level, lo, hi, L, E) && Within(lo, s, hi)
    requires var i := CountLE(E, s);
             && OnlyInside(dirs, own, dirs', own', level - 1, Lo(lo, E, i), Hi(hi, E, i))
             && Inserted(dirs, own, dirs', own', Kid(L, E, i), level - 1, Lo(lo, E, i), Hi(hi, E, i), s, newLeaf,
                Some(e))
    ensures NodeOk(dirs', own', level, lo, hi, L, InsertAt(E, CountLE(E, s), Entry(e.key, e.blockNum)))
  {
    var i := CountLE(E, s);
    var E' := InsertAt(E, i, Entry(e.key, e.blockNum));
    InsertSeparators(lo, hi, E, i, Entry(e.key, e.blockNum));
    forall j | 0 <= j <= |E'|
      ensures TreeOk(dirs', own', Kid(L, E', j), level - 1, Lo(lo, E', j), Hi(hi, E', j))
    {
      WidenedGaps(lo, hi, L, E, i, Entry(e.key, e.blockNum), j);
      if j < i || j > i + 1 {
        var q := if j < i then j else j - 1;
        SiblingsUntouched(dirs, own, dirs', own', level, lo, hi, E, i, q);
        Frame(dirs, own, dirs', own', Kid(L, E, q), level - 1, Lo(lo, E, q), Hi(hi, E, q));
      }
    }
  }

  /** The child split: its promoted entry is inserted beside it. */
  lemma ChildSplit(dirs: Dirs, own: seq<Label>, dirs': Dirs, own': seq<Label>, level: nat, lo: Bound, hi: Bound,
                   L: int, E: seq<Entry<nat>>, s: Key, newLeaf: int, e: DirEntry)
    requires level > 0 && NodeOk(dirs, own, level, lo, hi, L, E) && Within(lo, s, hi)
    requires var i := CountLE(E, s);
             && OnlyInside(dirs, own, dirs', own', level - 1, Lo(lo, E, i), Hi(hi, E, i))
             && Inserted(dirs, own, dirs', own', Kid(L, E, i), level - 1, Lo(lo, E, i), Hi(hi, E, i), s, newLeaf,
                Some(e))
    ensures CountLE(E, e.key) == CountLE(E, s)
    ensures NodeRecut(dirs, own, L, E, dirs', own', L, InsertAt(E, CountLE(E, s), Entry(e.key, e.blockNum)),
                      level, lo, hi, s, newLeaf)
  {
    var i := CountLE(E, s);
    CountLEUnique(E, e.key, i);
    var E' := InsertAt(E, i, Entry(e.key, e.blockNum));
    SplitKids(dirs, own, dirs', own', level, lo, hi, L, E, s, newLeaf, e);
    forall k | Within(lo, k, hi)
      ensures DescendNode(dirs', own', level, lo, hi, L, E', k)
           == Recut(DescendNode(dirs, own, level, lo, hi, L, E, k), DescendNode(dirs, own, level, lo, hi, L, E, s), s,
               newLeaf, k)
    {
      if CountLE(E, k) == i {
        SplitSameRoutes(dirs', own', level, lo, hi, L, E, i, e, k);
      } else {
        SplitOtherRoutes(dirs, own, dirs', own', level, lo, hi, L, E, s, Entry(e.key, e.blockNum), k);
      }
    }
  }

  /** A widened node looks a key up in the child of the widened gap. */
  lemma WidenedDescend(dirs: Dirs, own: seq<Label>, level: nat, lo: Bound, hi: Bound,
                       L: int, E: seq<Entry<nat>>, i: nat, entry: Entry<nat>, k: Key)
    requires level > 0 && Sorted(E) && i <= |E|
    requires i > 0 ==> E[i - 1].key < entry.key
    requires i < |E| ==> entry.key < E[i].key
    requires NodeOk(dirs, own, level, lo, hi, L, InsertAt(E, i, entry))
    ensures var g := Gap(lo, hi, L, InsertAt(E, i, entry), if k < entry.key then CountLE(E, k) else CountLE(E, k) + 1);
            && TreeOk(dirs, own, g.leaf, level - 1, g.lo, g.hi)
            && DescendNode(dirs, own, level, lo, hi, L, InsertAt(E, i, entry), k)
               == Descend(dirs, own, g.leaf, level - 1, g.lo, g.hi, k)
    ensures if k < entry.key then CountLE(E, k) <= i else CountLE(E, k) >= i
  {
    InsertedCount(E, i, entry, k);
  }

  /** A key in another gap keeps its route when an entry is inserted beside the child that split. */
  lemma SplitOtherRoutes(dirs: Dirs, own: seq<Label>, dirs': Dirs, own': seq<Label>, level: nat, lo: Bound, hi: Bound,
                         L: int, E: seq<Entry<nat>>, s: Key, entry: Entry<nat>, k: Key)
    requires level > 0 && NodeOk(dirs, own, level, lo, hi, L, E) && Within(lo, s, hi) && Within(lo, k, hi)
    requires CountLE(E, k) != CountLE(E, s)
    requires var i := CountLE(E, s);
             && OnlyInside(dirs, own, dirs', own', level - 1, Lo(lo, E, i), Hi(hi, E, i))
             && (i > 0 ==> E[i - 1].key < entry.key)
             && (i < |E| ==> entry.key < E[i].key)
    requires NodeOk(dirs', own', level, lo, hi, L, InsertAt(E, CountLE(E, s), entry))
    ensures DescendNode(dirs', own', level, lo, hi, L, InsertAt(E, CountLE(E, s), entry), k)
         == DescendNode(dirs, own, level, lo, hi, L, E, k)
    ensures var c0 := DescendNode(dirs, own, level, lo, hi, L, E, s);
            !Within(c0.lo, k, c0.hi)
  {
    var i, j := CountLE(E, s), CountLE(E, k);
    var g := Gap(lo, hi, L, E, j);
    assert g == Gap(lo, hi, L, InsertAt(E, i, entry), if k < entry.key then j else j + 1) by {
      InsertedCount(E, i, entry, k);
      WidenedGaps(lo, hi, L, E, i, entry, if k < entry.key then j else j + 1);
    }
    WidenedDescend(dirs', own', level, lo, hi, L, E, i, entry, k);
    OtherGapRoutes(dirs, own, dirs', own', level, lo, hi, L, E, s, k);
  }

  /** A key in the gap of the child that split is looked up in the half it falls in. */
  lemma SplitSameRoutes(dirs': Dirs, own': seq<Label>, level: nat, lo: Bound, hi: Bound,
                        L: int, E: seq<Entry<nat>>, i: nat, e: DirEntry, k: Key)
    requires level > 0 && SeparatorsOk(lo, E, hi) && Within(lo, k, hi) && i == CountLE(E, k)
    requires i > 0 ==> E[i - 1].key < e.key
    requires i < |E| ==> e.key < E[i].key
    requires NodeOk(dirs', own', level, lo, hi, L, InsertAt(E, i, Entry(e.key, e.blockNum)))
    ensures if k < e.key then
              && TreeOk(dirs', own', Kid(L, E, i), level - 1, Lo(lo, E, i), At(e.key))
              && DescendNode(dirs', own', level, lo, hi, L, InsertAt(E, i, Entry(e.key, e.blockNum)), k)
                 == Descend(dirs', own', Kid(L, E, i), level - 1, Lo(lo, E, i), At(e.key), k)
            else
              && TreeOk(dirs', own', e.blockNum, level - 1, At(e.key), Hi(hi, E, i))
              && DescendNode(dirs', own', level, lo, hi, L, InsertAt(E, i, Entry(e.key, e.blockNum)), k)
                 == Descend(dirs', own', e.blockNum, level - 1, At(e.key), Hi(hi, E, i), k)
    ensures Within(Lo(lo, E, i), k, Hi(hi, E, i))
  {
    WidenedDescend(dirs', own', level, lo, hi, L, E, i, Entry(e.key, e.blockNum), k);
    WidenedGaps(lo, hi, L, E, i, Entry(e.key, e.blockNum), if k < e.key then i else i + 1);
    GapsDisjoint(lo, hi, E, i, k);
  }
}
