/** Index key values (index/btree/page.go, compareVals) and the order they are kept in.  A date is an
    instant, in nanoseconds.

    Every page compares keys only through compareVals.  A key is ranked by a real number, and the
    lemmas below show that compareVals on two keys of one type is the order of their ranks and that
    no two keys of one type share a rank.  The pages of the tree therefore store ranks. */
module Keys {
  newtype byte = b: int | 0 <= b < 256

  datatype Value =
    | IntVal(i: int)
    | LongVal(l: int)
    | ShortVal(h: int)
    | BoolVal(b: bool)
    | StringVal(s: seq<byte>)
    | DateVal(nanos: int)

  predicate SameType(a: Value, b: Value) {
    match a
    case IntVal(_) => b.IntVal?
    case LongVal(_) => b.LongVal?
    case ShortVal(_) => b.ShortVal?
    case BoolVal(_) => b.BoolVal?
    case StringVal(_) => b.StringVal?
    case DateVal(_) => b.DateVal?
  }

  function CompareInts(a: int, b: int): int {
    if a < b then -1 else if a > b then 1 else 0
  }

  /** strings.Compare: bytewise, a proper prefix comes first. */
  function CompareStrings(a: seq<byte>, b: seq<byte>): int {
    if a == [] then (if b == [] then 0 else -1)
    else if b == [] then 1
    else if a[0] < b[0] then -1
    else if a[0] > b[0] then 1
    else CompareStrings(a[1..], b[1..])
  }

  /** Mixed types make the source panic, so they are excluded. */
  function CompareVals(a: Value, b: Value): int
    requires SameType(a, b)
  {
    match a
    case IntVal(i) => CompareInts(i, b.i)
    case LongVal(i) => CompareInts(i, b.l)
    case ShortVal(i) => CompareInts(i, b.h)
    case BoolVal(x) => if x == b.b then 0 else if !x then -1 else 1
    case StringVal(s) => CompareStrings(s, b.s)
    case DateVal(t) => CompareInts(t, b.nanos)
  }

  /** A string is ranked by reading it as a fraction in base 257, digit 0 meaning "ended". */
  function StringRank(s: seq<byte>): (r: real)
    ensures 0.0 <= r < 1.0
    ensures s != [] ==> (s[0] as real + 1.0) / 257.0 <= r < (s[0] as real + 2.0) / 257.0
  {
    if s == [] then 0.0 else (s[0] as real + 1.0 + StringRank(s[1..])) / 257.0
  }

  function Rank(v: Value): real {
    match v
    case IntVal(i) => i as real
    case LongVal(i) => i as real
    case ShortVal(i) => i as real
    case BoolVal(x) => if x then 1.0 else 0.0
    case StringVal(s) => StringRank(s)
    case DateVal(t) => t as real
  }

  lemma {:induction false} StringRankOrders(a: seq<byte>, b: seq<byte>)
    ensures CompareStrings(a, b) < 0 <==> StringRank(a) < StringRank(b)
    ensures CompareStrings(a, b) > 0 <==> StringRank(a) > StringRank(b)
    ensures CompareStrings(a, b) == 0 <==> a == b
  {
    if a != [] && b != [] {
      StringRankOrders(a[1..], b[1..]);
      if a[0] == b[0] {
        assert a == [a[0]] + a[1..] && b == [b[0]] + b[1..];
      } else if a[0] < b[0] {
        assert a[0] as real + 1.0 <= b[0] as real;
      } else {
        assert b[0] as real + 1.0 <= a[0] as real;
      }
    }
  }

  /** compareVals is exactly the order of the ranks, and it answers 0 only for the same key. */
  lemma CompareValsIsRankOrder(a: Value, b: Value)
    requires SameType(a, b)
    ensures CompareVals(a, b) < 0 <==> Rank(a) < Rank(b)
    ensures CompareVals(a, b) > 0 <==> Rank(a) > Rank(b)
    ensures CompareVals(a, b) == 0 <==> Rank(a) == Rank(b)
    ensures Rank(a) == Rank(b) <==> a == b
  {
    if a.StringVal? {
      StringRankOrders(a.s, b.s);
    }
  }

  /** The first place where two strings differ, or the end of the shorter one. */
  ghost predicate SplitAt(s: seq<byte>, t: seq<byte>, k: nat) {
    k <= |s| && k <= |t| && s[..k] == t[..k] && (k < |s| && k < |t| ==> s[k] != t[k])
  }

  /** Which of two keys comes first: the smaller number, false, the earlier instant, and of two strings the one
      with the smaller byte where they differ, or that ends there. */
  lemma ComparedAs(a: Value, b: Value)
    requires SameType(a, b)
    ensures a.IntVal? ==> (CompareVals(a, b) < 0 <==> a.i < b.i)
    ensures a.LongVal? ==> (CompareVals(a, b) < 0 <==> a.l < b.l)
    ensures a.ShortVal? ==> (CompareVals(a, b) < 0 <==> a.h < b.h)
    ensures a.BoolVal? ==> (CompareVals(a, b) < 0 <==> !a.b && b.b)
    ensures a.DateVal? ==> (CompareVals(a, b) < 0 <==> a.nanos < b.nanos)
    ensures a.StringVal? ==> (CompareVals(a, b) < 0 <==>
                                exists k: nat :: SplitAt(a.s, b.s, k) && k < |b.s| && (k < |a.s| ==> a.s[k] < b.s[k]))
  {
    if a.StringVal? {
      StringsComparedAs(a.s, b.s);
    }
  }

  lemma {:induction false} StringsComparedAs(s: seq<byte>, t: seq<byte>)
    ensures CompareStrings(s, t) < 0 <==>
              exists k: nat :: SplitAt(s, t, k) && k < |t| && (k < |s| ==> s[k] < t[k])
  {
    if s == [] || t == [] || s[0] != t[0] {
      assert SplitAt(s, t, 0);
      forall k: nat | SplitAt(s, t, k) ensures k == 0 {
        SplitFirst(s, t, k);
      }
    } else {
      StringsComparedAs(s[1..], t[1..]);
      forall k: nat ensures k > 0 && SplitAt(s, t, k) <==> k > 0 && SplitAt(s[1..], t[1..], k - 1) {
        SplitBehind(s, t, k);
      }
      assert !SplitAt(s, t, 0);
      forall k: nat | SplitAt(s[1..], t[1..], k) ensures SplitAt(s, t, k + 1) { }
    }
  }

  lemma SplitFirst(s: seq<byte>, t: seq<byte>, k: nat)
    requires SplitAt(s, t, k)
    ensures k > 0 ==> s != [] && t != [] && s[0] == t[0]
  {
    if k > 0 {
      assert s[..k][0] == t[..k][0];
    }
  }

  lemma SplitBehind(s: seq<byte>, t: seq<byte>, k: nat)
    requires s != [] && t != [] && s[0] == t[0]
    ensures k > 0 ==> (SplitAt(s, t, k) <==> SplitAt(s[1..], t[1..], k - 1))
  {
    if k > 0 && k <= |s| && k <= |t| {
      assert s[..k] == [s[0]] + s[1..][..k - 1] && t[..k] == [t[0]] + t[1..][..k - 1];
      assert s[1..][..k - 1] == s[..k][1..] && t[1..][..k - 1] == t[..k][1..];
    }
  }

  const SECOND := 1_000_000_000

  /** What a page keeps of a key: 32 bits of an integer, the whole seconds of a date. */
  function KeptOnPage(v: Value): Value {
    match v
    case IntVal(i) =>
      var low := i % 0x1_0000_0000;
      IntVal(if low >= 0x8000_0000 then low - 0x1_0000_0000 else low)
    case DateVal(t) => DateVal(t / SECOND * SECOND)
    case _ => v
  }

  /** A key compares equal to what the page kept of it, and so is found again, exactly when it is an integer
      of 32 bits, a date without a fraction of a second, or of another type. */
  lemma KeptOnPageIff(v: Value)
    ensures CompareVals(v, KeptOnPage(v)) == 0 <==>
              && (v.IntVal? ==> -0x8000_0000 <= v.i < 0x8000_0000)
              && (v.DateVal? ==> v.nanos % SECOND == 0)
  {
    CompareValsIsRankOrder(v, KeptOnPage(v));
  }
}
