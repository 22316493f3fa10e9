/** The byte codec of a page (file/page.go): big-endian integers, length-prefixed bytes, UTF-8 text. */
module Pages {
  import opened Options

  type Byte = x: int | 0 <= x < 256

  const INT_SIZE := 4
  const UTF_MAX := 4

  /** 256 to the k. */
  function Base(k: nat): (b: int)
    ensures b >= 1
  {
    if k == 0 then 1 else 256 * Base(k - 1)
  }

  /** The k low bytes of a number, most significant first. */
  function Enc(n: int, k: nat): (bs: seq<Byte>)
    ensures |bs| == k
    decreases k, n
  {
    if k == 0 then [] else Enc(n / 256, k - 1) + [n % 256]
  }

  function Uint(bs: seq<Byte>): (n: int)
    ensures 0 <= n < Base(|bs|)
  {
    if bs == [] then 0 else Uint(bs[..|bs| - 1]) * 256 + bs[|bs| - 1]
  }

  /** Every k bytes are the encoding of the number they read as: no two byte strings read alike. */
  lemma {:induction false} EncUint(bs: seq<Byte>)
    ensures Enc(Uint(bs), |bs|) == bs
  {
    if bs != [] {
      EncUint(bs[..|bs| - 1]);
    }
  }

  lemma Scale(q: int, b: int)
    ensures 256 * (q * b) == q * (256 * b)
  {
  }

  /** Encoding keeps the number modulo 256 to the k. */
  lemma {:induction false} UintEnc(n: int, k: nat) returns (q: int)
    ensures n == q * Base(k) + Uint(Enc(n, k))
    decreases k
  {
    if k == 0 {
      q := n;
    } else {
      q := UintEnc(n / 256, k - 1);
      assert Enc(n, k)[..k - 1] == Enc(n / 256, k - 1);
      Scale(q, Base(k - 1));
      assert q * Base(k) == 256 * (q * Base(k - 1));
    }
  }

  /** Two's complement of k bytes. */
  function Signed(n: int, k: nat): (r: int)
    requires k > 0 && 0 <= n < Base(k)
    ensures -Base(k) <= 2 * r < Base(k)
  {
    if 2 * n >= Base(k) then n - Base(k) else n
  }

  /** What is left of a number in a signed field of k bytes. */
  function Narrow(n: int, k: nat): int
    requires k > 0
  {
    Signed(Uint(Enc(n, k)), k)
  }

  predicate InRange(n: int, k: nat) {
    -Base(k) <= 2 * n < Base(k)
  }

  lemma Multiples(q: int, b: int)
    requires b >= 1
    ensures q >= 1 ==> q * b >= b
    ensures q <= -2 ==> q * b <= -2 * b
    ensures q == -1 ==> q * b == -b
    ensures q == 0 ==> q * b == 0
  {
    if q <= -2 {
      assert (q + 2) * b <= 0;
    } else if q >= 1 {
      assert (q - 1) * b >= 0;
    }
  }

  /** A signed field holds exactly the numbers in its range. */
  lemma NarrowIff(n: int, k: nat)
    requires k > 0
    ensures Narrow(n, k) == n <==> InRange(n, k)
  {
    var q := UintEnc(n, k);
    Multiples(q, Base(k));
    InRangeOnly(n, q * Base(k), Uint(Enc(n, k)), Base(k), q);
  }

  lemma InRangeOnly(n: int, qb: int, u: int, b: int, q: int)
    requires n == qb + u && 0 <= u < b
    requires (q >= 1 ==> qb >= b) && (q <= -2 ==> qb <= -2 * b) && (q == -1 ==> qb == -b) && (q == 0 ==> qb == 0)
    ensures (if 2 * u >= b then u - b else u) == n <==> -b <= 2 * n < b
  {
  }

  /** The k bytes from an offset. */
  function Slice(p: seq<Byte>, offset: nat, k: nat): (bs: seq<Byte>)
    requires offset + k <= |p|
    ensures |bs| == k
  {
    p[offset..offset + k]
  }

  /** A page with some bytes overwritten. */
  function Splice(p: seq<Byte>, offset: nat, bs: seq<Byte>): (r: seq<Byte>)
    requires offset + |bs| <= |p|
    ensures |r| == |p|
    ensures forall i :: 0 <= i < |p| ==> r[i] == if offset <= i < offset + |bs| then bs[i - offset] else p[i]
  {
    p[..offset] + bs + p[offset + |bs|..]
  }

  lemma SpliceHere(p: seq<Byte>, offset: nat, bs: seq<Byte>)
    requires offset + |bs| <= |p|
    ensures Slice(Splice(p, offset, bs), offset, |bs|) == bs
  {
  }

  /** Writing leaves every disjoint stretch of the page alone. */
  lemma SpliceElsewhere(p: seq<Byte>, offset: nat, bs: seq<Byte>, other: nat, k: nat)
    requires offset + |bs| <= |p| && other + k <= |p|
    requires other + k <= offset || offset + |bs| <= other
    ensures Slice(Splice(p, offset, bs), other, k) == Slice(p, other, k)
  {
  }

  /** Numbers of k bytes: 4 for an int, 8 for a long or a date, 2 for a short. */
  function GetNum(p: seq<Byte>, offset: nat, k: nat): (n: int)
    requires k > 0 && offset + k <= |p|
    ensures InRange(n, k)
  {
    Signed(Uint(Slice(p, offset, k)), k)
  }

  function SetNum(p: seq<Byte>, offset: nat, k: nat, n: int): seq<Byte>
    requires offset + k <= |p|
  {
    Splice(p, offset, Enc(n, k))
  }

  function GetInt(p: seq<Byte>, offset: nat): int
    requires offset + INT_SIZE <= |p|
  {
    GetNum(p, offset, INT_SIZE)
  }

  function SetInt(p: seq<Byte>, offset: nat, n: int): seq<Byte>
    requires offset + INT_SIZE <= |p|
  {
    SetNum(p, offset, INT_SIZE, n)
  }

  function GetBool(p: seq<Byte>, offset: nat): bool
    requires offset < |p|
  {
    p[offset] != 0
  }

  function SetBool(p: seq<Byte>, offset: nat, b: bool): seq<Byte>
    requires offset < |p|
  {
    Splice(p, offset, [if b then 1 else 0])
  }

  /** A length and that many bytes; None where the original would index out of range. */
  function GetBytes(p: seq<Byte>, offset: nat): (r: Option<seq<Byte>>)
    requires offset + INT_SIZE <= |p|
    ensures r.Some? ==> offset + INT_SIZE + |r.value| <= |p|
  {
    var length := GetInt(p, offset);
    if 0 <= length <= |p| - offset - INT_SIZE then Some(Slice(p, offset + INT_SIZE, length)) else None
  }

  /** The length is written whole; of the bytes, as many as the page has room for. */
  function SetBytes(p: seq<Byte>, offset: nat, b: seq<Byte>): seq<Byte>
    requires offset + INT_SIZE <= |p|
  {
    var room := |p| - offset - INT_SIZE;
    Splice(SetInt(p, offset, |b|), offset + INT_SIZE, if |b| <= room then b else b[..room])
  }

  /** The byte of a boolean: 1 or 0 when it is written, and any other byte than 0 reads as true. */
  lemma BoolByte(p: seq<Byte>, offset: nat, b: bool)
    requires offset < |p|
    ensures SetBool(p, offset, b) == Splice(p, offset, if b then [1] else [0])
    ensures GetBool(p, offset) <==> p[offset] > 0
    ensures GetBool(SetBool(p, offset, b), offset) == b
  {
  }

  /** The bytes of a number, most significant first. */
  lemma BigEndian(p: seq<Byte>, offset: nat, n: int)
    ensures offset + 2 <= |p| ==> SetNum(p, offset, 2, n) == Splice(p, offset, [n / 0x100 % 0x100, n % 0x100])
    ensures offset + 4 <= |p| ==>
              SetNum(p, offset, 4, n) ==
              Splice(p, offset, [n / 0x100_0000 % 0x100, n / 0x1_0000 % 0x100, n / 0x100 % 0x100, n % 0x100])
    ensures offset + 8 <= |p| ==>
              SetNum(p, offset, 8, n) ==
              Splice(p, offset, Enc(n / 0x1_0000_0000, 4) +
                     [n / 0x100_0000 % 0x100, n / 0x1_0000 % 0x100, n / 0x100 % 0x100, n % 0x100])
  {
    EncLow(n);
    EncLow(n / 0x1_0000_0000);
    HighHalf(n);
  }

  lemma EncLow(n: int)
    ensures Enc(n, 2) == [n / 0x100 % 0x100, n % 0x100]
    ensures Enc(n, 4) == [n / 0x100_0000 % 0x100, n / 0x1_0000 % 0x100, n / 0x100 % 0x100, n % 0x100]
  {
    EncTwo(n);
    EncTwo(n / 0x100 / 0x100);
    EncLast(n, 4);
    EncLast(n / 0x100, 3);
    Quotients(n);
  }

  lemma EncTwo(n: int)
    ensures Enc(n, 2) == [n / 0x100 % 0x100, n % 0x100]
  {
    EncLast(n, 2);
    EncLast(n / 0x100, 1);
    assert Enc(n / 0x100 / 0x100, 0) == [];
  }

  lemma HighHalf(n: int)
    ensures Enc(n, 8) ==
              Enc(n / 0x1_0000_0000, 4) + [n / 0x100_0000 % 0x100, n / 0x1_0000 % 0x100, n / 0x100 % 0x100, n % 0x100]
  {
    EncLast(n, 8);
    EncLast(n / 0x100, 7);
    EncLast(n / 0x100 / 0x100, 6);
    EncLast(n / 0x100 / 0x100 / 0x100, 5);
    Quotients(n);
  }

  lemma EncLast(n: int, k: nat)
    requires k > 0
    ensures Enc(n, k) == Enc(n / 0x100, k - 1) + [n % 0x100]
  {
  }

  lemma Quotients(n: int)
    ensures n / 0x100 / 0x100 == n / 0x1_0000 && n / 0x100 / 0x100 / 0x100 == n / 0x100_0000
    ensures n / 0x100 / 0x100 / 0x100 / 0x100 == n / 0x1_0000_0000
  {
  }

  /** The page after a write that fits, as one overwritten stretch. */
  lemma SetBytesIs(p: seq<Byte>, offset: nat, b: seq<Byte>)
    requires offset + INT_SIZE + |b| <= |p|
    ensures SetBytes(p, offset, b) == Splice(p, offset, Enc(|b|, INT_SIZE) + b)
  {
    SpliceTwice(p, offset, Enc(|b|, INT_SIZE), b);
  }

  lemma SpliceTwice(p: seq<Byte>, offset: nat, a: seq<Byte>, b: seq<Byte>)
    requires offset + |a| + |b| <= |p|
    ensures Splice(Splice(p, offset, a), offset + |a|, b) == Splice(p, offset, a + b)
  {
  }

  lemma SizeOfBases()
    ensures Base(1) == 0x100 && Base(2) == 0x1_0000 && Base(4) == 0x1_0000_0000
    ensures Base(8) == 0x1_0000_0000_0000_0000
  {
    assert Base(2) == 0x1_0000;
    assert Base(3) == 0x100_0000;
    assert Base(4) == 0x1_0000_0000;
    assert Base(5) == 0x100_0000_0000;
    assert Base(6) == 0x1_0000_0000_0000;
    assert Base(7) == 0x100_0000_0000_0000;
  }

  /** Reading back a number: what the field can hold of it. */
  lemma NumRoundTrip(p: seq<Byte>, offset: nat, k: nat, n: int)
    requires k > 0 && offset + k <= |p|
    ensures GetNum(SetNum(p, offset, k, n), offset, k) == Narrow(n, k)
    ensures GetNum(SetNum(p, offset, k, n), offset, k) == n <==> InRange(n, k)
  {
    SpliceHere(p, offset, Enc(n, k));
    NarrowIff(n, k);
  }

  lemma NumElsewhere(p: seq<Byte>, offset: nat, bs: seq<Byte>, other: nat, k: nat)
    requires k > 0 && offset + |bs| <= |p| && other + k <= |p|
    requires other + k <= offset || offset + |bs| <= other
    ensures GetNum(Splice(p, offset, bs), other, k) == GetNum(p, other, k)
  {
    SpliceElsewhere(p, offset, bs, other, k);
  }

  /** Bytes read back exactly when they fit on the page (on pages of less than 2 GiB). */
  lemma BytesRoundTrip(p: seq<Byte>, offset: nat, b: seq<Byte>)
    requires offset + INT_SIZE <= |p| && |p| < 0x8000_0000 && |b| < 0x8000_0000
    ensures GetBytes(SetBytes(p, offset, b), offset) == Some(b) <==> offset + INT_SIZE + |b| <= |p|
  {
    SizeOfBases();
    NumRoundTrip(p, offset, INT_SIZE, |b|);
    var room := |p| - offset - INT_SIZE;
    var written := if |b| <= room then b else b[..room];
    NumElsewhere(SetInt(p, offset, |b|), offset + INT_SIZE, written, offset, INT_SIZE);
    SpliceHere(SetInt(p, offset, |b|), offset + INT_SIZE, written);
  }

  /** A write in front of some stored bytes leaves them alone. */
  lemma BytesElsewhere(p: seq<Byte>, offset: nat, bs: seq<Byte>, other: nat)
    requires offset + |bs| <= other && other + INT_SIZE <= |p|
    ensures GetBytes(Splice(p, offset, bs), other) == GetBytes(p, other)
  {
    NumElsewhere(p, offset, bs, other, INT_SIZE);
    var length := GetInt(p, other);
    if 0 <= length <= |p| - other - INT_SIZE {
      SpliceElsewhere(p, offset, bs, other + INT_SIZE, length);
    }
  }

  predicate Continuation(b: Byte) {
    0x80 <= b <= 0xBF
  }

  /** The length of the code point at the front of some bytes, or 0 if it is not valid UTF-8
      (RFC 3629, section 4). */
  function CodePoint(s: seq<Byte>): (n: nat)
    ensures n <= UTF_MAX && n <= |s|
  {
    if |s| == 0 then 0
    else if s[0] <= 0x7F then 1
    else if |s| >= 2 && 0xC2 <= s[0] <= 0xDF && Continuation(s[1]) then 2
    else if |s| >= 3 && 0xE0 <= s[0] <= 0xEF && Continuation(s[1]) && Continuation(s[2])
         && (s[0] == 0xE0 ==> s[1] >= 0xA0) && (s[0] == 0xED ==> s[1] <= 0x9F) then 3
    else if |s| >= 4 && 0xF0 <= s[0] <= 0xF4 && Continuation(s[1]) && Continuation(s[2]) && Continuation(s[3])
         && (s[0] == 0xF0 ==> s[1] >= 0x90) && (s[0] == 0xF4 ==> s[1] <= 0x8F) then 4
    else 0
  }

  /** The number of code points, or None if the bytes are not valid UTF-8. */
  function Runes(s: seq<Byte>): (r: Option<nat>)
    decreases |s|
  {
    if s == [] then Some(0)
    else
      var n := CodePoint(s);
      if n == 0 then None
      else match Runes(s[n..]) case None => None case Some(m) => Some(m + 1)
  }

  predicate ValidText(s: seq<Byte>) {
    Runes(s).Some?
  }

  /** A Unicode scalar value: any code point but the surrogates. */
  predicate IsScalar(c: nat) {
    c < 0xD800 || 0xE000 <= c < 0x11_0000
  }

  /** Its bytes in UTF-8: six bits in each byte behind the first (RFC 3629, section 3). */
  function Utf8(c: nat): (bs: seq<Byte>)
    requires IsScalar(c)
    ensures 1 <= |bs| <= 4
  {
    if c < 0x80 then [c]
    else if c < 0x800 then [0xC0 + c / 0x40, 0x80 + c % 0x40]
    else if c < 0x1_0000 then [0xE0 + c / 0x1000, 0x80 + c / 0x40 % 0x40, 0x80 + c % 0x40]
    else [0xF0 + c / 0x4_0000, 0x80 + c / 0x1000 % 0x40, 0x80 + c / 0x40 % 0x40, 0x80 + c % 0x40]
  }

  function Utf8All(cs: seq<nat>): seq<Byte>
    requires forall i :: 0 <= i < |cs| ==> IsScalar(cs[i])
  {
    if cs == [] then [] else Utf8(cs[0]) + Utf8All(cs[1..])
  }

  /** A scalar value at the front of some bytes is seen, whatever comes behind. */
  lemma ScalarSeen(c: nat, rest: seq<Byte>)
    requires IsScalar(c)
    ensures CodePoint(Utf8(c) + rest) == |Utf8(c)|
  {
    if c < 0x80 {
    } else if c < 0x800 {
    } else if c < 0x1_0000 {
      ThreeBytes(c, Utf8(c) + rest);
    } else {
      FourBytes(c, Utf8(c) + rest);
    }
  }

  lemma ThreeBytes(c: nat, s: seq<Byte>)
    requires IsScalar(c) && 0x800 <= c < 0x1_0000 && |s| >= 3 && s[..3] == Utf8(c)
    ensures CodePoint(s) == 3
  {
    assert s[..3][0] == s[0] && s[..3][1] == s[1] && s[..3][2] == s[2];
    assert c / 0x40 % 0x40 == c / 0x40 - 0x40 * (c / 0x1000);
  }

  lemma FourBytes(c: nat, s: seq<Byte>)
    requires IsScalar(c) && 0x1_0000 <= c && |s| >= 4 && s[..4] == Utf8(c)
    ensures CodePoint(s) == 4
  {
    assert s[..4][0] == s[0] && s[..4][1] == s[1] && s[..4][2] == s[2] && s[..4][3] == s[3];
    assert c / 0x1000 % 0x40 == c / 0x1000 - 0x40 * (c / 0x4_0000);
  }

  /** And nothing else is. */
  lemma SeenScalar(s: seq<Byte>) returns (c: nat)
    requires CodePoint(s) > 0
    ensures IsScalar(c) && Utf8(c) == s[..CodePoint(s)]
  {
    match CodePoint(s) {
      case 1 => c := s[0];
      case 2 => {
        c := SixBits(s[0] - 0xC0, s[1]);
        SixBitsBack(s[0] - 0xC0, s[1]);
      }
      case 3 => c := ThreeSeen(s);
      case 4 => c := FourSeen(s);
    }
  }

  /** Six more bits from a byte. */
  function SixBits(high: int, b: int): int {
    0x40 * high + (b - 0x80)
  }

  lemma SixBitsBack(high: int, b: int)
    requires 0x80 <= b <= 0xBF
    ensures SixBits(high, b) / 0x40 == high && 0x80 + SixBits(high, b) % 0x40 == b
  {
  }

  lemma ThreeSeen(s: seq<Byte>) returns (c: nat)
    requires CodePoint(s) == 3
    ensures IsScalar(c) && Utf8(c) == s[..3]
  {
    var high := SixBits(s[0] - 0xE0, s[1]);
    SixBitsBack(s[0] - 0xE0, s[1]);
    SixBitsBack(high, s[2]);
    c := SixBits(high, s[2]);
    assert c / 0x1000 == high / 0x40;
  }

  lemma FourSeen(s: seq<Byte>) returns (c: nat)
    requires CodePoint(s) == 4
    ensures IsScalar(c) && Utf8(c) == s[..4]
  {
    c := FourBytesOf(s[0] - 0xF0, s[1], s[2], s[3]);
    assert s[..4] == [s[0], s[1], s[2], s[3]];
  }

  lemma FourBytesOf(high: int, x: int, y: int, z: int) returns (c: nat)
    requires 0 <= high <= 4 && 0x80 <= x <= 0xBF && 0x80 <= y <= 0xBF && 0x80 <= z <= 0xBF
    requires (high == 0 ==> x >= 0x90) && (high == 4 ==> x <= 0x8F)
    ensures IsScalar(c) && Utf8(c) == [0xF0 + high, x, y, z]
  {
    FourParts(high, x, y, z);
    c := SixBits(SixBits(SixBits(high, x), y), z);
    assert 0x1_0000 <= c < 0x11_0000;
  }

  lemma FourParts(high: int, a: int, b: int, c: int)
    requires 0x80 <= a <= 0xBF && 0x80 <= b <= 0xBF && 0x80 <= c <= 0xBF
    ensures var n := SixBits(SixBits(SixBits(high, a), b), c);
            && n / 0x4_0000 == high && 0x80 + n / 0x1000 % 0x40 == a && 0x80 + n / 0x40 % 0x40 == b
            && 0x80 + n % 0x40 == c
  {
    var mid := SixBits(high, a);
    var low := SixBits(mid, b);
    var n := SixBits(low, c);
    SixBitsBack(high, a);
    SixBitsBack(mid, b);
    SixBitsBack(low, c);
    assert n / 0x1000 == low / 0x40;
    assert n / 0x4_0000 == mid / 0x40;
  }

  /** Text is valid, with so many characters, exactly when it is so many scalar values in UTF-8. */
  lemma RunesIff(s: seq<Byte>, n: nat)
    ensures Runes(s) == Some(n) <==>
              exists cs: seq<nat> :: (|cs| == n && forall i :: 0 <= i < n ==> IsScalar(cs[i])) && Utf8All(cs) == s
  {
    if Runes(s) == Some(n) {
      var cs := ScalarsOf(s);
      assert Utf8All(cs) == s;
    }
    if cs: seq<nat> :| (|cs| == n && forall i :: 0 <= i < n ==> IsScalar(cs[i])) && Utf8All(cs) == s {
      RunesOf(cs);
    }
  }

  lemma {:induction false} RunesOf(cs: seq<nat>)
    requires forall i :: 0 <= i < |cs| ==> IsScalar(cs[i])
    ensures Runes(Utf8All(cs)) == Some(|cs|)
    decreases |cs|
  {
    if cs != [] {
      ScalarSeen(cs[0], Utf8All(cs[1..]));
      RunesOf(cs[1..]);
      assert (Utf8(cs[0]) + Utf8All(cs[1..]))[|Utf8(cs[0])|..] == Utf8All(cs[1..]);
    }
  }

  lemma {:induction false} ScalarsOf(s: seq<Byte>) returns (cs: seq<nat>)
    requires ValidText(s)
    ensures |cs| == Runes(s).value && (forall i :: 0 <= i < |cs| ==> IsScalar(cs[i])) && Utf8All(cs) == s
    decreases |s|
  {
    cs := [];
    if s != [] {
      var c, rest := RunesFront(s);
      var more := ScalarsOf(rest);
      cs := OneMore(c, more);
    }
  }

  lemma RunesFront(s: seq<Byte>) returns (c: nat, rest: seq<Byte>)
    requires s != [] && ValidText(s)
    ensures IsScalar(c) && s == Utf8(c) + rest && |rest| < |s|
    ensures ValidText(rest) && Runes(s).value == Runes(rest).value + 1
  {
    c := SeenScalar(s);
    rest := s[CodePoint(s)..];
    assert s == s[..CodePoint(s)] + rest;
  }

  lemma OneMore(c: nat, rest: seq<nat>) returns (cs: seq<nat>)
    requires IsScalar(c) && forall i :: 0 <= i < |rest| ==> IsScalar(rest[i])
    ensures |cs| == |rest| + 1 && (forall i :: 0 <= i < |cs| ==> IsScalar(cs[i]))
    ensures Utf8All(cs) == Utf8(c) + Utf8All(rest)
  {
    cs := [c] + rest;
    assert cs[1..] == rest;
  }

  /** The room to give to a text of so many code points. */
  function MaxLength(strlen: nat): nat {
    INT_SIZE + strlen * UTF_MAX
  }

  /** A text fits in the room given for its number of code points. */
  lemma {:induction false} TextFits(s: seq<Byte>)
    requires ValidText(s)
    ensures INT_SIZE + |s| <= MaxLength(Runes(s).value)
    decreases |s|
  {
    if s != [] {
      TextFits(s[CodePoint(s)..]);
    }
  }

  /** None stands for the error on invalid text. */
  function GetString(p: seq<Byte>, offset: nat): Option<seq<Byte>>
    requires offset + INT_SIZE <= |p|
  {
    match GetBytes(p, offset)
    case None => None
    case Some(b) => if ValidText(b) then Some(b) else None
  }

  function SetString(p: seq<Byte>, offset: nat, s: seq<Byte>): Option<seq<Byte>>
    requires offset + INT_SIZE <= |p|
  {
    if ValidText(s) then Some(SetBytes(p, offset, s)) else None
  }

  /** A page over its own buffer. */
  class Page {
    const buffer: array<Byte>

    constructor OfSize(blockSize: nat)
      ensures fresh(buffer) && buffer[..] == seq(blockSize, i => 0)
    {
      buffer := new Byte[blockSize](i => 0);
    }

    constructor FromBytes(bytes: array<Byte>)
      ensures buffer == bytes
    {
      buffer := bytes;
    }

    /** Copy bytes into the buffer, as far as it reaches. */
    method Put(offset: nat, bs: seq<Byte>)
      requires offset <= buffer.Length
      modifies buffer
      ensures buffer[..] == Splice(old(buffer[..]), offset, if offset + |bs| <= buffer.Length then bs
              else bs[..buffer.Length - offset])
    {
      var n := if offset + |bs| <= buffer.Length then |bs| else buffer.Length - offset;
      var i := 0;
      while i < n
        invariant 0 <= i <= n
        invariant forall j :: 0 <= j < buffer.Length ==>
          buffer[j] == if offset <= j < offset + i then bs[j - offset] else old(buffer[j])
      {
        buffer[offset + i] := bs[i];
        i := i + 1;
      }
    }

    method PutNum(offset: nat, k: nat, n: int)
      requires offset + k <= buffer.Length
      modifies buffer
      ensures buffer[..] == SetNum(old(buffer[..]), offset, k, n)
    {
      Put(offset, Enc(n, k));
    }

    method PutBytes(offset: nat, b: seq<Byte>)
      requires offset + INT_SIZE <= buffer.Length
      modifies buffer
      ensures buffer[..] == SetBytes(old(buffer[..]), offset, b)
    {
      PutNum(offset, INT_SIZE, |b|);
      Put(offset + INT_SIZE, b);
    }

    method PutString(offset: nat, s: seq<Byte>) returns (ok: bool)
      requires offset + INT_SIZE <= buffer.Length
      modifies buffer
      ensures ok <==> ValidText(s)
      ensures buffer[..] == match SetString(old(buffer[..]), offset, s) case None => old(buffer[..]) case Some(p) => p
    {
      if !ValidText(s) {
        return false;
      }
      PutBytes(offset, s);
      ok := true;
    }

    method PutBool(offset: nat, b: bool)
      requires offset < buffer.Length
      modifies buffer
      ensures buffer[..] == SetBool(old(buffer[..]), offset, b)
    {
      buffer[offset] := if b then 1 else 0;
    }
  }
}
