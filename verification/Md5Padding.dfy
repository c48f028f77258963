/** `str2binl` and `strw2binl` of hotspot/hotspot/md5.js: packing a string into 16-word blocks,
  proved against sections 3.1 and 3.2 of RFC 1321. */
module Md5Padding {
  import opened JsNumbers
  import opened Rfc1321

  /** A JavaScript string is a sequence of 16-bit code units. */
  type CodeUnit = c: int | 0 <= c < 0x1_0000

  /** The low byte of every code unit. */
  function LowBytes(s: seq<CodeUnit>): (bytes: seq<Byte>)
    ensures |bytes| == |s|
  {
    seq(|s|, i requires 0 <= i < |s| => s[i] % 0x100)
  }

  /** Both bytes of every code unit, low byte first. */
  function Utf16Bytes(s: seq<CodeUnit>): (bytes: seq<Byte>)
    ensures |bytes| == 2 * |s|
  {
    seq(2 * |s|, i requires 0 <= i < 2 * |s| => if i % 2 == 0 then s[i / 2] % 0x100 else s[i / 2] / 0x100)
  }

  /** A string whose characters are those bytes. */
  function AsUnits(bytes: seq<Byte>): (s: seq<CodeUnit>)
    ensures |s| == |bytes|
  {
    seq(|bytes|, i requires 0 <= i < |bytes| => bytes[i])
  }

  function BlockCount(n: nat): (count: nat)
    ensures 64 * count == n + 1 + ZeroCount(n) + 8
  {
    BlockCountIsWhole(n);
    (n + 8) / 64 + 1
  }

  lemma BlockCountIsWhole(n: nat)
    ensures 64 * ((n + 8) / 64 + 1) == n + 1 + ZeroCount(n) + 8
  {
    var q, r := (n + 8) / 64, (n + 8) % 64;
    assert n + 8 == 64 * q + r;
    MultiplesOf64(63 - r, -q);
    assert 55 - n == 63 - r + 64 * -q;
  }

  lemma MultiplesOf64(x: int, k: int)
    requires 0 <= x < 64
    ensures (x + 64 * k) % 64 == x
  {
  }

  /** Entry `k` of the array both packing loops leave behind: a signed word, except that the
    next to last entry holds the bit length as a plain number. */
  function JsBlock(bytes: seq<Byte>, k: nat): int {
    if k == 16 * BlockCount(|bytes|) - 2 then 8 * |bytes| else ToInt32(WordAt(bytes + [0x80], k))
  }

  function JsBlocks(bytes: seq<Byte>): (blocks: seq<int>)
    ensures |blocks| == 16 * BlockCount(|bytes|)
  {
    seq(16 * BlockCount(|bytes|), k requires 0 <= k => JsBlock(bytes, k))
  }

  // ------------------------------------------------------------------ adding one byte to a word

  lemma WordBelow(bytes: seq<Byte>, k: nat)
    ensures |bytes| <= 4 * k ==> WordAt(bytes, k) == 0
    ensures |bytes| == 4 * k + 1 ==> WordAt(bytes, k) < 0x100
    ensures |bytes| == 4 * k + 2 ==> WordAt(bytes, k) < 0x1_0000
    ensures |bytes| == 4 * k + 3 ==> WordAt(bytes, k) < 0x100_0000
  {
  }

  lemma OtherBytesStay(bytes: seq<Byte>, b: Byte)
    ensures forall i: nat | i != |bytes| :: ByteAt(bytes + [b], i) == ByteAt(bytes, i)
    ensures ByteAt(bytes + [b], |bytes|) == b && ByteAt(bytes, |bytes|) == 0
  {
  }

  /** Where the next byte lands: lane `m` of word `k`, above everything already there. */
  lemma NextByte(bytes: seq<Byte>, b: Byte, k: nat, m: nat)
    requires |bytes| == 4 * k + m && m < 4
    ensures WordAt(bytes, k) < Pow2(8 * m)
    ensures WordAt(bytes + [b], k) == WordAt(bytes, k) + b * Pow2(8 * m)
    ensures forall j: nat | j != k :: WordAt(bytes + [b], j) == WordAt(bytes, j)
  {
    hide *;
    LaneUnits(m);
    WordBelow(bytes, k);
    WordGrows(bytes, b, k, m);
    OtherWordsStay(bytes, b, k, m);
  }

  lemma LaneUnits(m: nat)
    requires m < 4
    ensures m == 0 ==> Pow2(8 * m) == 1
    ensures m == 1 ==> Pow2(8 * m) == 0x100
    ensures m == 2 ==> Pow2(8 * m) == 0x1_0000
    ensures m == 3 ==> Pow2(8 * m) == 0x100_0000
  {
    PowersOfTwo();
    if m == 0 {
      assert Pow2(0) == 1;
    }
  }

  lemma WordGrows(bytes: seq<Byte>, b: Byte, k: nat, m: nat)
    requires |bytes| == 4 * k + m && m < 4
    ensures m == 0 ==> WordAt(bytes + [b], k) == WordAt(bytes, k) + b
    ensures m == 1 ==> WordAt(bytes + [b], k) == WordAt(bytes, k) + 0x100 * b
    ensures m == 2 ==> WordAt(bytes + [b], k) == WordAt(bytes, k) + 0x1_0000 * b
    ensures m == 3 ==> WordAt(bytes + [b], k) == WordAt(bytes, k) + 0x100_0000 * b
  {
    OtherBytesStay(bytes, b);
    hide ByteAt;
  }

  lemma OtherWordsStay(bytes: seq<Byte>, b: Byte, k: nat, m: nat)
    requires |bytes| == 4 * k + m && m < 4
    ensures forall j: nat | j != k :: WordAt(bytes + [b], j) == WordAt(bytes, j)
  {
    OtherBytesStay(bytes, b);
    hide ByteAt, Word4;
  }

  /** `word |= v << 8m` when nothing of `word` lies above lane `m`. */
  lemma OrIntoLane(w: int, v: int, m: nat)
    requires m < 4 && 0 <= w < Pow2(8 * m) && 0 <= v && v * Pow2(8 * m) < 0x1_0000_0000
    ensures Or(ToInt32(w), Shl(v, 8 * m)) == ToInt32(w + v * Pow2(8 * m))
  {
    hide Or, Shl;
    var p := Pow2(8 * m);
    PowersOfTwo();
    LaneBelowTop(m);
    SmallResidue(w);
    LaneValue(v, p);
    ShlResidue(v, 8 * m);
    WordResidue(v);
    WordResidue(v * p);
    OrAdds(Shl(v, 8 * m), w, v, 8 * m);
    OrCommutes(w, Shl(v, 8 * m));
  }

  lemma LaneBelowTop(m: nat)
    requires m < 4
    ensures Pow2(8 * m) < 0x8000_0000
  {
    PowersOfTwo();
  }

  lemma LaneValue(v: int, p: int)
    requires 0 <= v && p >= 1
    ensures v <= v * p
  {
  }

  lemma OrCommutes(x: int, y: int)
    ensures Or(x, y) == Or(y, x)
  {
    OrSymmetric(ToUint32(x), ToUint32(y), 32);
  }

  lemma PackByte(bytes: seq<Byte>, b: Byte, k: nat, m: nat)
    requires |bytes| == 4 * k + m && m < 4
    ensures Or(ToInt32(WordAt(bytes, k)), Shl(b, 8 * m)) == ToInt32(WordAt(bytes + [b], k))
    ensures forall j: nat | j != k :: WordAt(bytes + [b], j) == WordAt(bytes, j)
  {
    hide WordAt, Or, Shl, ToInt32;
    NextByte(bytes, b, k, m);
    PowersOfTwo();
    OrIntoLane(WordAt(bytes, k), b, m);
  }

  lemma PackUnit(bytes: seq<Byte>, c: CodeUnit, k: nat, m: nat)
    requires |bytes| == 4 * k + m && (m == 0 || m == 2)
    ensures Or(ToInt32(WordAt(bytes, k)), Shl(c, 8 * m)) == ToInt32(WordAt(bytes + [c % 0x100, c / 0x100], k))
    ensures forall j: nat | j != k :: WordAt(bytes + [c % 0x100, c / 0x100], j) == WordAt(bytes, j)
  {
    hide WordAt, Or, Shl, ToInt32;
    var low, high := c % 0x100, c / 0x100;
    NextByte(bytes, low, k, m);
    NextByte(bytes + [low], high, k, m + 1);
    assert bytes + [low] + [high] == bytes + [low, high];
    PowersOfTwo();
    Pow2Add(8 * m, 8);
    assert low * Pow2(8 * m) + high * (0x100 * Pow2(8 * m)) == c * Pow2(8 * m) by {
      Regroup(low, high, Pow2(8 * m));
    }
    OrIntoLane(WordAt(bytes, k), c, m);
  }

  lemma Regroup(low: int, high: int, p: int)
    ensures low * p + high * (0x100 * p) == (low + 0x100 * high) * p
  {
  }

  lemma SarSmall(x: nat, n: nat)
    requires x < 0x8000_0000 && n < 32
    ensures Sar(x, n) == x / Pow2(n)
  {
    assert n % 32 == n;
    SmallResidue(x);
  }

  // ------------------------------------------------------------------ the two packing loops

  method Str2Binl(str: seq<CodeUnit>) returns (blks: array<int>)
    requires |str| + 8 < 0x8000_0000
    ensures fresh(blks)
    ensures blks[..] == JsBlocks(LowBytes(str))
  {
    hide WordAt, Or, Shl, ToInt32, And, Sar, Pow2;
    ghost var bytes := LowBytes(str);
    PowersOfTwo();
    SarSmall(|str| + 8, 6);
    var nblk := Sar(|str| + 8, 6) + 1;
    blks := new int[nblk * 16];
    assert nblk == BlockCount(|str|);
    var i := 0;
    while i < nblk * 16
      invariant 0 <= i <= nblk * 16
      invariant forall k | 0 <= k < i :: blks[k] == 0
    {
      blks[i] := 0;
      i := i + 1;
    }
    NothingPacked();
    i := 0;
    while i < |str|
      invariant 0 <= i <= |str|
      invariant forall k: nat | k < nblk * 16 :: blks[k] == ToInt32(WordAt(bytes[..i], k))
    {
      PackByte(bytes[..i], bytes[i], i / 4, i % 4);
      assert bytes[..i + 1] == bytes[..i] + [bytes[i]];
      AndByte(str[i]);
      ShiftByTwo(i);
      blks[Sar(i, 2)] := Or(blks[Sar(i, 2)], Shl(And(str[i], 0xFF), (i % 4) * 8));
      i := i + 1;
    }
    assert bytes[..i] == bytes;
    PackByte(bytes, 0x80, i / 4, i % 4);
    ShiftByTwo(i);
    blks[Sar(i, 2)] := Or(blks[Sar(i, 2)], Shl(0x80, (i % 4) * 8));
    blks[nblk * 16 - 2] := |str| * 8;
  }

  method Strw2Binl(str: seq<CodeUnit>) returns (blks: array<int>)
    requires |str| + 4 < 0x8000_0000
    ensures fresh(blks)
    ensures blks[..] == JsBlocks(Utf16Bytes(str))
  {
    hide WordAt, Or, Shl, ToInt32, And, Sar, Pow2;
    ghost var bytes := Utf16Bytes(str);
    PowersOfTwo();
    SarSmall(|str| + 4, 5);
    var nblk := Sar(|str| + 4, 5) + 1;
    blks := new int[nblk * 16];
    assert nblk == BlockCount(2 * |str|);
    var i := 0;
    while i < nblk * 16
      invariant 0 <= i <= nblk * 16
      invariant forall k | 0 <= k < i :: blks[k] == 0
    {
      blks[i] := 0;
      i := i + 1;
    }
    NothingPacked();
    i := 0;
    while i < |str|
      invariant 0 <= i <= |str|
      invariant forall k: nat | k < nblk * 16 :: blks[k] == ToInt32(WordAt(bytes[..2 * i], k))
    {
      PackUnit(bytes[..2 * i], str[i], i / 2, 2 * (i % 2));
      assert bytes[..2 * (i + 1)] == bytes[..2 * i] + [str[i] % 0x100, str[i] / 0x100];
      ShiftByOne(i);
      blks[Sar(i, 1)] := Or(blks[Sar(i, 1)], Shl(str[i], (i % 2) * 16));
      i := i + 1;
    }
    assert bytes[..2 * i] == bytes;
    PackByte(bytes, 0x80, i / 2, 2 * (i % 2));
    ShiftByOne(i);
    blks[Sar(i, 1)] := Or(blks[Sar(i, 1)], Shl(0x80, (i % 2) * 16));
    blks[nblk * 16 - 2] := |str| * 16;
  }

  lemma NothingPacked()
    ensures forall k: nat :: ToInt32(WordAt([], k)) == 0
  {
  }

  lemma ShiftByTwo(i: nat)
    requires i < 0x8000_0000
    ensures Sar(i, 2) == i / 4
  {
    SarSmall(i, 2);
    assert Pow2(2) == 4;
  }

  lemma ShiftByOne(i: nat)
    requires i < 0x8000_0000
    ensures Sar(i, 1) == i / 2
  {
    SarSmall(i, 1);
    assert Pow2(1) == 2;
  }

  /** Both loops at once: `strw2binl` of a string builds the same array, word for word, as
    `str2binl` of the string's UTF-16 bytes. */
  method PackBothWays(str: seq<CodeUnit>) returns (wide: array<int>, narrow: array<int>)
    requires 2 * |str| + 8 < 0x8000_0000
    ensures fresh(wide) && fresh(narrow)
    ensures wide.Length == narrow.Length == 16 * BlockCount(2 * |str|)
    ensures forall k | 0 <= k < wide.Length :: wide[k] == narrow[k]
  {
    hide JsBlocks, BlockCount;
    wide := Strw2Binl(str);
    narrow := Str2Binl(AsUnits(Utf16Bytes(str)));
    assert LowBytes(AsUnits(Utf16Bytes(str))) == Utf16Bytes(str);
    assert wide[..] == narrow[..] && wide.Length == |wide[..]| && narrow.Length == |narrow[..]|;
    forall k | 0 <= k < wide.Length ensures wide[k] == narrow[k] {
      assert wide[..][k] == narrow[..][k];
    }
  }
}
