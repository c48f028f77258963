/** The interface of hotspot/hotspot/md5.js: `hexMD5`, `hexMD5w` and `calcMD5`, and what the
  padded blocks and the hexadecimal text say about the message. */
module Md5 {
  import opened JsNumbers
  import opened Rfc1321
  import opened Md5Core
  import opened Md5Padding

  // ------------------------------------------------------------------ padding against the RFC

  /** The blocks are the RFC's padded message exactly when the bit length fits one word:
    the script never writes the high-order word of the length. */
  lemma PaddingIsRfcExactlyBelow512MiB(bytes: seq<Byte>)
    requires |bytes| < 0x2000_0000_0000_0000
    ensures Unsigned(JsBlocks(bytes)) == Words(Padded(bytes)) <==> |bytes| < 0x2000_0000
  {
    hide WordAt, ToInt32, ZeroCount, LittleEndian;
    var n := 16 * BlockCount(|bytes|);
    var js, rfc := Unsigned(JsBlocks(bytes)), Words(Padded(bytes));
    assert |js| == |rfc| == n;
    forall k: nat | k < n - 2 ensures js[k] == rfc[k] {
      PaddedBody(bytes, k);
      ToInt32Residue(WordAt(bytes + [0x80], k));
      WordResidue(WordAt(bytes + [0x80], k));
    }
    LengthWords(bytes);
    BeyondMarker(bytes, n - 1);
    ToInt32Residue(0);
    HighLengthWord(|bytes|);
    assert js[n - 2] == rfc[n - 2];
    assert js[n - 1] == 0;
    if |bytes| < 0x2000_0000 {
      assert js == rfc;
    }
  }

  lemma HighLengthWord(n: nat)
    requires n < 0x2000_0000_0000_0000
    ensures 8 * n / 0x1_0000_0000 % 0x1_0000_0000 == 0 <==> n < 0x2000_0000
  {
  }

  lemma BeyondMarker(bytes: seq<Byte>, k: nat)
    requires |bytes| + 1 <= 4 * k
    ensures WordAt(bytes + [0x80], k) == 0
  {
  }

  /** Before the length the padded message is the message, the marker and zeros. */
  lemma PaddedBody(bytes: seq<Byte>, k: nat)
    requires k < 16 * BlockCount(|bytes|) - 2
    ensures WordAt(Padded(bytes), k) == WordAt(bytes + [0x80], k)
  {
    hide LittleEndian;
    var body := bytes + [0x80] + seq(ZeroCount(|bytes|), _ => 0);
    forall j: nat | j < 4 * (16 * BlockCount(|bytes|) - 2)
      ensures ByteAt(Padded(bytes), j) == ByteAt(bytes + [0x80], j)
    {
      assert Padded(bytes)[j] == body[j];
    }
  }

  lemma LengthWords(bytes: seq<Byte>)
    ensures
      var n := 16 * BlockCount(|bytes|);
      && WordAt(Padded(bytes), n - 2) == 8 * |bytes| % 0x1_0000_0000
      && WordAt(Padded(bytes), n - 1) == 8 * |bytes| / 0x1_0000_0000 % 0x1_0000_0000
  {
    var n, at := 16 * BlockCount(|bytes|), |bytes| + 1 + ZeroCount(|bytes|);
    var tail := LittleEndian(8 * |bytes|, 8);
    assert at == 4 * (n - 2);
    forall j: nat | j < 8 ensures ByteAt(Padded(bytes), at + j) == tail[j] {
    }
    TailWords(8 * |bytes|);
  }

  lemma TailWords(v: nat)
    ensures
      var t := LittleEndian(v, 8);
      && Word4(t[0], t[1], t[2], t[3]) == v % 0x1_0000_0000
      && Word4(t[4], t[5], t[6], t[7]) == v / 0x1_0000_0000 % 0x1_0000_0000
  {
    hide LittleEndian, Word4;
    EightBytes(v);
    FourBytes(v);
    FourBytes(v / 0x1_0000_0000);
  }

  lemma EightBytes(v: nat)
    ensures LittleEndian(v, 8) == LittleEndian(v, 4) + LittleEndian(v / 0x1_0000_0000, 4)
  {
    var a := v / 0x100;
    var b := a / 0x100;
    var c := b / 0x100;
    var d := c / 0x100;
    assert d == v / 0x1_0000_0000;
    FirstByte(v, 8);
    FirstByte(a, 7);
    FirstByte(b, 6);
    FirstByte(c, 5);
    FirstByte(v, 4);
    FirstByte(a, 3);
    FirstByte(b, 2);
    FirstByte(c, 1);
    hide LittleEndian;
    assert LittleEndian(c, 1) == [c % 0x100];
  }

  lemma FirstByte(v: nat, count: nat)
    requires count > 0
    ensures LittleEndian(v, count) == [v % 0x100] + LittleEndian(v / 0x100, count - 1)
    ensures |LittleEndian(v, count)| == count
  {
  }

  lemma FourBytes(v: nat)
    ensures
      var t := LittleEndian(v, 4);
      Word4(t[0], t[1], t[2], t[3]) == v % 0x1_0000_0000
    ensures LittleEndian(v, 4) == [v % 0x100, v / 0x100 % 0x100, v / 0x1_0000 % 0x100, v / 0x100_0000 % 0x100]
  {
    hide LittleEndian, Word4;
    FourDigits(v);
    DivTwice(v);
    var a := v / 0x100;
    var b := a / 0x100;
    var c := b / 0x100;
    FirstByte(v, 4);
    FirstByte(a, 3);
    FirstByte(b, 2);
    FirstByte(c, 1);
  }

  lemma FourDigits(v: nat)
    ensures Word4(v % 0x100, v / 0x100 % 0x100, v / 0x1_0000 % 0x100, v / 0x100_0000 % 0x100) == v % 0x1_0000_0000
  {
    DivTwice(v);
    var a := v / 0x100;
    var b := a / 0x100;
    var c := b / 0x100;
    var d := c / 0x100;
    SplitByte(v);
    SplitByte(a);
    SplitByte(b);
    SplitByte(c);
    Recomposed(v, a, b, c, d, v % 0x100, a % 0x100, b % 0x100, c % 0x100);
    MultiplesVanish(Word4(v % 0x100, a % 0x100, b % 0x100, c % 0x100), d);
    WordResidue(Word4(v % 0x100, a % 0x100, b % 0x100, c % 0x100));
    hide Word4;
  }

  lemma SplitByte(v: nat)
    ensures v == 0x100 * (v / 0x100) + v % 0x100
  {
  }

  lemma Recomposed(v: nat, a: nat, b: nat, c: nat, d: nat, b0: Byte, b1: Byte, b2: Byte, b3: Byte)
    requires v == 0x100 * a + b0 && a == 0x100 * b + b1 && b == 0x100 * c + b2 && c == 0x100 * d + b3
    ensures v == Word4(b0, b1, b2, b3) + d * 0x1_0000_0000
  {
  }

  // ------------------------------------------------------------------ the message can be read back

  function Lane(w: Word, m: nat): Byte
    requires m < 4
  {
    if m == 0 then w % 0x100 else if m == 1 then w / 0x100 % 0x100
    else if m == 2 then w / 0x1_0000 % 0x100 else w / 0x100_0000 % 0x100
  }

  /** Read the length word, then that many bytes. */
  function Unpack(blocks: seq<int>): seq<Byte>
    requires |blocks| >= 2 && 0 <= blocks[|blocks| - 2] <= 32 * |blocks|
  {
    seq(blocks[|blocks| - 2] / 8, i requires 0 <= i < blocks[|blocks| - 2] / 8 => Lane(ToUint32(blocks[i / 4]), i % 4))
  }

  lemma MessageRecoverable(bytes: seq<Byte>)
    ensures
      var blocks := JsBlocks(bytes);
      |blocks| >= 2 && 0 <= blocks[|blocks| - 2] <= 32 * |blocks| && Unpack(blocks) == bytes
  {
    hide Lane, ZeroCount, BlockCount, JsBlock, ToUint32;
    var blocks := JsBlocks(bytes);
    var n := |blocks|;
    LengthEntry(bytes);
    forall i | 0 <= i < |bytes| ensures Lane(ToUint32(blocks[i / 4]), i % 4) == bytes[i] {
      LaneOfBlock(bytes, i);
    }
    assert blocks[n - 2] / 8 == |bytes|;
  }

  lemma LengthEntry(bytes: seq<Byte>)
    ensures 16 * BlockCount(|bytes|) >= 16 && JsBlock(bytes, 16 * BlockCount(|bytes|) - 2) == 8 * |bytes|
    ensures |bytes| + 9 <= 64 * BlockCount(|bytes|)
  {
    hide BlockCount, ZeroCount;
  }

  lemma LaneOfBlock(bytes: seq<Byte>, i: nat)
    requires i < |bytes|
    ensures i / 4 < 16 * BlockCount(|bytes|) && Lane(ToUint32(JsBlock(bytes, i / 4)), i % 4) == bytes[i]
  {
    hide Lane, BlockCount, ZeroCount, WordAt;
    LaneOfWord(bytes + [0x80], i);
    ToInt32Residue(WordAt(bytes + [0x80], i / 4));
    hide ToInt32, ToUint32;
    assert i / 4 < 16 * BlockCount(|bytes|) - 2;
  }

  lemma LaneOfWord(bytes: seq<Byte>, i: nat)
    requires i < |bytes|
    ensures Lane(WordAt(bytes, i / 4), i % 4) == bytes[i]
  {
    hide Lane, Word4;
    var k, m := i / 4, i % 4;
    assert i == 4 * k + m && (m == 0 || m == 1 || m == 2 || m == 3);
    LanesOf(ByteAt(bytes, 4 * k), ByteAt(bytes, 4 * k + 1), ByteAt(bytes, 4 * k + 2), ByteAt(bytes, 4 * k + 3));
  }

  lemma LanesOf(b0: Byte, b1: Byte, b2: Byte, b3: Byte)
    ensures
      var w := Word4(b0, b1, b2, b3);
      Lane(w, 0) == b0 && Lane(w, 1) == b1 && Lane(w, 2) == b2 && Lane(w, 3) == b3
  {
    var w1 := b1 + 0x100 * b2 + 0x1_0000 * b3;
    var w2 := b2 + 0x100 * b3;
    LowLane(b0, w1);
    LowLane(b1, w2);
    LowLane(b2, b3);
    DivTwice(Word4(b0, b1, b2, b3));
  }

  lemma LowLane(b: Byte, rest: nat)
    ensures (b + 0x100 * rest) % 0x100 == b && (b + 0x100 * rest) / 0x100 == rest
  {
  }

  lemma DivTwice(w: nat)
    ensures w / 0x1_0000 == w / 0x100 / 0x100 && w / 0x100_0000 == w / 0x100 / 0x100 / 0x100
  {
  }

  // ------------------------------------------------------------------ hexadecimal output

  const HEX_TAB: string := "0123456789abcdef"

  /** Two digits a byte, the high one first. */
  function Hex(bytes: seq<Byte>): (s: string)
    ensures |s| == 2 * |bytes|
  {
    if bytes == [] then "" else
      var last := bytes[|bytes| - 1];
      Hex(bytes[..|bytes| - 1]) + [HEX_TAB[last / 0x10], HEX_TAB[last % 0x10]]
  }

  function DigitValue(c: char): int {
    if '0' <= c <= '9' then c as int - '0' as int else c as int - 'a' as int + 10
  }

  function Unhex(s: string): seq<int>
    requires |s| % 2 == 0
  {
    if s == "" then [] else
      Unhex(s[..|s| - 2]) + [0x10 * DigitValue(s[|s| - 2]) + DigitValue(s[|s| - 1])]
  }

  lemma {:induction false} HexDecodes(bytes: seq<Byte>)
    ensures Unhex(Hex(bytes)) == bytes
  {
    hide DigitValue;
    if bytes != [] {
      var front, last := bytes[..|bytes| - 1], bytes[|bytes| - 1];
      HexDecodes(front);
      var s := Hex(bytes);
      assert s[..|s| - 2] == Hex(front);
      DigitRoundTrip(last / 0x10);
      DigitRoundTrip(last % 0x10);
    }
  }

  lemma DigitRoundTrip(d: int)
    requires 0 <= d < 0x10
    ensures DigitValue(HEX_TAB[d]) == d
  {
    assert HEX_TAB == "0123456789abcdef";
  }

  function WordBytes(words: seq<Word>): (bytes: seq<Byte>)
    ensures |bytes| == 4 * |words|
  {
    seq(4 * |words|, i requires 0 <= i < 4 * |words| => Lane(words[i / 4], i % 4))
  }

  /** The two digits the loop of `binl2hex` cuts out of one word. */
  lemma NibblesOfLane(w: int, m: nat)
    requires m < 4
    ensures And(Sar(w, 8 * m + 4), 0xF) == Lane(ToUint32(w), m) / 0x10
    ensures And(Sar(w, 8 * m), 0xF) == Lane(ToUint32(w), m) % 0x10
  {
    hide And, Sar;
    AndNibble(Sar(w, 8 * m + 4));
    AndNibble(Sar(w, 8 * m));
    SarByLiteral(w, m);
    NibblesOfSigned(ToUint32(w), ToInt32(w), m);
  }

  lemma SarByLiteral(w: int, m: nat)
    requires m < 4
    ensures Sar(w, 8 * m) == ToInt32(w) / LaneUnit(m) && Sar(w, 8 * m + 4) == ToInt32(w) / (0x10 * LaneUnit(m))
  {
    PowersOfTwo();
    Pow2Add(8 * m, 4);
  }

  function LaneUnit(m: nat): (u: int)
    ensures u > 0
  {
    if m == 0 then 1 else if m == 1 then 0x100 else if m == 2 then 0x1_0000 else 0x100_0000
  }

  lemma NibblesOfSigned(u: int, i: int, m: nat)
    requires 0 <= u < 0x1_0000_0000 && (i == u || i == u - 0x1_0000_0000) && m < 4
    ensures i / LaneUnit(m) % 0x10 == Lane(u, m) % 0x10
    ensures i / (0x10 * LaneUnit(m)) % 0x10 == Lane(u, m) / 0x10
  {
    if m == 0 {
      NibblesOfQuotient(u);
      SignDropped(u);
    } else if m == 1 {
      NibblesOfQuotient(u / 0x100);
      SignDropped1(u);
    } else if m == 2 {
      NibblesOfQuotient(u / 0x1_0000);
      SignDropped2(u);
    } else {
      NibblesOfQuotient(u / 0x100_0000);
      SignDropped3(u);
    }
  }

  lemma NibblesOfQuotient(q: nat)
    ensures q % 0x10 == q % 0x100 % 0x10 && q / 0x10 % 0x10 == q % 0x100 / 0x10
  {
    var k, r := q / 0x100, q % 0x100;
    SplitByte(q);
    assert q / 0x10 == r / 0x10 + 0x10 * k;
    MultiplesOfSixteen(r, 0x10 * k);
    MultiplesOfSixteen(r / 0x10, k);
  }

  lemma SignDropped(u: nat)
    ensures (u - 0x1_0000_0000) % 0x10 == u % 0x10 && (u - 0x1_0000_0000) / 0x10 % 0x10 == u / 0x10 % 0x10
  {
    assert (u - 0x1_0000_0000) / 0x10 == u / 0x10 - 0x1000_0000;
    MultiplesOfSixteen(u, -0x1000_0000);
    MultiplesOfSixteen(u / 0x10, -0x100_0000);
  }

  lemma SignDropped1(u: nat)
    ensures (u - 0x1_0000_0000) / 0x100 % 0x10 == u / 0x100 % 0x10
    ensures (u - 0x1_0000_0000) / 0x1000 % 0x10 == u / 0x100 / 0x10 % 0x10
    ensures u / 0x1000 == u / 0x100 / 0x10
  {
    assert (u - 0x1_0000_0000) / 0x100 == u / 0x100 - 0x100_0000;
    assert (u - 0x1_0000_0000) / 0x1000 == u / 0x1000 - 0x10_0000;
    MultiplesOfSixteen(u / 0x100, -0x10_0000);
    MultiplesOfSixteen(u / 0x1000, -0x1_0000);
  }

  lemma SignDropped2(u: nat)
    ensures (u - 0x1_0000_0000) / 0x1_0000 % 0x10 == u / 0x1_0000 % 0x10
    ensures (u - 0x1_0000_0000) / 0x10_0000 % 0x10 == u / 0x1_0000 / 0x10 % 0x10
    ensures u / 0x10_0000 == u / 0x1_0000 / 0x10
  {
    assert (u - 0x1_0000_0000) / 0x1_0000 == u / 0x1_0000 - 0x1_0000;
    assert (u - 0x1_0000_0000) / 0x10_0000 == u / 0x10_0000 - 0x1000;
    MultiplesOfSixteen(u / 0x1_0000, -0x1000);
    MultiplesOfSixteen(u / 0x10_0000, -0x100);
  }

  lemma SignDropped3(u: nat)
    ensures (u - 0x1_0000_0000) / 0x100_0000 % 0x10 == u / 0x100_0000 % 0x10
    ensures (u - 0x1_0000_0000) / 0x1000_0000 % 0x10 == u / 0x100_0000 / 0x10 % 0x10
    ensures u / 0x1000_0000 == u / 0x100_0000 / 0x10
  {
    LessWord(u);
    MultiplesOfSixteen(u / 0x100_0000, -0x10);
    MultiplesOfSixteen(u / 0x1000_0000, -1);
    QuotientTwice(u);
  }

  lemma LessWord(u: nat)
    ensures (u - 0x1_0000_0000) / 0x100_0000 == u / 0x100_0000 - 0x100
    ensures (u - 0x1_0000_0000) / 0x1000_0000 == u / 0x1000_0000 - 0x10
  {
  }

  lemma QuotientTwice(u: nat)
    ensures u / 0x1000_0000 == u / 0x100_0000 / 0x10
  {
  }

  method Binl2Hex(binarray: seq<int>) returns (str: string)
    ensures str == Hex(WordBytes(Unsigned(binarray)))
  {
    hide And, Sar, Lane;
    ghost var bytes := WordBytes(Unsigned(binarray));
    str := "";
    var i := 0;
    while i < |binarray| * 4
      invariant 0 <= i <= |binarray| * 4
      invariant str == Hex(bytes[..i])
    {
      NibblesOfLane(binarray[i / 4], i % 4);
      IndexShift(i);
      assert bytes[i] == Lane(ToUint32(binarray[i / 4]), i % 4);
      assert bytes[..i + 1][..i] == bytes[..i];
      str := str + [HEX_TAB[And(Sar(binarray[i / 4], (i % 4) * 8 + 4), 0xF)]]
                 + [HEX_TAB[And(Sar(binarray[i / 4], (i % 4) * 8), 0xF)]];
      i := i + 1;
    }
    assert bytes[..i] == bytes;
  }

  lemma IndexShift(i: nat)
    ensures 8 * (i % 4) == i % 4 * 8
  {
  }

  lemma RegisterBytesAreWordBytes(r: Registers)
    ensures RegisterBytes(r) == WordBytes([r.a, r.b, r.c, r.d])
  {
    FourBytes(r.a);
    FourBytes(r.b);
    FourBytes(r.c);
    FourBytes(r.d);
  }

  // ------------------------------------------------------------------ the exported functions

  /** What all three exported functions print for the bytes they pack. */
  function HexDigestOfBlocks(bytes: seq<Byte>): string {
    Hex(RegisterBytes(ProcessAll(Unsigned(JsBlocks(bytes)))))
  }

  lemma RegistersGiveTheText(a: int, b: int, c: int, d: int, bytes: seq<Byte>)
    requires Unsigned4(a, b, c, d) == ProcessAll(Unsigned(JsBlocks(bytes)))
    ensures Hex(WordBytes(Unsigned([a, b, c, d]))) == HexDigestOfBlocks(bytes)
  {
    hide ProcessAll, JsBlocks, Hex, WordBytes, RegisterBytes, ToUint32;
    RegisterBytesAreWordBytes(Unsigned4(a, b, c, d));
    assert Unsigned([a, b, c, d]) == [ToUint32(a), ToUint32(b), ToUint32(c), ToUint32(d)];
  }

  lemma BlocksGiveTheDigest(bytes: seq<Byte>)
    requires |bytes| < 0x2000_0000
    ensures HexDigestOfBlocks(bytes) == Hex(Digest(bytes))
  {
    PaddingIsRfcExactlyBelow512MiB(bytes);
  }

  method HexMD5(str: seq<CodeUnit>) returns (hex: string)
    requires |str| + 8 < 0x8000_0000
    ensures |str| < 0x2000_0000 ==> hex == Hex(Digest(LowBytes(str)))
    ensures hex == HexDigestOfBlocks(LowBytes(str))
  {
    hide *;
    var blocks := Str2Binl(str);
    var a, b, c, d := CoreMD5(blocks);
    hex := Binl2Hex([a, b, c, d]);
    RegistersGiveTheText(a, b, c, d, LowBytes(str));
    if |str| < 0x2000_0000 {
      BlocksGiveTheDigest(LowBytes(str));
    }
  }

  method HexMD5w(str: seq<CodeUnit>) returns (hex: string)
    requires |str| + 4 < 0x8000_0000
    ensures |str| < 0x1000_0000 ==> hex == Hex(Digest(Utf16Bytes(str)))
    ensures hex == HexDigestOfBlocks(Utf16Bytes(str))
  {
    hide *;
    var blocks := Strw2Binl(str);
    var a, b, c, d := CoreMD5(blocks);
    hex := Binl2Hex([a, b, c, d]);
    RegistersGiveTheText(a, b, c, d, Utf16Bytes(str));
    if |str| < 0x1000_0000 {
      BlocksGiveTheDigest(Utf16Bytes(str));
    }
  }
}
