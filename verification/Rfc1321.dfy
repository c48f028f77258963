/** The MD5 message digest as RFC 1321 defines it, sections 2 and 3.1 to 3.5: the
  specification that hotspot/hotspot/md5.js is proved against. */
module Rfc1321 {
  import opened JsNumbers

  type Byte = b: int | 0 <= b < 0x100
  type Word = w: int | 0 <= w < 0x1_0000_0000

  // ------------------------------------------------------------------ sections 3.1 and 3.2

  /** How many zero bytes follow the 0x80 marker of a message of `n` bytes. */
  function ZeroCount(n: nat): (k: nat)
    ensures k < 64 && (n + 1 + k) % 64 == 56
  {
    (55 - n) % 64
  }

  lemma ZeroCountIsLeast(n: nat, k: nat)
    requires (n + 1 + k) % 64 == 56
    ensures ZeroCount(n) <= k
  {
  }

  /** `count` bytes of `v`, low-order byte first. */
  function LittleEndian(v: nat, count: nat): (bytes: seq<Byte>)
    ensures |bytes| == count
    decreases count, v
  {
    if count == 0 then [] else [v % 0x100] + LittleEndian(v / 0x100, count - 1)
  }

  lemma MultipleOf64(n: nat)
    requires n % 64 == 56
    ensures (n + 8) % 64 == 0
  {
  }

  function Padded(message: seq<Byte>): (p: seq<Byte>)
    ensures |p| % 64 == 0
  {
    MultipleOf64(|message| + 1 + ZeroCount(|message|));
    message + [0x80] + seq(ZeroCount(|message|), _ => 0) + LittleEndian(8 * |message|, 8)
  }

  // ------------------------------------------------------------------ section 2: words

  function ByteAt(bytes: seq<Byte>, i: nat): Byte {
    if i < |bytes| then bytes[i] else 0
  }

  function Word4(b0: Byte, b1: Byte, b2: Byte, b3: Byte): Word {
    b0 + 0x100 * b1 + 0x1_0000 * b2 + 0x100_0000 * b3
  }

  /** Word `k` of a byte string, low-order byte first; bytes past the end count as zero. */
  function WordAt(bytes: seq<Byte>, k: nat): Word {
    Word4(ByteAt(bytes, 4 * k), ByteAt(bytes, 4 * k + 1), ByteAt(bytes, 4 * k + 2), ByteAt(bytes, 4 * k + 3))
  }

  function Words(bytes: seq<Byte>): (w: seq<Word>)
    ensures |w| == |bytes| / 4
  {
    seq(|bytes| / 4, k requires 0 <= k => WordAt(bytes, k))
  }

  function Add(x: Word, y: Word): Word { (x + y) % 0x1_0000_0000 }

  /** `x <<< s`: the high s bits come round to the low end. */
  function Rotate(x: Word, s: nat): Word
    requires s <= 32
  {
    (x * Pow2(s) + x / Pow2(32 - s)) % 0x1_0000_0000
  }

  function Complement(x: Word): Word { 0x1_0000_0000 - 1 - x }

  function BitAnd(x: Word, y: Word): Word { BitsOfWords(AND, x, y) }

  function BitOr(x: Word, y: Word): Word { BitsOfWords(OR, x, y) }

  function BitXor(x: Word, y: Word): Word { BitsOfWords(XOR, x, y) }

  function BitsOfWords(op: BitOp, x: Word, y: Word): Word {
    PowersOfTwo();
    BitsBound(op, x, y, 32);
    Bits(op, x, y, 32)
  }

  lemma ComplementFlipsEveryBit(x: Word)
    ensures BitXor(x, 0x1_0000_0000 - 1) == Complement(x)
  {
    PowersOfTwo();
    XorWithOnes(x, 32);
  }

  // ------------------------------------------------------------------ section 3.4

  function F(x: Word, y: Word, z: Word): Word { BitOr(BitAnd(x, y), BitAnd(Complement(x), z)) }

  function G(x: Word, y: Word, z: Word): Word { BitOr(BitAnd(x, z), BitAnd(y, Complement(z))) }

  function H(x: Word, y: Word, z: Word): Word { BitXor(BitXor(x, y), z) }

  function I(x: Word, y: Word, z: Word): Word { BitXor(y, BitOr(x, Complement(z))) }

  datatype Registers = Registers(a: Word, b: Word, c: Word, d: Word)

  const INITIAL := Registers(0x67452301, 0xefcdab89, 0x98badcfe, 0x10325476)

  function RoundFunction(i: nat, x: Word, y: Word, z: Word): Word {
    if i < 16 then F(x, y, z) else if i < 32 then G(x, y, z) else if i < 48 then H(x, y, z) else I(x, y, z)
  }

  /** Which word of the block step `i` reads. */
  function WordIndex(i: nat): (k: nat)
    ensures k < 16
  {
    if i < 16 then i
    else if i < 32 then (5 * i + 1) % 16
    else if i < 48 then (3 * i + 5) % 16
    else (7 * i) % 16
  }

  function ShiftAmount(i: nat): (s: nat)
    ensures 1 <= s <= 31
  {
    var column := i % 4;
    if i < 16 then [7, 12, 17, 22][column]
    else if i < 32 then [5, 9, 14, 20][column]
    else if i < 48 then [4, 11, 16, 23][column]
    else [6, 10, 15, 21][column]
  }

  /** Element `i + 1` of the table of section 3.4: the integer part of 2^32 * abs(sin(i + 1)). */
  function SineTable(i: nat): Word {
    match i
    case 0 => 0xd76aa478 case 1 => 0xe8c7b756 case 2 => 0x242070db case 3 => 0xc1bdceee
    case 4 => 0xf57c0faf case 5 => 0x4787c62a case 6 => 0xa8304613 case 7 => 0xfd469501
    case 8 => 0x698098d8 case 9 => 0x8b44f7af case 10 => 0xffff5bb1 case 11 => 0x895cd7be
    case 12 => 0x6b901122 case 13 => 0xfd987193 case 14 => 0xa679438e case 15 => 0x49b40821
    case 16 => 0xf61e2562 case 17 => 0xc040b340 case 18 => 0x265e5a51 case 19 => 0xe9b6c7aa
    case 20 => 0xd62f105d case 21 => 0x02441453 case 22 => 0xd8a1e681 case 23 => 0xe7d3fbc8
    case 24 => 0x21e1cde6 case 25 => 0xc33707d6 case 26 => 0xf4d50d87 case 27 => 0x455a14ed
    case 28 => 0xa9e3e905 case 29 => 0xfcefa3f8 case 30 => 0x676f02d9 case 31 => 0x8d2a4c8a
    case 32 => 0xfffa3942 case 33 => 0x8771f681 case 34 => 0x6d9d6122 case 35 => 0xfde5380c
    case 36 => 0xa4beea44 case 37 => 0x4bdecfa9 case 38 => 0xf6bb4b60 case 39 => 0xbebfbc70
    case 40 => 0x289b7ec6 case 41 => 0xeaa127fa case 42 => 0xd4ef3085 case 43 => 0x04881d05
    case 44 => 0xd9d4d039 case 45 => 0xe6db99e5 case 46 => 0x1fa27cf8 case 47 => 0xc4ac5665
    case 48 => 0xf4292244 case 49 => 0x432aff97 case 50 => 0xab9423a7 case 51 => 0xfc93a039
    case 52 => 0x655b59c3 case 53 => 0x8f0ccc92 case 54 => 0xffeff47d case 55 => 0x85845dd1
    case 56 => 0x6fa87e4f case 57 => 0xfe2ce6e0 case 58 => 0xa3014314 case 59 => 0x4e0811a1
    case 60 => 0xf7537e82 case 61 => 0xbd3af235 case 62 => 0x2ad7d2bb case _ => 0xeb86d391
  }

  /** The operation [abcd k s i]: a = b + ((a + f(b,c,d) + X[k] + T[i]) <<< s). */
  function Operation(f: Word, a: Word, b: Word, x: Word, s: nat, t: Word): Word
    requires s <= 32
  {
    Add(b, Rotate(Add(Add(Add(a, f), x), t), s))
  }

  /** Step `i`, after which the four registers move round one place. */
  function Step(r: Registers, block: seq<Word>, i: nat): Registers
    requires |block| == 16
  {
    var f := RoundFunction(i, r.b, r.c, r.d);
    Registers(r.d, Operation(f, r.a, r.b, block[WordIndex(i)], ShiftAmount(i), SineTable(i)), r.b, r.c)
  }

  /** The first `n` steps on one block. */
  function Steps(r: Registers, block: seq<Word>, n: nat): Registers
    requires |block| == 16
  {
    if n == 0 then r else Step(Steps(r, block, n - 1), block, n - 1)
  }

  function ProcessBlock(r: Registers, block: seq<Word>): Registers
    requires |block| == 16
  {
    var s := Steps(r, block, 64);
    Registers(Add(s.a, r.a), Add(s.b, r.b), Add(s.c, r.c), Add(s.d, r.d))
  }

  /** The registers after the first `n` blocks of `words`. */
  function ProcessBlocks(words: seq<Word>, n: nat): Registers
    requires 16 * n <= |words|
  {
    if n == 0 then INITIAL else ProcessBlock(ProcessBlocks(words, n - 1), words[16 * (n - 1)..16 * n])
  }

  function ProcessAll(words: seq<Word>): Registers {
    ProcessBlocks(words, |words| / 16)
  }

  // ------------------------------------------------------------------ section 3.5

  function RegisterBytes(r: Registers): seq<Byte> {
    LittleEndian(r.a, 4) + LittleEndian(r.b, 4) + LittleEndian(r.c, 4) + LittleEndian(r.d, 4)
  }

  function Digest(message: seq<Byte>): (d: seq<Byte>)
    ensures |d| == 16
  {
    RegisterBytes(ProcessAll(Words(Padded(message))))
  }
}
