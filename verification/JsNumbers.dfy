/** The part of ECMAScript number arithmetic that hotspot/hotspot/md5.js relies on.

  A JavaScript number that the script ever holds is an integer, so it is an `int` here.
  The bitwise operators first convert their operands to 32 bits and give back a signed
  32-bit result (`>>>` gives back an unsigned one); `+` and `*` do not wrap. */
module JsNumbers {

  function Pow2(k: nat): (p: nat)
    ensures p > 0
  {
    if k == 0 then 1 else 2 * Pow2(k - 1)
  }

  function ToUint32(n: int): (u: int)
    ensures 0 <= u < 0x1_0000_0000
  {
    n % 0x1_0000_0000
  }

  function ToInt32(n: int): (i: int)
    ensures -0x8000_0000 <= i < 0x8000_0000
  {
    var u := ToUint32(n);
    if u < 0x8000_0000 then u else u - 0x1_0000_0000
  }

  datatype BitOp = AND | OR | XOR

  function Bit(op: BitOp, x: int, y: int): int {
    match op
    case AND => if x % 2 == 1 && y % 2 == 1 then 1 else 0
    case OR => if x % 2 == 1 || y % 2 == 1 then 1 else 0
    case XOR => if x % 2 != y % 2 then 1 else 0
  }

  /** `op` applied to the `width` lowest bits of `x` and `y`, bit by bit. */
  function Bits(op: BitOp, x: int, y: int, width: nat): int
    decreases width, x
  {
    if width == 0 then 0 else Bit(op, x, y) + 2 * Bits(op, x / 2, y / 2, width - 1)
  }

  function And(x: int, y: int): int { ToInt32(Bits(AND, ToUint32(x), ToUint32(y), 32)) }

  function Or(x: int, y: int): int { ToInt32(Bits(OR, ToUint32(x), ToUint32(y), 32)) }

  function Xor(x: int, y: int): int { ToInt32(Bits(XOR, ToUint32(x), ToUint32(y), 32)) }

  function Not(x: int): int { -ToInt32(x) - 1 }

  /** `x << n` */
  function Shl(x: int, n: nat): int { ToInt32(ToInt32(x) * Pow2(n % 32)) }

  /** `x >> n`, which keeps the sign */
  function Sar(x: int, n: nat): int { ToInt32(x) / Pow2(n % 32) }

  /** `x >>> n`, which does not */
  function Shr(x: int, n: nat): int { ToUint32(x) / Pow2(n % 32) }

  // ------------------------------------------------------------------ powers of two

  lemma PowersOfTwo()
    ensures Pow2(4) == 16 && Pow2(5) == 32 && Pow2(6) == 64 && Pow2(8) == 0x100
    ensures Pow2(16) == 0x1_0000 && Pow2(24) == 0x100_0000 && Pow2(32) == 0x1_0000_0000
  {
    assert Pow2(4) == 16;
    Pow2Add(4, 4);
    Pow2Add(8, 8);
    Pow2Add(8, 16);
    Pow2Add(16, 16);
  }

  lemma {:induction false} Pow2Add(j: nat, k: nat)
    ensures Pow2(j + k) == Pow2(j) * Pow2(k)
  {
    if j != 0 {
      Pow2Add(j - 1, k);
      assert Pow2(j + k) == 2 * (Pow2(j - 1) * Pow2(k));
    }
  }

  // ------------------------------------------------------------------ residues mod 2^32

  /** Converting to a signed value loses nothing modulo 2^32. */
  lemma ToInt32Residue(n: int)
    ensures ToUint32(ToInt32(n)) == ToUint32(n)
  {
  }

  lemma SumResidue(x: int, y: int)
    ensures ToUint32(ToUint32(x) + ToUint32(y)) == ToUint32(x + y)
  {
  }

  lemma ToInt32Congruent(m: int, n: int)
    requires ToUint32(m) == ToUint32(n)
    ensures ToInt32(m) == ToInt32(n)
  {
  }

  // ------------------------------------------------------------------ bit by bit

  lemma {:induction false} BitsBound(op: BitOp, x: int, y: int, width: nat)
    ensures 0 <= Bits(op, x, y, width) < Pow2(width)
    decreases width
  {
    if width > 0 {
      BitsBound(op, x / 2, y / 2, width - 1);
    }
  }

  lemma DoubledHalf(q: int, p: int, r: int)
    ensures (q * (2 * p) + r) / 2 == q * p + r / 2 && (q * (2 * p) + r) % 2 == r % 2
  {
    assert q * (2 * p) == 2 * (q * p);
  }

  /** Masking with 2^k - 1 keeps the k lowest bits. */
  lemma {:induction false} MaskKeepsLowBits(q: int, r: int, k: nat, width: nat)
    requires 0 <= r < Pow2(k) && k <= width
    ensures Bits(AND, q * Pow2(k) + r, Pow2(k) - 1, width) == r
    decreases width
  {
    if width == 0 {
    } else if k == 0 {
      assert q * Pow2(0) + r == q;
      MaskKeepsLowBits(q / 2, 0, 0, width - 1);
      assert q / 2 * Pow2(0) + 0 == q / 2;
    } else {
      var p := Pow2(k - 1);
      DoubledHalf(q, p, r);
      MaskKeepsLowBits(q, r / 2, k - 1, width - 1);
      assert q * Pow2(k) + r == q * (2 * p) + r && (2 * p - 1) / 2 == p - 1 && (2 * p - 1) % 2 == 1;
    }
  }

  /** Or-ing a multiple of 2^k with something below 2^k is adding them. */
  lemma {:induction false} OrOfDisjoint(high: int, low: int, k: nat, width: nat)
    requires 0 <= high && 0 <= low < Pow2(k) && k <= width
    requires high * Pow2(k) < Pow2(width)
    ensures Bits(OR, high * Pow2(k), low, width) == high * Pow2(k) + low
  {
    if k == 0 {
      OrWithZero(high, width);
    } else {
      DoubledHalf(high, Pow2(k - 1), 0);
      OrOfDisjoint(high, low / 2, k - 1, width - 1);
    }
  }

  lemma {:induction false} OrWithZero(x: int, width: nat)
    requires 0 <= x < Pow2(width)
    ensures Bits(OR, x, 0, width) == x
    ensures Bits(OR, 0, x, width) == x
  {
    if width > 0 {
      OrWithZero(x / 2, width - 1);
    }
  }

  lemma {:induction false} OrSymmetric(x: int, y: int, width: nat)
    ensures Bits(OR, x, y, width) == Bits(OR, y, x, width)
    decreases width
  {
    if width > 0 {
      OrSymmetric(x / 2, y / 2, width - 1);
    }
  }

  lemma {:induction false} XorWithOnes(x: int, width: nat)
    requires 0 <= x < Pow2(width)
    ensures Bits(XOR, x, Pow2(width) - 1, width) == Pow2(width) - 1 - x
  {
    if width > 0 {
      assert (Pow2(width) - 1) / 2 == Pow2(width - 1) - 1;
      assert (Pow2(width) - 1) % 2 == 1;
      XorWithOnes(x / 2, width - 1);
    }
  }

  // ------------------------------------------------------------------ the operators on residues

  lemma MaskedWord(x: int, k: nat, m: int)
    requires k <= 32 && 0 < m == Pow2(k) <= 0x8000_0000
    ensures And(x, m - 1) == ToUint32(x) % m
  {
    var u := ToUint32(x);
    DivMod(u, m);
    MaskKeepsLowBits(u / m, u % m, k, 32);
    SmallResidue(m - 1);
    SmallResidue(u % m);
  }

  lemma AndNibble(x: int)
    ensures And(x, 0xF) == x % 0x10
  {
    PowersOfTwo();
    MaskedWord(x, 4, 0x10);
    var q, u := x / 0x1_0000_0000, ToUint32(x);
    MultiplesOfSixteen(u, 0x1000_0000 * q);
  }

  lemma AndByte(x: int)
    ensures And(x, 0xFF) == x % 0x100
  {
    PowersOfTwo();
    MaskedWord(x, 8, 0x100);
    var q, u := x / 0x1_0000_0000, ToUint32(x);
    MultiplesOf256(u, 0x100_0000 * q);
  }

  lemma AndHalf(x: int)
    ensures And(x, 0xFFFF) == x % 0x1_0000
  {
    PowersOfTwo();
    MaskedWord(x, 16, 0x1_0000);
    var q, u := x / 0x1_0000_0000, ToUint32(x);
    MultiplesOf65536(u, 0x1_0000 * q);
  }

  lemma MultiplesOfSixteen(u: int, k: int)
    ensures (u + 0x10 * k) % 0x10 == u % 0x10
  {
  }

  lemma MultiplesOf256(u: int, k: int)
    ensures (u + 0x100 * k) % 0x100 == u % 0x100
  {
  }

  lemma MultiplesOf65536(u: int, k: int)
    ensures (u + 0x1_0000 * k) % 0x1_0000 == u % 0x1_0000
  {
  }

  lemma DivMod(x: int, m: int)
    requires m > 0
    ensures x / m * m + x % m == x && 0 <= x % m < m
  {
  }

  lemma WordResidue(x: int)
    requires 0 <= x < 0x1_0000_0000
    ensures ToUint32(x) == x
  {
  }

  lemma SmallResidue(x: int)
    requires 0 <= x < 0x8000_0000
    ensures ToUint32(x) == x == ToInt32(x)
  {
  }

  lemma NotResidue(x: int)
    ensures ToUint32(Not(x)) == 0x1_0000_0000 - 1 - ToUint32(x)
  {
    ToInt32Residue(x);
    var u := ToUint32(x);
    assert Not(x) == -u - 1 || Not(x) == -u - 1 + 0x1_0000_0000;
  }

  lemma ProductResidue(x: int, p: int)
    ensures ToUint32(ToInt32(x) * p) == ToUint32(ToUint32(x) * p)
  {
    var i, u := ToInt32(x), ToUint32(x);
    if i != u {
      Distribute(u, p);
      MultiplesVanish(u * p, -p);
    }
  }

  lemma Distribute(u: int, p: int)
    ensures (u - 0x1_0000_0000) * p == u * p + (-p) * 0x1_0000_0000
  {
  }

  lemma ShlResidue(x: int, n: nat)
    requires n < 32
    ensures ToUint32(Shl(x, n)) == ToUint32(ToUint32(x) * Pow2(n))
  {
    assert n % 32 == n;
    var p := Pow2(n);
    assert Shl(x, n) == ToInt32(ToInt32(x) * p);
    ProductResidue(x, p);
    ToInt32Residue(ToInt32(x) * p);
  }

  lemma MultiplesVanish(n: int, q: int)
    ensures ToUint32(n + q * 0x1_0000_0000) == ToUint32(n)
  {
  }

  lemma SarHalf(x: int)
    ensures Sar(x, 16) == ToInt32(x) / 0x1_0000
  {
    PowersOfTwo();
    assert 16 % 32 == 16;
  }

  lemma OrAdds(x: int, y: int, high: int, k: nat)
    requires k <= 32 && ToUint32(x) == high * Pow2(k) && 0 <= high && 0 <= y < Pow2(k) && y < 0x1_0000_0000
    ensures Or(x, y) == ToInt32(ToUint32(x) + y)
  {
    PowersOfTwo();
    hide Pow2, Bits, ToInt32;
    WordResidue(y);
    hide ToUint32;
    OrOfDisjoint(high, y, k, 32);
  }
}
