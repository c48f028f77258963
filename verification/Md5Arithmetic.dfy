/** The word arithmetic of hotspot/hotspot/md5.js, and its agreement with RFC 1321. */
module Md5Arithmetic {
  import opened JsNumbers
  import opened Rfc1321

  function SafeAdd(x: int, y: int): int {
    var lsw := And(x, 0xFFFF) + And(y, 0xFFFF);
    var msw := Sar(x, 16) + Sar(y, 16) + Sar(lsw, 16);
    Or(Shl(msw, 16), And(lsw, 0xFFFF))
  }

  function Rol(num: int, cnt: nat): int
    requires cnt <= 32
  {
    Or(Shl(num, cnt), Shr(num, 32 - cnt))
  }

  function Cmn(q: int, a: int, b: int, x: int, s: nat, t: int): int
    requires s <= 32
  {
    SafeAdd(Rol(SafeAdd(SafeAdd(a, q), SafeAdd(x, t)), s), b)
  }

  function Ff(a: int, b: int, c: int, d: int, x: int, s: nat, t: int): int
    requires s <= 32
  {
    Cmn(Or(And(b, c), And(Not(b), d)), a, b, x, s, t)
  }

  function Gg(a: int, b: int, c: int, d: int, x: int, s: nat, t: int): int
    requires s <= 32
  {
    Cmn(Or(And(b, d), And(c, Not(d))), a, b, x, s, t)
  }

  function Hh(a: int, b: int, c: int, d: int, x: int, s: nat, t: int): int
    requires s <= 32
  {
    Cmn(Xor(Xor(b, c), d), a, b, x, s, t)
  }

  function Ii(a: int, b: int, c: int, d: int, x: int, s: nat, t: int): int
    requires s <= 32
  {
    Cmn(Xor(c, Or(b, Not(d))), a, b, x, s, t)
  }

  // ------------------------------------------------------------------ addition

  /** What the two halves are, before they are joined. */
  lemma HalvesOfSum(x: int, y: int)
    ensures
      var lsw := x % 0x1_0000 + y % 0x1_0000;
      SafeAdd(x, y) == Or(Shl(ToInt32(x) / 0x1_0000 + ToInt32(y) / 0x1_0000 + lsw / 0x1_0000, 16), lsw % 0x1_0000)
  {
    hide And, Sar, Shl, Or;
    var lsw := x % 0x1_0000 + y % 0x1_0000;
    AndHalf(x);
    AndHalf(y);
    AndHalf(lsw);
    SmallResidue(lsw);
    SarHalf(x);
    SarHalf(y);
    SarHalf(lsw);
  }

  /** Adding in 16-bit halves is addition modulo 2^32. */
  lemma SafeAddIsWrappingAdd(x: int, y: int)
    ensures SafeAdd(x, y) == ToInt32(x + y)
  {
    hide And, Sar, Shl, Or, SafeAdd;
    HalvesOfSum(x, y);
    var lsw := x % 0x1_0000 + y % 0x1_0000;
    JoinHalves(ToInt32(x) / 0x1_0000 + ToInt32(y) / 0x1_0000 + lsw / 0x1_0000, lsw % 0x1_0000);
    SumOfHalves(x, y);
  }

  lemma SafeAddResidue(x: int, y: int)
    ensures ToUint32(SafeAdd(x, y)) == Add(ToUint32(x), ToUint32(y))
  {
    SafeAddIsWrappingAdd(x, y);
    ToInt32Residue(x + y);
    SumResidue(x, y);
  }

  /** Shifting a half into place and or-ing the other half in. */
  lemma JoinHalves(high: int, low: int)
    requires 0 <= low < 0x1_0000
    ensures Or(Shl(high, 16), low) == ToInt32(high * 0x1_0000 + low)
  {
    var p := Pow2(16);
    PowersOfTwo();
    ShlResidue(high, 16);
    ShiftedHalf(high);
    OrAdds(Shl(high, 16), low, high % 0x1_0000, 16);
    CarryDropped(high, low);
  }

  lemma CarryDropped(high: int, low: int)
    ensures ToInt32(high % 0x1_0000 * 0x1_0000 + low) == ToInt32(high * 0x1_0000 + low)
  {
    var h, q := high % 0x1_0000, high / 0x1_0000;
    assert high * 0x1_0000 + low == h * 0x1_0000 + low + q * 0x1_0000_0000;
    MultiplesVanish(h * 0x1_0000 + low, q);
    ToInt32Congruent(h * 0x1_0000 + low, high * 0x1_0000 + low);
  }

  lemma ShiftedHalf(high: int)
    ensures ToUint32(ToUint32(high) * 0x1_0000) == (high % 0x1_0000) * 0x1_0000
  {
    var u := ToUint32(high);
    var q := u / 0x1_0000;
    MultiplesOf65536(u, high / 0x1_0000_0000 * 0x1_0000);
    assert u % 0x1_0000 == high % 0x1_0000;
    assert u * 0x1_0000 == (high % 0x1_0000) * 0x1_0000 + q * 0x1_0000_0000;
    MultiplesVanish((high % 0x1_0000) * 0x1_0000, q);
  }

  lemma SumOfHalves(x: int, y: int)
    ensures
      var lsw := x % 0x1_0000 + y % 0x1_0000;
      var msw := ToInt32(x) / 0x1_0000 + ToInt32(y) / 0x1_0000 + lsw / 0x1_0000;
      ToInt32(msw * 0x1_0000 + lsw % 0x1_0000) == ToInt32(x + y)
  {
    var p := Halves(x);
    var q := Halves(y);
    MultiplesVanish(x + y, p + q);
  }

  lemma Halves(x: int) returns (q: int)
    ensures ToInt32(x) / 0x1_0000 * 0x1_0000 + x % 0x1_0000 == x + q * 0x1_0000_0000
  {
    var i := ToInt32(x);
    q := (i - x) / 0x1_0000_0000;
    assert i == x + q * 0x1_0000_0000;
    MultiplesOf65536(x, q * 0x1_0000);
    assert i % 0x1_0000 == x % 0x1_0000;
  }

  // ------------------------------------------------------------------ rotation

  /** The two ends of a word, cut `cnt` bits below the top. */
  lemma CutWord(u: int, cnt: nat) returns (high: int, low: int)
    requires 0 <= u < 0x1_0000_0000 && cnt <= 32
    ensures high == u / Pow2(32 - cnt) && 0 <= high < Pow2(cnt) <= 0x1_0000_0000
    ensures 0 <= low && low * Pow2(cnt) < 0x1_0000_0000
    ensures u * Pow2(cnt) == low * Pow2(cnt) + high * 0x1_0000_0000
  {
    var p, q := Pow2(cnt), Pow2(32 - cnt);
    PowersOfTwo();
    Pow2Add(cnt, 32 - cnt);
    high, low := u / q, u % q;
    CutBounds(u, p, q);
  }

  lemma CutBounds(u: int, p: int, q: int)
    requires 0 <= u < p * q && p > 0 && q > 0
    ensures 0 <= u / q < p <= p * q
    ensures 0 <= u % q && u % q * p < p * q
    ensures u * p == u % q * p + u / q * (p * q)
  {
    var high, low := u / q, u % q;
    DivMod(u, q);
    QuotientBelow(high, low, p, q);
    ProductOfCut(high, low, p, q);
    ScaleStrict(low, q, p);
    ScaleStrict(0, q, p);
  }

  lemma QuotientBelow(high: int, low: int, p: int, q: int)
    requires 0 <= high * q + low < p * q && 0 <= low < q && p > 0
    ensures 0 <= high < p && p <= p * q
  {
    if high <= -1 {
      ScaleUp(high, -1, q);
    }
    if p <= high {
      ScaleUp(p, high, q);
    }
    ScaleUp(1, q, p);
  }

  lemma ScaleUp(x: int, y: int, k: int)
    requires x <= y && 0 <= k
    ensures x * k <= y * k
  {
  }

  lemma ScaleStrict(x: int, y: int, k: int)
    requires x < y && 0 < k
    ensures x * k < y * k && k * x < k * y
  {
  }

  lemma ProductOfCut(high: int, low: int, p: int, q: int)
    ensures (high * q + low) * p == low * p + high * (p * q)
  {
  }

  /** The left shift loses the high end. */
  lemma ShlKeepsLow(num: int, cnt: nat, high: int, low: int)
    requires cnt < 32 && 0 <= low * Pow2(cnt) < 0x1_0000_0000
    requires ToUint32(num) * Pow2(cnt) == low * Pow2(cnt) + high * 0x1_0000_0000
    ensures ToUint32(Shl(num, cnt)) == low * Pow2(cnt)
  {
    hide Shl, Pow2;
    ShlResidue(num, cnt);
    MultiplesVanish(low * Pow2(cnt), high);
    WordResidue(low * Pow2(cnt));
    hide ToUint32;
  }

  lemma RotateOfCut(u: Word, cnt: nat, high: int, low: int)
    requires cnt <= 32 && high == u / Pow2(32 - cnt)
    requires u * Pow2(cnt) == low * Pow2(cnt) + high * 0x1_0000_0000
    ensures Rotate(u, cnt) == ToUint32(low * Pow2(cnt) + high)
  {
    hide Pow2;
    var t := low * Pow2(cnt);
    MultiplesVanish(t + high, high);
  }

  lemma RolRotates(num: int, cnt: nat)
    requires 1 <= cnt <= 31
    ensures ToUint32(Rol(num, cnt)) == Rotate(ToUint32(num), cnt)
  {
    hide Shl, Shr, Or, ToInt32, ToUint32, Pow2, Rotate;
    var u := ToUint32(num);
    var high, low := CutWord(u, cnt);
    ScaleUp(0, low, Pow2(cnt));
    ShlKeepsLow(num, cnt, high, low);
    RotateOfCut(u, cnt, high, low);
    ShrHalf(num, cnt);
    OrAdds(Shl(num, cnt), high, low, cnt);
    ToInt32Residue(low * Pow2(cnt) + high);
  }

  lemma ShrHalf(num: int, cnt: nat)
    requires 1 <= cnt <= 31
    ensures Shr(num, 32 - cnt) == ToUint32(num) / Pow2(32 - cnt)
  {
    assert (32 - cnt) % 32 == 32 - cnt;
  }

  // ------------------------------------------------------------------ the bitwise operators

  lemma AndResidue(x: int, y: int)
    ensures ToUint32(And(x, y)) == BitAnd(ToUint32(x), ToUint32(y))
  {
    ToInt32Residue(Bits(AND, ToUint32(x), ToUint32(y), 32));
    WordResidue(BitAnd(ToUint32(x), ToUint32(y)));
  }

  lemma OrResidue(x: int, y: int)
    ensures ToUint32(Or(x, y)) == BitOr(ToUint32(x), ToUint32(y))
  {
    ToInt32Residue(Bits(OR, ToUint32(x), ToUint32(y), 32));
    WordResidue(BitOr(ToUint32(x), ToUint32(y)));
  }

  lemma XorResidue(x: int, y: int)
    ensures ToUint32(Xor(x, y)) == BitXor(ToUint32(x), ToUint32(y))
  {
    ToInt32Residue(Bits(XOR, ToUint32(x), ToUint32(y), 32));
    WordResidue(BitXor(ToUint32(x), ToUint32(y)));
  }

  // ------------------------------------------------------------------ one step of each round

  lemma CmnIsOperation(q: int, a: int, b: int, x: int, s: nat, t: int)
    requires 1 <= s <= 31
    ensures ToUint32(Cmn(q, a, b, x, s, t))
            == Operation(ToUint32(q), ToUint32(a), ToUint32(b), ToUint32(x), s, ToUint32(t))
  {
    hide SafeAdd, Rol, Add, Rotate, ToUint32;
    var aq, xt := SafeAdd(a, q), SafeAdd(x, t);
    SafeAddResidue(a, q);
    SafeAddResidue(x, t);
    SafeAddResidue(aq, xt);
    AddReassociates(ToUint32(a), ToUint32(q), ToUint32(x), ToUint32(t));
    RolRotates(SafeAdd(aq, xt), s);
    SafeAddResidue(Rol(SafeAdd(aq, xt), s), b);
    AddCommutes(ToUint32(Rol(SafeAdd(aq, xt), s)), ToUint32(b));
  }

  lemma AddCommutes(x: Word, y: Word)
    ensures Add(x, y) == Add(y, x)
  {
  }

  lemma AddReassociates(a: Word, f: Word, x: Word, t: Word)
    ensures Add(Add(a, f), Add(x, t)) == Add(Add(Add(a, f), x), t)
  {
    hide Add;
    AddAssociates(Add(a, f), x, t);
  }

  lemma AddAssociates(x: Word, y: Word, z: Word)
    ensures Add(x, Add(y, z)) == Add(Add(x, y), z)
  {
    SumResidue(x, y + z);
    SumResidue(x + y, z);
    WordResidue(x);
    WordResidue(z);
  }

  lemma FfStep(a: int, b: int, c: int, d: int, x: int, s: nat, t: int)
    requires 1 <= s <= 31
    ensures ToUint32(Ff(a, b, c, d, x, s, t))
            == Operation(F(ToUint32(b), ToUint32(c), ToUint32(d)), ToUint32(a), ToUint32(b), ToUint32(x), s,
                         ToUint32(t))
  {
    hide And, Or, Not, ToUint32, BitAnd, BitOr, Complement, Cmn, Operation;
    AndResidue(b, c);
    NotIsComplement(b);
    AndResidue(Not(b), d);
    OrResidue(And(b, c), And(Not(b), d));
    CmnIsOperation(Or(And(b, c), And(Not(b), d)), a, b, x, s, t);
  }

  lemma GgStep(a: int, b: int, c: int, d: int, x: int, s: nat, t: int)
    requires 1 <= s <= 31
    ensures ToUint32(Gg(a, b, c, d, x, s, t))
            == Operation(G(ToUint32(b), ToUint32(c), ToUint32(d)), ToUint32(a), ToUint32(b), ToUint32(x), s,
                         ToUint32(t))
  {
    hide And, Or, Not, ToUint32, BitAnd, BitOr, Complement, Cmn, Operation;
    AndResidue(b, d);
    NotIsComplement(d);
    AndResidue(c, Not(d));
    OrResidue(And(b, d), And(c, Not(d)));
    CmnIsOperation(Or(And(b, d), And(c, Not(d))), a, b, x, s, t);
  }

  lemma HhStep(a: int, b: int, c: int, d: int, x: int, s: nat, t: int)
    requires 1 <= s <= 31
    ensures ToUint32(Hh(a, b, c, d, x, s, t))
            == Operation(H(ToUint32(b), ToUint32(c), ToUint32(d)), ToUint32(a), ToUint32(b), ToUint32(x), s,
                         ToUint32(t))
  {
    hide Xor, ToUint32, BitXor, Cmn, Operation;
    XorResidue(b, c);
    XorResidue(Xor(b, c), d);
    CmnIsOperation(Xor(Xor(b, c), d), a, b, x, s, t);
  }

  lemma IiStep(a: int, b: int, c: int, d: int, x: int, s: nat, t: int)
    requires 1 <= s <= 31
    ensures ToUint32(Ii(a, b, c, d, x, s, t))
            == Operation(I(ToUint32(b), ToUint32(c), ToUint32(d)), ToUint32(a), ToUint32(b), ToUint32(x), s,
                         ToUint32(t))
  {
    hide Or, Xor, Not, ToUint32, BitXor, BitOr, Complement, Cmn, Operation;
    NotIsComplement(d);
    OrResidue(b, Not(d));
    XorResidue(c, Or(b, Not(d)));
    CmnIsOperation(Xor(c, Or(b, Not(d))), a, b, x, s, t);
  }

  lemma NotIsComplement(x: int)
    ensures ToUint32(Not(x)) == Complement(ToUint32(x))
  {
    NotResidue(x);
  }
}
