/** `coreMD5` of hotspot/hotspot/md5.js: the unrolled compression, proved to be the indexed
  loop of section 3.4 of RFC 1321. */
module Md5Core {
  import opened JsNumbers
  import opened Rfc1321
  import opened Md5Arithmetic

  /** The 32-bit words an array of JavaScript numbers stands for. */
  function Unsigned(x: seq<int>): (w: seq<Word>)
    ensures |w| == |x|
  {
    seq(|x|, k requires 0 <= k < |x| => ToUint32(x[k]))
  }

  function Unsigned4(a: int, b: int, c: int, d: int): Registers {
    Registers(ToUint32(a), ToUint32(b), ToUint32(c), ToUint32(d))
  }

  // ------------------------------------------------------------------ four steps of each round

  lemma SignedEntries(i: nat)
    ensures forall j | i <= j < i + 4 :: ToUint32(ToInt32(SineTable(j))) == SineTable(j)
  {
    hide SineTable;
    forall j | i <= j < i + 4 ensures ToUint32(ToInt32(SineTable(j))) == SineTable(j) {
      ToInt32Residue(SineTable(j));
    }
  }

  lemma FourSteps(start: Registers, block: seq<Word>, i: nat)
    requires |block| == 16
    ensures Steps(start, block, i + 1) == Step(Steps(start, block, i), block, i)
    ensures Steps(start, block, i + 2) == Step(Steps(start, block, i + 1), block, i + 1)
    ensures Steps(start, block, i + 3) == Step(Steps(start, block, i + 2), block, i + 2)
    ensures Steps(start, block, i + 4) == Step(Steps(start, block, i + 3), block, i + 3)
  {
    hide Step;
  }

  lemma FQuad(start: Registers, a: int, b: int, c: int, d: int, x: seq<int>, i: nat)
    requires |x| == 16 && 0 <= i <= 12 && i % 4 == 0
    requires Unsigned4(a, b, c, d) == Steps(start, Unsigned(x), i)
    ensures
      var a1 := Ff(a, b, c, d, x[WordIndex(i)], 7, ToInt32(SineTable(i)));
      var d1 := Ff(d, a1, b, c, x[WordIndex(i + 1)], 12, ToInt32(SineTable(i + 1)));
      var c1 := Ff(c, d1, a1, b, x[WordIndex(i + 2)], 17, ToInt32(SineTable(i + 2)));
      var b1 := Ff(b, c1, d1, a1, x[WordIndex(i + 3)], 22, ToInt32(SineTable(i + 3)));
      Unsigned4(a1, b1, c1, d1) == Steps(start, Unsigned(x), i + 4)
  {
    hide Ff, F, Operation, SineTable, WordIndex, ToInt32, ToUint32;
    var a1 := Ff(a, b, c, d, x[WordIndex(i)], 7, ToInt32(SineTable(i)));
    var d1 := Ff(d, a1, b, c, x[WordIndex(i + 1)], 12, ToInt32(SineTable(i + 1)));
    var c1 := Ff(c, d1, a1, b, x[WordIndex(i + 2)], 17, ToInt32(SineTable(i + 2)));
    FfStep(a, b, c, d, x[WordIndex(i)], 7, ToInt32(SineTable(i)));
    FfStep(d, a1, b, c, x[WordIndex(i + 1)], 12, ToInt32(SineTable(i + 1)));
    FfStep(c, d1, a1, b, x[WordIndex(i + 2)], 17, ToInt32(SineTable(i + 2)));
    FfStep(b, c1, d1, a1, x[WordIndex(i + 3)], 22, ToInt32(SineTable(i + 3)));
    SignedEntries(i);
    FourSteps(start, Unsigned(x), i);
  }

  lemma GQuad(start: Registers, a: int, b: int, c: int, d: int, x: seq<int>, i: nat)
    requires |x| == 16 && 16 <= i <= 28 && i % 4 == 0
    requires Unsigned4(a, b, c, d) == Steps(start, Unsigned(x), i)
    ensures
      var a1 := Gg(a, b, c, d, x[WordIndex(i)], 5, ToInt32(SineTable(i)));
      var d1 := Gg(d, a1, b, c, x[WordIndex(i + 1)], 9, ToInt32(SineTable(i + 1)));
      var c1 := Gg(c, d1, a1, b, x[WordIndex(i + 2)], 14, ToInt32(SineTable(i + 2)));
      var b1 := Gg(b, c1, d1, a1, x[WordIndex(i + 3)], 20, ToInt32(SineTable(i + 3)));
      Unsigned4(a1, b1, c1, d1) == Steps(start, Unsigned(x), i + 4)
  {
    hide Gg, G, Operation, SineTable, WordIndex, ToInt32, ToUint32;
    var a1 := Gg(a, b, c, d, x[WordIndex(i)], 5, ToInt32(SineTable(i)));
    var d1 := Gg(d, a1, b, c, x[WordIndex(i + 1)], 9, ToInt32(SineTable(i + 1)));
    var c1 := Gg(c, d1, a1, b, x[WordIndex(i + 2)], 14, ToInt32(SineTable(i + 2)));
    GgStep(a, b, c, d, x[WordIndex(i)], 5, ToInt32(SineTable(i)));
    GgStep(d, a1, b, c, x[WordIndex(i + 1)], 9, ToInt32(SineTable(i + 1)));
    GgStep(c, d1, a1, b, x[WordIndex(i + 2)], 14, ToInt32(SineTable(i + 2)));
    GgStep(b, c1, d1, a1, x[WordIndex(i + 3)], 20, ToInt32(SineTable(i + 3)));
    SignedEntries(i);
    FourSteps(start, Unsigned(x), i);
  }

  lemma HQuad(start: Registers, a: int, b: int, c: int, d: int, x: seq<int>, i: nat)
    requires |x| == 16 && 32 <= i <= 44 && i % 4 == 0
    requires Unsigned4(a, b, c, d) == Steps(start, Unsigned(x), i)
    ensures
      var a1 := Hh(a, b, c, d, x[WordIndex(i)], 4, ToInt32(SineTable(i)));
      var d1 := Hh(d, a1, b, c, x[WordIndex(i + 1)], 11, ToInt32(SineTable(i + 1)));
      var c1 := Hh(c, d1, a1, b, x[WordIndex(i + 2)], 16, ToInt32(SineTable(i + 2)));
      var b1 := Hh(b, c1, d1, a1, x[WordIndex(i + 3)], 23, ToInt32(SineTable(i + 3)));
      Unsigned4(a1, b1, c1, d1) == Steps(start, Unsigned(x), i + 4)
  {
    hide Hh, H, Operation, SineTable, WordIndex, ToInt32, ToUint32;
    var a1 := Hh(a, b, c, d, x[WordIndex(i)], 4, ToInt32(SineTable(i)));
    var d1 := Hh(d, a1, b, c, x[WordIndex(i + 1)], 11, ToInt32(SineTable(i + 1)));
    var c1 := Hh(c, d1, a1, b, x[WordIndex(i + 2)], 16, ToInt32(SineTable(i + 2)));
    HhStep(a, b, c, d, x[WordIndex(i)], 4, ToInt32(SineTable(i)));
    HhStep(d, a1, b, c, x[WordIndex(i + 1)], 11, ToInt32(SineTable(i + 1)));
    HhStep(c, d1, a1, b, x[WordIndex(i + 2)], 16, ToInt32(SineTable(i + 2)));
    HhStep(b, c1, d1, a1, x[WordIndex(i + 3)], 23, ToInt32(SineTable(i + 3)));
    SignedEntries(i);
    FourSteps(start, Unsigned(x), i);
  }

  lemma IQuad(start: Registers, a: int, b: int, c: int, d: int, x: seq<int>, i: nat)
    requires |x| == 16 && 48 <= i <= 60 && i % 4 == 0
    requires Unsigned4(a, b, c, d) == Steps(start, Unsigned(x), i)
    ensures
      var a1 := Ii(a, b, c, d, x[WordIndex(i)], 6, ToInt32(SineTable(i)));
      var d1 := Ii(d, a1, b, c, x[WordIndex(i + 1)], 10, ToInt32(SineTable(i + 1)));
      var c1 := Ii(c, d1, a1, b, x[WordIndex(i + 2)], 15, ToInt32(SineTable(i + 2)));
      var b1 := Ii(b, c1, d1, a1, x[WordIndex(i + 3)], 21, ToInt32(SineTable(i + 3)));
      Unsigned4(a1, b1, c1, d1) == Steps(start, Unsigned(x), i + 4)
  {
    hide Ii, I, Operation, SineTable, WordIndex, ToInt32, ToUint32;
    var a1 := Ii(a, b, c, d, x[WordIndex(i)], 6, ToInt32(SineTable(i)));
    var d1 := Ii(d, a1, b, c, x[WordIndex(i + 1)], 10, ToInt32(SineTable(i + 1)));
    var c1 := Ii(c, d1, a1, b, x[WordIndex(i + 2)], 15, ToInt32(SineTable(i + 2)));
    IiStep(a, b, c, d, x[WordIndex(i)], 6, ToInt32(SineTable(i)));
    IiStep(d, a1, b, c, x[WordIndex(i + 1)], 10, ToInt32(SineTable(i + 1)));
    IiStep(c, d1, a1, b, x[WordIndex(i + 2)], 15, ToInt32(SineTable(i + 2)));
    IiStep(b, c1, d1, a1, x[WordIndex(i + 3)], 21, ToInt32(SineTable(i + 3)));
    SignedEntries(i);
    FourSteps(start, Unsigned(x), i);
  }

  // ------------------------------------------------------------------ the loop body, sixteen steps at a time

  method Round1(x: array<int>, i: nat, a0: int, b0: int, c0: int, d0: int, ghost start: Registers)
    returns (a: int, b: int, c: int, d: int)
    requires i + 16 <= x.Length
    requires Unsigned4(a0, b0, c0, d0) == Steps(start, Unsigned(x[i..i + 16]), 0)
    ensures Unsigned4(a, b, c, d) == Steps(start, Unsigned(x[i..i + 16]), 16)
  {
    hide Ff, Steps, Unsigned;
    a, b, c, d := a0, b0, c0, d0;
    ghost var block := x[i..i + 16];
    FQuad(start, a, b, c, d, block, 0);
    a := Ff(a, b, c, d, x[i + 0], 7, -680876936);
    d := Ff(d, a, b, c, x[i + 1], 12, -389564586);
    c := Ff(c, d, a, b, x[i + 2], 17, 606105819);
    b := Ff(b, c, d, a, x[i + 3], 22, -1044525330);
    FQuad(start, a, b, c, d, block, 4);
    a := Ff(a, b, c, d, x[i + 4], 7, -176418897);
    d := Ff(d, a, b, c, x[i + 5], 12, 1200080426);
    c := Ff(c, d, a, b, x[i + 6], 17, -1473231341);
    b := Ff(b, c, d, a, x[i + 7], 22, -45705983);
    FQuad(start, a, b, c, d, block, 8);
    a := Ff(a, b, c, d, x[i + 8], 7, 1770035416);
    d := Ff(d, a, b, c, x[i + 9], 12, -1958414417);
    c := Ff(c, d, a, b, x[i + 10], 17, -42063);
    b := Ff(b, c, d, a, x[i + 11], 22, -1990404162);
    FQuad(start, a, b, c, d, block, 12);
    a := Ff(a, b, c, d, x[i + 12], 7, 1804603682);
    d := Ff(d, a, b, c, x[i + 13], 12, -40341101);
    c := Ff(c, d, a, b, x[i + 14], 17, -1502002290);
    b := Ff(b, c, d, a, x[i + 15], 22, 1236535329);
  }

  method Round2(x: array<int>, i: nat, a0: int, b0: int, c0: int, d0: int, ghost start: Registers)
    returns (a: int, b: int, c: int, d: int)
    requires i + 16 <= x.Length
    requires Unsigned4(a0, b0, c0, d0) == Steps(start, Unsigned(x[i..i + 16]), 16)
    ensures Unsigned4(a, b, c, d) == Steps(start, Unsigned(x[i..i + 16]), 32)
  {
    hide Gg, Steps, Unsigned;
    a, b, c, d := a0, b0, c0, d0;
    ghost var block := x[i..i + 16];
    GQuad(start, a, b, c, d, block, 16);
    a := Gg(a, b, c, d, x[i + 1], 5, -165796510);
    d := Gg(d, a, b, c, x[i + 6], 9, -1069501632);
    c := Gg(c, d, a, b, x[i + 11], 14, 643717713);
    b := Gg(b, c, d, a, x[i + 0], 20, -373897302);
    GQuad(start, a, b, c, d, block, 20);
    a := Gg(a, b, c, d, x[i + 5], 5, -701558691);
    d := Gg(d, a, b, c, x[i + 10], 9, 38016083);
    c := Gg(c, d, a, b, x[i + 15], 14, -660478335);
    b := Gg(b, c, d, a, x[i + 4], 20, -405537848);
    GQuad(start, a, b, c, d, block, 24);
    a := Gg(a, b, c, d, x[i + 9], 5, 568446438);
    d := Gg(d, a, b, c, x[i + 14], 9, -1019803690);
    c := Gg(c, d, a, b, x[i + 3], 14, -187363961);
    b := Gg(b, c, d, a, x[i + 8], 20, 1163531501);
    GQuad(start, a, b, c, d, block, 28);
    a := Gg(a, b, c, d, x[i + 13], 5, -1444681467);
    d := Gg(d, a, b, c, x[i + 2], 9, -51403784);
    c := Gg(c, d, a, b, x[i + 7], 14, 1735328473);
    b := Gg(b, c, d, a, x[i + 12], 20, -1926607734);
  }

  method Round3(x: array<int>, i: nat, a0: int, b0: int, c0: int, d0: int, ghost start: Registers)
    returns (a: int, b: int, c: int, d: int)
    requires i + 16 <= x.Length
    requires Unsigned4(a0, b0, c0, d0) == Steps(start, Unsigned(x[i..i + 16]), 32)
    ensures Unsigned4(a, b, c, d) == Steps(start, Unsigned(x[i..i + 16]), 48)
  {
    hide Hh, Steps, Unsigned;
    a, b, c, d := a0, b0, c0, d0;
    ghost var block := x[i..i + 16];
    HQuad(start, a, b, c, d, block, 32);
    a := Hh(a, b, c, d, x[i + 5], 4, -378558);
    d := Hh(d, a, b, c, x[i + 8], 11, -2022574463);
    c := Hh(c, d, a, b, x[i + 11], 16, 1839030562);
    b := Hh(b, c, d, a, x[i + 14], 23, -35309556);
    HQuad(start, a, b, c, d, block, 36);
    a := Hh(a, b, c, d, x[i + 1], 4, -1530992060);
    d := Hh(d, a, b, c, x[i + 4], 11, 1272893353);
    c := Hh(c, d, a, b, x[i + 7], 16, -155497632);
    b := Hh(b, c, d, a, x[i + 10], 23, -1094730640);
    HQuad(start, a, b, c, d, block, 40);
    a := Hh(a, b, c, d, x[i + 13], 4, 681279174);
    d := Hh(d, a, b, c, x[i + 0], 11, -358537222);
    c := Hh(c, d, a, b, x[i + 3], 16, -722521979);
    b := Hh(b, c, d, a, x[i + 6], 23, 76029189);
    HQuad(start, a, b, c, d, block, 44);
    a := Hh(a, b, c, d, x[i + 9], 4, -640364487);
    d := Hh(d, a, b, c, x[i + 12], 11, -421815835);
    c := Hh(c, d, a, b, x[i + 15], 16, 530742520);
    b := Hh(b, c, d, a, x[i + 2], 23, -995338651);
  }

  method Round4(x: array<int>, i: nat, a0: int, b0: int, c0: int, d0: int, ghost start: Registers)
    returns (a: int, b: int, c: int, d: int)
    requires i + 16 <= x.Length
    requires Unsigned4(a0, b0, c0, d0) == Steps(start, Unsigned(x[i..i + 16]), 48)
    ensures Unsigned4(a, b, c, d) == Steps(start, Unsigned(x[i..i + 16]), 64)
  {
    hide Ii, Steps, Unsigned;
    a, b, c, d := a0, b0, c0, d0;
    ghost var block := x[i..i + 16];
    IQuad(start, a, b, c, d, block, 48);
    a := Ii(a, b, c, d, x[i + 0], 6, -198630844);
    d := Ii(d, a, b, c, x[i + 7], 10, 1126891415);
    c := Ii(c, d, a, b, x[i + 14], 15, -1416354905);
    b := Ii(b, c, d, a, x[i + 5], 21, -57434055);
    IQuad(start, a, b, c, d, block, 52);
    a := Ii(a, b, c, d, x[i + 12], 6, 1700485571);
    d := Ii(d, a, b, c, x[i + 3], 10, -1894986606);
    c := Ii(c, d, a, b, x[i + 10], 15, -1051523);
    b := Ii(b, c, d, a, x[i + 1], 21, -2054922799);
    IQuad(start, a, b, c, d, block, 56);
    a := Ii(a, b, c, d, x[i + 8], 6, 1873313359);
    d := Ii(d, a, b, c, x[i + 15], 10, -30611744);
    c := Ii(c, d, a, b, x[i + 6], 15, -1560198380);
    b := Ii(b, c, d, a, x[i + 13], 21, 1309151649);
    IQuad(start, a, b, c, d, block, 60);
    a := Ii(a, b, c, d, x[i + 4], 6, -145523070);
    d := Ii(d, a, b, c, x[i + 11], 10, -1120210379);
    c := Ii(c, d, a, b, x[i + 2], 15, 718787259);
    b := Ii(b, c, d, a, x[i + 9], 21, -343485551);
  }

  lemma NoBlocks(words: seq<Word>)
    ensures ProcessBlocks(words, 0) == INITIAL
  {
  }

  lemma NoSteps(start: Registers, block: seq<Word>)
    requires |block| == 16
    ensures Steps(start, block, 0) == start
  {
  }

  lemma UnsignedSlice(x: seq<int>, i: nat)
    requires i + 16 <= |x|
    ensures Unsigned(x[i..i + 16]) == Unsigned(x)[i..i + 16]
  {
  }

  lemma NextBlock(words: seq<Word>, i: nat)
    requires i % 16 == 0 && i + 16 <= |words|
    ensures 16 * (i / 16) <= |words| && 16 * ((i + 16) / 16) <= |words|
    ensures ProcessBlocks(words, (i + 16) / 16) == ProcessBlock(ProcessBlocks(words, i / 16), words[i..i + 16])
  {
    hide ProcessBlock;
  }

  method CoreMD5(x: array<int>) returns (a: int, b: int, c: int, d: int)
    requires x.Length % 16 == 0
    ensures Unsigned4(a, b, c, d) == ProcessAll(Unsigned(x[..]))
  {
    hide SafeAdd, Add, Steps, Unsigned, ProcessBlocks;
    NoBlocks(Unsigned(x[..]));
    a := 1732584193;
    b := -271733879;
    c := -1732584194;
    d := 271733878;
    ghost var words := Unsigned(x[..]);
    var i := 0;
    while i < x.Length
      invariant 0 <= i <= x.Length && i % 16 == 0
      invariant Unsigned4(a, b, c, d) == ProcessBlocks(words, i / 16)
    {
      var olda, oldb, oldc, oldd := a, b, c, d;
      ghost var start := Unsigned4(a, b, c, d);
      NoSteps(start, Unsigned(x[i..i + 16]));
      a, b, c, d := Round1(x, i, a, b, c, d, start);
      a, b, c, d := Round2(x, i, a, b, c, d, start);
      a, b, c, d := Round3(x, i, a, b, c, d, start);
      a, b, c, d := Round4(x, i, a, b, c, d, start);
      SafeAddResidue(a, olda);
      SafeAddResidue(b, oldb);
      SafeAddResidue(c, oldc);
      SafeAddResidue(d, oldd);
      a := SafeAdd(a, olda);
      b := SafeAdd(b, oldb);
      c := SafeAdd(c, oldc);
      d := SafeAdd(d, oldd);
      UnsignedSlice(x[..], i);
      NextBlock(words, i);
      i := i + 16;
    }
  }
}
