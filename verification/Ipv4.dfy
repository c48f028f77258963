/** Dotted-quad IPv4 addresses, as Python's `ipaddress` prints and reads them: four decimal
  octets without leading zeros. IPv6 text reads as no address here; it never equals an IPv4 one. */
module Ipv4 {
  import opened Text

  type Address = n: int | 0 <= n < 0x1_0000_0000

  function Digit(d: int): char
    requires 0 <= d < 10
  {
    ('0' as int + d) as char
  }

  function PrintOctet(v: int): (s: string)
    requires 0 <= v < 256
    ensures 1 <= |s| <= 3 && (forall c | c in s :: '0' <= c <= '9')
  {
    if v < 10 then [Digit(v)]
    else if v < 100 then [Digit(v / 10), Digit(v % 10)]
    else [Digit(v / 100), Digit(v / 10 % 10), Digit(v % 10)]
  }

  function DigitOf(c: char): Option<int> {
    if '0' <= c <= '9' then Some(c as int - '0' as int) else None
  }

  function DecimalValue(s: string): Option<nat> {
    if s == "" then Some(0)
    else match (DecimalValue(s[..|s| - 1]), DigitOf(s[|s| - 1]))
         case (Some(front), Some(d)) => Some(10 * front + d)
         case _ => None
  }

  function ReadOctet(s: string): Option<nat> {
    if s == "" || |s| > 3 || (s != "0" && s[0] == '0') then None
    else match DecimalValue(s)
         case Some(v) => if v < 256 then Some(v) else None
         case None => None
  }

  lemma OctetValue(s: string)
    requires 1 <= |s| <= 3
    ensures |s| == 1 ==> DecimalValue(s) == DigitOf(s[0])
    ensures |s| == 2 && DigitOf(s[0]).Some? && DigitOf(s[1]).Some? ==>
              DecimalValue(s) == Some(10 * DigitOf(s[0]).value + DigitOf(s[1]).value)
    ensures |s| == 3 && DigitOf(s[0]).Some? && DigitOf(s[1]).Some? && DigitOf(s[2]).Some? ==>
              DecimalValue(s) == Some(100 * DigitOf(s[0]).value + 10 * DigitOf(s[1]).value + DigitOf(s[2]).value)
    ensures (exists i | 0 <= i < |s| :: DigitOf(s[i]).None?) ==> DecimalValue(s).None?
  {
    assert DecimalValue(s[..1]) == DigitOf(s[0]) by {
      assert s[..1][..0] == "";
    }
    if |s| == 1 {
      assert s[..1] == s;
    } else if |s| == 2 {
      assert DecimalValue(s[..1]) == DigitOf(s[0]);
    } else {
      assert s[..2][..1] == s[..1];
    }
  }

  lemma DigitReads(d: int)
    requires 0 <= d < 10
    ensures DigitOf(Digit(d)) == Some(d) && (Digit(d) == '0' <==> d == 0)
  {
  }

  lemma OctetRoundTrip(v: int)
    requires 0 <= v < 256
    ensures ReadOctet(PrintOctet(v)) == Some(v)
  {
    hide DecimalValue, DigitOf, Digit;
    var high, middle, low := v / 100, v / 10 % 10, v % 10;
    assert v == 100 * high + 10 * middle + low;
    OctetValue(PrintOctet(v));
    DigitReads(high);
    DigitReads(middle);
    DigitReads(low);
  }

  lemma OctetUnique(s: string)
    requires ReadOctet(s).Some?
    ensures PrintOctet(ReadOctet(s).value) == s
  {
    OctetValue(s);
    hide DecimalValue;
    if |s| == 1 {
      OneDigit(s[0]);
    } else if |s| == 2 {
      TwoDigits(s[0], s[1]);
    } else {
      ThreeDigits(s[0], s[1], s[2]);
    }
  }

  lemma OneDigit(a: char)
    requires DigitOf(a).Some?
    ensures PrintOctet(DigitOf(a).value) == [a]
  {
  }

  lemma TwoDigits(a: char, b: char)
    requires DigitOf(a).Some? && DigitOf(b).Some? && a != '0'
    ensures PrintOctet(10 * DigitOf(a).value + DigitOf(b).value) == [a, b]
  {
  }

  lemma ThreeDigits(a: char, b: char, c: char)
    requires DigitOf(a).Some? && DigitOf(b).Some? && DigitOf(c).Some? && a != '0'
    requires 100 * DigitOf(a).value + 10 * DigitOf(b).value + DigitOf(c).value < 256
    ensures PrintOctet(100 * DigitOf(a).value + 10 * DigitOf(b).value + DigitOf(c).value) == [a, b, c]
  {
    var v := 100 * DigitOf(a).value + 10 * DigitOf(b).value + DigitOf(c).value;
    assert v / 10 == 10 * DigitOf(a).value + DigitOf(b).value;
  }

  // ------------------------------------------------------------------ the four octets

  function PrintAddress(n: Address): string {
    PrintOctet(n / 0x100_0000) + "." + PrintOctet(n / 0x1_0000 % 0x100) + "."
    + PrintOctet(n / 0x100 % 0x100) + "." + PrintOctet(n % 0x100)
  }

  /** `s.split(".")` */
  function SplitDots(s: string): (parts: seq<string>)
    ensures parts != []
  {
    if s == "" then [""]
    else
      var rest := SplitDots(s[1..]);
      if s[0] == '.' then [""] + rest else [[s[0]] + rest[0]] + rest[1..]
  }

  function JoinDots(parts: seq<string>): string {
    if |parts| == 0 then "" else if |parts| == 1 then parts[0] else parts[0] + "." + JoinDots(parts[1..])
  }

  function ReadAddress(s: string): Option<Address> {
    var parts := SplitDots(s);
    if |parts| != 4 then None
    else match (ReadOctet(parts[0]), ReadOctet(parts[1]), ReadOctet(parts[2]), ReadOctet(parts[3]))
         case (Some(a), Some(b), Some(c), Some(d)) =>
           ReadOctetBelow(parts[0]);
           ReadOctetBelow(parts[1]);
           ReadOctetBelow(parts[2]);
           ReadOctetBelow(parts[3]);
           Some(0x100_0000 * a + 0x1_0000 * b + 0x100 * c + d)
         case _ => None
  }

  lemma ReadOctetBelow(s: string)
    ensures ReadOctet(s).Some? ==> 0 <= ReadOctet(s).value < 256
  {
  }

  lemma {:induction false} JoinOfSplit(s: string)
    ensures JoinDots(SplitDots(s)) == s
  {
    if s != "" {
      JoinOfSplit(s[1..]);
      var rest := SplitDots(s[1..]);
      if s[0] == '.' {
        assert ([""] + rest)[1..] == rest;
      } else {
        var parts := [[s[0]] + rest[0]] + rest[1..];
        assert parts[1..] == rest[1..];
        assert s == [s[0]] + s[1..];
      }
    }
  }

  predicate NoDot(s: string) {
    forall i | 0 <= i < |s| :: s[i] != '.'
  }

  lemma {:induction false} SplitAtDot(a: string, rest: string)
    requires NoDot(a)
    ensures SplitDots(a + "." + rest) == [a] + SplitDots(rest)
  {
    if a == "" {
      assert (a + "." + rest)[1..] == rest;
    } else {
      assert (a + "." + rest)[1..] == a[1..] + "." + rest;
      SplitAtDot(a[1..], rest);
      assert a == [a[0]] + a[1..];
    }
  }

  lemma {:induction false} SplitWithoutDot(a: string)
    requires NoDot(a)
    ensures SplitDots(a) == [a]
  {
    if a != "" {
      SplitWithoutDot(a[1..]);
      assert a == [a[0]] + a[1..];
    }
  }

  lemma SplitOfFour(a: string, b: string, c: string, d: string)
    requires NoDot(a) && NoDot(b) && NoDot(c) && NoDot(d)
    ensures SplitDots(a + "." + b + "." + c + "." + d) == [a, b, c, d]
  {
    hide SplitDots, NoDot;
    var cd := c + "." + d;
    var bcd := b + "." + cd;
    SplitAtDot(a, bcd);
    SplitAtDot(b, cd);
    SplitAtDot(c, d);
    SplitWithoutDot(d);
    assert a + "." + b + "." + c + "." + d == a + "." + bcd;
  }

  lemma FourOctets(a: int, b: int, c: int, d: int)
    requires 0 <= a < 256 && 0 <= b < 256 && 0 <= c < 256 && 0 <= d < 256
    ensures
      var n := 0x100_0000 * a + 0x1_0000 * b + 0x100 * c + d;
      n / 0x100_0000 == a && n / 0x1_0000 % 0x100 == b && n / 0x100 % 0x100 == c && n % 0x100 == d
  {
    var n := 0x100_0000 * a + 0x1_0000 * b + 0x100 * c + d;
    assert n / 0x100 == 0x1_0000 * a + 0x100 * b + c;
    assert n / 0x1_0000 == 0x100 * a + b;
  }

  lemma OctetsOf(n: Address)
    ensures n == 0x100_0000 * (n / 0x100_0000) + 0x1_0000 * (n / 0x1_0000 % 0x100)
                 + 0x100 * (n / 0x100 % 0x100) + n % 0x100
    ensures 0 <= n / 0x100_0000 < 256
  {
    var a := n / 0x100;
    var b := a / 0x100;
    assert n == 0x100 * a + n % 0x100 && a == 0x100 * b + a % 0x100 && b == 0x100 * (b / 0x100) + b % 0x100;
    Halves(n);
  }

  lemma Halves(n: int)
    ensures n / 0x1_0000 == n / 0x100 / 0x100
    ensures n / 0x100_0000 == n / 0x100 / 0x100 / 0x100
  {
    assert n / 0x1_0000 / 0x100 == n / 0x100_0000;
  }

  lemma FourRead(a: int, b: int, c: int, d: int)
    requires 0 <= a < 256 && 0 <= b < 256 && 0 <= c < 256 && 0 <= d < 256
    ensures ReadAddress(PrintOctet(a) + "." + PrintOctet(b) + "." + PrintOctet(c) + "." + PrintOctet(d))
            == Some(0x100_0000 * a + 0x1_0000 * b + 0x100 * c + d)
  {
    SplitOfFour(PrintOctet(a), PrintOctet(b), PrintOctet(c), PrintOctet(d));
    hide PrintOctet, ReadOctet, SplitDots;
    OctetRoundTrip(a);
    OctetRoundTrip(b);
    OctetRoundTrip(c);
    OctetRoundTrip(d);
  }

  /** Reading and printing are inverse: each address has one text and each text one address. */
  lemma AddressRoundTrip(n: Address)
    ensures ReadAddress(PrintAddress(n)) == Some(n)
  {
    hide PrintOctet, ReadAddress;
    OctetsOf(n);
    FourRead(n / 0x100_0000, n / 0x1_0000 % 0x100, n / 0x100 % 0x100, n % 0x100);
  }

  lemma AddressUnique(s: string)
    requires ReadAddress(s).Some?
    ensures PrintAddress(ReadAddress(s).value) == s
  {
    hide ReadOctet, PrintOctet, SplitDots;
    var parts := SplitDots(s);
    JoinOfSplit(s);
    OctetUnique(parts[0]);
    OctetUnique(parts[1]);
    OctetUnique(parts[2]);
    OctetUnique(parts[3]);
    ReadOctetBelow(parts[0]);
    ReadOctetBelow(parts[1]);
    ReadOctetBelow(parts[2]);
    ReadOctetBelow(parts[3]);
    FourOctets(ReadOctet(parts[0]).value, ReadOctet(parts[1]).value, ReadOctet(parts[2]).value,
               ReadOctet(parts[3]).value);
    assert JoinDots(parts[1..]) == parts[1] + "." + JoinDots(parts[1..][1..]);
    assert parts[1..][1..] == parts[2..];
    assert JoinDots(parts[2..]) == parts[2] + "." + parts[3] by {
      assert parts[2..][1..] == [parts[3]];
    }
  }

  lemma AddressCharacters(n: Address)
    ensures PrintAddress(n) != "" && forall c | c in PrintAddress(n) :: '0' <= c <= '9' || c == '.'
  {
  }
}
