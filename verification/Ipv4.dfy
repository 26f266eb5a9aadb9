/** IPv4 addresses as the bot reads, prints and expands them. */
module Ipv4 {
  import opened Records
  import opened Bits
  import opened Text

  datatype Error = InvalidIpv4 | InvalidCidr | InvalidMask | TooLarge(size: nat)
  datatype Result<T> = Ok(value: T) | Err(error: Error)

  // ---- texts ----

  predicate IsOctet(s: string) {
    1 <= |s| <= 3 && AllDigits(s) && (|s| == 3 ==> s[0] != '0') && Value(s) <= 255
  }

  /** The pattern of isIpv4. A two-digit octet may start with a zero. */
  predicate IsIpv4(s: string) {
    var parts := Split(s, '.');
    |parts| == 4 && forall i :: 0 <= i < 4 ==> IsOctet(parts[i])
  }

  // ---- the two conversions ----

  function Pack(a: nat, b: nat, c: nat, d: nat): int {
    Ushr(BitOr(BitOr(BitOr(Shl(a, 24), Shl(b, 16)), Shl(c, 8)), d), 0)
  }

  function Ipv4ToInt(ip: string): Result<int> {
    var parts := Split(ip, '.');
    if |parts| != 4 || exists i :: 0 <= i < 4 && (Number(parts[i]).None? || Number(parts[i]).value > 255) then Err(InvalidIpv4)
    else Ok(Pack(Value(parts[0]), Value(parts[1]), Value(parts[2]), Value(parts[3])))
  }

  function Octet(n: nat, k: nat): nat {
    ToUint32(BitAnd(Ushr(n, k), 255))
  }

  function IntToIpv4(n: nat): string {
    Decimal(Octet(n, 24)) + "." + Decimal(Octet(n, 16)) + "." + Decimal(Octet(n, 8)) + "." + Decimal(Octet(n, 0))
  }

  // ---- what the bit operations come to ----

  lemma PackIsSum(a: nat, b: nat, c: nat, d: nat)
    requires a < 256 && b < 256 && c < 256 && d < 256
    ensures Pack(a, b, c, d) == a * 0x100_0000 + b * 0x1_0000 + c * 0x100 + d
  {
    var ab := BitOr(Shl(a, 24), Shl(b, 16));
    PackTwo(a, b);
    var abc := BitOr(ab, Shl(c, 8));
    PackThree(ab, a * 0x100 + b, c);
    Powers();
    Small(d);
    BitOrWord(abc, d, a * 0x1_0000 + b * 0x100 + c, d, 8);
    UnsignedAtZero(BitOr(abc, d));
  }

  lemma PackTwo(a: nat, b: nat)
    requires a < 256 && b < 256
    ensures ToUint32(BitOr(Shl(a, 24), Shl(b, 16))) == (a * 0x100 + b) * 0x1_0000
  {
    Powers();
    ShlWord(a, 24);
    ShlWord(b, 16);
    BitOrWord(Shl(a, 24), Shl(b, 16), a, b * 0x1_0000, 24);
  }

  lemma PackThree(ab: int, high: nat, c: nat)
    requires high < 0x1_0000 && c < 256 && ToUint32(ab) == high * 0x1_0000
    ensures ToUint32(BitOr(ab, Shl(c, 8))) == (high * 0x100 + c) * 0x100
  {
    Powers();
    ShlWord(c, 8);
    BitOrWord(ab, Shl(c, 8), high, c * 0x100, 16);
  }

  lemma UnsignedAtZero(x: int)
    ensures Ushr(x, 0) == ToUint32(x)
  {
    UshrWord(x, 0);
    assert Pow2(0) == 1;
  }

  lemma LowByte(q: nat)
    requires q < WORD
    ensures ToUint32(BitAnd(q, 255)) == q % 256
  {
    assert Pow2(8) == 256;
    Small(q);
    BitAndLow(q, 8);
  }

  lemma ShiftedWord(n: nat, k: nat)
    requires n < WORD && k < 32
    ensures Ushr(n, k) == Quotient(n, Pow2(k)) < WORD
  {
    Small(n);
    UshrWord(n, k);
    QuotientAtMost(n, Pow2(k));
  }

  lemma OctetIsDivMod(n: nat, k: nat)
    requires n < WORD && k < 32
    ensures Octet(n, k) == Quotient(n, Pow2(k)) % 256
  {
    ShiftedWord(n, k);
    LowByte(Ushr(n, k));
  }

  lemma {:induction false} QuotientAtMost(n: nat, p: nat)
    requires p > 0
    ensures Quotient(n, p) <= n
  {
    if n < p {
      RemainderIs(n, p, 0, n);
    } else {
      QuotientAtMost(n - p, p);
      DropOne(n, p);
    }
  }

  /** The four octets of a word, most significant first. */
  lemma OctetsOf(n: nat) returns (a: nat, b: nat, c: nat, d: nat)
    requires n < WORD
    ensures a < 256 && b < 256 && c < 256 && d < 256 && n == a * 0x100_0000 + b * 0x1_0000 + c * 0x100 + d
    ensures Octet(n, 24) == a && Octet(n, 16) == b && Octet(n, 8) == c && Octet(n, 0) == d
  {
    OctetIsDivMod(n, 24);
    OctetIsDivMod(n, 16);
    OctetIsDivMod(n, 8);
    OctetIsDivMod(n, 0);
    a, b, c, d := Digits256(n);
    Powers();
    assert Pow2(0) == 1;
  }

  lemma Digits256(n: nat) returns (a: nat, b: nat, c: nat, d: nat)
    requires n < WORD
    ensures a < 256 && b < 256 && c < 256 && d < 256 && n == a * 0x100_0000 + b * 0x1_0000 + c * 0x100 + d
    ensures a == Quotient(n, 0x100_0000) % 256 && b == Quotient(n, 0x1_0000) % 256 && c == Quotient(n, 0x100) % 256 && d == Quotient(n, 1) % 256
  {
    a, b, c, d := n / 0x100_0000, (n / 0x1_0000) % 256, (n / 0x100) % 256, n % 256;
  }

  lemma {:induction false} DecimalHasNo(n: nat, c: char)
    requires !IsDigit(c)
    ensures c !in Decimal(n)
  {
    ValueOfDecimal(n);
  }

  lemma SplitDotted(a: nat, b: nat, c: nat, d: nat)
    ensures Split(Decimal(a) + "." + Decimal(b) + "." + Decimal(c) + "." + Decimal(d), '.')
         == [Decimal(a), Decimal(b), Decimal(c), Decimal(d)]
  {
    DecimalHasNo(a, '.');
    DecimalHasNo(b, '.');
    DecimalHasNo(c, '.');
    DecimalHasNo(d, '.');
    SplitFour(Decimal(a), Decimal(b), Decimal(c), Decimal(d));
  }

  lemma SplitFour(a: string, b: string, c: string, d: string)
    requires '.' !in a && '.' !in b && '.' !in c && '.' !in d
    ensures Split(a + "." + b + "." + c + "." + d, '.') == [a, b, c, d]
  {
    SplitNone(d, '.');
    SplitFirst(c, '.', d);
    SplitFirst(b, '.', c + ['.'] + d);
    SplitFirst(a, '.', b + ['.'] + (c + ['.'] + d));
    assert a + "." + b + "." + c + "." + d == a + ['.'] + (b + ['.'] + (c + ['.'] + d));
  }

  /** Printing any 32-bit number and reading it back gives the number. */
  lemma ReadBack(n: nat)
    requires n < WORD
    ensures IsIpv4(IntToIpv4(n)) && Ipv4ToInt(IntToIpv4(n)) == Ok(n)
  {
    var a, b, c, d := OctetsOf(n);
    SplitDotted(a, b, c, d);
    ValueOfDecimal(a);
    ValueOfDecimal(b);
    ValueOfDecimal(c);
    ValueOfDecimal(d);
    OctetText(a);
    OctetText(b);
    OctetText(c);
    OctetText(d);
    PackIsSum(a, b, c, d);
  }

  lemma PrintedInjective(a: nat, b: nat)
    requires a < WORD && b < WORD && IntToIpv4(a) == IntToIpv4(b)
    ensures a == b
  {
    ReadBack(a);
    ReadBack(b);
  }

  lemma OctetText(a: nat)
    requires a < 256
    ensures IsOctet(Decimal(a))
  {
    ValueOfDecimal(a);
    if a >= 100 { assert |Decimal(a / 10 / 10)| == 1; }
  }

  /** Reading an address and printing it gives it back exactly when no octet has a leading zero;
      the address itself is always a 32-bit number. */
  lemma PrintBack(ip: string)
    requires IsIpv4(ip)
    ensures Ipv4ToInt(ip).Ok? && 0 <= Ipv4ToInt(ip).value < WORD
    ensures IntToIpv4(Ipv4ToInt(ip).value) == ip <==> forall i :: 0 <= i < 4 ==> NoLeadingZero(Split(ip, '.')[i])
  {
    var parts := Split(ip, '.');
    var n := OctetsRead(ip);
    var printed := [Decimal(Value(parts[0])), Decimal(Value(parts[1])), Decimal(Value(parts[2])), Decimal(Value(parts[3]))];
    SplitDotted(Value(parts[0]), Value(parts[1]), Value(parts[2]), Value(parts[3]));
    JoinSplit(ip, '.');
    JoinSplit(IntToIpv4(n), '.');
    assert IntToIpv4(n) == ip <==> printed == parts;
    forall i | 0 <= i < 4 ensures printed[i] == parts[i] <==> NoLeadingZero(parts[i]) {
      ValueOfDecimal(Value(parts[i]));
      if NoLeadingZero(parts[i]) { DecimalOfValue(parts[i]); }
    }
    assert printed == parts <==> forall i :: 0 <= i < 4 ==> printed[i] == parts[i];
  }

  /** The 32-bit number a valid address stands for. */
  function AddressOf(ip: string): (n: nat)
    requires IsIpv4(ip)
    ensures n < WORD && Ipv4ToInt(ip) == Ok(n)
  {
    PrintBack(ip);
    Ipv4ToInt(ip).value
  }

  /** An octet is a one- or two-digit number, a 1 and two digits, 2 and a number from 00 to 49, or
      25 and a digit up to 5. */
  lemma OctetPattern(s: string)
    ensures IsOctet(s) <==>
              || (|s| == 1 && IsDigit(s[0]))
              || (|s| == 2 && IsDigit(s[0]) && IsDigit(s[1]))
              || (|s| == 3 && s[0] == '1' && IsDigit(s[1]) && IsDigit(s[2]))
              || (|s| == 3 && s[0] == '2' && '0' <= s[1] <= '4' && IsDigit(s[2]))
              || (|s| == 3 && s[0] == '2' && s[1] == '5' && '0' <= s[2] <= '5')
  {
    if AllDigits(s) && |s| == 3 { ThreeDigits(s); }
    if AllDigits(s) && |s| == 2 { TwoDigits(s); }
    if AllDigits(s) && |s| == 1 { OneDigit(s); }
  }

  lemma OneDigit(s: string)
    requires AllDigits(s) && |s| == 1
    ensures Value(s) == DigitValue(s[0])
  {
    assert s[..0] == [];
  }

  lemma TwoDigits(s: string)
    requires AllDigits(s) && |s| == 2
    ensures Value(s) == 10 * DigitValue(s[0]) + DigitValue(s[1])
  {
    OneDigit(s[..1]);
  }

  lemma ThreeDigits(s: string)
    requires AllDigits(s) && |s| == 3
    ensures Value(s) == 100 * DigitValue(s[0]) + 10 * DigitValue(s[1]) + DigitValue(s[2])
  {
    TwoDigits(s[..2]);
  }

  /** The number an address stands for, in its octets. */
  lemma AddressIsOctets(ip: string)
    requires IsIpv4(ip)
    ensures var parts := Split(ip, '.');
            && |parts| == 4 && (forall i :: 0 <= i < 4 ==> AllDigits(parts[i]))
            && AddressOf(ip) == Value(parts[0]) * 0x100_0000 + Value(parts[1]) * 0x1_0000 + Value(parts[2]) * 0x100 + Value(parts[3])
  {
    var n := OctetsRead(ip);
  }

  lemma OctetsRead(ip: string) returns (n: nat)
    requires IsIpv4(ip)
    ensures n < WORD && Ipv4ToInt(ip) == Ok(n)
    ensures var parts := Split(ip, '.');
            && (forall i :: 0 <= i < 4 ==> AllDigits(parts[i]))
            && n == Value(parts[0]) * 0x100_0000 + Value(parts[1]) * 0x1_0000 + Value(parts[2]) * 0x100 + Value(parts[3])
            && IntToIpv4(n) == Decimal(Value(parts[0])) + "." + Decimal(Value(parts[1])) + "." + Decimal(Value(parts[2])) + "." + Decimal(Value(parts[3]))
  {
    var parts := Split(ip, '.');
    assert forall i :: 0 <= i < 4 ==> IsOctet(parts[i]);
    var a, b, c, d := Value(parts[0]), Value(parts[1]), Value(parts[2]), Value(parts[3]);
    assert Ipv4ToInt(ip) == Ok(Pack(a, b, c, d));
    PackIsSum(a, b, c, d);
    n := a * 0x100_0000 + b * 0x1_0000 + c * 0x100 + d;
    PrintsOctets(a, b, c, d);
  }

  lemma PrintsOctets(a: nat, b: nat, c: nat, d: nat)
    requires a < 256 && b < 256 && c < 256 && d < 256
    ensures IntToIpv4(a * 0x100_0000 + b * 0x1_0000 + c * 0x100 + d) == Decimal(a) + "." + Decimal(b) + "." + Decimal(c) + "." + Decimal(d)
  {
    OctetsOfSum(a, b, c, d);
  }

  lemma OctetsOfSum(a: nat, b: nat, c: nat, d: nat)
    requires a < 256 && b < 256 && c < 256 && d < 256
    ensures var n := a * 0x100_0000 + b * 0x1_0000 + c * 0x100 + d;
            Octet(n, 24) == a && Octet(n, 16) == b && Octet(n, 8) == c && Octet(n, 0) == d
  {
    var a', b', c', d' := OctetsOf(a * 0x100_0000 + b * 0x1_0000 + c * 0x100 + d);
    SameOctets(a, b, c, d, a', b', c', d');
  }

  lemma SameOctets(a: nat, b: nat, c: nat, d: nat, a': nat, b': nat, c': nat, d': nat)
    requires a < 256 && b < 256 && c < 256 && d < 256 && a' < 256 && b' < 256 && c' < 256 && d' < 256
    requires a * 0x100_0000 + b * 0x1_0000 + c * 0x100 + d == a' * 0x100_0000 + b' * 0x1_0000 + c' * 0x100 + d'
    ensures a == a' && b == b' && c == c' && d == d'
  {
  }
}
