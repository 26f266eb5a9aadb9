/** Expansion of address ranges, CIDR blocks and target lists. */
module Targets {
  import opened Records
  import opened Bits
  import opened Text
  import opened Ipv4

  function Listed(show: nat -> string, lo: nat, hi: nat): seq<string>
    requires lo <= hi
  {
    seq(hi - lo + 1, i requires 0 <= i => show(lo + i))
  }

  lemma ListedAt(show: nat -> string, lo: nat, hi: nat, a: nat)
    requires lo <= hi && forall i :: lo <= i <= hi && show(i) == show(a) ==> i == a
    ensures show(a) in Listed(show, lo, hi) <==> lo <= a <= hi
  {
    var out := Listed(show, lo, hi);
    if lo <= a <= hi { assert out[a - lo] == show(a); }
    if show(a) in out {
      var i :| 0 <= i < |out| && out[i] == show(a);
    }
  }

  /** The addresses from lo to hi, in ascending order. */
  function Addresses(lo: nat, hi: nat): seq<string>
    requires lo <= hi
  {
    Listed(IntToIpv4, lo, hi)
  }

  // ---- a range `first-last`, in either order ----

  predicate IsIpv4Range(s: string) {
    var parts := Split(s, '-');
    |parts| == 2 && IsIpv4(parts[0]) && IsIpv4(parts[1])
  }

  function RangeResult(s: string, limit: int): Result<seq<string>>
    requires IsIpv4Range(s)
  {
    var parts := Split(s, '-');
    Between(AddressOf(parts[0]), AddressOf(parts[1]), limit)
  }

  function Between(a: nat, b: nat, limit: int): Result<seq<string>> {
    var lo, hi := if a < b then a else b, if a < b then b else a;
    if hi - lo + 1 > limit then Err(TooLarge(hi - lo + 1)) else Ok(Addresses(lo, hi))
  }

  lemma UnsignedWord(n: nat)
    requires n < WORD
    ensures Ushr(n, 0) == n
  {
    UnsignedAtZero(n);
    Small(n);
  }

  /** The loop both expansions share. */
  method ListAddresses(show: nat -> string, lo: nat, hi: nat) returns (out: seq<string>)
    requires lo <= hi < WORD
    ensures out == Listed(show, lo, hi)
  {
    out := [];
    var n := lo;
    while n <= hi
      invariant lo <= n <= hi + 1
      invariant |out| == n - lo && forall i :: 0 <= i < |out| ==> out[i] == show(lo + i)
    {
      UnsignedWord(n);
      out := out + [show(Ushr(n, 0))];
      n := n + 1;
    }
  }

  method ExpandIpv4Range(s: string, limit: int) returns (r: Result<seq<string>>)
    requires IsIpv4Range(s)
    ensures r == RangeResult(s, limit)
  {
    var parts := Split(s, '-');
    var start, end := AddressOf(parts[0]), AddressOf(parts[1]);
    r := ExpandBetween(start, end, limit);
  }

  method ExpandBetween(start: nat, end: nat, limit: int) returns (r: Result<seq<string>>)
    requires start < WORD && end < WORD
    ensures r == Between(start, end, limit)
  {
    var lo := if start < end then start else end;
    var hi := if start < end then end else start;
    var count := hi - lo + 1;
    if count > limit {
      return Err(TooLarge(count));
    }
    var out := ListAddresses(IntToIpv4, lo, hi);
    return Ok(out);
  }

  // ---- a CIDR block `address/bits` ----

  /** `Number(s)` where it is an integer: decimal digits as usual; `other` stands for what it makes
      of any other text, an exponent, a sign or another base among them. */
  type OtherNumbers = string -> Option<int>

  function Integer(s: string, other: OtherNumbers): Option<int> {
    if AllDigits(s) then Some(Value(s)) else other(s)
  }

  function MaskOf(s: string, other: OtherNumbers): Option<nat> {
    match Integer(s, other)
    case Some(bits) => if 0 <= bits <= 32 then Some(bits) else None
    case None => None
  }

  /** First address of the block of 2^h addresses around `ip`. */
  function First(ip: nat, h: nat): nat {
    RemainderBelow(ip, Pow2(h));
    ip - ip % Pow2(h)
  }

  function CidrResult(s: string, limit: int, other: OtherNumbers): Result<seq<string>> {
    var parts := Split(s, '/');
    if |parts| < 2 || parts[0] == "" || parts[1] == "" then Err(InvalidCidr)
    else if !IsIpv4(parts[0]) then Err(InvalidIpv4)
    else if MaskOf(parts[1], other).None? then Err(InvalidMask)
    else
      Block(AddressOf(parts[0]), 32 - MaskOf(parts[1], other).value, limit)
  }

  function Block(ip: nat, h: nat, limit: int): Result<seq<string>> {
    if Pow2(h) > limit then Err(TooLarge(Pow2(h))) else Ok(Addresses(First(ip, h), First(ip, h) + Pow2(h) - 1))
  }

  /** `maskBits === 0 ? 0 : (0xffffffff << (32 - maskBits)) >>> 0`. */
  function Mask(bits: nat): int
    requires bits <= 32
  {
    if bits == 0 then 0 else Ushr(Shl(0xffff_ffff, 32 - bits), 0)
  }

  lemma MaskIsHigh(bits: nat)
    requires bits <= 32
    ensures Pow2(32 - bits) <= WORD && Mask(bits) == WORD - Pow2(32 - bits)
  {
    Powers();
    var h := 32 - bits;
    if bits > 0 {
      LowMaskIsWord(h);
      var p := Pow2(h);
      assert h % 32 == h;
      Small(0xffff_ffff);
      ShiftedOnes(p);
      assert Shl(0xffff_ffff, h) == ToInt32(0xffff_ffff * p);
      SignedIsSameWord(0xffff_ffff * p);
      UnsignedAtZero(Shl(0xffff_ffff, h));
    }
  }

  lemma ShiftedOnes(p: nat)
    requires 0 < p < WORD
    ensures ToUint32(0xffff_ffff * p) == WORD - p
  {
    assert 0xffff_ffff * p == (p - 1) * WORD + (WORD - p);
    RemainderIs(0xffff_ffff * p, WORD, p - 1, WORD - p);
  }

  lemma MaskedIsFirst(ip: nat, bits: nat)
    requires ip < WORD && bits <= 32
    ensures Ushr(BitAnd(ip, Mask(bits)), 0) == First(ip, 32 - bits)
  {
    var h := 32 - bits;
    Powers();
    MaskIsHigh(bits);
    AndHigh(ip, 32, h);
    Small(ip);
    RemainderBelow(ip, Pow2(h));
    if bits == 0 {
      RemainderIs(ip, WORD, 0, ip);
      Small(0);
    } else {
      Small(WORD - Pow2(h));
    }
    BitAndWord(ip, Mask(bits), First(ip, h));
    UnsignedAtZero(BitAnd(ip, Mask(bits)));
  }

  lemma MulAscends(a: nat, b: nat, p: nat)
    requires a <= b
    ensures a * p <= b * p
  {
    assert b * p - a * p == (b - a) * p;
  }

  lemma WholeBlocks(q: nat, p: nat, r: nat, rest: nat)
    requires r * p + rest < q * p
    ensures (r + 1) * p <= q * p
  {
    if q <= r { MulAscends(q, r, p); }
    MulAscends(r + 1, q, p);
  }

  /** The block lies inside the address space, so the last address does not wrap. */
  lemma BlockFits(ip: nat, h: nat)
    requires ip < WORD && h <= 32
    ensures First(ip, h) + Pow2(h) <= WORD
  {
    assert Pow2(32) == WORD by { Powers(); }
    var p := Pow2(h);
    PowersMultiply(32 - h, h);
    RemainderBelow(ip, p);
    DivMod(ip, p);
    FitsBelow(ip, Pow2(32 - h), p, Quotient(ip, p), ip % p);
  }

  lemma FitsBelow(x: nat, q: nat, p: nat, r: nat, rest: nat)
    requires q * p == WORD && x == r * p + rest && x < WORD
    ensures x - rest + p <= WORD
  {
    WholeBlocks(q, p, r, rest);
    assert (r + 1) * p == r * p + p;
  }

  lemma {:induction false} PowersMultiply(a: nat, b: nat)
    ensures Pow2(a) * Pow2(b) == Pow2(a + b)
  {
    if a > 0 {
      PowersMultiply(a - 1, b);
      assert Pow2(a) * Pow2(b) == 2 * (Pow2(a - 1) * Pow2(b));
    }
  }

  method ExpandCidr(s: string, limit: int, other: OtherNumbers) returns (r: Result<seq<string>>)
    ensures r == CidrResult(s, limit, other)
  {
    var parts := Split(s, '/');
    if |parts| < 2 || parts[0] == "" || parts[1] == "" { return Err(InvalidCidr); }
    if !IsIpv4(parts[0]) { return Err(InvalidIpv4); }
    var maskBits := MaskOf(parts[1], other);
    if maskBits.None? { return Err(InvalidMask); }
    r := ExpandBlock(AddressOf(parts[0]), maskBits.value, limit);
  }

  /** The last word of the block does not wrap. */
  lemma LastWord(ip: nat, h: nat, start: nat, size: nat)
    requires ip < WORD && h <= 32 && start == First(ip, h) && size == Pow2(h)
    ensures start + size <= WORD && Ushr(start + size - 1, 0) == start + size - 1
  {
    BlockFits(ip, h);
    UnsignedWord(start + size - 1);
  }

  method ExpandBlock(ip: nat, bits: nat, limit: int) returns (r: Result<seq<string>>)
    requires ip < WORD && bits <= 32
    ensures r == Block(ip, 32 - bits, limit)
  {
    var size := if bits == 32 then 1 else Pow2(32 - bits);
    if size > limit { return Err(TooLarge(size)); }
    var start := Ushr(BitAnd(ip, Mask(bits)), 0);
    MaskedIsFirst(ip, bits);
    LastWord(ip, 32 - bits, start, size);
    var end := Ushr(start + size - 1, 0);
    var out := ListAddresses(IntToIpv4, start, end);
    return Ok(out);
  }

  // ---- what the expansions mean ----

  predicate SamePrefix(a: nat, b: nat, bits: nat)
    requires bits <= 32
  {
    Quotient(a, Pow2(32 - bits)) == Quotient(b, Pow2(32 - bits))
  }

  lemma AddressesAt(lo: nat, hi: nat, a: nat)
    requires lo <= hi < WORD && a < WORD
    ensures IntToIpv4(a) in Addresses(lo, hi) <==> lo <= a <= hi
  {
    forall i: nat | lo <= i <= hi && IntToIpv4(i) == IntToIpv4(a) ensures i == a {
      PrintedInjective(i, a);
    }
    ListedAt(IntToIpv4, lo, hi, a);
  }

  lemma BlockIsPrefix(ip: nat, bits: nat, a: nat)
    requires bits <= 32
    ensures First(ip, 32 - bits) <= a < First(ip, 32 - bits) + Pow2(32 - bits) <==> SamePrefix(a, ip, bits)
  {
    var p := Pow2(32 - bits);
    RemainderBelow(ip, p);
    DivMod(ip, p);
    InBlock(a, p, Quotient(ip, p));
  }

  lemma InBlock(a: nat, p: nat, q: nat)
    requires p > 0
    ensures q * p <= a < q * p + p <==> Quotient(a, p) == q
  {
    if q * p <= a < q * p + p {
      RemainderIs(a, p, q, a - q * p);
    }
    if Quotient(a, p) == q {
      DivMod(a, p);
      RemainderBelow(a, p);
    }
  }

  ghost predicate Ascending(out: seq<string>) {
    forall i, j :: 0 <= i < j < |out| ==> IsIpv4(out[i]) && IsIpv4(out[j]) && AddressOf(out[i]) < AddressOf(out[j])
  }

  lemma AddressesAscend(lo: nat, hi: nat)
    requires lo <= hi < WORD
    ensures Ascending(Addresses(lo, hi))
  {
    var out := Addresses(lo, hi);
    forall i | 0 <= i < |out| ensures IsIpv4(out[i]) && AddressOf(out[i]) == lo + i {
      AddressAt(lo, hi, i);
    }
  }

  lemma AddressAt(lo: nat, hi: nat, i: nat)
    requires lo <= hi < WORD && i <= hi - lo
    ensures var text := Addresses(lo, hi)[i]; IsIpv4(text) && AddressOf(text) == lo + i && '-' !in text
  {
    ListedIndex(IntToIpv4, lo, hi, i);
    PrintedPlainly(lo + i, Addresses(lo, hi)[i]);
  }

  lemma ListedIndex(show: nat -> string, lo: nat, hi: nat, i: nat)
    requires lo <= hi && i <= hi - lo
    ensures Listed(show, lo, hi)[i] == show(lo + i)
  {
  }

  lemma PrintedAddress(n: nat)
    requires n < WORD
    ensures IsIpv4(IntToIpv4(n)) && AddressOf(IntToIpv4(n)) == n
  {
    ReadBack(n);
  }

  lemma BlockMeans(ip: nat, bits: nat, limit: int, a: nat)
    requires ip < WORD && bits <= 32 && a < WORD && Block(ip, 32 - bits, limit).Ok?
    ensures var out := Block(ip, 32 - bits, limit).value;
            && |out| == Pow2(32 - bits)
            && (IntToIpv4(a) in out <==> SamePrefix(a, ip, bits))
            && Ascending(out)
  {
    var lo := First(ip, 32 - bits);
    BlockFits(ip, 32 - bits);
    AddressesAt(lo, lo + Pow2(32 - bits) - 1, a);
    AddressesAscend(lo, lo + Pow2(32 - bits) - 1);
    BlockIsPrefix(ip, bits, a);
  }

  /** A block within the limit expands to exactly the 2^(32 - bits) addresses that share the
      prefix, ascending (section 3.1 of RFC 4632). */
  lemma CidrIsPrefixBlock(s: string, limit: int, other: OtherNumbers, a: nat)
    requires CidrResult(s, limit, other).Ok? && a < WORD
    ensures var parts := Split(s, '/');
            && |parts| >= 2 && IsIpv4(parts[0]) && MaskOf(parts[1], other).Some?
            && var ip, bits, out := AddressOf(parts[0]), MaskOf(parts[1], other).value, CidrResult(s, limit, other).value;
               && |out| == Pow2(32 - bits)
               && (IntToIpv4(a) in out <==> SamePrefix(a, ip, bits))
               && Ascending(out)
  {
    var parts := Split(s, '/');
    BlockMeans(AddressOf(parts[0]), MaskOf(parts[1], other).value, limit, a);
  }

  /** The same block written as a range of its first and last address expands to the same list. */
  lemma CidrIsRange(s: string, limit: int, other: OtherNumbers)
    requires CidrResult(s, limit, other).Ok?
    ensures var out := CidrResult(s, limit, other).value;
            |out| > 0 && IsIpv4Range(Ends(out)) && RangeResult(Ends(out), limit) == Ok(out)
  {
    var parts := Split(s, '/');
    BlockIsRange(AddressOf(parts[0]), 32 - MaskOf(parts[1], other).value, limit, CidrResult(s, limit, other).value);
  }

  function Ends(out: seq<string>): string
    requires |out| > 0
  {
    out[0] + "-" + out[|out| - 1]
  }

  lemma BlockIsRange(ip: nat, h: nat, limit: int, out: seq<string>)
    requires ip < WORD && h <= 32 && Block(ip, h, limit) == Ok(out)
    ensures |out| > 0 && IsIpv4Range(Ends(out)) && RangeResult(Ends(out), limit) == Ok(out)
  {
    BlockFits(ip, h);
    RangeOfBlock(First(ip, h), First(ip, h) + Pow2(h) - 1, limit, out);
  }

  lemma RangeOfBlock(lo: nat, hi: nat, limit: int, out: seq<string>)
    requires lo <= hi < WORD && hi - lo + 1 <= limit && out == Addresses(lo, hi)
    ensures |out| > 0 && IsIpv4Range(Ends(out)) && RangeResult(Ends(out), limit) == Ok(out)
  {
    BetweenAscending(lo, hi, limit);
    EndsPrinted(lo, hi, out);
    EndsRead(lo, hi, limit, out);
  }

  lemma EndsPrinted(lo: nat, hi: nat, out: seq<string>)
    requires lo <= hi < WORD && out == Addresses(lo, hi)
    ensures |out| > 0
    ensures IsIpv4(out[0]) && AddressOf(out[0]) == lo && '-' !in out[0]
    ensures IsIpv4(out[|out| - 1]) && AddressOf(out[|out| - 1]) == hi && '-' !in out[|out| - 1]
  {
    AddressAt(lo, hi, 0);
    AddressAt(lo, hi, hi - lo);
  }

  lemma EndsRead(lo: nat, hi: nat, limit: int, out: seq<string>)
    requires |out| > 0 && Between(lo, hi, limit) == Ok(out)
    requires IsIpv4(out[0]) && AddressOf(out[0]) == lo && '-' !in out[0]
    requires IsIpv4(out[|out| - 1]) && AddressOf(out[|out| - 1]) == hi && '-' !in out[|out| - 1]
    ensures IsIpv4Range(Ends(out)) && RangeResult(Ends(out), limit) == Ok(out)
  {
    RangeReads(out[0], out[|out| - 1], limit);
  }

  lemma BetweenAscending(lo: nat, hi: nat, limit: int)
    requires lo <= hi && hi - lo + 1 <= limit
    ensures Between(lo, hi, limit) == Ok(Addresses(lo, hi))
  {
  }

  lemma PrintedPlainly(n: nat, text: string)
    requires n < WORD && text == IntToIpv4(n)
    ensures IsIpv4(text) && AddressOf(text) == n && '-' !in text
  {
    PrintedAddress(n);
    DottedHasNoDash(n);
  }

  lemma RangeReads(first: string, last: string, limit: int)
    requires '-' !in first && '-' !in last && IsIpv4(first) && IsIpv4(last)
    ensures IsIpv4Range(first + "-" + last) && RangeResult(first + "-" + last, limit) == Between(AddressOf(first), AddressOf(last), limit)
  {
    SplitNone(last, '-');
    SplitFirst(first, '-', last);
    assert first + "-" + last == first + ['-'] + last;
  }

  lemma DottedHasNoDash(n: nat)
    ensures '-' !in IntToIpv4(n)
  {
    DecimalHasNo(Octet(n, 24), '-');
    DecimalHasNo(Octet(n, 16), '-');
    DecimalHasNo(Octet(n, 8), '-');
    DecimalHasNo(Octet(n, 0), '-');
  }

  // ---- the same in texts and numbers ----

  /** Both orders of a range give every address between its ends, ascending; it is refused exactly
      when there are more of them than the limit. */
  lemma RangeIsInterval(first: string, last: string, limit: int, a: nat)
    requires '-' !in first && '-' !in last && IsIpv4(first) && IsIpv4(last) && a < WORD
    ensures var x, y, r := AddressOf(first), AddressOf(last), RangeResultOf(first, last, limit);
            var count := 1 + if x <= y then y - x else x - y;
            && r == RangeResultOf(last, first, limit)
            && (count > limit ==> r == Err(TooLarge(count)))
            && (count <= limit ==> r.Ok? && |r.value| == count && Ascending(r.value) && (IntToIpv4(a) in r.value <==> x <= a <= y || y <= a <= x))
  {
    RangeReads(first, last, limit);
    RangeReads(last, first, limit);
    BetweenIsInterval(AddressOf(first), AddressOf(last), limit, a);
  }

  lemma BetweenIsInterval(x: nat, y: nat, limit: int, a: nat)
    requires x < WORD && y < WORD && a < WORD
    ensures var r := Between(x, y, limit);
            var count := 1 + if x <= y then y - x else x - y;
            && r == Between(y, x, limit)
            && (count > limit ==> r == Err(TooLarge(count)))
            && (count <= limit ==> r.Ok? && |r.value| == count && Ascending(r.value) && (IntToIpv4(a) in r.value <==> x <= a <= y || y <= a <= x))
  {
    if x <= y {
      AddressesAt(x, y, a);
      AddressesAscend(x, y);
    } else {
      AddressesAt(y, x, a);
      AddressesAscend(y, x);
    }
  }

  function RangeResultOf(first: string, last: string, limit: int): Result<seq<string>>
    requires '-' !in first && '-' !in last && IsIpv4(first) && IsIpv4(last)
  {
    RangeReads(first, last, limit);
    RangeResult(first + "-" + last, limit)
  }

  /** An address, a slash and a number: refused above 32 or when 2^(32 - bits) exceeds the limit,
      otherwise the ascending addresses that agree with the address above the low 32 - bits. */
  lemma CidrByText(ip: string, mask: string, limit: int, other: OtherNumbers, a: nat)
    requires '/' !in ip && IsIpv4(ip) && mask != "" && AllDigits(mask) && a < WORD
    ensures var bits, r := Value(mask), CidrResult(ip + "/" + mask, limit, other);
            && (bits > 32 ==> r == Err(InvalidMask))
            && (bits <= 32 ==>
                  var size := Pow2(32 - bits);
                  && (size > limit ==> r == Err(TooLarge(size)))
                  && (size <= limit ==>
                        r.Ok? && |r.value| == size && Ascending(r.value)
                        && (IntToIpv4(a) in r.value <==> Quotient(a, size) == Quotient(AddressOf(ip), size))))
  {
    CidrParts(ip, mask);
    CidrOfParts(ip + "/" + mask, ip, mask, limit, other);
    if Value(mask) <= 32 && Pow2(32 - Value(mask)) <= limit { BlockMeans(AddressOf(ip), Value(mask), limit, a); }
  }

  lemma CidrParts(ip: string, mask: string)
    requires '/' !in ip && IsIpv4(ip) && AllDigits(mask)
    ensures Split(ip + "/" + mask, '/') == [ip, mask] && ip != ""
  {
    SplitNone(mask, '/');
    SplitFirst(ip, '/', mask);
    assert ip + "/" + mask == ip + ['/'] + mask;
  }

  lemma CidrOfParts(s: string, ip: string, mask: string, limit: int, other: OtherNumbers)
    requires Split(s, '/') == [ip, mask] && ip != "" && mask != "" && IsIpv4(ip) && AllDigits(mask)
    ensures CidrResult(s, limit, other) == if Value(mask) <= 32 then Block(AddressOf(ip), 32 - Value(mask), limit) else Err(InvalidMask)
  {
    MaskIsNumber(mask, other);
    CidrOfMask(s, ip, mask, limit, other);
  }

  lemma MaskIsNumber(mask: string, other: OtherNumbers)
    requires AllDigits(mask)
    ensures MaskOf(mask, other) == if Value(mask) <= 32 then Some(Value(mask)) else None
  {
  }

  lemma CidrOfMask(s: string, ip: string, mask: string, limit: int, other: OtherNumbers)
    requires Split(s, '/') == [ip, mask] && ip != "" && mask != "" && IsIpv4(ip)
    ensures CidrResult(s, limit, other) ==
            match MaskOf(mask, other)
            case Some(bits) => Block(AddressOf(ip), 32 - bits, limit)
            case None => Err(InvalidMask)
  {
    var parts := Split(s, '/');
    assert |parts| == 2 && parts[0] == ip && parts[1] == mask;
  }

  // ---- target lists ----

  const MAX_EXPAND_PER_TOKEN := 5000

  predicate IsMask(s: string) {
    1 <= |s| <= 2 && AllDigits(s) && (|s| == 2 ==> s[0] != '0') && Value(s) <= 32
  }

  /** A mask is one digit, 1 or 2 and a digit, or 3 and a digit up to 2. */
  lemma MaskPattern(s: string)
    ensures IsMask(s) <==>
              || (|s| == 1 && IsDigit(s[0]))
              || (|s| == 2 && '1' <= s[0] <= '2' && IsDigit(s[1]))
              || (|s| == 2 && s[0] == '3' && '0' <= s[1] <= '2')
  {
    if AllDigits(s) && |s| == 2 { TwoDigits(s); }
    if AllDigits(s) && |s| == 1 { OneDigit(s); }
  }

  /** The pattern of isIpv4OrCidr. */
  predicate IsIpv4OrCidr(s: string) {
    var parts := Split(s, '/');
    IsIpv4(parts[0]) && (|parts| == 1 || (|parts| == 2 && IsMask(parts[1])))
  }

  function NoOther(s: string): Option<int> {
    None
  }

  /** The pattern lets only digit masks through, so other readings of numbers make no difference. */
  lemma PatternNeedsDigits(t: string, limit: int, other: OtherNumbers)
    requires IsIpv4OrCidr(t) && '/' in t
    ensures CidrResult(t, limit, other) == CidrResult(t, limit, NoOther)
  {
    var parts := Split(t, '/');
    JoinSplit(t, '/');
    if |parts| == 1 { assert false; }
    MaskByDigits(parts[1], other);
  }

  lemma MaskByDigits(mask: string, other: OtherNumbers)
    requires IsMask(mask)
    ensures MaskOf(mask, other) == MaskOf(mask, NoOther)
  {
  }

  /** What one token, or the tokens so far, expand to; `Unknown` makes the caller return null,
      `Thrown` is an exception out of an expansion. */
  datatype Expansion = Names(targets: seq<string>, expanded: bool) | Unknown | Thrown(error: Error)

  function Expanded(r: Result<seq<string>>): Expansion {
    match r
    case Ok(addresses) => Names(addresses, true)
    case Err(e) => Thrown(e)
  }

  function ExpandToken(t: string, isDomain: string -> bool): Expansion {
    if IsIpv4Range(t) then Expanded(RangeResult(t, MAX_EXPAND_PER_TOKEN))
    else if IsIpv4OrCidr(t) then
      if '/' in t then Expanded(CidrResult(t, MAX_EXPAND_PER_TOKEN, NoOther)) else Names([t], false)
    else if isDomain(t) then Names([t], false)
    else Unknown
  }

  /** All tokens in order; the first that is not a list of names ends it. */
  function InOrder(tokens: seq<string>, one: string -> Expansion): Expansion {
    if tokens == [] then Names([], false)
    else
      match InOrder(tokens[..|tokens| - 1], one)
      case Names(before, was) =>
        (match one(tokens[|tokens| - 1])
         case Names(more, now) => Names(before + more, was || now)
         case other => other)
      case other => other
  }

  function ExpandAll(tokens: seq<string>, isDomain: string -> bool): Expansion {
    InOrder(tokens, t => ExpandToken(t, isDomain))
  }

  predicate IsExpanded(t: string) {
    IsIpv4Range(t) || (IsIpv4OrCidr(t) && '/' in t)
  }

  /** A range or block gives its addresses, at most 5000; an address or a domain gives itself. */
  predicate Gives(t: string, isDomain: string -> bool, list: seq<string>) {
    if IsIpv4Range(t) then RangeResult(t, 5000) == Ok(list)
    else if IsIpv4OrCidr(t) && '/' in t then CidrResult(t, 5000, NoOther) == Ok(list)
    else list == [t] && (IsIpv4(t) || isDomain(t))
  }

  lemma TokenGives(t: string, isDomain: string -> bool)
    ensures ExpandToken(t, isDomain).Names? ==> Gives(t, isDomain, ExpandToken(t, isDomain).targets) && ExpandToken(t, isDomain).expanded == IsExpanded(t)
  {
    if IsIpv4OrCidr(t) && '/' !in t { SplitNone(t, '/'); }
  }

  /** A list of names holds every token's own list, in token order, and is marked expanded exactly
      if one of the tokens is a range or block. */
  lemma {:induction false} ListedByToken(tokens: seq<string>, isDomain: string -> bool) returns (lists: seq<seq<string>>)
    requires ExpandAll(tokens, isDomain).Names?
    ensures |lists| == |tokens| && ExpandAll(tokens, isDomain).targets == Concat(lists)
    ensures forall i :: 0 <= i < |tokens| ==> Gives(tokens[i], isDomain, lists[i])
    ensures ExpandAll(tokens, isDomain).expanded <==> exists i :: 0 <= i < |tokens| && IsExpanded(tokens[i])
  {
    lists := [];
    if tokens != [] {
      var n := |tokens| - 1;
      var before := ListedByToken(tokens[..n], isDomain);
      TokenGives(tokens[n], isDomain);
      lists := before + [ExpandToken(tokens[n], isDomain).targets];
      assert lists[..n] == before;
      SomeExpanded(tokens);
    }
  }

  lemma SomeExpanded(tokens: seq<string>)
    requires tokens != []
    ensures (exists i :: 0 <= i < |tokens| && IsExpanded(tokens[i]))
            <==> IsExpanded(tokens[|tokens| - 1]) || var head := tokens[..|tokens| - 1]; exists i :: 0 <= i < |head| && IsExpanded(head[i])
  {
    if i :| 0 <= i < |tokens| && IsExpanded(tokens[i]) {
      if i < |tokens| - 1 { assert IsExpanded(tokens[..|tokens| - 1][i]); }
    }
  }

  /** The first token that gives no list decides: a range or block that is refused is thrown, and
      anything else is not recognised. */
  lemma FirstBadToken(tokens: seq<string>, isDomain: string -> bool, i: nat)
    requires i < |tokens| && !ExpandToken(tokens[i], isDomain).Names?
    requires forall k :: 0 <= k < i ==> ExpandToken(tokens[k], isDomain).Names?
    ensures var t, e := tokens[i], ExpandAll(tokens, isDomain);
            if IsIpv4Range(t) then RangeResult(t, 5000).Err? && e == Thrown(RangeResult(t, 5000).error)
            else if IsIpv4OrCidr(t) then CidrResult(t, 5000, NoOther).Err? && e == Thrown(CidrResult(t, 5000, NoOther).error)
            else e == Unknown
  {
    var one := t => ExpandToken(t, isDomain);
    AllNames(tokens[..i], one);
    assert tokens[..i + 1][..i] == tokens[..i];
    assert InOrder(tokens[..i + 1], one) == one(tokens[i]);
    Unrecovered(tokens, i + 1, one);
  }

  lemma {:induction false} AllNames(tokens: seq<string>, one: string -> Expansion)
    requires forall k :: 0 <= k < |tokens| ==> one(tokens[k]).Names?
    ensures InOrder(tokens, one).Names?
  {
    if tokens != [] { AllNames(tokens[..|tokens| - 1], one); }
  }

  function Dedup(xs: seq<string>): seq<string> {
    if xs == [] then []
    else
      var n := |xs| - 1;
      if xs[n] in xs[..n] then Dedup(xs[..n]) else Dedup(xs[..n]) + [xs[n]]
  }

  /** Dedup keeps every member once, in the order of first appearance. */
  lemma {:induction false} DedupKeepsFirsts(xs: seq<string>)
    ensures forall x :: x in Dedup(xs) <==> x in xs
    ensures forall i, j :: 0 <= i < j < |Dedup(xs)| ==> Dedup(xs)[i] != Dedup(xs)[j]
    ensures forall i, j :: 0 <= i < j < |Dedup(xs)| ==> AppearsBefore(xs, Dedup(xs)[i], Dedup(xs)[j])
  {
    if xs != [] {
      var n := |xs| - 1;
      DedupKeepsFirsts(xs[..n]);
      var d := Dedup(xs[..n]);
      assert forall x :: x in xs <==> x in xs[..n] || x == xs[n];
      forall i, j | 0 <= i < j < |Dedup(xs)| ensures AppearsBefore(xs, Dedup(xs)[i], Dedup(xs)[j]) {
        if j < |d| {
          assert AppearsBefore(xs[..n], d[i], d[j]);
          var p :| 0 <= p < n && xs[..n][p] == d[i] && d[j] !in xs[..n][..p + 1];
          assert xs[..n][..p + 1] == xs[..p + 1];
          assert xs[p] == d[i] && d[j] !in xs[..p + 1];
        } else {
          assert d[i] in xs[..n];
          var p :| 0 <= p < n && xs[..n][p] == d[i];
          assert xs[p] == d[i];
          var head := xs[..p + 1];
          forall k | 0 <= k < |head| ensures head[k] != xs[n] {
            assert xs[..n][k] == xs[k];
          }
        }
      }
    }
  }

  ghost predicate AppearsBefore(xs: seq<string>, x: string, y: string) {
    exists p :: 0 <= p < |xs| && xs[p] == x && y !in xs[..p + 1]
  }

  method ExpandOne(t: string, isDomain: string -> bool) returns (e: Expansion)
    ensures e == ExpandToken(t, isDomain)
  {
    if IsIpv4Range(t) {
      var r := ExpandIpv4Range(t, MAX_EXPAND_PER_TOKEN);
      return Expanded(r);
    }
    if IsIpv4OrCidr(t) {
      if '/' in t {
        var r := ExpandCidr(t, MAX_EXPAND_PER_TOKEN, NoOther);
        return Expanded(r);
      }
      return Names([t], false);
    }
    return if isDomain(t) then Names([t], false) else Unknown;
  }

  method Unique(xs: seq<string>) returns (unique: seq<string>)
    ensures unique == Dedup(xs)
  {
    var seen := {};
    unique := [];
    for i := 0 to |xs|
      invariant unique == Dedup(xs[..i])
      invariant forall x :: x in seen <==> x in xs[..i]
    {
      assert xs[..i + 1][..i] == xs[..i];
      if xs[i] !in seen {
        seen := seen + {xs[i]};
        unique := unique + [xs[i]];
      }
    }
    assert xs[..|xs|] == xs;
  }

  /** The tokens of a message: null (`Unknown`) when there is none or one is not recognised,
      otherwise the order-preserving deduplication of all expansions. */
  method ParseTargets(tokens: seq<string>, isDomain: string -> bool) returns (e: Expansion)
    ensures tokens == [] ==> e == Unknown
    ensures tokens != [] ==>
              e == match ExpandAll(tokens, isDomain)
                   case Names(targets, expanded) => Names(Dedup(targets), expanded)
                   case other => other
  {
    if |tokens| == 0 { return Unknown; }
    var one := t => ExpandToken(t, isDomain);
    var out := [];
    var expanded := false;
    var i := 0;
    while i < |tokens|
      invariant 0 <= i <= |tokens| && InOrder(tokens[..i], one) == Names(out, expanded)
    {
      assert tokens[..i + 1][..i] == tokens[..i];
      var next := ExpandOne(tokens[i], isDomain);
      assert next == one(tokens[i]);
      if !next.Names? {
        Unrecovered(tokens, i + 1, one);
        return next;
      }
      out := out + next.targets;
      expanded := expanded || next.expanded;
      i := i + 1;
    }
    assert tokens[..i] == tokens;
    var unique := Unique(out);
    return Names(unique, expanded);
  }

  lemma {:induction false} Unrecovered(tokens: seq<string>, i: nat, one: string -> Expansion)
    requires i <= |tokens| && !InOrder(tokens[..i], one).Names?
    ensures InOrder(tokens, one) == InOrder(tokens[..i], one)
    decreases |tokens|
  {
    if i == |tokens| {
      assert tokens[..i] == tokens;
    } else {
      var n := |tokens| - 1;
      assert tokens[..n][..i] == tokens[..i];
      Unrecovered(tokens[..n], i, one);
    }
  }
}
