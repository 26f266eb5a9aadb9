/** JavaScript's 32-bit operators on integers, defined bit by bit (sections 13.9 and 13.12 of
    ECMA-262), and what they come to in terms of division and remainder. */
module Bits {

  const WORD: nat := 0x1_0000_0000

  function Pow2(k: nat): (p: nat)
    ensures p > 0
  {
    if k == 0 then 1 else 2 * Pow2(k - 1)
  }

  function And(a: nat, b: nat): nat {
    if a == 0 || b == 0 then 0 else (if a % 2 == 1 && b % 2 == 1 then 1 else 0) + 2 * And(a / 2, b / 2)
  }

  function Or(a: nat, b: nat): nat {
    if a == 0 then b else if b == 0 then a
    else (if a % 2 == 1 || b % 2 == 1 then 1 else 0) + 2 * Or(a / 2, b / 2)
  }

  function ToUint32(x: int): nat {
    x % WORD
  }

  function ToInt32(x: int): int {
    if x % WORD >= WORD / 2 then x % WORD - WORD else x % WORD
  }

  /** `x << k`: the result is a signed 32-bit number. */
  function Shl(x: int, k: nat): int {
    ToInt32(ToUint32(x) * Pow2(k % 32))
  }

  function Quotient(a: nat, b: nat): nat
    requires b > 0
  {
    a / b
  }

  /** `x >>> k`: the result is unsigned. */
  function Ushr(x: int, k: nat): nat {
    Quotient(ToUint32(x), Pow2(k % 32))
  }

  function BitAnd(x: int, y: int): int {
    ToInt32(And(ToUint32(x), ToUint32(y)))
  }

  function BitOr(x: int, y: int): int {
    ToInt32(Or(ToUint32(x), ToUint32(y)))
  }

  lemma SignedIsSameWord(x: int)
    ensures ToUint32(ToInt32(x)) == ToUint32(x)
  {
  }

  lemma Powers()
    ensures Pow2(8) == 0x100 && Pow2(16) == 0x1_0000 && Pow2(24) == 0x100_0000 && Pow2(31) == WORD / 2 && Pow2(32) == WORD
  {
    assert Pow2(4) == 16;
    assert Pow2(8) == 16 * Pow2(4);
    assert Pow2(12) == 16 * Pow2(8);
    assert Pow2(16) == 16 * Pow2(12);
    assert Pow2(20) == 16 * Pow2(16);
    assert Pow2(24) == 16 * Pow2(20);
    assert Pow2(28) == 16 * Pow2(24);
    assert Pow2(31) == 8 * Pow2(28);
  }

  lemma {:induction false} Pow2Ascends(a: nat, b: nat)
    requires a <= b
    ensures Pow2(a) <= Pow2(b)
  {
    if a < b { Pow2Ascends(a, b - 1); }
  }

  /** Putting bits below a shifted number adds them. */
  lemma {:induction false} OrBelow(a: nat, b: nat, k: nat)
    requires b < Pow2(k)
    ensures Or(a * Pow2(k), b) == a * Pow2(k) + b
  {
    if k > 0 {
      var half := a * Pow2(k - 1);
      assert a * Pow2(k) == 2 * half;
      OrBelow(a, b / 2, k - 1);
    }
  }

  lemma HalfMod(x: nat, p: nat)
    requires p > 0
    ensures x % (2 * p) == 2 * ((x / 2) % p) + x % 2
  {
    var q, r := (x / 2) / p, (x / 2) % p;
    assert x / 2 == q * p + r;
    assert x == q * (2 * p) + (2 * r + x % 2) by { assert q * (2 * p) == 2 * (q * p); }
    RemainderIs(x, 2 * p, q, 2 * r + x % 2);
  }

  lemma RemainderIs(x: nat, p: nat, q: nat, r: nat)
    requires r < p && x == q * p + r
    ensures x % p == r && x / p == q
  {
    DivMod(x, p);
    SameQuotient(p, Quotient(x, p), x % p, q, r);
  }

  lemma DropOne(x: nat, p: nat)
    requires 0 < p <= x
    ensures x % p == (x - p) % p && x / p == (x - p) / p + 1
  {
    var q, r := (x - p) / p, (x - p) % p;
    assert x == (q + 1) * p + r;
    assert x == (x / p) * p + x % p;
    SameQuotient(p, x / p, x % p, q + 1, r);
  }

  lemma {:induction false} SameQuotient(p: nat, a: nat, r: nat, b: nat, s: nat)
    requires r < p && s < p && a * p + r == b * p + s
    ensures a == b && r == s
  {
    if a > 0 && b > 0 {
      assert a * p == (a - 1) * p + p && b * p == (b - 1) * p + p;
      SameQuotient(p, a - 1, r, b - 1, s);
    } else if a > 0 {
      AtLeastOne(a, p);
    } else if b > 0 {
      AtLeastOne(b, p);
    }
  }

  lemma AtLeastOne(a: nat, p: nat)
    requires a > 0
    ensures a * p >= p
  {
    assert a * p == (a - 1) * p + p;
  }

  /** Masking the low k bits is the remainder. */
  lemma {:induction false} AndLow(x: nat, k: nat)
    ensures And(x, Pow2(k) - 1) == x % Pow2(k)
  {
    if k > 0 {
      AndLow(x / 2, k - 1);
      HalfMod(x, Pow2(k - 1));
      assert (Pow2(k) - 1) / 2 == Pow2(k - 1) - 1 && (Pow2(k) - 1) % 2 == 1;
    }
  }

  /** Masking all but the low k of t bits drops the remainder. */
  lemma {:induction false} AndHigh(x: nat, t: nat, k: nat)
    requires k <= t && x < Pow2(t)
    ensures Pow2(k) <= Pow2(t) && And(x, Pow2(t) - Pow2(k)) == x - x % Pow2(k)
  {
    Pow2Ascends(k, t);
    if k == 0 {
      AndLow(x, t);
      RemainderIs(x, Pow2(t), 0, x);
    } else {
      AndHigh(x / 2, t - 1, k - 1);
      HalfMod(x, Pow2(k - 1));
      AndEven(x, Pow2(t - 1) - Pow2(k - 1));
    }
  }

  lemma AndEven(x: nat, half: nat)
    ensures And(x, 2 * half) == 2 * And(x / 2, half)
  {
    assert (2 * half) / 2 == half && (2 * half) % 2 == 0;
  }

  // ---- the signed operators on words ----

  lemma ShlWord(x: nat, k: nat)
    requires k < 32 && x < WORD && x * Pow2(k) < WORD
    ensures ToUint32(Shl(x, k)) == x * Pow2(k)
  {
    assert k % 32 == k && ToUint32(x) == x;
    SignedIsSameWord(x * Pow2(k));
  }

  lemma BitOrWord(x: int, y: int, a: nat, b: nat, k: nat)
    requires ToUint32(x) == a * Pow2(k) && ToUint32(y) == b < Pow2(k) && a * Pow2(k) + b < WORD
    ensures ToUint32(BitOr(x, y)) == a * Pow2(k) + b
  {
    OrBelow(a, b, k);
    SignedIsSameWord(a * Pow2(k) + b);
  }

  lemma Small(v: nat)
    requires v < WORD
    ensures ToUint32(v) == v && ToUint32(ToInt32(v)) == v
  {
  }

  lemma BitAndWord(x: int, y: int, r: nat)
    requires And(ToUint32(x), ToUint32(y)) == r < WORD
    ensures ToUint32(BitAnd(x, y)) == r
  {
    Small(r);
  }

  lemma LowMaskIsWord(k: nat)
    requires k < 32
    ensures Pow2(k) < WORD && ToUint32(Pow2(k) - 1) == Pow2(k) - 1
  {
    Powers();
    Pow2Ascends(k, 31);
    Small(Pow2(k) - 1);
  }

  lemma BitAndLow(x: int, k: nat)
    requires k < 32
    ensures ToUint32(BitAnd(x, Pow2(k) - 1)) == ToUint32(x) % Pow2(k)
  {
    var u, p := ToUint32(x), Pow2(k);
    LowMaskIsWord(k);
    AndLow(u, k);
    RemainderBelow(u, p);
    BitAndWord(x, p - 1, u % p);
  }

  lemma RemainderBelow(x: nat, p: nat)
    requires p > 0
    ensures 0 <= x % p < p && x % p <= x && x / p >= 0
  {
    if x < p { RemainderIs(x, p, 0, x); }
  }

  lemma DivMod(x: nat, p: nat)
    requires p > 0
    ensures x == Quotient(x, p) * p + x % p
  {
  }

  lemma UshrWord(x: int, k: nat)
    requires k < 32
    ensures Ushr(x, k) == Quotient(ToUint32(x), Pow2(k))
  {
    assert k % 32 == k;
  }
}
