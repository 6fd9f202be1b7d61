/** Registers as sequences of bits, least significant bit first, and their values. */
module Bits {

  type byte = x: int | 0 <= x < 256

  predicate Fits16(x: int) { -0x8000 <= x < 0x8000 }
  predicate Fits32(x: int) { -0x8000_0000 <= x < 0x8000_0000 }

  function Pow2(n: nat): (p: nat)
    ensures p > 0
  {
    if n == 0 then 1 else 2 * Pow2(n - 1)
  }

  function BitAt(b: bool, i: nat): nat { if b then Pow2(i) else 0 }

  /** The number a register holds. */
  function Value(s: seq<bool>): nat {
    if s == [] then 0 else Value(s[..|s| - 1]) + BitAt(s[|s| - 1], |s| - 1)
  }

  function Zeros(width: nat): (s: seq<bool>)
    ensures |s| == width && forall i | 0 <= i < width :: !s[i]
  {
    seq(width, i => false)
  }

  /** Number of trailing zero bits. */
  function Ctz(n: nat): nat
    requires n > 0
  {
    if n % 2 == 1 then 0 else 1 + Ctz(n / 2)
  }

  lemma SmallPowers()
    ensures Pow2(0) == 1 && Pow2(1) == 2 && Pow2(2) == 4 && Pow2(3) == 8 && Pow2(4) == 16
    ensures Pow2(5) == 32 && Pow2(6) == 64 && Pow2(7) == 128 && Pow2(8) == 256 && Pow2(9) == 512
  {}

  lemma {:induction false} ValueBound(s: seq<bool>)
    ensures Value(s) < Pow2(|s|)
  {
    if s != [] {
      ValueBound(s[..|s| - 1]);
    }
  }

  /** The value read from the low end. */
  lemma {:induction false} LowBitFirst(s: seq<bool>)
    requires s != []
    ensures Value(s) == BitAt(s[0], 0) + 2 * Value(s[1..])
  {
    var last := |s| - 1;
    if last > 0 {
      LowBitFirst(s[..last]);
      assert s[..last][1..] == s[1..][..last - 1];
    } else {
      assert s[..0] == [] == s[1..];
    }
  }

  /** A register whose lowest set bit is number i holds a number with i trailing zeros. */
  lemma {:induction false} LowestSetBit(s: seq<bool>, i: nat)
    requires i < |s| && s[i] && forall j | 0 <= j < i :: !s[j]
    ensures Value(s) > 0 && Ctz(Value(s)) == i
  {
    LowBitFirst(s);
    if i > 0 {
      assert !s[0];
      LowestSetBit(s[1..], i - 1);
    }
  }

  lemma {:induction false} NoSetBit(s: seq<bool>)
    requires forall j | 0 <= j < |s| :: !s[j]
    ensures Value(s) == 0
  {
    if s != [] {
      NoSetBit(s[..|s| - 1]);
    }
  }

  /** Registers of one width are equal when they hold the same number. */
  lemma {:induction false} ValueInjective(s: seq<bool>, t: seq<bool>)
    requires |s| == |t| && Value(s) == Value(t)
    ensures s == t
  {
    if s != [] {
      LowBitFirst(s);
      LowBitFirst(t);
      assert s[0] == t[0] && Value(s[1..]) == Value(t[1..]);
      ValueInjective(s[1..], t[1..]);
      assert s == [s[0]] + s[1..] && t == [t[0]] + t[1..];
    }
  }

  lemma DivModUnique(x: int, m: int, q: int, r: int)
    requires m > 0 && 0 <= r < m && x == q * m + r
    ensures x / m == q && x % m == r
  {
    var q' := x / m;
    assert x == q' * m + x % m;
    SubMul(q, q', m);
    SubMul(q', q, m);
    if q > q' {
      MulAtLeast(q - q', m);
    } else if q < q' {
      MulAtLeast(q' - q, m);
    }
  }

  lemma SameValue(s: seq<bool>, t: seq<bool>)
    requires |s| == |t|
    ensures Value(s) == Value(t) <==> s == t
  {
    if Value(s) == Value(t) {
      ValueInjective(s, t);
    }
  }

  function AllSet(width: nat): (s: seq<bool>)
    ensures |s| == width && forall i | 0 <= i < width :: s[i]
  {
    seq(width, i => true)
  }

  lemma {:induction false} AllSetValue(width: nat)
    ensures Value(AllSet(width)) == Pow2(width) - 1
  {
    if width > 0 {
      AllSetValue(width - 1);
      assert AllSet(width)[..width - 1] == AllSet(width - 1);
    }
  }

  lemma MulAtLeast(d: int, m: int)
    requires d >= 1 && m > 0
    ensures d * m >= m
  {
    assert d * m == (d - 1) * m + m;
  }

  lemma SubMul(a: int, b: int, m: int)
    ensures (a - b) * m == a * m - b * m
  {}

  lemma MulMonotone(a: int, b: int, m: int)
    requires a <= b && m >= 0
    ensures a * m <= b * m
  {
    if a < b && m > 0 {
      MulAtLeast(b - a, m);
      SubMul(b, a, m);
    }
  }

  lemma QuotientNonneg(x: nat, d: nat)
    requires d > 0
    ensures x / d >= 0
  {
    var q := x / d;
    assert x == q * d + x % d;
    if q < 0 {
      MulMonotone(q, -1, d);
    }
  }

  /** Counting modulo m: the quotient moves exactly when the remainder wraps. */
  lemma NextMod(n: nat, m: nat)
    requires m > 1
    ensures (n + 1) % m == if n % m == m - 1 then 0 else n % m + 1
    ensures (n + 1) / m == if n % m == m - 1 then n / m + 1 else n / m
  {
    var q, r := n / m, n % m;
    assert n == q * m + r;
    if r + 1 < m {
      DivModUnique(n + 1, m, q, r + 1);
    } else {
      SubMul(q + 1, q, m);
      DivModUnique(n + 1, m, q + 1, 0);
    }
  }
}
