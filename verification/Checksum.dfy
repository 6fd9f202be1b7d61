/** The serial protocol's checksum: Fletcher sums over 16-bit words, folded to sixteen bits. */
module Fletcher {
  import opened Bits

  const ULONG: nat := 0x1_0000_0000

  type word = x: int | 0 <= x < 0x1_0000

  datatype Sums = Sums(a: nat, b: nat)

  /** The two accumulators after the first n words, in 32-bit unsigned arithmetic. */
  function Accumulate(ws: seq<word>, n: nat): (s: Sums)
    requires n <= |ws|
    ensures s.a < ULONG && s.b < ULONG
  {
    if n == 0 then Sums(0xffff, 0xffff)
    else
      var s := Accumulate(ws, n - 1);
      var a := (s.a + ws[n - 1]) % ULONG;
      Sums(a, (s.b + a) % ULONG)
  }

  function Fold(x: nat): nat { x % 0x1_0000 + x / 0x1_0000 }

  function ToBits(n: nat, width: nat): (s: seq<bool>)
    ensures |s| == width
    ensures n < Pow2(width) ==> Value(s) == n
  {
    if width == 0 then []
    else
      var s := [n % 2 == 1] + ToBits(n / 2, width - 1);
      assert n < Pow2(width) ==> Value(s) == n by {
        assert s[1..] == ToBits(n / 2, width - 1);
        LowBitFirst(s);
        assert Pow2(0) == 1;
      }
      s
  }

  function XorHalves(s: seq<bool>): (r: seq<bool>)
    requires |s| == 16
    ensures |r| == 8
  {
    seq(8, i requires 0 <= i < 8 => s[i] != s[i + 8])
  }

  /** The exclusive or of the two bytes of a word. */
  function XorBytes(w: nat): (r: nat)
    ensures r < 256
  {
    var x := XorHalves(ToBits(w, 16));
    ValueBound(x);
    SmallPowers();
    Value(x)
  }

  function Result(s: Sums): (r: word) {
    256 * XorBytes(Fold(Fold(s.a))) + XorBytes(Fold(Fold(s.b)))
  }

  function Checksum(ws: seq<word>): word { Result(Accumulate(ws, |ws|)) }

  method ComputeChecksum(wbuff: seq<word>) returns (crc: word)
    ensures crc == Checksum(wbuff)
  {
    hide XorBytes;
    var a: nat, b: nat := 0xffff, 0xffff;
    for t := 0 to |wbuff|
      invariant Accumulate(wbuff, t) == Sums(a, b)
    {
      a := (a + wbuff[t]) % ULONG;
      b := (b + a) % ULONG;
    }
    a := a % 0x1_0000 + a / 0x1_0000;
    b := b % 0x1_0000 + b / 0x1_0000;
    a := a % 0x1_0000 + a / 0x1_0000;
    b := b % 0x1_0000 + b / 0x1_0000;
    crc := 256 * XorBytes(a) + XorBytes(b);
  }

  // ---------- The sums are Fletcher's ----------

  function PlainSum(ws: seq<word>, n: nat): nat
    requires n <= |ws|
  {
    if n == 0 then 0 else PlainSum(ws, n - 1) + ws[n - 1]
  }

  /** Each word weighted by its distance from the end of the first n. */
  function WeightedSum(ws: seq<word>, n: nat): nat
    requires n <= |ws|
  {
    if n == 0 then 0 else WeightedSum(ws, n - 1) + PlainSum(ws, n)
  }

  /** The largest the second accumulator can be after n words. */
  function Bound(n: nat): nat {
    if n == 0 then 0xffff else Bound(n - 1) + 0xffff * (n + 1)
  }

  lemma {:induction false} BoundIsTriangular(n: nat)
    ensures 2 * Bound(n) == 0xffff * ((n + 1) * (n + 2))
  {
    if n > 0 {
      BoundIsTriangular(n - 1);
      assert (n + 1) * (n + 2) == n * (n + 1) + 2 * (n + 1);
    }
  }

  lemma {:induction false} BoundGrows(n: nat, m: nat)
    requires n <= m
    ensures Bound(n) <= Bound(m)
  {
    if n < m {
      BoundGrows(n, m - 1);
    }
  }

  lemma BoundFits(n: nat, last: nat)
    requires n <= last == 256
    ensures Bound(n) < ULONG
  {
    BoundIsTriangular(last);
    BoundGrows(n, last);
  }

  lemma {:induction false} NoOverflow(ws: seq<word>, n: nat)
    requires n <= |ws| && n <= 256
    ensures var s := Accumulate(ws, n);
            && s.a == 0xffff + PlainSum(ws, n) <= 0xffff * (n + 1)
            && s.b == 0xffff * (n + 1) + WeightedSum(ws, n) <= Bound(n)
  {
    hide Bound, Accumulate, PlainSum, WeightedSum;
    BoundFits(n, 256);
    if n == 0 {
      FirstSums(ws, n);
    } else {
      NoOverflow(ws, n - 1);
      NextSums(ws, n - 1);
      assert 0xffff * (n + 1) == 0xffff * n + 0xffff;
    }
  }

  lemma FirstSums(ws: seq<word>, zero: nat)
    requires zero == 0
    ensures Accumulate(ws, zero) == Sums(0xffff, 0xffff) && Bound(zero) == 0xffff
    ensures PlainSum(ws, zero) == WeightedSum(ws, zero) == 0
  {}

  lemma NextSums(ws: seq<word>, n: nat)
    requires n < |ws|
    ensures var s, a := Accumulate(ws, n), (Accumulate(ws, n).a + ws[n]) % ULONG;
            Accumulate(ws, n + 1) == Sums(a, (s.b + a) % ULONG)
    ensures PlainSum(ws, n + 1) == PlainSum(ws, n) + ws[n]
    ensures WeightedSum(ws, n + 1) == WeightedSum(ws, n) + PlainSum(ws, n + 1)
    ensures Bound(n + 1) == Bound(n) + 0xffff * (n + 2)
  {}

  /** The representative in 1..65535 of a number modulo 65535. */
  function Ones(x: nat): (r: nat)
    ensures 1 <= r <= 0xffff
  {
    if x % 0xffff == 0 then 0xffff else x % 0xffff
  }

  lemma TwoFolds(x: nat)
    requires 0 < x < ULONG
    ensures Fold(Fold(x)) == Ones(x)
  {
    FoldStep(x);
    FoldStep(Fold(x));
    var r := Fold(Fold(x));
    assert 1 <= r <= 0xffff;
    assert r % 0xffff == if r == 0xffff then 0 else r;
  }

  lemma FoldStep(x: nat)
    ensures Fold(x) % 0xffff == x % 0xffff
    ensures x > 0 ==> Fold(x) > 0
    ensures x < ULONG ==> Fold(x) <= 0x1_fffe
    ensures x <= 0x1_fffe ==> Fold(x) <= 0xffff
  {
    var hi := x / 0x1_0000;
    assert x == Fold(x) + hi * 0xffff;
    var f := Fold(x);
    DivModUnique(x, 0xffff, f / 0xffff + hi, f % 0xffff);
  }

  /** For buffers up to a sector nothing wraps, and two folds leave the Fletcher sums of the words
      themselves modulo 65535: the seed and the folding only choose 65535 to represent zero. */
  lemma ChecksumIsFletcher(ws: seq<word>)
    requires |ws| <= 256
    ensures Checksum(ws) == 256 * XorBytes(Ones(PlainSum(ws, |ws|))) + XorBytes(Ones(WeightedSum(ws, |ws|)))
  {
    FoldedSums(ws);
    hide XorBytes, PlainSum, WeightedSum, Accumulate, Fold, Ones;
  }

  lemma FoldedSums(ws: seq<word>)
    requires |ws| <= 256
    ensures Fold(Fold(Accumulate(ws, |ws|).a)) == Ones(PlainSum(ws, |ws|))
    ensures Fold(Fold(Accumulate(ws, |ws|).b)) == Ones(WeightedSum(ws, |ws|))
  {
    hide PlainSum, WeightedSum, Accumulate, Fold, Ones;
    var n := |ws|;
    NoOverflow(ws, n);
    var s := Accumulate(ws, n);
    TwoFolds(s.a);
    SeedVanishes(PlainSum(ws, n), 1);
    TwoFolds(s.b);
    SeedVanishes(WeightedSum(ws, n), n + 1);
  }

  lemma SeedVanishes(x: nat, k: nat)
    ensures Ones(0xffff * k + x) == Ones(x)
  {
    DivModUnique(0xffff * k + x, 0xffff, k + x / 0xffff, x % 0xffff);
  }
}
