/** What a single flipped bit does to the folded checksum. */
module ChecksumErrors {
  import opened Bits
  import opened Fletcher

  function Next(k: nat): nat { if k == 15 then 0 else k + 1 }

  /** How far bit i lies above bit k, going round the sixteen positions. */
  function Distance(k: nat, i: nat): nat
    requires k < 16 && i < 16
  {
    if i >= k then i - k else i + 16 - k
  }

  /** Bit positions met by a carry that starts at bit k: the run of j ones, cleared, then one set bit. */
  function Ripple(s: seq<bool>, k: nat, j: nat): (r: seq<bool>)
    requires |s| == 16 && k < 16
    ensures |r| == 16
    decreases j
  {
    if j == 0 then s[k := true] else Ripple(s[k := false], Next(k), j - 1)
  }

  /** The length of the run of ones from bit k upwards, going round. */
  function RunOfOnes(s: seq<bool>, k: nat, limit: nat): (j: nat)
    requires |s| == 16 && k < 16
    ensures j <= limit
    decreases limit
  {
    if limit == 0 || !s[k] then 0 else 1 + RunOfOnes(s, Next(k), limit - 1)
  }

  ghost predicate IsRun(s: seq<bool>, k: nat, j: nat)
    requires |s| == 16 && k < 16
  {
    && j <= 16
    && (forall i :: 0 <= i < 16 && Distance(k, i) < j ==> s[i])
    && (j < 16 ==> forall i :: 0 <= i < 16 && Distance(k, i) == j ==> !s[i])
  }

  lemma {:induction false} RunIsRun(s: seq<bool>, k: nat, limit: nat)
    requires |s| == 16 && k < 16 && limit <= 16
    ensures var j := RunOfOnes(s, k, limit);
            && (forall i :: 0 <= i < 16 && Distance(k, i) < j ==> s[i])
            && (j < limit ==> forall i :: 0 <= i < 16 && Distance(k, i) == j ==> !s[i])
    decreases limit
  {
    if limit > 0 && s[k] {
      RunIsRun(s, Next(k), limit - 1);
    }
  }

  /** The carry changes exactly the run and the bit that ends it. */
  lemma {:induction false} RippleBits(s: seq<bool>, k: nat, j: nat, i: nat)
    requires |s| == 16 && k < 16 && i < 16 && IsRun(s, k, j)
    ensures Ripple(s, k, j)[i] == if j == 16 then i == k else if Distance(k, i) <= j then !s[i] else s[i]
    decreases j
  {
    if j > 0 {
      RippleBits(s[k := false], Next(k), j - 1, i);
    }
  }

  lemma {:induction false} SetBitValue(s: seq<bool>, k: nat, b: bool)
    requires k < |s|
    ensures Value(s[k := b]) == Value(s) - BitAt(s[k], k) + BitAt(b, k)
  {
    var n := |s| - 1;
    if k < n {
      SetBitValue(s[..n], k, b);
      assert s[k := b][..n] == s[..n][k := b];
    } else {
      assert s[k := b][..n] == s[..n];
    }
  }

  /** The carry adds 2^k with the carry out of bit 15 brought round to bit 0. */
  lemma {:induction false} RippleValue(s: seq<bool>, k: nat, j: nat)
    requires |s| == 16 && k < 16 && IsRun(s, k, j)
    ensures var v := Value(Ripple(s, k, j)); var sum := Value(s) + Pow2(k);
            v == sum || v == sum - 0xffff
    decreases j
  {
    hide Value, Pow2;
    assert Distance(k, k) == 0;
    ValueBound(s);
    PowerBound(k);
    if j == 0 {
      SetBitValue(s, k, true);
    } else {
      SetBitValue(s, k, false);
      RippleValue(s[k := false], Next(k), j - 1);
      NextPower(k);
    }
  }

  lemma NextPower(k: nat)
    requires k < 16
    ensures Pow2(Next(k)) == if k == 15 then 1 else 2 * Pow2(k)
    ensures k == 15 ==> Pow2(k) == 0x8000
    ensures Pow2(16) == 0x1_0000
  {
    assert Pow2(8) == 256 && Pow2(15) == 0x8000;
  }

  /** Adding 2^k to a folded accumulator, in the representatives 1..65535. */
  lemma AddPowerFolded(a: nat, k: nat, s: seq<bool>, j: nat)
    requires 1 <= a <= 0xffff && k < 16 && s == ToBits(a, 16) && IsRun(s, k, j)
    ensures ToBits(Ones(a + Pow2(k)), 16) == Ripple(s, k, j)
  {
    hide ToBits, Pow2, Value, Ones, IsRun, Ripple;
    var r := Ripple(s, k, j);
    NextPower(k);
    RippleValue(s, k, j);
    PowerBound(k);
    ValueBound(r);
    SomeBitSet(s, k, j);
    OnesOfSum(a, Pow2(k), Value(r));
    ValueInjective(ToBits(Ones(a + Pow2(k)), 16), r);
  }

  lemma SomeBitSet(s: seq<bool>, k: nat, j: nat)
    requires |s| == 16 && k < 16 && IsRun(s, k, j)
    ensures Value(Ripple(s, k, j)) > 0
  {
    var i := if j == 16 then k else if k + j < 16 then k + j else k + j - 16;
    RippleBits(s, k, j, i);
    SetBitValue(Ripple(s, k, j), i, false);
  }

  lemma OnesOfSum(a: nat, p: nat, v: nat)
    requires 1 <= a <= 0xffff && 1 <= p <= 0x8000 && 1 <= v <= 0xffff
    requires v == a + p || v == a + p - 0xffff
    ensures Ones(a + p) == v
  {
  }

  lemma {:induction false} PowerBound(k: nat)
    requires k < 16
    ensures 1 <= Pow2(k) <= 0x8000
  {
    SmallPowers();
    if k > 9 {
      PowerBound(k - 1);
    }
    assert Pow2(10) == 1024 && Pow2(15) == 0x8000;
  }

  /** A run that stops short of the bit below k leaves two bits eight apart that fare differently. */
  lemma HalvesMove(s: seq<bool>, k: nat, j: nat)
    requires |s| == 16 && k < 16 && IsRun(s, k, j)
    ensures XorHalves(Ripple(s, k, j)) == XorHalves(s) <==> j == 15
  {
    var r := Ripple(s, k, j);
    forall i | 0 <= i < 16
      ensures r[i] == if j == 16 then i == k else if Distance(k, i) <= j then !s[i] else s[i]
    {
      RippleBits(s, k, j, i);
    }
    hide Ripple;
    if j == 15 {
      assert forall i :: 0 <= i < 16 ==> Distance(k, i) <= 15;
    } else {
      var x := if j < 8 || j == 16 then k else if k == 0 then 15 else k - 1;
      var lo := if x < 8 then x else x - 8;
      assert XorHalves(r)[lo] == (r[lo] != r[lo + 8]);
      assert XorHalves(s)[lo] == (s[lo] != s[lo + 8]);
      assert lo == x || lo + 8 == x;
      var y := if x < 8 then x + 8 else x - 8;
    }
  }

  function Below(k: nat): nat { if k == 0 then 15 else k - 1 }

  /** The run has length fifteen exactly when only the bit below k is clear. */
  lemma RunOfFifteen(s: seq<bool>, k: nat, j: nat)
    requires |s| == 16 && k < 16 && IsRun(s, k, j)
    ensures j == 15 <==> Value(s) == 0xffff - Pow2(Below(k))
  {
    hide Value, Pow2;
    var t := AllSet(16)[Below(k) := false];
    AllSetValue(16);
    NextPower(k);
    SetBitValue(AllSet(16), Below(k), false);
    SameValue(s, t);
    assert Distance(k, Below(k)) == 15;
    if j == 15 {
      assert forall i :: 0 <= i < 16 && i != Below(k) ==> Distance(k, i) < 15;
      assert s == t;
    } else if j == 16 {
      assert s[Below(k)] != t[Below(k)];
    } else {
      var i := if k + j < 16 then k + j else k + j - 16;
      assert Distance(k, i) == j;
      assert s[i] != t[i];
    }
  }

  /** Flipping bit k of some word from zero to one adds 2^k to the first accumulator, so the folded
      accumulator always changes; the byte made from it stays the same exactly when the folded
      value before was all ones but for the bit below k. */
  lemma FlipAndHighByte(a: nat, k: nat)
    requires 1 <= a <= 0xffff && k < 16
    ensures Ones(a + Pow2(k)) != a
    ensures XorBytes(Ones(a + Pow2(k))) == XorBytes(a) <==> a == 0xffff - Pow2(Below(k))
  {
    hide *;
    PowerBound(k);
    StaysApart(a, Pow2(k));
    var s := ToBits(a, 16);
    var j := FindRun(s, k);
    SameHighByte(a, Ones(a + Pow2(k)), k, s, j);
  }

  lemma FindRun(s: seq<bool>, k: nat) returns (j: nat)
    requires |s| == 16 && k < 16
    ensures IsRun(s, k, j)
  {
    j := RunOfOnes(s, k, 16);
    RunIsRun(s, k, 16);
  }

  lemma SameHighByte(a: nat, b: nat, k: nat, s: seq<bool>, j: nat)
    requires 1 <= a <= 0xffff && k < 16 && s == ToBits(a, 16) && b == Ones(a + Pow2(k)) && IsRun(s, k, j)
    ensures XorBytes(b) == XorBytes(a) <==> a == 0xffff - Pow2(Below(k))
  {
    hide ToBits, Pow2, IsRun, Ripple, Value, XorHalves, XorBytes, Ones;
    NextPower(k);
    AddPowerFolded(a, k, s, j);
    HalvesMove(s, k, j);
    RunOfFifteen(s, k, j);
    BytesAgree(b, a);
  }

  lemma BytesAgree(a: nat, b: nat)
    ensures XorBytes(a) == XorBytes(b) <==> XorHalves(ToBits(a, 16)) == XorHalves(ToBits(b, 16))
  {
    if XorBytes(a) == XorBytes(b) {
      ValueInjective(XorHalves(ToBits(a, 16)), XorHalves(ToBits(b, 16)));
    }
  }

  lemma StaysApart(a: nat, p: nat)
    requires 1 <= a <= 0xffff && 1 <= p <= 0x8000
    ensures Ones(a + p) != a
  {}

  lemma {:induction false} SumAfterFlip(ws: seq<word>, t: nat, d: nat, n: nat)
    requires t < n <= |ws| && ws[t] + d < 0x1_0000
    ensures PlainSum(ws[t := ws[t] + d], n) == PlainSum(ws, n) + d
  {
    var vs := ws[t := ws[t] + d];
    if t < n - 1 {
      SumAfterFlip(ws, t, d, n - 1);
    } else {
      SumOfPrefix(ws, vs, t);
    }
  }

  lemma {:induction false} SumOfPrefix(ws: seq<word>, vs: seq<word>, n: nat)
    requires n <= |ws| == |vs| && ws[..n] == vs[..n]
    ensures PlainSum(ws, n) == PlainSum(vs, n)
  {
    if n > 0 {
      assert ws[n - 1] == ws[..n][n - 1] == vs[..n][n - 1] == vs[n - 1];
      assert ws[..n - 1] == ws[..n][..n - 1] == vs[..n][..n - 1] == vs[..n - 1];
      SumOfPrefix(ws, vs, n - 1);
    }
  }

  lemma {:induction false} WeightedAfterFlip(ws: seq<word>, t: nat, d: nat, n: nat)
    requires t <= n <= |ws| && t < |ws| && ws[t] + d < 0x1_0000
    ensures WeightedSum(ws[t := ws[t] + d], n) == WeightedSum(ws, n) + (n - t) * d
    decreases n
  {
    var vs := ws[t := ws[t] + d];
    if n == t {
      WeightedOfPrefix(ws, vs, t);
    } else {
      WeightedAfterFlip(ws, t, d, n - 1);
      SumAfterFlip(ws, t, d, n);
      hide PlainSum;
      assert (n - t) * d == (n - 1 - t) * d + d;
    }
  }

  lemma {:induction false} WeightedOfPrefix(ws: seq<word>, vs: seq<word>, n: nat)
    requires n <= |ws| == |vs| && ws[..n] == vs[..n]
    ensures WeightedSum(ws, n) == WeightedSum(vs, n)
  {
    if n > 0 {
      SumOfPrefix(ws, vs, n);
      assert ws[..n - 1] == ws[..n][..n - 1] == vs[..n][..n - 1] == vs[..n - 1];
      hide PlainSum;
      WeightedOfPrefix(ws, vs, n - 1);
    }
  }

  // ---------- A flipped bit in a message ----------

  ghost predicate BitSet(ws: seq<word>, t: nat, k: nat)
    requires t < |ws| && k < 16
  {
    ToBits(ws[t], 16)[k]
  }

  /** The words with bit k of word t negated. */
  function Flipped(ws: seq<word>, t: nat, k: nat): (vs: seq<word>)
    requires t < |ws| && k < 16
    ensures |vs| == |ws|
  {
    ws[t := FlipBit(ws[t], k)]
  }

  function FlipBit(w: word, k: nat): (v: word)
    requires k < 16
  {
    hide ToBits, Value;
    var s := ToBits(w, 16);
    var r := s[k := !s[k]];
    ValueBound(r);
    NextPower(k);
    Value(r)
  }

  lemma FlipBitValue(w: word, k: nat)
    requires k < 16
    ensures FlipBit(w, k) == if ToBits(w, 16)[k] then w - Pow2(k) else w + Pow2(k)
  {
    hide ToBits, Value;
    var s := ToBits(w, 16);
    NextPower(k);
    SetBitValue(s, k, !s[k]);
  }

  /** What the flip adds to the weighted sum, or takes from it: 2^k as often as word t counts. */
  function Weight(n: nat, t: nat, k: nat): nat
    requires t <= n
  {
    hide Pow2;
    MulMonotone(0, n - t, Pow2(k));
    (n - t) * Pow2(k)
  }

  /** The folded sum whose byte does not show a flip of bit k. */
  function Blind(one: bool, k: nat): int { if one then Pow2(Below(k)) else 0xffff - Pow2(Below(k)) }

  /** A weight added, or taken away: modulo 65535, taking it once is adding it 65534 times. */
  function Shifted(one: bool, b: nat, weight: nat): nat { if one then b + 0xfffe * weight else b + weight }

  /** A flip moves the two sums of the words apart by 2^k and by its weight. */
  lemma SumsMove(ws: seq<word>, t: nat, k: nat)
    requires t < |ws| && k < 16
    ensures var vs, n := Flipped(ws, t, k), |ws|;
            Apart(BitSet(ws, t, k), PlainSum(ws, n), PlainSum(vs, n), Pow2(k))
            && Apart(BitSet(ws, t, k), WeightedSum(ws, n), WeightedSum(vs, n), Weight(n, t, k))
  {
    hide ToBits, PlainSum, WeightedSum, Pow2, FlipBit;
    var n := |ws|;
    var vs := Flipped(ws, t, k);
    FlipBitValue(ws[t], k);
    if BitSet(ws, t, k) {
      assert ws == vs[t := vs[t] + Pow2(k)];
      SumAfterFlip(vs, t, Pow2(k), n);
      WeightedAfterFlip(vs, t, Pow2(k), n);
    } else {
      SumAfterFlip(ws, t, Pow2(k), n);
      WeightedAfterFlip(ws, t, Pow2(k), n);
    }
  }

  ghost predicate Apart(one: bool, x: nat, y: nat, d: nat) { if one then x == y + d else y == x + d }

  /** Adding 2^k leads to the bit below k alone exactly from all ones but for that bit. */
  lemma Mirror(a: nat, k: nat)
    requires 1 <= a <= 0xffff && k < 16
    ensures Ones(a + Pow2(k)) == Pow2(Below(k)) <==> a == 0xffff - Pow2(Below(k))
  {
    hide Pow2, Ones;
    var q := Pow2(Below(k));
    PowerBound(k);
    PowerBound(Below(k));
    NextPower(Below(k));
    NextPower(k);
    var v := if a + Pow2(k) > 0xffff then a + Pow2(k) - 0xffff else a + Pow2(k);
    OnesOfSum(a, Pow2(k), v);
  }

  lemma HighByteBlind(one: bool, x: nat, y: nat, k: nat)
    requires k < 16 && Apart(one, x, y, Pow2(k))
    ensures XorBytes(Ones(y)) == XorBytes(Ones(x)) <==> Ones(x) == Blind(one, k)
  {
    hide XorBytes, Pow2, Ones, Below;
    if one {
      OnesAbsorbs(y, Pow2(k));
      FlipAndHighByte(Ones(y), k);
      Mirror(Ones(y), k);
    } else {
      OnesAbsorbs(x, Pow2(k));
      FlipAndHighByte(Ones(x), k);
    }
  }

  lemma FoldedShift(one: bool, x: nat, y: nat, weight: nat)
    requires Apart(one, x, y, weight)
    ensures Ones(Shifted(one, Ones(x), weight)) == Ones(y)
  {
    hide Ones;
    if one {
      OnesAbsorbs(x, 0xfffe * weight);
      SeedVanishes(y, weight);
    } else {
      OnesAbsorbs(x, weight);
    }
  }

  /** When bit k of word t is negated, the first byte of the checksum stays the same exactly when the folded
      plain sum of the intact words is all ones but for the bit below k, for a bit that was zero, or that bit
      alone, for one that was set. The flip goes unnoticed exactly when, besides, the byte of their folded
      weighted sum survives the flip's weight being added or taken away. */
  lemma SingleBitFlip(ws: seq<word>, t: nat, k: nat)
    requires |ws| <= 256 && t < |ws| && k < 16
    ensures var vs, n, one := Flipped(ws, t, k), |ws|, BitSet(ws, t, k);
            var a, b := Ones(PlainSum(ws, n)), Ones(WeightedSum(ws, n));
            && (Checksum(vs) / 256 == Checksum(ws) / 256 <==> a == Blind(one, k))
            && (Checksum(vs) == Checksum(ws) <==>
                  a == Blind(one, k) && XorBytes(Ones(Shifted(one, b, Weight(n, t, k)))) == XorBytes(b))
  {
    hide BitSet, Flipped, Weight, Blind, Shifted, XorBytes, PlainSum, WeightedSum, Checksum, Ones, Pow2;
    var vs, n, one := Flipped(ws, t, k), |ws|, BitSet(ws, t, k);
    ChecksumIsFletcher(ws);
    ChecksumIsFletcher(vs);
    SumsMove(ws, t, k);
    HighByteBlind(one, PlainSum(ws, n), PlainSum(vs, n), k);
    FoldedShift(one, WeightedSum(ws, n), WeightedSum(vs, n), Weight(n, t, k));
  }

  function Turned(k: nat, m: nat): nat { if k + m < 16 then k + m else k + m - 16 }

  /** For a word whose distance from the end is a power of two, the last one among them, the second
      condition has the form of the first: both sums must sit in a blind spot. */
  lemma FlipAtPowerOfTwo(ws: seq<word>, t: nat, k: nat, m: nat)
    requires |ws| <= 256 && t < |ws| && k < 16 && m <= 8 && |ws| - t == Pow2(m)
    ensures var one := BitSet(ws, t, k);
            Checksum(Flipped(ws, t, k)) == Checksum(ws) <==>
              && Ones(PlainSum(ws, |ws|)) == Blind(one, k)
              && Ones(WeightedSum(ws, |ws|)) == Blind(one, Turned(k, m))
  {
    hide BitSet, Flipped, Blind, Shifted, XorBytes, PlainSum, WeightedSum, Checksum, Ones, Pow2, Turned;
    SingleBitFlip(ws, t, k);
    TurnedBlind(BitSet(ws, t, k), Ones(WeightedSum(ws, |ws|)), m, k, Weight(|ws|, t, k));
  }

  lemma TurnedBlind(one: bool, b: nat, m: nat, k: nat, weight: nat)
    requires 1 <= b <= 0xffff && k < 16 && m <= 8 && weight == Pow2(m) * Pow2(k)
    ensures XorBytes(Ones(Shifted(one, b, weight))) == XorBytes(b) <==> b == Blind(one, Turned(k, m))
  {
    hide XorBytes, Ones, Pow2, Below;
    var p := Turned(k, m);
    if one {
      var c := Ones(b + 0xfffe * weight);
      OnesAbsorbs(b + 0xfffe * weight, weight);
      SeedVanishes(b, weight);
      AlreadyFolded(b);
      TurnedPower(c, m, k);
      FlipAndHighByte(c, p);
      Mirror(c, p);
    } else {
      TurnedPower(b, m, k);
      FlipAndHighByte(b, p);
    }
  }

  lemma AlreadyFolded(b: nat)
    requires 1 <= b <= 0xffff
    ensures Ones(b) == b
  {}

  /** Modulo 65535 powers of two go round the sixteen positions. */
  lemma TurnedPower(b: nat, m: nat, k: nat)
    requires k < 16 && m <= 8
    ensures Ones(b + Pow2(m) * Pow2(k)) == Ones(b + Pow2(Turned(k, m)))
  {
    hide Pow2, Ones;
    PowerSum(m, k);
    if k + m >= 16 {
      PowerSum(16, k + m - 16);
      NextPower(0);
      SeedVanishes(b + Pow2(k + m - 16), Pow2(k + m - 16));
    }
  }

  lemma {:induction false} PowerSum(a: nat, b: nat)
    ensures Pow2(a) * Pow2(b) == Pow2(a + b)
  {
    if a > 0 {
      PowerSum(a - 1, b);
      assert Pow2(a) == 2 * Pow2(a - 1) && Pow2(a + b) == 2 * Pow2(a - 1 + b);
      hide Pow2;
      assert (2 * Pow2(a - 1)) * Pow2(b) == 2 * (Pow2(a - 1) * Pow2(b));
    }
  }

  lemma OnesAbsorbs(x: nat, p: nat)
    ensures Ones(Ones(x) + p) == Ones(x + p)
  {
    var q := if x % 0xffff == 0 then x / 0xffff - 1 else x / 0xffff;
    assert x == 0xffff * q + Ones(x);
    if q >= 0 {
      SeedVanishes(Ones(x) + p, q);
    } else {
      SeedVanishes(x + p, 1);
    }
  }

  /** Single-bit errors the whole checksum misses do exist: the sums of these three words fold to
      the one value a flip of bit 0 cannot be seen in, both of them. */
  lemma UndetectedFlip()
    ensures Checksum([1, 0xfffd, 0x8000]) == Checksum([1, 0xfffd, 0x8001])
  {
    hide *;
    var ws: seq<word>, vs: seq<word> := [1, 0xfffd, 0x8000], [1, 0xfffd, 0x8001];
    ChecksumIsFletcher(ws);
    ChecksumIsFletcher(vs);
    SumsOfThree(ws);
    SumsOfThree(vs);
    FoldedSumsAreTheBlindSpot();
    FlipAndHighByte(0x7fff, 0);
  }

  lemma FoldedSumsAreTheBlindSpot()
    ensures Ones(0x1_7ffe) == 0x7fff && Ones(0x1_7fff) == 0x8000
    ensures Ones(0x2_7ffd) == 0x7fff && Ones(0x2_7ffe) == 0x8000
    ensures 0x7fff == 0xffff - Pow2(Below(0)) && Ones(0x7fff + Pow2(0)) == 0x8000
  {
    NextPower(15);
  }

  lemma SumsOfThree(ws: seq<word>)
    requires |ws| == 3
    ensures var x: int, y: int, z: int := ws[0], ws[1], ws[2];
            PlainSum(ws, 3) == x + y + z && WeightedSum(ws, 3) == 3 * x + 2 * y + z
  {
    var x: int, y: int := ws[0], ws[1];
    assert PlainSum(ws, 0) == 0 && PlainSum(ws, 1) == x && PlainSum(ws, 2) == x + y;
    assert WeightedSum(ws, 0) == 0 && WeightedSum(ws, 1) == x && WeightedSum(ws, 2) == 2 * x + y;
  }
}
