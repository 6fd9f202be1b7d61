/** OPL3's fixed-point resampler: output samples interpolated between generated ones. */
module Opl3Resampler {
  import opened Bits

  const ONE: nat := 1024
  const CHIP_RATE: nat := 49716

  type sample = x: int | -0x8000 <= x < 0x8000

  datatype Frame = Frame(left: sample, right: sample)

  const SILENCE := Frame(0, 0)

  /** C's division, which truncates towards zero. */
  function CDiv(a: int, b: int): int
    requires b > 0
  {
    if a >= 0 then a / b else -((-a) / b)
  }

  /** The cast to a 16-bit signed sample. */
  function Cast16(x: int): (s: sample)
    ensures -0x8000 <= x < 0x8000 ==> s == x
  {
    (x + 0x8000) % 0x1_0000 - 0x8000
  }

  function Blend(a: int, b: int, ratio: int, pos: int): int { a * (ratio - pos) + b * pos }

  function Interpolate(a: sample, b: sample, ratio: int, pos: int): sample
    requires ratio > 0
  {
    Cast16(CDiv(Blend(a, b, ratio, pos), ratio))
  }

  lemma BlendBounds(a: int, b: int, lo: int, hi: int, ratio: int, pos: int)
    requires lo <= a <= hi && lo <= b <= hi && 0 <= pos <= ratio
    ensures lo * ratio <= Blend(a, b, ratio, pos) <= hi * ratio
  {
    MulMonotone(lo, a, ratio - pos);
    MulMonotone(a, hi, ratio - pos);
    MulMonotone(lo, b, pos);
    MulMonotone(b, hi, pos);
    SplitProduct(lo, ratio, pos);
    SplitProduct(hi, ratio, pos);
  }

  lemma SplitProduct(x: int, ratio: int, pos: int)
    ensures x * ratio == x * (ratio - pos) + x * pos
  {}

  lemma QuotientBetween(n: int, lo: int, hi: int, d: int)
    requires d > 0 && lo * d <= n <= hi * d
    ensures lo <= n / d <= hi
  {
    var q := n / d;
    assert n == q * d + n % d;
    if q < lo {
      MulAtLeast(lo - q, d);
      SubMul(lo, q, d);
    } else if q > hi {
      MulAtLeast(q - hi, d);
      SubMul(q, hi, d);
    }
  }

  /** An output lies between its two neighbours, so nothing is lost in the cast. */
  lemma BetweenNeighbours(a: sample, b: sample, ratio: int, pos: int)
    requires ratio > 0 && 0 <= pos < ratio
    ensures Interpolate(a, b, ratio, pos) == CDiv(Blend(a, b, ratio, pos), ratio)
    ensures (if a <= b then a else b) <= Interpolate(a, b, ratio, pos) <= (if a <= b then b else a)
  {
    var lo: int, hi: int := if a <= b then a else b, if a <= b then b else a;
    var n := Blend(a, b, ratio, pos);
    BlendBounds(a, b, lo, hi, ratio, pos);
    hide Blend;
    if n >= 0 {
      QuotientBetween(n, lo, hi, ratio);
    } else {
      Negate(lo, ratio);
      Negate(hi, ratio);
      QuotientBetween(-n, -hi, -lo, ratio);
    }
  }

  lemma Negate(x: int, d: int)
    ensures (-x) * d == -(x * d)
  {}

  /** The 32-bit products and their sum never overflow exactly for ratios up to 65536. */
  lemma FitsExactly(ratio: nat)
    requires ratio > 0
    ensures (forall a: sample, b: sample, pos: nat | pos < ratio :: Fits32(Blend(a, b, ratio, pos)))
            <==> ratio <= 0x1_0000
    ensures ratio <= 0x1_0000 ==>
              forall a: sample, b: sample, pos: nat | pos < ratio && Fits32(Blend(a, b, ratio, pos)) ::
                Fits32(a * (ratio - pos)) && Fits32(b * pos)
  {
    if ratio <= 0x1_0000 {
      forall a: sample, b: sample, pos: nat | pos < ratio
        ensures Fits32(Blend(a, b, ratio, pos)) && Fits32(a * (ratio - pos)) && Fits32(b * pos)
      {
        BlendBounds(a, b, -0x8000, 0x7fff, ratio, pos);
        MulMonotone(-0x8000, a, ratio - pos);
        MulMonotone(a, 0x7fff, ratio - pos);
        MulMonotone(-0x8000, b, pos);
        MulMonotone(b, 0x7fff, pos);
      }
    } else {
      var least: sample := -0x8000;
      assert Blend(least, least, ratio, 0) == -0x8000 * ratio;
      assert !Fits32(Blend(least, least, ratio, 0));
    }
  }

  lemma InterpolationFits(a: sample, b: sample, ratio: nat, pos: nat)
    requires pos < ratio <= 0x1_0000
    ensures Fits32(a * (ratio - pos)) && Fits32(b * pos) && Fits32(a * (ratio - pos) + b * pos)
  {
    FitsExactly(ratio);
    assert Fits32(Blend(a, b, ratio, pos));
  }

  /** The chip's n-th sample, silence before the first. */
  function Generated(gen: nat -> Frame, n: int): Frame {
    if n <= 0 then SILENCE else gen(n - 1)
  }

  /** Output number k: the chip's stream read at position 1024 k / ratio. */
  function OutputAt(gen: nat -> Frame, ratio: nat, k: nat): Frame
    requires ratio > 0
  {
    var n, pos := ONE * k / ratio, ONE * k % ratio;
    var a, b := Generated(gen, n - 1), Generated(gen, n);
    Frame(Interpolate(a.left, b.left, ratio, pos), Interpolate(a.right, b.right, ratio, pos))
  }

  // ---------- What an output is ----------

  /** x is the fraction n / d with what lies beyond the point cut off. */
  ghost predicate Truncated(x: int, n: int, d: int) {
    if n >= 0 then x * d <= n < (x + 1) * d else (x - 1) * d < n <= x * d
  }

  /** The point pos / ratio of the way from a to b. */
  ghost predicate OnTheWay(x: int, a: int, b: int, ratio: nat, pos: nat) {
    Truncated(x, a * ratio + (b - a) * pos, ratio)
  }

  /** Output number k: the chip has made 1024 k / ratio samples, and the output is as far from the last but
      one of them towards the last as the remainder is into the ratio. Before the first there is silence. */
  ghost predicate ReadsStream(buf: Frame, gen: nat -> Frame, ratio: nat, k: nat)
    requires ratio > 0
  {
    var made, pos := 1024 * k / ratio, 1024 * k % ratio;
    var older := if made >= 2 then gen(made - 2) else Frame(0, 0);
    var newer := if made >= 1 then gen(made - 1) else Frame(0, 0);
    OnTheWay(buf.left, older.left, newer.left, ratio, pos) && OnTheWay(buf.right, older.right, newer.right, ratio, pos)
  }

  lemma CutOff(n: int, d: int)
    requires d > 0
    ensures Truncated(CDiv(n, d), n, d)
  {
    if n >= 0 {
      var q := n / d;
      assert n == q * d + n % d && (q + 1) * d == q * d + d;
    } else {
      var q := (-n) / d;
      assert -n == q * d + (-n) % d && (-q) * d == -(q * d) && (-q - 1) * d == -(q * d) - d;
    }
  }

  lemma Weights(a: int, b: int, ratio: int, pos: int)
    ensures Blend(a, b, ratio, pos) == a * ratio + (b - a) * pos
  {}

  lemma InterpolatesBetween(a: sample, b: sample, ratio: nat, pos: nat)
    requires pos < ratio
    ensures OnTheWay(Interpolate(a, b, ratio, pos), a, b, ratio, pos)
  {
    hide Blend, Interpolate, Truncated;
    BetweenNeighbours(a, b, ratio, pos);
    CutOff(Blend(a, b, ratio, pos), ratio);
    Weights(a, b, ratio, pos);
  }

  lemma OutputReadsStream(gen: nat -> Frame, ratio: nat, k: nat)
    requires ratio > 0
    ensures ReadsStream(OutputAt(gen, ratio, k), gen, ratio, k)
  {
    hide Interpolate, OnTheWay;
    var n, pos := ONE * k / ratio, ONE * k % ratio;
    var a, b := Generated(gen, n - 1), Generated(gen, n);
    InterpolatesBetween(a.left, b.left, ratio, pos);
    InterpolatesBetween(a.right, b.right, ratio, pos);
  }

  /** At a whole position the output is the older sample itself. */
  lemma WholePosition(x: int, a: int, b: int, ratio: nat)
    requires ratio > 0 && OnTheWay(x, a, b, ratio, 0)
    ensures x == a
  {
    assert (b - a) * 0 == 0 && (x + 1) * ratio == x * ratio + ratio && (x - 1) * ratio == x * ratio - ratio;
    SubMul(a, x, ratio);
    SubMul(x, a, ratio);
    if x < a {
      MulAtLeast(a - x, ratio);
    } else if x > a {
      MulAtLeast(x - a, ratio);
    }
  }

  lemma Consume(g: nat, ratio: nat, left: int)
    ensures (g + 1) * ratio + (left - ratio) == g * ratio + left
  {}

  class Resampler {
    const gen: nat -> Frame
    const rateratio: nat
    var samplecnt: int
    var oldsamples: Frame
    var samples: Frame
    var generated: nat  // where the chip is in its own stream
    ghost var outputs: nat

    /** No drift: time consumed and time left always account for every output so far. */
    ghost predicate Valid()
      reads this
    {
      && 0 < rateratio <= 0x1_0000 && samplecnt >= 0
      && generated * rateratio + samplecnt == ONE * outputs
      && samples == Generated(gen, generated)
      && oldsamples == Generated(gen, generated - 1)
    }

    constructor (samplerate: nat, chip: nat -> Frame)
      requires samplerate >= 49 && samplerate * ONE / CHIP_RATE <= 0x1_0000
      ensures Valid() && gen == chip && outputs == 0 && rateratio == samplerate * ONE / CHIP_RATE
    {
      gen, rateratio := chip, samplerate * ONE / CHIP_RATE;
      samplecnt, oldsamples, samples, generated, outputs := 0, SILENCE, SILENCE, 0, 0;
    }

    method GenerateResampled() returns (buf: Frame)
      requires Valid()
      modifies this
      ensures Valid() && outputs == old(outputs) + 1
      ensures buf == OutputAt(gen, rateratio, old(outputs)) && ReadsStream(buf, gen, rateratio, old(outputs))
      ensures generated == ONE * old(outputs) / rateratio
    {
      hide Interpolate, ReadsStream;
      while samplecnt >= rateratio
        invariant Valid() && outputs == old(outputs)
        decreases samplecnt
      {
        oldsamples := samples;
        samples := gen(generated);
        Consume(generated, rateratio, samplecnt);
        generated := generated + 1;
        samplecnt := samplecnt - rateratio;
      }
      DivModUnique(ONE * outputs, rateratio, generated, samplecnt);
      InterpolationFits(oldsamples.left, samples.left, rateratio, samplecnt);
      InterpolationFits(oldsamples.right, samples.right, rateratio, samplecnt);
      assert Fits32(oldsamples.left * (rateratio - samplecnt)) && Fits32(samples.left * samplecnt);
      assert Fits32(oldsamples.left * (rateratio - samplecnt) + samples.left * samplecnt);
      assert Fits32(oldsamples.right * (rateratio - samplecnt)) && Fits32(samples.right * samplecnt);
      assert Fits32(oldsamples.right * (rateratio - samplecnt) + samples.right * samplecnt);
      buf := Frame(Interpolate(oldsamples.left, samples.left, rateratio, samplecnt),
                   Interpolate(oldsamples.right, samples.right, rateratio, samplecnt));
      OutputReadsStream(gen, rateratio, outputs);
      samplecnt := samplecnt + ONE;
      outputs := outputs + 1;
    }

    method GenerateStream(numsamples: nat) returns (stream: seq<Frame>)
      requires Valid()
      modifies this
      ensures Valid() && outputs == old(outputs) + numsamples
      ensures |stream| == numsamples
      ensures forall i :: 0 <= i < numsamples ==> stream[i] == OutputAt(gen, rateratio, old(outputs) + i)
      ensures forall i :: 0 <= i < numsamples ==> ReadsStream(stream[i], gen, rateratio, old(outputs) + i)
    {
      hide OutputAt, ReadsStream;
      stream := [];
      for i := 0 to numsamples
        invariant Valid() && outputs == old(outputs) + i && |stream| == i
        invariant forall j :: 0 <= j < i ==> stream[j] == OutputAt(gen, rateratio, old(outputs) + j)
        invariant forall j :: 0 <= j < i ==> ReadsStream(stream[j], gen, rateratio, old(outputs) + j)
      {
        var frame := GenerateResampled();
        stream := stream + [frame];
      }
    }
  }
}
