/** The eight waveforms of an OPL3 operator, its feedback, and the mix of all operators. */
module Opl3Wave {
  import opened Bits
  import opened Opl3Rom
  import opened Opl3Output
  import opened Opl3Envelope

  /** The amplitude with the sign the phase asks for: the chip complements instead of negating. */
  function Signed(negative: bool, amplitude: int): int {
    if negative then -amplitude - 1 else amplitude
  }

  /** The attenuation of the first half of a sine, read forwards or backwards. */
  function HalfSine(phase: nat): nat {
    if phase / 256 % 2 == 1 then Logsinrom(255 - phase % 256) else Logsinrom(phase % 256)
  }

  /** The same at double speed. */
  function FastHalfSine(phase: nat): nat {
    if phase / 128 % 2 == 1 then Logsinrom((255 - phase % 256) * 2 % 256) else Logsinrom(phase * 2 % 256)
  }

  const SILENT: nat := 0x1000

  function Sin0(phase: nat, envelope: nat): int {
    Signed(phase / 512 % 2 == 1, CalcExp(HalfSine(phase) + 8 * envelope))
  }

  function Sin1(phase: nat, envelope: nat): int {
    CalcExp((if phase / 512 % 2 == 1 then SILENT else HalfSine(phase)) + 8 * envelope)
  }

  function Sin2(phase: nat, envelope: nat): int {
    CalcExp(HalfSine(phase) + 8 * envelope)
  }

  function Sin3(phase: nat, envelope: nat): int {
    CalcExp((if phase / 256 % 2 == 1 then SILENT else Logsinrom(phase % 256)) + 8 * envelope)
  }

  function Sin4(phase: nat, envelope: nat): int {
    Signed(phase / 256 % 4 == 1,
           CalcExp((if phase / 512 % 2 == 1 then SILENT else FastHalfSine(phase)) + 8 * envelope))
  }

  function Sin5(phase: nat, envelope: nat): int {
    CalcExp((if phase / 512 % 2 == 1 then SILENT else FastHalfSine(phase)) + 8 * envelope)
  }

  function Sin6(phase: nat, envelope: nat): int {
    Signed(phase / 512 % 2 == 1, CalcExp(8 * envelope))
  }

  function Sin7(phase: nat, envelope: nat): int {
    var p := phase % 1024;
    if p / 512 % 2 == 1 then Signed(true, CalcExp(8 * (511 - p % 512) + 8 * envelope))
    else Signed(false, CalcExp(8 * p + 8 * envelope))
  }

  /** The operator's output: the phase and the modulation add modulo 2^16 and only ten bits are used. */
  function Wave(form: nat, phase: int, envelope: nat): int
    requires form < 8
  {
    var p := phase % 1024;
    match form
    case 0 => Sin0(p, envelope)
    case 1 => Sin1(p, envelope)
    case 2 => Sin2(p, envelope)
    case 3 => Sin3(p, envelope)
    case 4 => Sin4(p, envelope)
    case 5 => Sin5(p, envelope)
    case 6 => Sin6(p, envelope)
    case _ => Sin7(p, envelope)
  }

  /** How the first waveforms derive from the sine: its positive half, its magnitude, its rising quarters;
      the sine itself is symmetric about a quarter turn and changes sign after a half. */
  lemma SineShapes(p: nat, envelope: nat)
    requires p < 512
    ensures Sin0(p + 512, envelope) == -Sin0(p, envelope) - 1
    ensures Sin0(511 - p, envelope) == Sin0(p, envelope) >= 0
    ensures Sin1(p, envelope) == Sin0(p, envelope) && Sin1(p + 512, envelope) == 0
    ensures Sin2(p, envelope) == Sin0(p, envelope) == Sin2(p + 512, envelope)
    ensures Sin3(p, envelope) == (if p < 256 then Sin0(p, envelope) else 0) == Sin3(p + 512, envelope)
  {
    hide CalcExp, Logsinrom;
    AmplitudeRange(SILENT + 8 * envelope);
    assert (p + 512) % 256 == p % 256;
  }

  /** The double-speed waveforms: a full and a rectified sine, each followed by silence. */
  lemma FastShapes(p: nat, envelope: nat)
    requires p < 512
    ensures Sin5(p, envelope) == (if p < 256 then Sin4(p, envelope) else -Sin4(p, envelope) - 1)
    ensures Sin5(p + 512, envelope) == 0 == Sin4(p + 512, envelope)
  {
    hide CalcExp, FastHalfSine;
    AmplitudeRange(SILENT + 8 * envelope);
    Halves(p);
    HalfTurn(p);
  }

  /** The square wave, and the exponential that starts each half like the square wave and dies away, mirrored
      in the second half. */
  lemma SquareShapes(p: nat, envelope: nat)
    requires p < 512
    ensures Sin6(p, envelope) == Sin7(0, envelope) && Sin6(p + 512, envelope) == -Sin6(p, envelope) - 1
    ensures Sin7(p, envelope) == Sin6(0, envelope + p) && Sin7(1023 - p, envelope) == -Sin7(p, envelope) - 1
  {
    hide CalcExp;
    Halves(p);
    Halves(511 - p);
    Halves(0);
    assert 1023 - p == 511 - p + 512;
    assert 8 * p + 8 * envelope == 8 * (envelope + p);
  }

  /** The two halves of a turn. */
  lemma Halves(p: nat)
    requires p < 512
    ensures p / 512 % 2 == 0 && p % 512 == p && p % 1024 == p
    ensures (p + 512) / 512 % 2 == 1 && (p + 512) % 512 == p && (p + 512) % 1024 == p + 512
  {
    DivModUnique(p, 512, 0, p);
    DivModUnique(p + 512, 512, 1, p);
    DivModUnique(p, 1024, 0, p);
    DivModUnique(p + 512, 1024, 0, p + 512);
  }

  lemma HalfTurn(p: nat)
    requires p < 512
    ensures (p + 512) / 256 % 4 == p / 256 + 2 && p / 256 % 4 == p / 256 == if p < 256 then 0 else 1
  {
    var a, r := p / 256, p % 256;
    DivModUnique(p + 512, 256, a + 2, r);
    DivModUnique(a, 4, 0, a);
    DivModUnique(a + 2, 4, 0, a + 2);
  }

  /** The sine rises over its first quarter. */
  lemma SineRises(p: nat, envelope: nat)
    requires p < 255
    ensures Sin0(p, envelope) <= Sin0(p + 1, envelope)
  {
    hide CalcExp, Logsinrom;
    LogsinromFalls(p);
    Antitone(Logsinrom(p + 1) + 8 * envelope, Logsinrom(p) + 8 * envelope);
  }

  /** The double-speed waveforms run through the sine in half the time; where the sine falls they read it
      one position late. */
  lemma DoubleSpeed(p: nat, envelope: nat)
    requires p < 512
    ensures Sin4(p, envelope) == Sin0(2 * p + p / 128 % 2, envelope)
  {
    hide CalcExp, Logsinrom;
    var a, r := p / 128, p % 128;
    var odd := a % 2;
    FastPosition(p, a, r);
    SinePosition(2 * p + odd, a, 2 * r + odd);
  }

  /** Where the double-speed reading is: quarter a, r places into it. */
  lemma FastPosition(p: nat, a: nat, r: nat)
    requires p == 128 * a + r && r < 128 && a < 4
    ensures p / 128 == a && p / 256 == a / 2 && p / 512 == 0
    ensures p * 2 % 256 == 2 * r
    ensures a % 2 == 1 ==> (255 - p % 256) * 2 % 256 == 254 - 2 * r
  {
    DivModUnique(p, 128, a, r);
    DivModUnique(p, 256, a / 2, 128 * (a % 2) + r);
    DivModUnique(2 * p, 256, a, 2 * r);
  }

  lemma SinePosition(q: nat, a: nat, r: nat)
    requires q == 256 * a + r && r < 256 && a < 4
    ensures q / 256 == a && q % 256 == r && q / 512 == a / 2
  {
    DivModUnique(q, 256, a, r);
    DivModUnique(q, 512, a / 2, 256 * (a % 2) + r);
  }

  // ---------- Amplitude ----------

  /** Whether a waveform is in its negative part. */
  function Negative(form: nat, p: nat): bool {
    match form
    case 0 => p / 512 % 2 == 1
    case 4 => p / 256 % 4 == 1
    case 6 => p / 512 % 2 == 1
    case 7 => p / 512 % 2 == 1
    case _ => false
  }

  /** The attenuation a waveform adds at a phase. */
  function Shape(form: nat, p: nat): nat
    requires p < 1024
  {
    match form
    case 0 => HalfSine(p)
    case 1 => if p >= 512 then SILENT else HalfSine(p)
    case 2 => HalfSine(p)
    case 3 => if p / 256 % 2 == 1 then SILENT else Logsinrom(p % 256)
    case 4 => if p >= 512 then SILENT else FastHalfSine(p)
    case 5 => if p >= 512 then SILENT else FastHalfSine(p)
    case 6 => 0
    case _ => if p >= 512 then 8 * (1023 - p) else 8 * p
  }

  /** The envelope only adds attenuation: it acts on every waveform in the same way. */
  lemma WaveIs(form: nat, phase: int, envelope: nat)
    requires form < 8
    ensures var p := phase % 1024;
            Wave(form, phase, envelope) == Signed(Negative(form, p), CalcExp(Shape(form, p) + 8 * envelope))
  {
    hide CalcExp, HalfSine, FastHalfSine, Logsinrom;
    var p := phase % 1024;
    if p < 512 {
      Halves(p);
    } else {
      Halves(p - 512);
    }
  }

  /** Every waveform at every phase and envelope stays in -4085..4084, far inside 16 bits; from an
      attenuation of 384 on nothing but 0 and -1 is left. */
  lemma OutputRange(form: nat, phase: int, envelope: nat)
    requires form < 8
    ensures -4085 <= Wave(form, phase, envelope) <= 4084
    ensures envelope >= 384 ==> -1 <= Wave(form, phase, envelope) <= 0
  {
    WaveIs(form, phase, envelope);
    AmplitudeRange(Shape(form, phase % 1024) + 8 * envelope);
    hide Wave, Shape, Negative, CalcExp;
  }

  /** A rising envelope attenuation never makes any waveform louder and never changes its sign. */
  lemma FadesWithEnvelope(form: nat, phase: int, e1: nat, e2: nat)
    requires form < 8 && e1 <= e2
    ensures var w1, w2 := Wave(form, phase, e1), Wave(form, phase, e2);
            if w1 >= 0 then 0 <= w2 <= w1 else w1 <= w2 <= -1
  {
    var p := phase % 1024;
    WaveIs(form, phase, e1);
    WaveIs(form, phase, e2);
    Antitone(Shape(form, p) + 8 * e1, Shape(form, p) + 8 * e2);
    hide Wave, Shape, Negative, CalcExp;
  }

  /** An operator whose envelope is fully off is silent, whatever else is set. */
  lemma OffIsSilent(e: Env, r: Regs, trem: nat, form: nat, phase: int)
    requires ValidRegs(r) && trem <= 26 && e.rout == 0x1ff && form < 8
    ensures -1 <= Wave(form, phase, Attenuation(e.rout, r, trem)) <= 0
  {
    hide Attenuation, Wave;
    AttenuationRange(e, r, trem);
    OutputRange(form, phase, Attenuation(e.rout, r, trem));
  }

  // ---------- The operator ----------

  /** The feedback an operator takes from its last two outputs. */
  function Feedback(previous: int, out: int, fb: nat): int
    requires fb < 8
  {
    if fb == 0 then 0 else (previous + out) / Pow2(9 - fb)
  }

  lemma FeedbackRange(previous: int, out: int, fb: nat)
    requires fb < 8 && -4085 <= previous <= 4084 && -4085 <= out <= 4084
    ensures -2043 <= Feedback(previous, out, fb) <= 2042
  {
    SmallPowers();
    hide Pow2;
  }

  /** The feedback is the sum of the last two outputs shifted down: at the highest setting a quarter of the sum,
      at each lower one half as much, at the lowest nothing. */
  lemma FeedbackDepth(previous: int, out: int, fb: nat)
    requires fb < 8
    ensures var f, d := Feedback(previous, out, fb), Pow2(7 - fb);
            if fb == 0 then f == 0 else 4 * d * f <= previous + out < 4 * d * (f + 1)
  {
    if fb > 0 {
      assert Pow2(9 - fb) == 2 * Pow2(8 - fb) && Pow2(8 - fb) == 2 * Pow2(7 - fb);
      hide Pow2;
      var d, n := 4 * Pow2(7 - fb), previous + out;
      assert n == n / d * d + n % d;
    }
  }

  class Operator {
    var out: int
    var prout: int
    var fbmod: int

    ghost predicate Valid()
      reads this
    {
      -4085 <= out <= 4084 && -4085 <= prout <= 4084 && -2043 <= fbmod <= 2042
    }

    constructor ()
      ensures Valid() && out == 0 && prout == 0 && fbmod == 0
    {
      out, prout, fbmod := 0, 0, 0;
    }

    method CalcFB(fb: nat)
      requires Valid() && fb < 8
      modifies this`fbmod, this`prout
      ensures Valid() && fbmod == Feedback(old(prout), out, fb) && prout == out
    {
      FeedbackRange(prout, out, fb);
      if fb != 0 {
        fbmod := (prout + out) / Pow2(9 - fb);
      } else {
        fbmod := 0;
      }
      prout := out;
    }

    method Generate(form: nat, phase: nat, modulation: int, envelope: nat)
      requires Valid() && form < 8
      modifies this`out
      ensures Valid() && out == Wave(form, phase + modulation, envelope)
    {
      hide Wave;
      OutputRange(form, phase + modulation, envelope);
      out := Wave(form, phase + modulation, envelope);
    }
  }

  // ---------- The mix ----------

  function Sum(s: seq<int>): int {
    if s == [] then 0 else Sum(s[..|s| - 1]) + s[|s| - 1]
  }

  /** What channel i adds to one side: its four taps, if the side is enabled. */
  function Share(taps: seq<seq<int>>, enabled: seq<bool>, i: nat): int
    requires i < |taps| == |enabled|
  {
    if enabled[i] then Sum(taps[i]) else 0
  }

  function MixOf(taps: seq<seq<int>>, enabled: seq<bool>, n: nat): int
    requires n <= |taps| == |enabled|
  {
    if n == 0 then 0 else MixOf(taps, enabled, n - 1) + Share(taps, enabled, n - 1)
  }

  ghost predicate Taps(taps: seq<seq<int>>) {
    forall i, j :: 0 <= i < |taps| && 0 <= j < |taps[i]| ==> -4085 <= taps[i][j] <= 4084
  }

  lemma {:induction false} SumRange(s: seq<int>)
    requires forall j :: 0 <= j < |s| ==> -4085 <= s[j] <= 4084
    ensures -4085 * |s| <= Sum(s) <= 4084 * |s|
  {
    if s != [] {
      SumRange(s[..|s| - 1]);
    }
  }

  /** The mix of any number of four-tap channels grows by at most 16340 a channel. */
  lemma {:induction false} MixRange(taps: seq<seq<int>>, enabled: seq<bool>, n: nat)
    requires n <= |taps| == |enabled| && Taps(taps) && forall i :: 0 <= i < |taps| ==> |taps[i]| == 4
    ensures -16340 * n <= MixOf(taps, enabled, n) <= 16340 * n
  {
    if n > 0 {
      MixRange(taps, enabled, n - 1);
      SumRange(taps[n - 1]);
    }
  }

  /** What switching a side of a channel on or off does: the mix of the others, and the channel's four taps. */
  lemma {:induction false} MixAdds(taps: seq<seq<int>>, enabled: seq<bool>, n: nat, i: nat)
    requires i < n <= |taps| == |enabled| && |taps[i]| == 4
    ensures MixOf(taps, enabled[i := true], n)
         == MixOf(taps, enabled[i := false], n) + taps[i][0] + taps[i][1] + taps[i][2] + taps[i][3]
  {
    hide Sum;
    if n - 1 == i {
      SamePrefixMix(taps, enabled[i := true], enabled[i := false], i);
      SumOfFour(taps[i]);
    } else {
      MixAdds(taps, enabled, n - 1, i);
    }
  }

  lemma {:induction false} SamePrefixMix(taps: seq<seq<int>>, a: seq<bool>, b: seq<bool>, n: nat)
    requires n <= |taps| == |a| == |b| && forall k :: 0 <= k < n ==> a[k] == b[k]
    ensures MixOf(taps, a, n) == MixOf(taps, b, n)
  {
    hide Sum;
    if n > 0 {
      SamePrefixMix(taps, a, b, n - 1);
    }
  }

  lemma SumOfFour(s: seq<int>)
    requires |s| == 4
    ensures Sum(s) == s[0] + s[1] + s[2] + s[3]
  {
    assert s[..3][..2] == s[..2] && s[..2][..1] == s[..1] && s[..1][..0] == [];
    assert Sum(s) == Sum(s[..3]) + s[3];
    assert Sum(s[..3]) == Sum(s[..2]) + s[2];
    assert Sum(s[..2]) == Sum(s[..1]) + s[1];
    assert Sum(s[..1]) == Sum([]) + s[0];
  }

  lemma {:induction false} MuteIsSilent(taps: seq<seq<int>>, enabled: seq<bool>, n: nat)
    requires n <= |taps| == |enabled| && forall k :: 0 <= k < n ==> !enabled[k]
    ensures MixOf(taps, enabled, n) == 0
  {
    hide Sum;
    if n > 0 {
      MuteIsSilent(taps, enabled, n - 1);
    }
  }

  /** One side of the mix, every intermediate sum checked against the width the chip holds it in. */
  method Mix(taps: seq<seq<int>>, enabled: seq<bool>) returns (mix: int)
    requires |taps| == |enabled| == 18 && Taps(taps) && forall i :: 0 <= i < 18 ==> |taps[i]| == 4
    ensures mix == MixOf(taps, enabled, 18) && -294120 <= mix <= 294120
  {
    mix := 0;
    for ii := 0 to 18
      invariant mix == MixOf(taps, enabled, ii)
    {
      var accm := AddTaps(taps[ii]);
      SumRange(taps[ii]);
      assert Fits16(accm);
      mix := mix + if enabled[ii] then accm else 0;
      MixRange(taps, enabled, ii + 1);
      assert Fits32(mix);
    }
    MixRange(taps, enabled, 18);
  }

  method AddTaps(taps: seq<int>) returns (accm: int)
    requires |taps| == 4 && forall j :: 0 <= j < 4 ==> -4085 <= taps[j] <= 4084
    ensures accm == Sum(taps) && Fits16(accm)
  {
    accm := 0;
    for jj := 0 to 4
      invariant accm == Sum(taps[..jj])
    {
      accm := accm + taps[jj];
      assert taps[..jj + 1][..jj] == taps[..jj];
      SumRange(taps[..jj + 1]);
      assert Fits16(accm);
    }
    assert taps[..4] == taps;
    SumRange(taps);
  }

  /** The final saturation to 16 bits. */
  function ClipSample(sample: int): (r: int)
    ensures Fits16(r) && (Fits16(sample) ==> r == sample)
  {
    if sample > 32767 then 32767 else if sample < -32768 then -32768 else sample
  }

  /** No 16-bit sample is closer than the one it gives. */
  lemma ClipNearest(sample: int, y: int)
    requires Fits16(y)
    ensures var r := ClipSample(sample);
            (if r < sample then sample - r else r - sample) <= (if y < sample then sample - y else y - sample)
  {}
}
