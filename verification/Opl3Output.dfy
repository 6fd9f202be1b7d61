/** What an OPL3 operator puts out, and how the outputs are mixed. */
module Opl3Output {
  import opened Bits
  import opened Opl3Rom

  // ---------- Attenuation to amplitude ----------

  function Clamped(level: nat): (r: nat)
    ensures r <= 0x1fff
  {
    if level > 0x1fff then 0x1fff else level
  }

  /** The amplitude at an attenuation of level 256ths of six decibels. */
  function CalcExp(level: nat): nat {
    hide ExpCell;
    var l := Clamped(level);
    (2 * Exprom(l % 256)) / Pow2(l / 256)
  }

  lemma DivFalls(a: nat, b: nat, d: nat)
    requires a <= b && d > 0
    ensures a / d <= b / d
  {
    var q := b / d;
    if a / d > q {
      MulMonotone(q + 1, a / d, d);
    }
  }

  lemma Halving(x: nat, k: nat)
    ensures x / Pow2(k + 1) == x / Pow2(k) / 2
  {
    var d := Pow2(k);
    assert Pow2(k + 1) == 2 * d;
    hide Pow2;
    HalvingBy(x, d);
  }

  lemma HalvingBy(x: nat, d: nat)
    requires d > 0
    ensures x / (2 * d) == x / d / 2
  {
    var q, r := x / d, x % d;
    var h, b := q / 2, q % 2;
    var rest := if b == 0 then r else d + r;
    assert x == q * d + r;
    assert q * d == (2 * h + b) * d;
    Split(h, b, d);
    DivModUnique(x, 2 * d, h, rest);
  }

  lemma Split(h: int, b: int, d: int)
    requires b == 0 || b == 1
    ensures (2 * h + b) * d == h * (2 * d) + if b == 0 then 0 else d
  {}

  /** One more row of attenuation halves the amplitude, exactly as the chip rounds. */
  lemma OctaveHalves(level: nat)
    requires level + 256 <= 0x1fff
    ensures CalcExp(level + 256) == CalcExp(level) / 2
  {
    assert (level + 256) % 256 == level % 256 && (level + 256) / 256 == level / 256 + 1;
    hide Exprom, Pow2;
    Halving(2 * Exprom(level % 256), level / 256);
  }

  lemma NextLevel(level: nat)
    requires level < 0x1fff
    ensures CalcExp(level + 1) <= CalcExp(level)
  {
    hide Exprom, Pow2;
    var k, i := level / 256, level % 256;
    if i < 255 {
      assert (level + 1) / 256 == k && (level + 1) % 256 == i + 1;
      ExpromFalls(i);
      DivFalls(2 * Exprom(i + 1), 2 * Exprom(i), Pow2(k));
    } else {
      assert (level + 1) / 256 == k + 1 && (level + 1) % 256 == 0;
      ExpromEnds();
      Halving(4084, k);
      Halving(2048, k);
      DivFalls(2042, 2048, Pow2(k));
      Halving2(4084, k);
    }
  }

  /** Halving first or shifting first makes no difference. */
  lemma Halving2(x: nat, k: nat)
    ensures x / Pow2(k) / 2 == x / 2 / Pow2(k)
  {
    var d := Pow2(k);
    var h, b := x / 2, x % 2;
    var q, r := h / d, h % d;
    assert x == 2 * (q * d + r) + b == q * (2 * d) + (2 * r + b);
    DivModUnique(x, 2 * d, q, 2 * r + b);
    Halving(x, k);
  }

  /** More attenuation is never louder, across every table and octave boundary and the clamp. */
  lemma {:induction false} Antitone(a: nat, b: nat)
    requires a <= b
    ensures CalcExp(b) <= CalcExp(a)
    decreases b - a
  {
    if a < b {
      hide Exprom, Pow2;
      Antitone(a, b - 1);
      if b <= 0x1fff {
        NextLevel(b - 1);
      }
    }
  }

  lemma Landmarks(loudest: nat, last: nat)
    requires loudest == 0 && last == 3071
    ensures CalcExp(loudest) == 4084 && CalcExp(last) == 1 && CalcExp(last + 1) == 0
  {
    hide Exprom, Pow2;
    ExpromEnds();
    assert last / 256 == 11 && last % 256 == 255 && (last + 1) / 256 == 12 && (last + 1) % 256 == 0;
    BigPowers();
  }

  lemma BigPowers()
    ensures Pow2(0) == 1 && Pow2(11) == 2048 && Pow2(12) == 4096
  {
    SmallPowers();
    assert Pow2(10) == 2 * Pow2(9) && Pow2(11) == 2 * Pow2(10);
  }

  /** The amplitude is at most 4084, and it is zero exactly from twelve octaves of attenuation on. */
  lemma AmplitudeRange(level: nat)
    ensures CalcExp(level) <= 4084
    ensures CalcExp(level) == 0 <==> level >= 3072
  {
    hide CalcExp;
    Landmarks(0, 3071);
    Antitone(0, level);
    if level < 3072 {
      Antitone(level, 3071);
    } else {
      Antitone(3072, level);
    }
  }
}
