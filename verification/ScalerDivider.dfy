/** The scaler's clocked divider for the vertical interpolation fraction: twelve steps of a non-restoring
    division in a 25-bit register. */
module ScalerDivider {
  import opened Bits

  /** The registers; the 25-bit divr holds a 13-bit two's complement remainder above twelve quotient bits. */
  datatype Regs = Regs(divi: nat, divr: nat, cpt: nat, run: bool, frac: nat)

  function Remainder(divr: nat): nat { divr / 4096 }

  function Negative(divr: nat): bool { Remainder(divr) >= 4096 }

  /** The eleven low bits moved up, with the complement of the sign shifted in. */
  function QuotientIn(divr: nat): nat { 2 * (divr % 2048) + if Negative(divr) then 0 else 1 }

  /** One step: the register moves up by one and the divisor is subtracted or added back, modulo 2^13. */
  function Step(divr: nat, divi: nat): (r: nat) {
    var moved := divr / 2048 % 8192;
    4096 * ((if Negative(divr) then moved + divi else moved + 8192 - divi % 8192) % 8192) + QuotientIn(divr)
  }

  /** One rising clock edge. */
  function Clocked(s: Regs, start: bool, vacc: nat, vsize: nat): Regs {
    var divi, load := 2 * vsize % 8192, 4096 * vacc % 0x200_0000;
    if start then Regs(divi, load, 0, true, s.frac)
    else if s.run then
      Regs(divi, Step(s.divr, s.divi), if s.cpt == 12 then 12 else s.cpt + 1, s.cpt != 12,
           if s.cpt == 12 then QuotientIn(s.divr) else s.frac)
    else Regs(divi, load, s.cpt, false, s.frac)
  }

  /** n clocks after the one that starts the division: the line size is held, the accumulator goes on. */
  function After(s: Regs, vaccs: seq<nat>, vsize: nat, n: nat): Regs
    requires n < |vaccs|
  {
    if n == 0 then Clocked(s, true, vaccs[0], vsize) else Clocked(After(s, vaccs, vsize, n - 1), false, vaccs[n], vsize)
  }

  // ---------- Long division in binary ----------

  /** Quotient and remainder after k bits of vacc / d. */
  function Long(vacc: nat, d: nat, k: nat): (qr: (nat, nat))
    requires vacc < d
    ensures qr.1 < d
  {
    if k == 0 then (0, vacc)
    else
      var (q, r) := Long(vacc, d, k - 1);
      if 2 * r >= d then (2 * q + 1, 2 * r - d) else (2 * q, 2 * r)
  }

  lemma {:induction false} LongDivides(vacc: nat, d: nat, k: nat)
    requires vacc < d
    ensures var (q, r) := Long(vacc, d, k); Pow2(k) * vacc == q * d + r && r < d && q < Pow2(k)
  {
    if k > 0 {
      LongDivides(vacc, d, k - 1);
      var (q, r) := Long(vacc, d, k - 1);
      var (q', r') := Long(vacc, d, k);
      assert Pow2(k) == 2 * Pow2(k - 1);
      assert (q', r') == if 2 * r >= d then (2 * q + 1, 2 * r - d) else (2 * q, 2 * r);
      hide Pow2, Long;
      Twice(Pow2(k - 1), vacc, q, d, r);
    }
  }

  lemma Twice(p: nat, v: nat, q: nat, d: nat, r: nat)
    requires p * v == q * d + r
    ensures (2 * p) * v == (2 * q) * d + 2 * r && (2 * q + 1) * d == (2 * q) * d + d
  {
    assert (2 * p) * v == 2 * (p * v);
    assert (2 * q) * d == 2 * (q * d);
  }

  // ---------- The register against long division ----------

  function SignedValue(r: nat): int { if r >= 4096 then r - 8192 else r }

  /** After k steps: the signed remainder is the true one, less the divisor while it is negative, and the
      low bits are a marker bit followed by all quotient bits but the newest. */
  ghost predicate Tracks(divr: nat, vacc: nat, d: nat, k: nat)
    requires vacc < d
  {
    var (q, r) := Long(vacc, d, k);
    && divr < 0x200_0000
    && SignedValue(Remainder(divr)) == (if q % 2 == 1 || k == 0 then r else r - d)
    && divr % 4096 == (if k == 0 then 0 else Pow2(k - 1) + q / 2)
  }

  lemma Started(vacc: nat, d: nat)
    requires vacc < d <= 4096
    ensures Tracks(4096 * vacc, vacc, d, 0)
  {
    DivModUnique(4096 * vacc, 4096, vacc, 0);
  }

  lemma Wraps(x: int, y: nat)
    requires -4096 <= x < 4096 && (y == x || y == x + 8192 || y == x + 16384)
    ensures SignedValue(y % 8192) == x && y % 8192 < 8192
  {}

  /** What a step makes of the signed remainder. */
  function NextRemainder(x: int, d: int): int { if x < 0 then 2 * x + d else 2 * x - d }

  /** The step on the two parts of the register; the remainder's sum cannot leave thirteen bits. */
  lemma StepParts(divr: nat, d: nat, rem: nat, low: nat)
    requires divr == 4096 * rem + low && rem < 8192 && low < 2048 && 0 < d <= 4096
    requires -4096 <= NextRemainder(SignedValue(rem), d) < 4096
    ensures var x, r := SignedValue(rem), Step(divr, d);
            && Remainder(divr) == rem && Remainder(r) < 8192
            && SignedValue(Remainder(r)) == NextRemainder(x, d)
            && r % 4096 == 2 * low + if x < 0 then 0 else 1
  {
    DivModUnique(divr, 4096, rem, low);
    DivModUnique(divr, 2048, 2 * rem, low);
    var moved := 2 * rem % 8192;
    var x := SignedValue(rem);
    assert moved == if rem >= 4096 then 2 * rem - 8192 else 2 * rem;
    var sum := if rem >= 4096 then moved + d else moved + 8192 - d;
    Wraps(NextRemainder(x, d), sum);
    var last := 2 * low + if x < 0 then 0 else 1;
    DivModUnique(4096 * (sum % 8192) + last, 4096, sum % 8192, last);
  }

  lemma NextLong(vacc: nat, d: nat, k: nat)
    requires vacc < d
    ensures var (q, r) := Long(vacc, d, k);
            Long(vacc, d, k + 1) == if 2 * r >= d then (2 * q + 1, 2 * r - d) else (2 * q, 2 * r)
  {}

  lemma LowBitsFit(k: nat, q: nat)
    requires 0 < k < 12 && q < Pow2(k)
    ensures Pow2(k - 1) + q / 2 < 2048
  {
    assert Pow2(k) == 2 * Pow2(k - 1);
    assert Pow2(11) == 2048 by { assert Pow2(9) == 512; }
    PowGrows(k, 11);
    hide Pow2;
  }

  lemma {:induction false} PowGrows(a: nat, b: nat)
    requires a <= b
    ensures Pow2(a) <= Pow2(b)
    decreases b - a
  {
    if a < b {
      PowGrows(a, b - 1);
    }
  }

  lemma StepTracks(divr: nat, vacc: nat, d: nat, k: nat)
    requires vacc < d <= 4096 && k < 12 && Tracks(divr, vacc, d, k)
    ensures Tracks(Step(divr, d), vacc, d, k + 1)
  {
    var (q, r) := Long(vacc, d, k);
    LongDivides(vacc, d, k);
    NextLong(vacc, d, k);
    if k == 0 {
      assert q == 0 && Pow2(0) == 1;
    } else {
      LowBitsFit(k, q);
      assert Pow2(k) == 2 * Pow2(k - 1);
    }
    hide Long, Pow2, Step, Negative, QuotientIn;
    StepParts(divr, d, Remainder(divr), divr % 4096);
  }

  // ---------- The whole division ----------

  lemma {:induction false} Running(s: Regs, vaccs: seq<nat>, vsize: nat, n: nat)
    requires n <= 12 && n < |vaccs| && vaccs[0] < 2 * vsize <= 4096
    ensures var r := After(s, vaccs, vsize, n);
            r.divi == 2 * vsize && r.run && r.cpt == n && r.frac == s.frac && Tracks(r.divr, vaccs[0], 2 * vsize, n)
  {
    hide Step, Tracks, QuotientIn;
    if n == 0 {
      Started(vaccs[0], 2 * vsize);
    } else {
      Running(s, vaccs, vsize, n - 1);
      StepTracks(After(s, vaccs, vsize, n - 1).divr, vaccs[0], 2 * vsize, n - 1);
    }
  }

  lemma LastBit(divr: nat, vacc: nat, d: nat)
    requires vacc < d <= 4096 && Tracks(divr, vacc, d, 12)
    ensures QuotientIn(divr) == 4096 * vacc / d
  {
    var (q, r) := Long(vacc, d, 12);
    LongDivides(vacc, d, 12);
    assert Pow2(12) == 4096 && Pow2(11) == 2048 by { assert Pow2(9) == 512; }
    hide Long, Pow2;
    DivModUnique(4096 * vacc, d, q, r);
    DivModUnique(divr, 2048, 2 * Remainder(divr) + 1, q / 2);
  }

  /** While a divisor of at most 4096 is held, thirteen clocks after the start the fraction register holds
      the twelve-bit quotient of the accumulator at the start, exactly, whatever the accumulator has become
      since; until then it keeps its old value. */
  lemma Exact(s: Regs, vaccs: seq<nat>, vsize: nat)
    requires |vaccs| == 14 && vaccs[0] < 2 * vsize <= 4096
    ensures var r := After(s, vaccs, vsize, 13);
            !r.run && r.frac == 4096 * vaccs[0] / (2 * vsize) < 4096
    ensures forall n: nat :: n <= 12 ==> After(s, vaccs, vsize, n).frac == s.frac
  {
    forall n: nat | n <= 12
      ensures After(s, vaccs, vsize, n).frac == s.frac
    {
      hide After, Tracks;
      Running(s, vaccs, vsize, n);
    }
    var n := 12;
    Running(s, vaccs, vsize, n);
    var last := After(s, vaccs, vsize, n);
    assert After(s, vaccs, vsize, n + 1) == Clocked(last, false, vaccs[n + 1], vsize);
    hide After, Tracks, Step, QuotientIn;
    LastBit(last.divr, vaccs[0], 2 * vsize);
    QuotientBound(vaccs[0], 2 * vsize);
  }

  lemma QuotientBound(v: nat, d: nat)
    requires v < d
    ensures 4096 * v / d < 4096
  {
    var q := 4096 * v / d;
    if q >= 4096 {
      SubMul(q, 4096, d);
      MulAtLeast(q - 4096 + 1, d);
    }
  }

  // ---------- Divisors the remainder has no room for ----------

  /** Whatever the remainder does, the low bits only move up. */
  lemma LowMoves(divr: nat, d: nat)
    requires divr % 4096 < 2048
    ensures var low, next := divr % 4096, Step(divr, d) % 4096;
            2 * low <= next <= 2 * low + 1
  {
    var rem, low := divr / 4096, divr % 4096;
    DivModUnique(divr, 2048, 2 * rem, low);
    var high := (if Negative(divr) then divr / 2048 % 8192 + d else divr / 2048 % 8192 + 8192 - d % 8192) % 8192;
    var last := QuotientIn(divr);
    assert Step(divr, d) == 4096 * high + last;
    hide Step, QuotientIn;
    DivModUnique(4096 * high + last, 4096, high, last);
  }

  /** Zero divided by more than 4096: the first subtraction already overflows and is taken for positive. */
  lemma FirstStepOverflows(d: nat)
    requires 4096 < d < 8192
    ensures !Negative(Step(0, d)) && Step(0, d) % 4096 == 1
  {
    DivModUnique(4096 * (8192 - d) + 1, 4096, 8192 - d, 1);
  }

  lemma AfterOne(s: Regs, vaccs: seq<nat>, vsize: nat, zero: nat, one: nat)
    requires 4096 < 2 * vsize < 8192 && zero == 0 && one == 1 && |vaccs| >= 2 && vaccs[0] == 0
    ensures After(s, vaccs, vsize, one) == Regs(2 * vsize, Step(0, 2 * vsize), 1, true, s.frac)
  {
    var r := After(s, vaccs, vsize, zero);
    assert r == Regs(2 * vsize, 0, 0, true, s.frac) by { hide Step; }
    assert After(s, vaccs, vsize, one) == Clocked(r, false, vaccs[one], vsize);
    hide Step, After;
  }

  lemma {:induction false} WrongBits(s: Regs, vaccs: seq<nat>, vsize: nat, n: nat)
    requires 4096 < 2 * vsize < 8192 && 2 <= n <= 12 && n < |vaccs| && vaccs[0] == 0
    ensures var r := After(s, vaccs, vsize, n);
            r.divi == 2 * vsize && r.run && r.cpt == n && 3 * Pow2(n - 2) <= r.divr % 4096 < 4 * Pow2(n - 2)
  {
    var r := After(s, vaccs, vsize, n - 1);
    assert After(s, vaccs, vsize, n) == Clocked(r, false, vaccs[n], vsize);
    hide After, Step;
    if n == 2 {
      AfterOne(s, vaccs, vsize, 0, n - 1);
      FirstStepOverflows(2 * vsize);
      SecondStep(r.divr, 2 * vsize);
      assert Pow2(0) == 1;
    } else {
      WrongBits(s, vaccs, vsize, n - 1);
      PowGrows(n - 3, 9);
      assert Pow2(9) == 512 && Pow2(n - 2) == 2 * Pow2(n - 3);
      hide Pow2;
      LowMoves(r.divr, 2 * vsize);
    }
  }

  lemma SecondStep(divr: nat, d: nat)
    requires !Negative(divr) && divr % 4096 == 1
    ensures Step(divr, d) % 4096 == 3
  {
    var rem := divr / 4096;
    DivModUnique(divr, 2048, 2 * rem, 1);
    var high := (divr / 2048 % 8192 + 8192 - d % 8192) % 8192;
    DivModUnique(4096 * high + 3, 4096, high, 3);
  }

  lemma ZeroIsWrong(s: Regs, vaccs: seq<nat>, vsize: nat)
    requires 4096 < 2 * vsize < 8192 && |vaccs| == 14 && vaccs[0] == 0
    ensures After(s, vaccs, vsize, 13).frac >= 2048
  {
    var n := 12;
    WrongBits(s, vaccs, vsize, n);
    var last := After(s, vaccs, vsize, n);
    assert After(s, vaccs, vsize, n + 1) == Clocked(last, false, vaccs[n + 1], vsize);
    assert Pow2(10) == 1024 by { assert Pow2(9) == 512; }
    hide After, Step, Pow2;
    LowPart(last.divr);
  }

  lemma LowPart(divr: nat)
    requires divr % 4096 >= 3072
    ensures QuotientIn(divr) >= 2048
  {
    DivModUnique(divr, 2048, 2 * (divr / 4096) + 1, divr % 4096 - 2048);
  }

  /** The divider is right for every dividend below the divisor if and only if the output has at most 2048
      lines: a larger divisor does not fit the signed remainder, and then even zero is divided wrongly. */
  lemma ExactlyUpTo2048Lines(s: Regs, vsize: nat)
    requires 0 < vsize < 4096
    ensures (forall vaccs: seq<nat> :: |vaccs| == 14 && vaccs[0] < 2 * vsize ==>
               After(s, vaccs, vsize, 13).frac == 4096 * vaccs[0] / (2 * vsize))
            <==> vsize <= 2048
  {
    hide After;
    if vsize <= 2048 {
      forall vaccs: seq<nat> | |vaccs| == 14 && vaccs[0] < 2 * vsize
        ensures After(s, vaccs, vsize, 13).frac == 4096 * vaccs[0] / (2 * vsize)
      {
        Exact(s, vaccs, vsize);
      }
    } else {
      var zeros: seq<nat> := seq(14, i => 0);
      ZeroIsWrong(s, zeros, vsize);
      assert After(s, zeros, vsize, 13).frac != 4096 * zeros[0] / (2 * vsize);
    }
  }

  /** The divider process. */
  class Divider {
    var divi: nat
    var divr: nat
    var cpt: nat
    var run: bool
    var frac: nat

    ghost function State(): Regs
      reads this
    {
      Regs(divi, divr, cpt, run, frac)
    }

    method Clock(start: bool, vacc: nat, vsize: nat)
      requires cpt <= 12
      modifies this
      ensures cpt <= 12 && State() == Clocked(old(State()), start, vacc, vsize)
    {
      var d, r := divi, divr;
      divi := 2 * vsize % 8192;
      divr := 4096 * vacc % 0x200_0000;
      if start {
        cpt := 0;
        run := true;
      } else if run {
        var bit := if Negative(r) then 0 else 1;
        if cpt == 12 {
          run := false;
          frac := 2 * (r % 2048) + bit;
        } else {
          cpt := cpt + 1;
        }
        var moved := r / 2048 % 8192;
        if !Negative(r) {
          moved := (moved + 8192 - d % 8192) % 8192;
        } else {
          moved := (moved + d) % 8192;
        }
        divr := 4096 * moved + 2 * (r % 2048) + bit;
      }
    }

    /** Start a division and let it run for the thirteen clocks it takes. */
    method Divide(vaccs: seq<nat>, vsize: nat)
      requires |vaccs| == 14 && vaccs[0] < 2 * vsize <= 4096 && cpt <= 12
      modifies this
      ensures !run && frac == 4096 * vaccs[0] / (2 * vsize) < 4096
    {
      hide Clocked, Step, QuotientIn;
      Clock(true, vaccs[0], vsize);
      for n := 0 to 13
        invariant cpt <= 12 && State() == After(old(State()), vaccs, vsize, n)
      {
        Clock(false, vaccs[n + 1], vsize);
      }
      hide After;
      Exact(old(State()), vaccs, vsize);
    }
  }
}
