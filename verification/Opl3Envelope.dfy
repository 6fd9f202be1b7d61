/** The OPL3 envelope generator of one slot. */
module Opl3Envelope {
  import opened Bits
  import opened Opl3Timing

  datatype Stage = Attack | Decay | Sustain | Release

  /** The slot's registers, its channel's key scale value and its key scale attenuation. */
  datatype Regs = Regs(ar: nat, dr: nat, sl: nat, rr: nat, sustained: bool, ksr: bool, ksv: nat,
                       tl: nat, ksl: nat, egKsl: nat)

  ghost predicate ValidRegs(r: Regs) {
    r.ar < 16 && r.dr < 16 && (r.sl < 15 || r.sl == 31) && r.rr < 16 && r.ksv < 16
    && r.tl < 64 && r.ksl < 4 && r.egKsl <= 224
  }

  /** What the chip's counters supply for one sample. */
  datatype Clock = Clock(egAdd: nat, egState: bool, timer: nat)

  datatype Env = Env(rout: int, stage: Stage)

  const RESET := Env(0x1ff, Release)

  function Restart(e: Env, key: bool): bool { key && e.stage == Release }

  function RegRate(e: Env, r: Regs, key: bool): nat {
    if Restart(e, key) then r.ar
    else match e.stage
      case Attack => r.ar
      case Decay => r.dr
      case Sustain => if r.sustained then 0 else r.rr
      case Release => r.rr
  }

  function FullRate(e: Env, r: Regs, key: bool): nat {
    (if r.ksr then r.ksv else r.ksv / 4) + 4 * RegRate(e, r, key)
  }

  function RateHi(e: Env, r: Regs, key: bool): nat {
    if FullRate(e, r, key) / 4 >= 16 then 15 else FullRate(e, r, key) / 4
  }

  function IncStep(rateLo: nat, phase: nat): nat {
    match rateLo
    case 0 => 0
    case 1 => if phase == 0 then 1 else 0
    case 2 => if phase == 0 || phase == 2 then 1 else 0
    case _ => if phase == 3 then 0 else 1
  }

  function Shift(rateHi: nat, rateLo: nat, nonzero: bool, c: Clock): (s: nat) {
    if !nonzero then 0
    else if rateHi < 12 then
      if !c.egState then 0
      else if rateHi + c.egAdd == 12 then 1
      else if rateHi + c.egAdd == 13 then rateLo / 2 % 2
      else if rateHi + c.egAdd == 14 then rateLo % 2
      else 0
    else
      var shift := rateHi % 4 + IncStep(rateLo, c.timer % 4);
      if shift >= 4 then 3 else if shift == 0 then (if c.egState then 1 else 0) else shift
  }

  function ShiftOf(e: Env, r: Regs, key: bool, c: Clock): nat {
    Shift(RateHi(e, r, key), FullRate(e, r, key) % 4, RegRate(e, r, key) != 0, c)
  }

  function IsOff(rout: int): bool { rout >= 0x1f8 }

  /** The level from which the increment starts: instant attack, or fully off. */
  function Base(e: Env, r: Regs, key: bool): int {
    var restart := Restart(e, key);
    if e.stage != Attack && !restart && IsOff(e.rout) then 0x1ff
    else if restart && RateHi(e, r, key) == 15 then 0
    else e.rout
  }

  /** The complement of the level scaled down: C's arithmetic shift of a negative number. */
  function AttackInc(rout: int, shift: nat): int { ((-rout - 1) * Pow2(shift)) / 16 }

  function Increment(e: Env, r: Regs, key: bool, c: Clock): int {
    var shift := ShiftOf(e, r, key, c);
    if shift == 0 then 0
    else match e.stage
      case Attack => if e.rout != 0 && key && RateHi(e, r, key) != 15 then AttackInc(e.rout, shift) else 0
      case Decay => if e.rout / 16 != r.sl && !IsOff(e.rout) then Pow2(shift - 1) else 0
      case _ => if !IsOff(e.rout) && !Restart(e, key) then Pow2(shift - 1) else 0
  }

  function NextStage(e: Env, r: Regs, key: bool): Stage {
    if !key then Release
    else match e.stage
      case Attack => if e.rout == 0 then Decay else Attack
      case Decay => if e.rout / 16 == r.sl then Sustain else Decay
      case Sustain => Sustain
      case Release => Attack
  }

  /** One sample of OPL3_EnvelopeCalc. */
  function Calc(e: Env, r: Regs, key: bool, c: Clock): Env {
    Env((Base(e, r, key) + Increment(e, r, key, c)) % 0x200, NextStage(e, r, key))
  }

  ghost predicate InRange(e: Env) { 0 <= e.rout <= 0x1ff }

  lemma ShiftBound(e: Env, r: Regs, key: bool, c: Clock)
    ensures ShiftOf(e, r, key, c) <= 3
  {}

  lemma AttackFalls(rout: int, shift: nat)
    requires rout > 0 && 1 <= shift <= 3
    ensures -rout <= AttackInc(rout, shift) < 0
    ensures AttackInc(rout, shift) <= AttackInc(rout, 1)
  {
    assert Pow2(1) == 2 && Pow2(2) == 4 && Pow2(3) == 8;
  }

  /** In an attack the increment is never positive and takes away at most the level; elsewhere it is 0 to 4,
      and nothing once the level counts as off or the slot restarts. */
  lemma IncrementBounds(e: Env, r: Regs, key: bool, c: Clock)
    requires InRange(e)
    ensures var inc := Increment(e, r, key, c);
            if e.stage == Attack then -e.rout <= inc <= 0
            else 0 <= inc <= 4 && (inc == 0 || e.rout < 0x1f8) && (e.stage == Release && key ==> inc == 0)
  {
    hide RateHi, FullRate, RegRate, Shift, AttackInc, Pow2;
    var shift := ShiftOf(e, r, key, c);
    ShiftBound(e, r, key, c);
    SmallPowers();
    hide ShiftOf;
    if e.stage == Attack && e.rout != 0 && shift > 0 {
      AttackFalls(e.rout, shift);
    }
  }

  /** Every sample, whatever the registers, key and counters: the level stays in nine bits and the final
      mask removes nothing; an attack that steps falls strictly; every other stage only rises, by at
      most four, so a decay below the sustain band cannot step over it. */
  lemma LevelStep(e: Env, r: Regs, key: bool, c: Clock)
    requires InRange(e) && ValidRegs(r)
    ensures var next := Base(e, r, key) + Increment(e, r, key, c);
            && 0 <= next <= 0x1ff && Calc(e, r, key, c).rout == next
            && (e.stage == Attack ==> next <= e.rout)
            && (e.stage == Attack && Increment(e, r, key, c) != 0 ==> next < e.rout)
            && (e.stage != Attack && !Restart(e, key) ==> e.rout <= next)
            && (e.stage == Decay && e.rout / 16 < r.sl ==> next <= e.rout + 4 && next / 16 <= r.sl)
  {
    hide RateHi, FullRate, RegRate, Increment;
    IncrementBounds(e, r, key, c);
  }

  datatype Input = Input(r: Regs, key: bool, c: Clock)

  /** The envelope after n samples of an endless history. */
  ghost function StateAt(e: Env, ins: nat -> Input, n: nat): Env {
    if n == 0 then e
    else Calc(StateAt(e, ins, n - 1), ins(n - 1).r, ins(n - 1).key, ins(n - 1).c)
  }

  /** The level a sample computes before the final mask. */
  function Unmasked(e: Env, i: Input): int { Base(e, i.r, i.key) + Increment(e, i.r, i.key, i.c) }

  lemma {:induction false} LevelStaysInRange(e: Env, ins: nat -> Input, n: nat)
    requires InRange(e) && forall i :: 0 <= i < n ==> ValidRegs(ins(i).r)
    ensures InRange(StateAt(e, ins, n))
  {
    if n > 0 {
      LevelStaysInRange(e, ins, n - 1);
      LevelStep(StateAt(e, ins, n - 1), ins(n - 1).r, ins(n - 1).key, ins(n - 1).c);
    }
  }

  /** For every history of register writes, keys and counter values the level that every sample computes
      is already in 0..0x1ff: the final mask never removes anything. */
  lemma MaskNeverTruncates(ins: nat -> Input, n: nat)
    requires forall i :: 0 <= i <= n ==> ValidRegs(ins(i).r)
    ensures var e := StateAt(RESET, ins, n);
            0 <= Unmasked(e, ins(n)) <= 0x1ff && StateAt(RESET, ins, n + 1).rout == Unmasked(e, ins(n))
  {
    LevelStaysInRange(RESET, ins, n);
    LevelStep(StateAt(RESET, ins, n), ins(n).r, ins(n).key, ins(n).c);
    hide Base, Increment, InRange;
  }

  // ---------- Decay meets its sustain band ----------

  ghost predicate Settled(e: Env, sl: nat) { e.stage == Sustain && e.rout / 16 == sl }

  lemma DecayStep(e: Env, r: Regs, c: Clock)
    requires InRange(e) && ValidRegs(r) && e.stage == Decay && e.rout / 16 <= r.sl
    ensures var next := Calc(e, r, true, c);
            InRange(next) && (if e.rout / 16 == r.sl then Settled(next, r.sl)
                              else next.stage == Decay && next.rout / 16 <= r.sl)
  {
    LevelStep(e, r, true, c);
    if e.rout / 16 == r.sl {
      assert Increment(e, r, true, c) == 0 by { hide ShiftOf, AttackInc, RateHi; }
      assert Base(e, r, true) / 16 == r.sl by { hide RateHi; }
    }
    hide Base, Increment, RateHi;
  }

  /** While the key is held and the sustain level is left alone, a decay that starts at or below the
      band never passes it: if it has ended by sample n, it ended inside the band. */
  lemma {:induction false} DecayEndsInBand(e: Env, ins: nat -> Input, sl: nat, n: nat)
    requires InRange(e) && e.stage == Decay && e.rout / 16 <= sl
    requires forall i :: 0 <= i < n ==> ValidRegs(ins(i).r) && ins(i).r.sl == sl && ins(i).key
    ensures var now := StateAt(e, ins, n);
            && InRange(now)
            && (|| (now.stage == Decay && now.rout / 16 <= sl)
                || (now.stage == Sustain && exists k :: 0 < k <= n && Settled(StateAt(e, ins, k), sl)))
  {
    if n > 0 {
      DecayEndsInBand(e, ins, sl, n - 1);
      var before, i := StateAt(e, ins, n - 1), ins(n - 1);
      assert StateAt(e, ins, n) == Calc(before, i.r, i.key, i.c);
      hide StateAt, Base, Increment;
      if before.stage == Decay {
        DecayStep(before, i.r, i.c);
      } else {
        LevelStep(before, i.r, i.key, i.c);
      }
    }
  }

  // ---------- A fast attack finishes ----------

  /** Rates 12 to 14 with a nonzero attack rate register. */
  ghost predicate FastAttack(r: Regs) {
    r.ar > 0 && 12 <= RateHi(Env(0, Attack), r, true) <= 14
  }

  /** The slowest fast attack: a shift of one at every step, from the highest level. */
  function Slowest(steps: nat): int {
    if steps == 0 then 0x1ff else Slowest(steps - 1) + AttackInc(Slowest(steps - 1), 1)
  }

  /** At rates 12 to 14 a sample with the toggling state bit set always steps. */
  lemma FastShift(e: Env, r: Regs, c: Clock)
    requires e.stage == Attack && FastAttack(r) && c.egState
    ensures 1 <= ShiftOf(e, r, true, c) <= 3
  {}

  lemma StepBelow(rout: int, bound: int, shift: nat)
    requires 0 < rout <= bound && 1 <= shift <= 3
    ensures rout + AttackInc(rout, shift) <= bound + AttackInc(bound, 1)
  {
    AttackFalls(rout, shift);
    assert Pow2(1) == 2;
  }

  /** One sample of a fast attack: it stays an attack, falls, and falls by a step if the state bit is set. */
  lemma AttackSample(e: Env, i: Input, steps: nat)
    requires ValidRegs(i.r) && i.key && FastAttack(i.r) && e.stage == Attack && InRange(e)
    requires 0 < e.rout <= Slowest(steps)
    ensures var next := Calc(e, i.r, i.key, i.c);
            && next.stage == Attack && InRange(next) && next.rout <= e.rout
            && (i.c.egState ==> next.rout <= Slowest(steps + 1))
  {
    LevelStep(e, i.r, true, i.c);
    if i.c.egState {
      FastShift(e, i.r, i.c);
      StepBelow(e.rout, Slowest(steps), ShiftOf(e, i.r, true, i.c));
    }
    hide AttackInc, ShiftOf, RateHi;
  }


  lemma SlowestStep(n: nat, level: int, next: int)
    requires Slowest(n) == level && next == level + ((-level - 1) * 2) / 16
    ensures Slowest(n + 1) == next
  {
    assert Pow2(1) == 2;
  }

  /** Thirty-five steps are enough. */
  lemma SlowestEnds()
    ensures Slowest(35) == 0
  {
    assert Slowest(0) == 0x1ff;
    hide Slowest;
    SlowestStep(0, 511, 447);
    SlowestStep(1, 447, 391);
    SlowestStep(2, 391, 342);
    SlowestStep(3, 342, 299);
    SlowestStep(4, 299, 261);
    SlowestStep(5, 261, 228);
    SlowestStep(6, 228, 199);
    SlowestStep(7, 199, 174);
    SlowestStep(8, 174, 152);
    SlowestStep(9, 152, 132);
    SlowestStep(10, 132, 115);
    SlowestStep(11, 115, 100);
    SlowestStep(12, 100, 87);
    SlowestStep(13, 87, 76);
    SlowestStep(14, 76, 66);
    SlowestStep(15, 66, 57);
    SlowestStep(16, 57, 49);
    SlowestStep(17, 49, 42);
    SlowestStep(18, 42, 36);
    SlowestStep(19, 36, 31);
    SlowestStep(20, 31, 27);
    SlowestStep(21, 27, 23);
    SlowestStep(22, 23, 20);
    SlowestStep(23, 20, 17);
    SlowestStep(24, 17, 14);
    SlowestStep(25, 14, 12);
    SlowestStep(26, 12, 10);
    SlowestStep(27, 10, 8);
    SlowestStep(28, 8, 6);
    SlowestStep(29, 6, 5);
    SlowestStep(30, 5, 4);
    SlowestStep(31, 4, 3);
    SlowestStep(32, 3, 2);
    SlowestStep(33, 2, 1);
    SlowestStep(34, 1, 0);
  }

  /** The key is held, the registers ask for a fast attack and the counters' state bit alternates. */
  ghost predicate FastHistory(ins: nat -> Input, n: nat) {
    forall i :: 0 <= i < n ==>
      && ValidRegs(ins(i).r) && ins(i).key && FastAttack(ins(i).r)
      && (ins(i + 1).c.egState <==> !ins(i).c.egState)
  }

  ghost predicate Sounding(e: Env, ins: nat -> Input, n: nat) {
    forall i :: 0 <= i <= n ==> StateAt(e, ins, i).rout != 0
  }

  lemma TwoSamples(e0: Env, e1: Env, i0: Input, i1: Input, steps: nat)
    requires ValidRegs(i0.r) && i0.key && FastAttack(i0.r) && e0.stage == Attack && InRange(e0)
    requires ValidRegs(i1.r) && i1.key && FastAttack(i1.r) && (i1.c.egState <==> !i0.c.egState)
    requires e1 == Calc(e0, i0.r, i0.key, i0.c) && e1.rout != 0
    requires 0 < e0.rout <= Slowest(steps)
    ensures var e2 := Calc(e1, i1.r, i1.key, i1.c);
            e2.stage == Attack && InRange(e2) && e2.rout <= Slowest(steps + 1)
  {
    hide Calc, Slowest, FastAttack, ValidRegs;
    AttackSample(e0, i0, steps);
    AttackSample(e1, i1, steps);
  }

  lemma FirstState(e: Env, ins: nat -> Input, zero: nat)
    requires zero == 0
    ensures StateAt(e, ins, zero) == e && Slowest(zero) == 0x1ff
  {}

  lemma NextState(e: Env, ins: nat -> Input, n: nat)
    ensures StateAt(e, ins, n + 1) == Calc(StateAt(e, ins, n), ins(n).r, ins(n).key, ins(n).c)
  {}

  lemma {:induction false} AttackSoFar(e: Env, ins: nat -> Input, steps: nat)
    requires InRange(e) && e.stage == Attack && FastHistory(ins, 2 * steps)
    requires Sounding(e, ins, 2 * steps)
    ensures var now := StateAt(e, ins, 2 * steps);
            now.stage == Attack && InRange(now) && now.rout <= Slowest(steps)
  {
    hide StateAt, Calc, Slowest, FastAttack, ValidRegs;
    if steps == 0 {
      FirstState(e, ins, 0);
    } else {
      var n := 2 * steps - 2;
      assert Sounding(e, ins, n) && FastHistory(ins, n);
      AttackSoFar(e, ins, steps - 1);
      NextState(e, ins, n);
      NextState(e, ins, n + 1);
      var e1 := StateAt(e, ins, n + 1);
      TwoSamples(StateAt(e, ins, n), e1, ins(n), ins(n + 1), steps - 1);
    }
  }

  /** A held attack goes on as long as the level has not reached zero. */
  lemma {:induction false} StillAttacking(e: Env, ins: nat -> Input, n: nat)
    requires e.stage == Attack && forall i :: 0 <= i < n ==> ins(i).key && StateAt(e, ins, i).rout != 0
    ensures StateAt(e, ins, n).stage == Attack
  {
    hide StateAt, Calc;
    if n == 0 {
      FirstState(e, ins, n);
    } else {
      StillAttacking(e, ins, n - 1);
      NextState(e, ins, n - 1);
      OneMoreAttack(StateAt(e, ins, n - 1), ins(n - 1));
    }
  }

  lemma OneMoreAttack(e: Env, i: Input)
    requires e.stage == Attack && e.rout != 0 && i.key
    ensures Calc(e, i.r, i.key, i.c).stage == Attack
  {
    hide Base, Increment;
  }

  /** The attack is over at sample k: full volume, for the first time. */
  ghost predicate FinishesAt(e: Env, ins: nat -> Input, k: nat) {
    && StateAt(e, ins, k) == Env(0, Attack)
    && forall i :: 0 <= i < k ==> StateAt(e, ins, i).stage == Attack && StateAt(e, ins, i).rout != 0
  }

  lemma {:induction false} FirstZero(e: Env, ins: nat -> Input, n: nat) returns (k: nat)
    requires !Sounding(e, ins, n)
    ensures k <= n && StateAt(e, ins, k).rout == 0 && forall i :: 0 <= i < k ==> StateAt(e, ins, i).rout != 0
    decreases n
  {
    hide StateAt;
    if n > 0 && !Sounding(e, ins, n - 1) {
      k := FirstZero(e, ins, n - 1);
    } else {
      k := n;
    }
  }

  /** With an attack rate of 12 to 14 and the key held, an attack reaches full volume within seventy
      samples, whatever level it starts from, and it is an attack until then. */
  lemma FastAttackFinishes(e: Env, ins: nat -> Input)
    requires InRange(e) && e.stage == Attack && FastHistory(ins, 70)
    ensures exists k :: 0 <= k <= 70 && FinishesAt(e, ins, k)
  {
    if Sounding(e, ins, 2 * 35) {
      hide StateAt, Slowest, FastHistory;
      AttackSoFar(e, ins, 35);
      SlowestEnds();
    } else {
      hide StateAt;
      var k := FirstZero(e, ins, 70);
      forall i | 0 <= i <= k
        ensures StateAt(e, ins, i).stage == Attack
      {
        StillAttacking(e, ins, i);
      }
      assert FinishesAt(e, ins, k);
    }
  }

  /** What the chip's own counters supply to sample n. */
  ghost function ClockAt(n: nat): Clock {
    var c := After(n);
    Clock(c.egAdd, c.egState, c.timer)
  }

  /** What a slot reads when its key is held and its registers are left alone from sample first on. */
  ghost function HeldFrom(r: Regs, first: nat): nat -> Input {
    (i: nat) => Input(r, true, ClockAt(first + i))
  }

  /** The chip's own counters always provide the alternating state bit, so on the running chip a held
      fast attack finishes, whenever it starts. */
  lemma FastAttackFinishesOnChip(e: Env, r: Regs, first: nat)
    requires InRange(e) && e.stage == Attack && ValidRegs(r) && FastAttack(r)
    ensures exists k :: 0 <= k <= 70 && FinishesAt(e, HeldFrom(r, first), k)
  {
    var ins := HeldFrom(r, first);
    forall i | 0 <= i < 70
      ensures ins(i).c.egState <==> !ins(i + 1).c.egState
    {
      StateBitAlternates(first + i);
      assert ins(i).c == ClockAt(first + i) && ins(i + 1).c == ClockAt(first + i + 1);
      hide After;
    }
    hide After, FastAttack, StateAt, FinishesAt;
    FastAttackFinishes(e, ins);
  }

  // ---------- The slot itself ----------

  /** The right shift applied to the key scale attenuation, by register value. */
  function KslShift(ksl: nat): nat {
    match ksl
    case 0 => 8
    case 1 => 1
    case 2 => 2
    case _ => 0
  }

  /** The attenuation the operator plays at: level, total level, key scaling and tremolo together. */
  function Attenuation(rout: int, r: Regs, trem: nat): int {
    rout + 4 * r.tl + r.egKsl / Pow2(KslShift(r.ksl)) + trem
  }

  /** In every state the attenuation is at most 1013, and it is at least the level. */
  lemma AttenuationRange(e: Env, r: Regs, trem: nat)
    requires InRange(e) && ValidRegs(r) && trem <= 26
    ensures e.rout <= Attenuation(e.rout, r, trem) <= 1013
  {
    assert Pow2(8) == 256 && Pow2(1) == 2 && Pow2(2) == 4 && Pow2(0) == 1 by { SmallPowers(); }
    hide Pow2;
  }

  function KslRom(row: nat): nat {
    match row
    case 0 => 0
    case 1 => 32
    case 2 => 40
    case 3 => 45
    case 4 => 48
    case 5 => 51
    case 6 => 53
    case 7 => 55
    case 8 => 56
    case 9 => 58
    case _ => if row < 16 then row + 49 else 0
  }

  /** The key scale attenuation of a frequency number and a block; both a higher note and a higher block
      attenuate more, and nothing exceeds 224. */
  function KeyScale(fnum: nat, block: nat): nat {
    var ksl := 4 * KslRom(fnum / 64) - 32 * (8 - block);
    if ksl < 0 then 0 else ksl
  }

  lemma KeyScaleRange(fnum: nat, block: nat)
    requires fnum < 1024 && block < 8
    ensures KeyScale(fnum, block) <= 224
    ensures fnum + 64 < 1024 ==> KeyScale(fnum, block) <= KeyScale(fnum + 64, block)
    ensures block < 7 ==> KeyScale(fnum, block) <= KeyScale(fnum, block + 1)
  {
    assert (fnum + 64) / 64 == fnum / 64 + 1;
  }

  /** The four key scale settings: nothing, and per octave 16, 8 or 32 more attenuation, as long as the octave
      below has any. */
  lemma KeyScalePerOctave(fnum: nat, block: nat, r: Regs)
    requires fnum < 1024 && block < 7 && KeyScale(fnum, block) > 0 && r.ksl < 4
    ensures KeyScale(fnum, block + 1) == KeyScale(fnum, block) + 32
    ensures var low, high := r.(egKsl := KeyScale(fnum, block)), r.(egKsl := KeyScale(fnum, block + 1));
            Attenuation(0, high, 0) - Attenuation(0, low, 0)
            == match r.ksl case 0 => 0 case 1 => 16 case 2 => 8 case _ => 32
  {
    var k := KeyScale(fnum, block);
    KeyScaleRange(fnum, block);
    KeyScaleRange(fnum, block + 1);
    hide KeyScale;
    SmallPowers();
    DivModUnique(k + 32, 2, k / 2 + 16, k % 2);
  }

  /** What the attenuation is made of: the level itself, four for every step of the total level, and the tremolo. */
  lemma AttenuationParts(rout: int, r: Regs, trem: nat)
    ensures Attenuation(rout, r, trem) == rout + 4 * r.tl + trem + Attenuation(0, r.(tl := 0), 0)
  {
    hide Pow2;
  }

  class Slot {
    var regs: Regs
    var key: bool
    var pgReset: bool
    var egRout: int
    var egOut: int
    var egGen: Stage

    ghost predicate Valid()
      reads this
    {
      ValidRegs(regs) && 0 <= egRout <= 0x1ff
    }

    ghost function State(): Env
      reads this
    {
      Env(egRout, egGen)
    }

    constructor ()
      ensures Valid() && State() == Env(0x1ff, Release)
    {
      regs, key, pgReset := Regs(0, 0, 0, 0, false, false, 0, 0, 0, 0), false, false;
      egRout, egOut, egGen := 0x1ff, 0x1ff, Release;
    }

    method EnvelopeUpdateKSL(fnum: nat, block: nat)
      requires Valid() && fnum < 1024 && block < 8
      modifies this`regs
      ensures Valid() && regs == old(regs).(egKsl := KeyScale(fnum, block))
    {
      KeyScaleRange(fnum, block);
      var ksl := 4 * KslRom(fnum / 64) - 32 * (8 - block);
      if ksl < 0 {
        ksl := 0;
      }
      regs := regs.(egKsl := ksl);
    }

    /** One envelope sample; trem is the chip's tremolo or the constant zero. */
    method EnvelopeCalc(c: Clock, trem: nat)
      requires Valid() && trem <= 26
      modifies this`pgReset, this`egRout, this`egOut, this`egGen
      ensures Valid() && State() == Calc(old(State()), regs, key, c)
      ensures egOut == Attenuation(old(egRout), regs, trem) && old(egRout) <= egOut <= 1013
      ensures pgReset == Restart(old(State()), key)
    {
      hide Pow2, AttackInc, RateHi, FullRate, RegRate, Attenuation, Increment, Base, Shift;
      LevelStep(State(), regs, key, c);
      Attenuate(trem);
      var restart, regRate, rateHi, rateLo := FindRate();
      var shift := FindShift(rateHi, rateLo, regRate != 0, c);
      pgReset := restart;
      var rout := BaseLevel(restart, rateHi);
      assert shift == ShiftOf(State(), regs, key, c);
      hide ShiftOf, ValidRegs;
      var inc := StepStage(restart, rateHi, shift, c);
      egRout := (rout + inc) % 0x200;
      if restart {
        egGen := Attack;
      }
      if !key {
        egGen := Release;
      }
    }

    /** The instant attack, and the level of an envelope that is off. */
    method BaseLevel(restart: bool, rateHi: nat) returns (rout: int)
      requires restart == Restart(State(), key) && rateHi == RateHi(State(), regs, key)
      ensures rout == Base(State(), regs, key)
    {
      rout := egRout;
      if restart && rateHi == 15 {
        rout := 0;
      }
      if egGen != Attack && !restart && IsOff(egRout) {
        rout := 0x1ff;
      }
    }

    method Attenuate(trem: nat)
      requires Valid() && trem <= 26
      modifies this`egOut
      ensures egOut == Attenuation(egRout, regs, trem) && egRout <= egOut <= 1013
    {
      AttenuationRange(State(), regs, trem);
      egOut := egRout + 4 * regs.tl + regs.egKsl / Pow2(KslShift(regs.ksl)) + trem;
    }

    /** The stage's own transition and its increment. */
    method StepStage(restart: bool, rateHi: nat, shift: nat, ghost c: Clock) returns (inc: int)
      requires restart == Restart(State(), key) && rateHi == RateHi(State(), regs, key)
      requires shift == ShiftOf(State(), regs, key, c)
      modifies this`egGen
      ensures inc == Increment(old(State()), regs, key, c)
      ensures key && !restart ==> egGen == NextStage(old(State()), regs, key)
    {
      hide Pow2, AttackInc, ShiftOf, RateHi;
      inc := 0;
      match egGen {
        case Attack =>
          if egRout == 0 {
            egGen := Decay;
          } else if key && shift > 0 && rateHi != 15 {
            inc := AttackInc(egRout, shift);
          }
        case Decay =>
          if egRout / 16 == regs.sl {
            egGen := Sustain;
          } else if !IsOff(egRout) && !restart && shift > 0 {
            inc := Pow2(shift - 1);
          }
        case _ =>
          if !IsOff(egRout) && !restart && shift > 0 {
            inc := Pow2(shift - 1);
          }
      }
    }

    /** The rate selection. */
    method FindRate() returns (restart: bool, regRate: nat, rateHi: nat, rateLo: nat)
      ensures restart == Restart(State(), key)
      ensures regRate == RegRate(State(), regs, key)
      ensures rateHi == RateHi(State(), regs, key) < 16
      ensures rateLo == FullRate(State(), regs, key) % 4
    {
      regRate := 0;
      restart := false;
      if key && egGen == Release {
        restart := true;
        regRate := regs.ar;
      } else {
        match egGen {
          case Attack => regRate := regs.ar;
          case Decay => regRate := regs.dr;
          case Sustain => if !regs.sustained { regRate := regs.rr; }
          case Release => regRate := regs.rr;
        }
      }
      assert regRate == RegRate(State(), regs, key);
      hide RegRate;
      var ks := if regs.ksr then regs.ksv else regs.ksv / 4;
      var rate := ks + 4 * regRate;
      rateHi := if rate / 4 >= 16 then 15 else rate / 4;
      rateLo := rate % 4;
    }

    /** The shift the rate leads to at the present counter values. */
    static method FindShift(rateHi: nat, rateLo: nat, nonzero: bool, c: Clock) returns (shift: nat)
      requires rateHi < 16 && rateLo < 4
      ensures shift == Shift(rateHi, rateLo, nonzero, c)
      ensures shift <= 3 && (!nonzero ==> shift == 0) && (nonzero && rateHi >= 12 && c.egState ==> shift >= 1)
      ensures rateHi < 12 ==> shift <= 1 && (shift == 1 ==> c.egState && 12 <= rateHi + c.egAdd <= 14)
    {
      shift := 0;
      if nonzero {
        if rateHi < 12 {
          if c.egState {
            match rateHi + c.egAdd {
              case 12 => shift := 1;
              case 13 => shift := rateLo / 2 % 2;
              case 14 => shift := rateLo % 2;
              case _ =>
            }
          }
        } else {
          shift := rateHi % 4 + IncStep(rateLo, c.timer % 4);
          if shift >= 4 {
            shift := 3;
          }
          if shift == 0 {
            shift := if c.egState then 1 else 0;
          }
        }
      }
    }
  }
}
