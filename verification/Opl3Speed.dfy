/** What the registers of an OPL3 slot do to its level: which of them a stage obeys, how fast the level moves
    on the running chip, and in which order the stages follow one another. */
module Opl3Speed {
  import opened Bits
  import opened Opl3Timing
  import opened Opl3Envelope
  import opened Opl3Rate

  /** A slot whose registers and key are left alone from sample first on. */
  ghost function OnChip(r: Regs, key: bool, first: nat): nat -> Input {
    (i: nat) => Input(r, key, ClockAt(first + i))
  }

  /** Four times a rate register, and the key scaling of rates. */
  function RateOf(reg: nat, r: Regs): nat { 4 * reg + if r.ksr then r.ksv else r.ksv / 4 }

  /** The stages a key position leaves alone, each with the one register it takes its rate from. */
  ghost predicate Obeys(stage: Stage, key: bool, r: Regs, reg: nat) {
    match stage
    case Attack => key && reg == r.ar
    case Decay => key && reg == r.dr
    case Sustain => key && !r.sustained && reg == r.rr
    case Release => !key && reg == r.rr
  }

  lemma ShiftOfStage(e: Env, r: Regs, key: bool, c: Clock, reg: nat)
    requires Obeys(e.stage, key, r, reg)
    ensures !Restart(e, key)
    ensures RateHi(e, r, key) == if RateOf(reg, r) >= 64 then 15 else RateOf(reg, r) / 4
    ensures ShiftOf(e, r, key, c) == Shift(RateHi(e, r, key), RateOf(reg, r) % 4, reg != 0, c)
  {
    hide Shift;
  }

  /** Where a rising level stops: a decay at its sustain band, the others where the level counts as off. */
  function Top(stage: Stage, sl: nat): nat { if stage == Decay then 16 * sl else 0x1f8 }

  /** A stage that lets its level rise, not yet at its end. */
  ghost predicate Rising(e: Env, r: Regs, key: bool, reg: nat) {
    ValidRegs(r) && Obeys(e.stage, key, r, reg) && e.stage != Attack && 0 <= e.rout < Top(e.stage, r.sl)
  }

  /** One sample of such a stage. */
  lemma RisingSample(e: Env, r: Regs, key: bool, reg: nat, c: Clock)
    requires Rising(e, r, key, reg)
    ensures var shift := ShiftOf(e, r, key, c);
            Calc(e, r, key, c) == Env(e.rout + if shift == 0 then 0 else Pow2(shift - 1), e.stage)
  {
    hide RateHi, FullRate, RegRate, Shift, ShiftOf;
    BelowBand(e, r);
    ShiftOfStage(e, r, key, c, reg);
    LevelStep(e, r, key, c);
    hide Pow2;
  }

  lemma BelowBand(e: Env, r: Regs)
    requires ValidRegs(r) && 0 <= e.rout < Top(e.stage, r.sl)
    ensures e.rout < 0x1f8 && (e.stage == Decay ==> e.rout / 16 < r.sl)
  {}

  // ---------- Slow rates ----------

  ghost predicate SlowRate(reg: nat, r: Regs, rateHi: nat, rateLo: nat) {
    reg > 0 && RateOf(reg, r) == 4 * rateHi + rateLo && 1 <= rateHi < 12 && rateLo < 4
  }

  lemma SlowShift(e: Env, r: Regs, key: bool, reg: nat, rateHi: nat, rateLo: nat, n: nat)
    requires Obeys(e.stage, key, r, reg) && SlowRate(reg, r, rateHi, rateLo)
    ensures ShiftOf(e, r, key, ClockAt(n)) == SampleShift(rateHi, rateLo, n) <= 1
  {
    hide ClockAt, RateOf, RateHi, FullRate, RegRate, ShiftOf;
    ShiftOfStage(e, r, key, ClockAt(n), reg);
    DivModUnique(4 * rateHi + rateLo, 4, rateHi, rateLo);
  }

  /** A rising level is the level before plus the steps of its rate, as long as it stays below its end. */
  lemma {:induction false} RisesByItsSteps(e: Env, r: Regs, key: bool, reg: nat, rateHi: nat, rateLo: nat,
                                           first: nat, n: nat)
    requires Rising(e, r, key, reg) && SlowRate(reg, r, rateHi, rateLo)
    requires e.rout + SampleSteps(rateHi, rateLo, first, n) < Top(e.stage, r.sl)
    ensures StateAt(e, OnChip(r, key, first), n) == Env(e.rout + SampleSteps(rateHi, rateLo, first, n), e.stage)
  {
    hide SampleShift, SlowRate, Obeys, ValidRegs, Top, ShiftOf, Calc, ClockAt;
    if n > 0 {
      RisesByItsSteps(e, r, key, reg, rateHi, rateLo, first, n - 1);
      var now := StateAt(e, OnChip(r, key, first), n - 1);
      RisingSample(now, r, key, reg, ClockAt(first + n - 1));
      SlowShift(now, r, key, reg, rateHi, rateLo, first + n - 1);
      OneIsOne();
    }
  }

  lemma OneIsOne()
    ensures Pow2(0) == 1
  {}

  /** On the running chip a decay, sustain or release at a slow rate rises by exactly 4 + rateLo in the samples
      of an aligned period of the timer, where the rate is made of the one register its stage obeys. */
  lemma RisesPerPeriod(e: Env, r: Regs, key: bool, reg: nat, rateHi: nat, rateLo: nat, trip: nat, q: nat,
                       period: nat, first: nat)
    requires Rising(e, r, key, reg) && SlowRate(reg, r, rateHi, rateLo)
    requires e.rout + 4 + rateLo < Top(e.stage, r.sl)
    requires period == Pow2(14 - rateHi) && first == period * q
    requires (trip == 0 || first >= 2) && first + period <= EG_TIMER_MAX + 1
    ensures StateAt(e, OnChip(r, key, StartOf(trip, first)), 2 * period) == Env(e.rout + 4 + rateLo, e.stage)
  {
    hide OnChip, Rising, Pow2, StartOf, SampleSteps, StateAt, RateOf, Top;
    StepsOnChip(rateHi, rateLo, trip, q, period, first);
    RisesByItsSteps(e, r, key, reg, rateHi, rateLo, StartOf(trip, first), 2 * period);
  }

  // ---------- Fast rates ----------

  /** What four samples at a fast rate add. */
  function FourSamples(rateHi: nat, rateLo: nat): nat {
    match rateHi
    case 12 => if rateLo == 0 then 2 else if rateLo == 1 then 3 else 4
    case 13 => 4 + rateLo
    case 14 => 8 + 2 * rateLo
    case _ => 16
  }

  /** What the sample at a place in its group of four adds. */
  function OneSample(rateHi: nat, rateLo: nat, phase: nat): nat {
    var shift := rateHi - 12 + IncStep(rateLo, phase);
    if shift >= 3 then 4 else if shift == 2 then 2 else if shift == 1 then 1 else phase % 2
  }

  ghost predicate FastRate(reg: nat, r: Regs, rateHi: nat, rateLo: nat) {
    && reg > 0 && 12 <= rateHi < 16 && rateLo == RateOf(reg, r) % 4
    && rateHi == (if RateOf(reg, r) >= 64 then 15 else RateOf(reg, r) / 4)
  }

  lemma PhaseOfSample(n: nat)
    ensures ClockAt(n).timer % 4 == n % 4 && ClockAt(n).egState == (n % 4 % 2 == 1)
  {
    hide After, EgTimerAt, EgTimerRemAt, EgAdd;
    CountersAfter(n);
    ModOfMod(n, 4, 0x4000);
    ModOfMod(n, 2, 2);
  }

  lemma FastSample(e: Env, r: Regs, key: bool, reg: nat, rateHi: nat, rateLo: nat, n: nat)
    requires Rising(e, r, key, reg) && FastRate(reg, r, rateHi, rateLo)
    ensures Calc(e, r, key, ClockAt(n)) == Env(e.rout + OneSample(rateHi, rateLo, n % 4), e.stage)
  {
    hide ClockAt, RateOf, RateHi, FullRate, RegRate, ShiftOf, Calc, Top, ValidRegs;
    PhaseOfSample(n);
    ShiftOfStage(e, r, key, ClockAt(n), reg);
    RisingSample(e, r, key, reg, ClockAt(n));
    hide Obeys;
    SmallPowers();
  }

  lemma FastNext(e: Env, r: Regs, key: bool, reg: nat, rateHi: nat, rateLo: nat, first: nat, n: nat, now: Env)
    requires Rising(now, r, key, reg) && FastRate(reg, r, rateHi, rateLo) && first % 4 == 0 && n < 4
    requires now == StateAt(e, OnChip(r, key, first), n)
    ensures StateAt(e, OnChip(r, key, first), n + 1) == Env(now.rout + OneSample(rateHi, rateLo, n), now.stage)
  {
    hide OneSample, Rising, FastRate, Calc, ClockAt;
    DivModUnique(first + n, 4, first / 4, n);
    FastSample(now, r, key, reg, rateHi, rateLo, first + n);
  }

  /** At a fast rate four samples of the running chip add a fixed amount. */
  lemma RisesPerFour(e: Env, r: Regs, key: bool, reg: nat, rateHi: nat, rateLo: nat, first: nat)
    requires Rising(e, r, key, reg) && FastRate(reg, r, rateHi, rateLo) && first % 4 == 0
    requires e.rout + FourSamples(rateHi, rateLo) < Top(e.stage, r.sl)
    ensures StateAt(e, OnChip(r, key, first), 4) == Env(e.rout + FourSamples(rateHi, rateLo), e.stage)
  {
    var zero, one, two, three := 0, 1, 2, 3;
    FourOfThem(rateHi, rateLo);
    assert StateAt(e, OnChip(r, key, first), zero) == e;
    hide StateAt, FastRate, OneSample, FourSamples, ValidRegs, Obeys, Top, OnChip;
    FastNext(e, r, key, reg, rateHi, rateLo, first, zero, e);
    var a := StateAt(e, OnChip(r, key, first), one);
    FastNext(e, r, key, reg, rateHi, rateLo, first, one, a);
    var b := StateAt(e, OnChip(r, key, first), two);
    FastNext(e, r, key, reg, rateHi, rateLo, first, two, b);
    var c := StateAt(e, OnChip(r, key, first), three);
    FastNext(e, r, key, reg, rateHi, rateLo, first, three, c);
  }

  lemma FourOfThem(rateHi: nat, rateLo: nat)
    requires 12 <= rateHi < 16 && rateLo < 4
    ensures OneSample(rateHi, rateLo, 0) + OneSample(rateHi, rateLo, 1) + OneSample(rateHi, rateLo, 2)
            + OneSample(rateHi, rateLo, 3) == FourSamples(rateHi, rateLo)
  {}

  // ---------- Standing still ----------

  /** A level that is not off stands still while its stage's register is zero, and in a sustain whose hold flag
      is set: then the registers' rates do not matter at all. */
  lemma StandsStill(e: Env, r: Regs, key: bool, c: Clock)
    requires ValidRegs(r) && 0 <= e.rout < 0x1f8
    requires (e.stage == Sustain && key && r.sustained) || (e.stage != Attack && Obeys(e.stage, key, r, 0))
    requires e.stage == Decay ==> e.rout / 16 != r.sl
    ensures Calc(e, r, key, c) == e
  {
    hide FullRate, RateHi;
    assert ShiftOf(e, r, key, c) == 0;
    hide ShiftOf, RegRate;
  }

  /** From 0x1f8 on a level counts as off: unless an attack is going on or beginning, it goes to the bottom. */
  lemma OffGoesSilent(e: Env, r: Regs, key: bool, c: Clock)
    requires ValidRegs(r) && 0x1f8 <= e.rout <= 0x1ff && e.stage != Attack && !(key && e.stage == Release)
    ensures Calc(e, r, key, c).rout == 0x1ff
  {
    hide ShiftOf, RateHi, Pow2;
  }

  lemma {:induction false} HeldSustain(e: Env, ins: nat -> Input, n: nat)
    requires e.stage == Sustain && 0 <= e.rout < 0x1f8
    requires forall i :: 0 <= i < n ==> ValidRegs(ins(i).r) && ins(i).key && ins(i).r.sustained
    ensures StateAt(e, ins, n) == e
  {
    hide Calc;
    if n > 0 {
      HeldSustain(e, ins, n - 1);
      StandsStill(e, ins(n - 1).r, true, ins(n - 1).c);
    }
  }

  // ---------- Attack ----------

  /** A key that goes down on a released slot starts an attack: at full volume at once if the rate is the highest,
      else from the present level. */
  lemma KeyDown(e: Env, r: Regs, c: Clock)
    requires ValidRegs(r) && InRange(e) && e.stage == Release
    ensures Calc(e, r, true, c) == Env(if RateOf(r.ar, r) >= 60 then 0 else e.rout, Attack)
  {
    hide Shift, FullRate;
    RestartRate(e, r);
  }

  lemma RestartRate(e: Env, r: Regs)
    requires e.stage == Release
    ensures RateHi(e, r, true) == 15 <==> RateOf(r.ar, r) >= 60
    ensures FullRate(e, r, true) == RateOf(r.ar, r)
  {}

  /** An attack step: the level counted from one shrinks by one, two or four eighths, rounded down. */
  lemma AttackShrinks(level: int, shift: nat)
    requires 0 < level <= 0x1ff && 1 <= shift <= 3
    ensures var was, now := level + 1, level + AttackInc(level, shift) + 1;
            var eighths := if shift == 1 then 7 else if shift == 2 then 6 else 4;
            now == was * eighths / 8
  {
    assert Pow2(1) == 2 && Pow2(2) == 4 && Pow2(3) == 8;
    hide Pow2;
    var was, now := level + 1, level + AttackInc(level, shift) + 1;
    var eighths := if shift == 1 then 7 else if shift == 2 then 6 else 4;
    DivModUnique(was * eighths, 8, now, was * eighths - 8 * now);
  }

  /** Levels counted from one under repeated attack steps of a slow rate. */
  function Shrunk(was: nat, steps: nat): nat {
    if steps == 0 then was else Shrunk(was, steps - 1) * 7 / 8
  }

  lemma AttackSampleSlow(e: Env, r: Regs, rateHi: nat, rateLo: nat, n: nat)
    requires ValidRegs(r) && e.stage == Attack && 0 < e.rout <= 0x1ff && SlowRate(r.ar, r, rateHi, rateLo)
    ensures var next := Calc(e, r, true, ClockAt(n));
            && next.stage == Attack && SampleShift(rateHi, rateLo, n) <= 1
            && next.rout == if SampleShift(rateHi, rateLo, n) == 0 then e.rout else (e.rout + 1) * 7 / 8 - 1
  {
    hide ClockAt, RateHi, FullRate, RegRate, ShiftOf, AttackInc, SampleShift, ValidRegs;
    SlowShift(e, r, true, r.ar, rateHi, rateLo, n);
    ShiftOfStage(e, r, true, ClockAt(n), r.ar);
    NotHighest(r, rateHi, rateLo);
    AttackShrinks(e.rout, 1);
    LevelStep(e, r, true, ClockAt(n));
  }

  lemma NotHighest(r: Regs, rateHi: nat, rateLo: nat)
    requires SlowRate(r.ar, r, rateHi, rateLo)
    ensures RateOf(r.ar, r) < 60 && RateOf(r.ar, r) / 4 == rateHi
  {
    DivModUnique(4 * rateHi + rateLo, 4, rateHi, rateLo);
  }

  /** A slow attack is as many attack steps as its rate makes. */
  lemma {:induction false} AttacksByItsSteps(e: Env, r: Regs, rateHi: nat, rateLo: nat, first: nat, n: nat)
    requires ValidRegs(r) && e.stage == Attack && 0 < e.rout <= 0x1ff && SlowRate(r.ar, r, rateHi, rateLo)
    requires Shrunk(e.rout + 1, SampleSteps(rateHi, rateLo, first, n)) > 1
    ensures StateAt(e, OnChip(r, true, first), n)
         == Env(Shrunk(e.rout + 1, SampleSteps(rateHi, rateLo, first, n)) - 1, Attack)
  {
    hide SampleShift, SlowRate, ValidRegs, Calc, ClockAt;
    if n == 0 {
      assert Shrunk(e.rout + 1, 0) == e.rout + 1;
    } else {
      var k := SampleSteps(rateHi, rateLo, first, n - 1);
      var shift := SampleShift(rateHi, rateLo, first + n - 1);
      SampleShiftBound(r, rateHi, rateLo, first + n - 1);
      ShrunkBound(e.rout + 1, k);
      NextShrunk(e.rout + 1, k);
      hide Shrunk;
      AttacksByItsSteps(e, r, rateHi, rateLo, first, n - 1);
      var now := StateAt(e, OnChip(r, true, first), n - 1);
      AttackSampleSlow(now, r, rateHi, rateLo, first + n - 1);
    }
  }

  lemma SampleShiftBound(r: Regs, rateHi: nat, rateLo: nat, n: nat)
    requires SlowRate(r.ar, r, rateHi, rateLo)
    ensures SampleShift(rateHi, rateLo, n) <= 1
  {
    hide ClockAt, RateOf;
  }

  lemma NextShrunk(was: nat, k: nat)
    ensures Shrunk(was, k + 1) == Shrunk(was, k) * 7 / 8 <= Shrunk(was, k)
  {}

  lemma {:induction false} ShrunkBound(was: nat, k: nat)
    ensures Shrunk(was, k) <= was
  {
    if k > 0 {
      ShrunkBound(was, k - 1);
    }
  }

  /** On the running chip a slow attack takes exactly 4 + rateLo attack steps in an aligned period. */
  lemma AttacksPerPeriod(e: Env, r: Regs, rateHi: nat, rateLo: nat, trip: nat, q: nat, period: nat, first: nat)
    requires ValidRegs(r) && e.stage == Attack && 0 < e.rout <= 0x1ff && SlowRate(r.ar, r, rateHi, rateLo)
    requires Shrunk(e.rout + 1, 4 + rateLo) > 1
    requires period == Pow2(14 - rateHi) && first == period * q
    requires (trip == 0 || first >= 2) && first + period <= EG_TIMER_MAX + 1
    ensures StateAt(e, OnChip(r, true, StartOf(trip, first)), 2 * period)
         == Env(Shrunk(e.rout + 1, 4 + rateLo) - 1, Attack)
  {
    hide OnChip, ValidRegs, Pow2, StartOf, SampleSteps, StateAt, RateOf, Shrunk;
    StepsOnChip(rateHi, rateLo, trip, q, period, first);
    AttacksByItsSteps(e, r, rateHi, rateLo, StartOf(trip, first), 2 * period);
  }

  // ---------- The order of the stages ----------

  /** The level has been zero since the key went down. */
  ghost predicate Peaked(e: Env, ins: nat -> Input, n: nat) {
    exists z :: 1 <= z <= n && StateAt(e, ins, z).rout == 0
  }

  /** And has been in the sustain band after that. */
  ghost predicate Fallen(e: Env, ins: nat -> Input, n: nat) {
    exists d :: 1 < d <= n && Peaked(e, ins, d - 1) && StateAt(e, ins, d).rout / 16 == ins(d).r.sl
  }

  /** From a key that goes down on a released slot and stays down: attack until the level has been zero, then
      decay until it has been in the sustain band, then sustain. */
  lemma {:induction false} StagesInOrder(e: Env, ins: nat -> Input, n: nat)
    requires e.stage == Release && forall i :: 0 <= i <= n ==> ins(i).key
    ensures StateAt(e, ins, n + 1).stage
         == if Fallen(e, ins, n) then Sustain else if Peaked(e, ins, n) then Decay else Attack
  {
    hide StateAt, Peaked, Fallen;
    StageAfter(e, ins, n);
    if n == 0 {
      NothingYet(e, ins);
    } else {
      StagesInOrder(e, ins, n - 1);
      PeakedStep(e, ins, n);
      FallenStep(e, ins, n);
    }
  }

  lemma StageAfter(e: Env, ins: nat -> Input, n: nat)
    ensures StateAt(e, ins, n + 1).stage == NextStage(StateAt(e, ins, n), ins(n).r, ins(n).key)
  {
    hide NextStage, Base, Increment;
  }

  lemma NothingYet(e: Env, ins: nat -> Input)
    ensures StateAt(e, ins, 0) == e && !Peaked(e, ins, 0) && !Fallen(e, ins, 0)
  {}

  lemma PeakedStep(e: Env, ins: nat -> Input, n: nat)
    requires n > 0
    ensures Peaked(e, ins, n) <==> Peaked(e, ins, n - 1) || StateAt(e, ins, n).rout == 0
  {
    hide StateAt;
  }

  lemma FallenStep(e: Env, ins: nat -> Input, n: nat)
    requires n > 0
    ensures Fallen(e, ins, n)
       <==> Fallen(e, ins, n - 1) || (Peaked(e, ins, n - 1) && StateAt(e, ins, n).rout / 16 == ins(n).r.sl)
    ensures Fallen(e, ins, n - 1) ==> Peaked(e, ins, n - 1)
  {
    hide StateAt;
  }

  /** A sample leaves the slot released if and only if its key was up. */
  lemma ReleasedWhenUp(e: Env, i: Input)
    ensures Calc(e, i.r, i.key, i.c).stage == Release <==> !i.key
  {}
}
