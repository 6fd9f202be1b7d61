/** The OPLL envelope generator: eighteen slots behind a three-stage pipeline. In clock c the level of
    slot c-2 is updated with rates prepared for it in the two clocks before, while slot c enters. */
module OpllEnvelope {
  import opened Bits

  datatype Stage = Attack | Decay | Sustain | Release

  /** The low two bits of a register that shifts left by one each clock. */
  datatype Delay = Delay(now: bool, before: bool)
  {
    function Push(b: bool): Delay { Delay(b, now) }
  }

  datatype Eg = Eg(level: seq<int>, stage: seq<Stage>, kon: Delay, doKon: Delay, off: Delay, rate: nat,
                   maxRate: bool, zeroRate: bool, incLo: bool, incHi: bool, rateHi: nat, sl: nat)

  /** What the register file and the patch selection supply for one clock. */
  datatype Control = Control(keyOn: bool, ar: nat, dr: nat, rr: nat, et: bool, ksr: bool, ksrFreq: nat,
                             sl: nat, son: bool, drumTone: bool)

  /** The values the timer supplies for one clock. */
  datatype Clocking = Clocking(cycle: nat, counterState: nat, lowLock: nat, shiftLock: nat)

  ghost predicate ValidControl(c: Control) {
    c.ar < 16 && c.dr < 16 && c.rr < 16 && c.ksrFreq < 16 && c.sl < 16
  }

  ghost predicate ValidClocking(k: Clocking) {
    k.cycle < 18 && k.lowLock < 4 && k.shiftLock <= 13
  }

  function Reset(): (e: Eg)
    ensures |e.level| == |e.stage| == 18
  {
    Eg(seq(18, i => 127), seq(18, i => Release), Delay(false, false), Delay(false, false), Delay(false, false),
       0, false, false, false, false, 0, 0)
  }

  function Back(cycle: nat, n: nat): (slot: nat)
    requires cycle < 18 && n <= 18
    ensures slot < 18
  {
    if cycle >= n then cycle - n else cycle + 18 - n
  }

  function StepHi(rateLo: nat, phase: nat): bool {
    match rateLo
    case 0 => false
    case 1 => phase == 0
    case 2 => phase == 0 || phase == 2
    case _ => phase < 3
  }

  function AttackShift(e: Eg): int {
    if e.rateHi < 12 then (if e.incLo then 1 else 0) else e.rateHi - 11 + (if e.incHi then 1 else 0)
  }

  /** The complement of the level shifted right: C's arithmetic shift of a negative number. */
  function AttackStep(e: Eg, level: int): int {
    if e.maxRate || !e.kon.before || level == 0 || AttackShift(e) <= 0 || AttackShift(e) > 5 then 0
    else (-level - 1) / Pow2(5 - AttackShift(e))
  }

  function FallStep(e: Eg, counterState: nat): int {
    var odd, third := counterState % 2 == 1, counterState % 4 == 3;
    var i0 := e.rateHi == 15 || (e.rateHi == 14 && e.incHi);
    var i1 := (e.rateHi == 14 && !e.incHi) || (e.rateHi == 13 && (e.incHi || odd))
              || (e.rateHi == 12 && (if e.incHi then odd else third)) || (e.incLo && third);
    (if i0 then 2 else 0) + (if i1 then 1 else 0)
  }

  /** The level of the slot leaving the pipeline, before it is stored in eight bits. */
  function NextLevel(e: Eg, level: int, stage: Stage, counterState: nat): int {
    var off, doKon := e.off.before, e.doKon.before;
    var kept := if e.maxRate && doKon then 0 else if stage != Attack && off && !doKon then 127 else level;
    match stage
    case Attack => kept + AttackStep(e, level)
    case Decay => kept + if !off && !doKon && level / 8 != e.sl then FallStep(e, counterState) else 0
    case _ => kept + if !off && !doKon then FallStep(e, counterState) else 0
  }

  function NextStage(e: Eg, level: int, stage: Stage): Stage {
    if e.doKon.before then Attack
    else if !e.kon.before then Release
    else match stage
      case Attack => if level == 0 then Decay else Attack
      case Decay => if level / 8 == e.sl then Sustain else Decay
      case _ => stage
  }

  /** The rate of the slot entering the pipeline, as the overriding tests leave it. */
  function SlotRate(c: Control, stage: Stage, starting: bool, off: bool, carrier: bool): nat {
    if !c.keyOn && !c.son && carrier && !c.et then 7
    else if c.keyOn && stage == Release && !off then 12
    else if !c.keyOn && !carrier && !c.drumTone then 0
    else match if starting then Attack else stage
      case Attack => c.ar
      case Decay => c.dr
      case Sustain => if c.et then 0 else c.rr
      case Release => if c.son then 5 else c.rr
  }

  /** The slot leaving the pipeline, stored in eight bits. */
  function StoreSlot(e: Eg, slot: nat, counterState: nat): (r: Eg)
    requires |e.level| == |e.stage| == 18 && slot < 18
    ensures |r.level| == |r.stage| == 18
  {
    var level, stage := e.level[slot], e.stage[slot];
    e.(level := e.level[slot := NextLevel(e, level, stage, counterState) % 256],
       stage := e.stage[slot := NextStage(e, level, stage)])
  }

  /** The increments for the slot in the middle of the pipeline, from the rate looked up for it. */
  function PrepareIncrements(e: Eg, lowLock: nat, shiftLock: nat): Eg {
    var rateHi, rateLo := e.rate / 4, e.rate % 4;
    var sum := (shiftLock + rateHi) % 16;
    e.(incHi := StepHi(rateLo, lowLock),
       incLo := rateHi < 12 && !e.zeroRate
                && (sum == 12 || (sum == 13 && rateLo >= 2) || (sum == 14 && rateLo % 2 == 1)),
       maxRate := rateHi == 15,
       rateHi := rateHi)
  }

  /** The slot entering the pipeline: its key, silence and rate. */
  function EnterSlot(e: Eg, cycle: nat, c: Control): Eg
    requires |e.level| == |e.stage| == 18 && cycle < 18
  {
    var off := e.level[cycle] / 4 == 31;
    var starting := e.stage[cycle] == Release && c.keyOn && off;
    var rate := SlotRate(c, e.stage[cycle], starting, off, ((cycle + 1) / 3) % 2 == 1);
    var ksr := if c.ksr then c.ksrFreq else c.ksrFreq / 4;
    e.(kon := e.kon.Push(c.keyOn), doKon := e.doKon.Push(starting), off := e.off.Push(off),
       rate := if rate * 4 + ksr >= 64 then 60 + ksr % 4 else rate * 4 + ksr,
       zeroRate := rate == 0,
       sl := c.sl)
  }

  /** One clock of OPLL_EnvelopeGenerate after its timer section. */
  function Tick(e: Eg, k: Clocking, c: Control): (r: Eg)
    requires |e.level| == |e.stage| == 18 && k.cycle < 18
    ensures |r.level| == |r.stage| == 18
  {
    EnterSlot(PrepareIncrements(StoreSlot(e, Back(k.cycle, 2), k.counterState), k.lowLock, k.shiftLock), k.cycle, c)
  }

  function NextCycle(cycle: nat): nat { if cycle == 17 then 0 else cycle + 1 }

  function Silent(level: int): bool { level / 4 == 31 }

  ghost predicate Shape(e: Eg) {
    && |e.level| == |e.stage| == 18
    && (forall i :: 0 <= i < 18 ==> 0 <= e.level[i] <= 127)
    && e.rate < 64 && e.rateHi < 16
    && (e.maxRate <==> e.rateHi == 15)
    && (e.incLo ==> e.rateHi < 12)
  }

  /** From the third clock on, the two bits of `off` describe the two slots inside the pipeline. */
  ghost predicate Aligned(e: Eg, cycle: nat)
    requires |e.level| == 18 && cycle < 18
  {
    && e.off.now == Silent(e.level[Back(cycle, 1)])
    && e.off.before == Silent(e.level[Back(cycle, 2)])
  }

  ghost predicate AllOff(e: Eg) {
    && (forall i :: 0 <= i < |e.level| ==> e.level[i] == 127)
    && (forall i :: 0 <= i < |e.stage| ==> e.stage[i] == Release)
  }

  /** The first two clocks, whose `off` bits describe no slot: every rate is still zero. */
  ghost predicate Starting(e: Eg, cycle: nat) {
    && AllOff(e)
    && e.rateHi == 0 && !e.incLo && !e.doKon.before
    && ((cycle == 0 && e.rate == 0 && !e.doKon.now) || (cycle == 1 && e.off.now))
  }

  /** What holds n clocks after reset. */
  ghost predicate Valid(e: Eg, n: nat, cycle: nat) {
    && Shape(e) && cycle < 18
    && if n < 2 then cycle == n && Starting(e, n) else Aligned(e, cycle)
  }

  /** One step of one slot: an attack that steps falls strictly and never below zero; decay and
      release only rise, never past 127, by less than one sustain band of eight. */
  lemma SlotStep(e: Eg, level: int, stage: Stage, counterState: nat)
    requires Shape(e) && 0 <= level <= 127
    requires e.off.before == Silent(level) || (e.rateHi == 0 && !e.incLo)
    ensures var next := NextLevel(e, level, stage, counterState);
            && 0 <= next <= 127
            && (stage == Attack && level > 0 && !e.maxRate ==>
                  next <= level
                  && (next < level <==> e.kon.before && AttackShift(e) > 0))
            && (stage != Attack && !(e.maxRate && e.doKon.before) ==> next >= level)
            && (stage == Decay && !e.doKon.before && !e.off.before && level / 8 < e.sl ==> next / 8 <= e.sl)
  {
    if stage == Attack && AttackStep(e, level) != 0 {
      assert 1 <= 5 - AttackShift(e) <= 4;
      SmallPowers();
      hide Pow2;
      HalfFall(level, 5 - AttackShift(e));
    }
    hide AttackStep;
    assert 0 <= FallStep(e, counterState) <= 2;
    assert !Silent(level) ==> level < 124;
  }

  lemma HalfFall(level: int, shift: nat)
    requires level > 0 && 1 <= shift <= 4
    ensures -level <= (-level - 1) / Pow2(shift) <= -1
  {
    SmallPowers();
    hide Pow2;
  }

  lemma StoreKeepsValid(e: Eg, n: nat, cycle: nat, counterState: nat)
    requires Valid(e, n, cycle)
    ensures var r := StoreSlot(e, Back(cycle, 2), counterState);
            && Shape(r)
            && (n < 2 ==> AllOff(r))
            && (n >= 1 ==> r.off.now == Silent(r.level[Back(cycle, 1)]))
  {
    hide NextLevel, NextStage;
    var slot := Back(cycle, 2);
    var level, stage := e.level[slot], e.stage[slot];
    SlotStep(e, level, stage, counterState);
    if n < 2 {
      OffStays(e, counterState);
    }
  }

  /** Before anything has started a slot that is off stays off. */
  lemma OffStays(e: Eg, counterState: nat)
    requires e.rateHi == 0 && !e.incLo && !e.doKon.before
    ensures NextLevel(e, 127, Release, counterState) == 127 && NextStage(e, 127, Release) == Release
  {}

  lemma EnterKeepsValid(e: Eg, n: nat, k: Clocking, c: Control)
    requires Shape(e) && ValidClocking(k) && ValidControl(c)
    requires n < 2 ==> k.cycle == n && k.shiftLock == 0 && AllOff(e)
    requires n == 0 ==> e.rate == 0 && !e.doKon.now
    requires n >= 1 ==> e.off.now == Silent(e.level[Back(k.cycle, 1)])
    ensures Valid(EnterSlot(PrepareIncrements(e, k.lowLock, k.shiftLock), k.cycle, c), n + 1, NextCycle(k.cycle))
  {
    var p := PrepareIncrements(e, k.lowLock, k.shiftLock);
    assert Shape(p) && (n == 0 ==> p.rateHi == 0 && !p.incLo) by { hide StepHi; }
    RateBound(p, k.cycle, c);
    hide PrepareIncrements, SlotRate;
  }

  lemma RateBound(e: Eg, cycle: nat, c: Control)
    requires |e.level| == |e.stage| == 18 && cycle < 18 && ValidControl(c)
    ensures EnterSlot(e, cycle, c).rate < 64
  {}

  /** Every clock keeps the levels in range and the pipeline aligned. */
  lemma TickKeepsValid(e: Eg, n: nat, k: Clocking, c: Control)
    requires Valid(e, n, k.cycle) && ValidClocking(k) && ValidControl(c)
    requires n < 2 ==> k.shiftLock == 0
    ensures Valid(Tick(e, k, c), n + 1, NextCycle(k.cycle))
  {
    StoreKeepsValid(e, n, k.cycle, k.counterState);
    var stored := StoreSlot(e, Back(k.cycle, 2), k.counterState);
    hide NextLevel, NextStage, EnterSlot, PrepareIncrements;
    EnterKeepsValid(stored, n, k, c);
  }

  datatype Input = Input(k: Clocking, c: Control)

  /** Cycles count round the slots, and nothing has been locked before the first sample is over. */
  ghost predicate ClockedFromReset(inputs: seq<Input>) {
    forall i :: 0 <= i < |inputs| ==> ClockedAt(inputs[i], i)
  }

  ghost predicate ClockedAt(input: Input, i: nat) {
    && ValidClocking(input.k) && ValidControl(input.c)
    && input.k.cycle == i % 18
    && (i < 2 ==> input.k.shiftLock == 0)
  }

  /** The pipeline after a sequence of clocks from reset. */
  function Run(inputs: seq<Input>): (e: Eg)
    requires ClockedFromReset(inputs)
    ensures |e.level| == |e.stage| == 18
  {
    if inputs == [] then Reset()
    else
      var last := inputs[|inputs| - 1];
      assert ClockedAt(last, |inputs| - 1);
      Tick(Run(inputs[..|inputs| - 1]), last.k, last.c)
  }

  /** For every history of register writes and timer values: all eighteen levels stay in 0..127, and
      from the third clock on the pipeline's `off` bits describe the two slots it holds. */
  lemma {:induction false} LevelsStayInRange(inputs: seq<Input>)
    requires ClockedFromReset(inputs)
    ensures Valid(Run(inputs), |inputs|, |inputs| % 18)
  {
    if inputs != [] {
      var n := |inputs| - 1;
      LevelsStayInRange(inputs[..n]);
      assert ClockedAt(inputs[n], n);
      NextMod(n, 18);
      hide Tick, Valid;
      TickKeepsValid(Run(inputs[..n]), n, inputs[n].k, inputs[n].c);
    }
  }
}
