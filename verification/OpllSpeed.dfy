/** How fast an OPLL envelope moves: the pipeline of the running chip against the rates OPL3 computes directly. */
module OpllSpeed {
  import opened Bits
  import opened OpllEnvelope
  import T = OpllTimer
  import Opl3Timing
  import O = Opl3Envelope
  import R = Opl3Rate

  // ---------- The increments of a rate ----------

  /** A slow rate steps exactly when OPL3's would at the same shift; a fast one never by this bit. */
  lemma SlowIncrement(e: Eg, lowLock: nat, shiftLock: nat, t: nat)
    requires shiftLock <= 13
    ensures var p := PrepareIncrements(e, lowLock, shiftLock);
            p.incLo <==> e.rate < 48 && O.Shift(e.rate / 4, e.rate % 4, !e.zeroRate, O.Clock(shiftLock, true, t)) == 1
  {
    hide StepHi;
    DivModUnique(e.rate, 4, e.rate / 4, e.rate % 4);
  }

  /** The increment pattern of a fast rate is OPL3's as well. */
  lemma FastIncrement(e: Eg, lowLock: nat, shiftLock: nat)
    requires lowLock < 4
    ensures PrepareIncrements(e, lowLock, shiftLock).incHi <==> O.IncStep(e.rate % 4, lowLock) == 1
  {}

  /** What a falling slot with a fast rate adds in the sample at a place in its group of four. */
  function FastFall(e: Eg, rate: nat, lowLock: nat, place: nat): int {
    FallStep(PrepareIncrements(e.(rate := rate), lowLock, 0), place)
  }

  function FourFalls(e: Eg, rate: nat, lowLock: nat): int {
    FastFall(e, rate, lowLock, 0) + FastFall(e, rate, lowLock, 1) + FastFall(e, rate, lowLock, 2)
    + FastFall(e, rate, lowLock, 3)
  }

  /** Over a turn of the two low timer bits, four samples each, the falls add up to 4 + rateLo, twice or four
      times that for the next two rates, and to two a sample for the highest. */
  lemma SixteenFalls(e: Eg, rateHi: nat, rateLo: nat)
    requires 12 <= rateHi < 16 && rateLo < 4
    ensures var rate := 4 * rateHi + rateLo;
            FourFalls(e, rate, 0) + FourFalls(e, rate, 1) + FourFalls(e, rate, 2) + FourFalls(e, rate, 3)
            == match rateHi case 12 => 4 + rateLo case 13 => 2 * (4 + rateLo) case 14 => 4 * (4 + rateLo) case _ => 32
  {
    hide FourFalls, FastFall;
    OneTurn(e, rateHi, rateLo, 0);
    OneTurn(e, rateHi, rateLo, 1);
    OneTurn(e, rateHi, rateLo, 2);
    OneTurn(e, rateHi, rateLo, 3);
  }

  lemma OneTurn(e: Eg, rateHi: nat, rateLo: nat, lowLock: nat)
    requires 12 <= rateHi < 16 && rateLo < 4 && lowLock < 4
    ensures var more := O.IncStep(rateLo, lowLock);
            FourFalls(e, 4 * rateHi + rateLo, lowLock)
            == match rateHi case 12 => 1 + more case 13 => 2 + 2 * more case 14 => 4 + 4 * more case _ => 8
  {
    DivModUnique(4 * rateHi + rateLo, 4, rateHi, rateLo);
  }

  // ---------- Which register a slot obeys ----------

  /** The rate a slot enters the pipeline with. With its key down: the attack rate in an attack and when it
      starts from silence, a fixed 12 while it is damped, and else its stage's own, none in a held sustain. With
      its key up: a carrier that is neither sustained nor percussive falls at 7 and a modulator of a melody
      not at all; the others at their stage's own rate, which for a release is 5 while sustained. */
  ghost predicate Obeys(c: Control, stage: Stage, silent: bool, carrier: bool, reg: nat) {
    if c.keyOn then
      match stage
      case Attack => reg == c.ar
      case Decay => reg == c.dr
      case Sustain => reg == if c.et then 0 else c.rr
      case Release => reg == if silent then c.ar else 12
    else if carrier && !c.son && !c.et then reg == 7
    else if !carrier && !c.drumTone then reg == 0
    else
      match stage
      case Attack => reg == c.ar
      case Decay => reg == c.dr
      case Sustain => reg == if c.et then 0 else c.rr
      case Release => reg == if c.son then 5 else c.rr
  }

  /** The carriers are the second three of every six slots. */
  function Carrier(slot: nat): bool { (slot + 1) / 3 % 2 == 1 }

  function KeyScale(c: Control): nat { if c.ksr then c.ksrFreq else c.ksrFreq / 4 }

  lemma EntersWithRate(e: Eg, cycle: nat, c: Control, reg: nat)
    requires |e.level| == |e.stage| == 18 && cycle < 18
    requires Obeys(c, e.stage[cycle], e.level[cycle] / 4 == 31, Carrier(cycle), reg)
    ensures var r := EnterSlot(e, cycle, c);
            && r.rate == (if 4 * reg + KeyScale(c) >= 64 then 60 + KeyScale(c) % 4 else 4 * reg + KeyScale(c))
            && (r.zeroRate <==> reg == 0)
  {}

  // ---------- The running chip ----------

  /** What the timer supplies to clock n of a run from reset. */
  ghost function ClockingAt(n: nat): Clocking {
    var t := T.Ticks(T.Reset(), n + 1);
    Clocking(n % 18, t.counterStatePrev, t.lowLock, t.shiftLock)
  }

  /** The pipeline after n clocks with the given control values. */
  ghost function Pipeline(cs: nat -> Control, n: nat): (e: Eg)
    ensures |e.level| == |e.stage| == 18
  {
    if n == 0 then Reset() else
      assert ClockingAt(n - 1).cycle < 18;
      Tick(Pipeline(cs, n - 1), ClockingAt(n - 1), cs(n - 1))
  }

  lemma NextClock(cs: nat -> Control, n: nat)
    ensures ClockingAt(n).cycle == n % 18 < 18
    ensures Pipeline(cs, n + 1) == Tick(Pipeline(cs, n), ClockingAt(n), cs(n))
  {
    hide Tick, T.Ticks;
  }

  /** The control values of a finite history; what comes after it is anything. */
  function Played(history: seq<Control>): nat -> Control {
    (i: nat) => if i < |history| then history[i] else Control(false, 0, 0, 0, false, false, 0, 0, false, false)
  }

  lemma {:induction false} SameHistory(cs: nat -> Control, ds: nat -> Control, n: nat)
    requires forall i: nat :: i < n ==> cs(i) == ds(i)
    ensures Pipeline(cs, n) == Pipeline(ds, n)
  {
    hide Tick;
    if n > 0 {
      SameHistory(cs, ds, n - 1);
    }
  }

  /** One more clock of a history. */
  lemma OneMoreClock(history: seq<Control>, c: Control)
    ensures ClockingAt(|history|).cycle < 18
    ensures Pipeline(Played(history + [c]), |history| + 1)
         == Tick(Pipeline(Played(history), |history|), ClockingAt(|history|), c)
  {
    hide Tick, Pipeline, ClockingAt;
    var n, longer := |history|, Played(history + [c]);
    NextClock(longer, n);
    SameHistory(longer, Played(history), n);
  }

  lemma ClockOfSample(m: nat, c: nat)
    requires c < 18
    ensures (18 * m + c) % 18 == c
    ensures T.Ticks(T.Reset(), 18 * m + c + 1) == T.Ticks(T.AfterSamples(m), c + 1)
  {
    hide T.Ticks;
    DivModUnique(18 * m + c, 18, m, c);
    T.TicksAdd(T.Reset(), 18 * m, c + 1);
  }

  /** Locks are only taken in a sample's first clock. */
  lemma WithinSample(t0: T.Timer, k: nat)
    requires t0.cycles == 0 && |t0.reg| == 18 && 1 <= k <= 18
    ensures var t, first := T.Ticks(t0, k), T.Ticks(t0, 1);
            && t.counterStatePrev == t0.counterState
            && t.lowLock == first.lowLock && t.shiftLock == first.shiftLock
            && (t0.counterStatePrev % 2 == 0 ==> t.lowLock == t0.lowLock && t.shiftLock == t0.shiftLock)
  {
    hide T.Ticks, T.Pending, T.LowTwo, T.FirstSet, T.Next, T.Addend;
    T.ClocksIntoSample(t0, k);
    T.ClocksIntoSample(t0, 1);
  }

  lemma Boundary(q: nat, r: nat)
    requires r < 4
    ensures var t := T.AfterSamples(4 * q + r);
            && t.cycles == 0 && |t.reg| == 18 && t.counterState % 4 == r
            && (r == 3 ==> t.counterStatePrev % 2 == 0)
  {
    hide T.AfterSamples, T.Pending, T.Scanned, Value;
    T.TimerAfter(q, r);
    T.PhaseParity(q % 64, r);
  }

  /** What is locked at the start of the third sample of a group of four: the group's timer value, also in the
      group after the wrap. It stays until the group is over. */
  lemma LocksOfGroup(q: nat, r: nat, c: nat)
    requires r == 2 || r == 3
    requires c < 18
    ensures var t, v := T.Ticks(T.AfterSamples(4 * q + r), c + 1), q % 0x4_0000;
            t.lowLock == v % 4 && t.shiftLock == Opl3Timing.EgAdd(v)
  {
    hide T.AfterSamples, T.Pending, T.LowTwo, Opl3Timing.EgAdd, T.Tick, T.Ticks, T.InSample;
    var t0 := T.AfterSamples(4 * q + 2);
    T.LockedShift(q, 2);
    Boundary(q, 2);
    FirstTick(t0);
    if r == 2 {
      WithinSample(t0, c + 1);
    } else {
      WithinSample(t0, 18);
      T.NextSample(4 * q + 2);
      Boundary(q, 3);
      WithinSample(T.AfterSamples(4 * q + 3), c + 1);
    }
  }

  lemma FirstTick(t: T.Timer)
    requires |t.reg| == 18
    ensures T.Ticks(t, 1) == T.Tick(t)
  {
    hide T.Tick;
    assert T.Ticks(t, 0) == t;
  }

  lemma ClocksOfGroup(q: nat, r: nat, c: nat)
    requires r < 4 && c < 18
    ensures var k, v := ClockingAt(18 * (4 * q + r) + c), q % 0x4_0000;
            && k.cycle == c && k.counterState % 4 == r
            && (r >= 2 ==> k.lowLock == v % 4 && k.shiftLock == Opl3Timing.EgAdd(v) <= 13)
  {
    hide T.Ticks, T.AfterSamples, T.InSample, Opl3Timing.EgAdd;
    ClockOfSample(4 * q + r, c);
    Boundary(q, r);
    WithinSample(T.AfterSamples(4 * q + r), c + 1);
    if r >= 2 {
      LocksOfGroup(q, r, c);
    }
    EgAddBound(q % 0x4_0000);
  }

  lemma EgAddBound(v: nat)
    ensures Opl3Timing.EgAdd(v) <= 13
  {
    hide Ctz;
  }

  // ---------- One pass of a slot ----------

  /** The control values of the last four clocks leave a falling slot where it is in its envelope: its key, its
      rate and, for a decay, the band it has not reached. */
  ghost predicate Falling(c: Control, next: Control, level: int, stage: Stage, slot: nat, reg: nat) {
    && ValidControl(c) && stage != Attack && 0 <= level < 124
    && Obeys(c, stage, false, Carrier(slot), reg)
    && (c.keyOn <==> stage != Release)
    && (stage == Decay ==> level / 8 != next.sl)
  }

  lemma StoreTouchesOne(e: Eg, k: Clocking, c: Control, slot: nat)
    requires |e.level| == |e.stage| == 18 && k.cycle < 18 && slot < 18 && Back(k.cycle, 2) != slot
    ensures Tick(e, k, c).level[slot] == e.level[slot] && Tick(e, k, c).stage[slot] == e.stage[slot]
  {
    hide NextLevel, NextStage, StepHi, SlotRate;
  }

  /** A slot on its way through the pipeline. */
  ghost predicate Entered(e: Eg, c: Control, level: int, stage: Stage, slot: nat, rate: nat) {
    && |e.level| == |e.stage| == 18 && slot < 18 && e.level[slot] == level && e.stage[slot] == stage
    && e.rate == rate && !e.zeroRate
    && e.kon.now == c.keyOn && !e.off.now && !e.doKon.now
  }

  lemma FirstClock(e: Eg, k: Clocking, c: Control, slot: nat, reg: nat)
    requires |e.level| == |e.stage| == 18 && slot < 18 && k.cycle == slot && reg > 0
    requires e.stage[slot] != Attack && 0 <= e.level[slot] < 124
    requires Obeys(c, e.stage[slot], false, Carrier(slot), reg) && (c.keyOn <==> e.stage[slot] != Release)
    requires 4 * reg + KeyScale(c) < 48
    ensures Entered(Tick(e, k, c), c, e.level[slot], e.stage[slot], slot, 4 * reg + KeyScale(c))
  {
    var p := PrepareIncrements(StoreSlot(e, Back(k.cycle, 2), k.counterState), k.lowLock, k.shiftLock);
    StoreTouchesOne(e, k, c, slot);
    assert p.level[slot] == e.level[slot] && p.stage[slot] == e.stage[slot] by { hide NextLevel, NextStage, StepHi; }
    hide StoreSlot, PrepareIncrements, NextLevel, NextStage, SlotRate, Obeys;
    EntersWithRate(p, slot, c, reg);
  }

  /** And a clock later: its step decided, its key and band at hand. */
  ghost predicate Decided(e: Eg, c: Control, next: Control, level: int, stage: Stage, slot: nat, step: nat) {
    && |e.level| == |e.stage| == 18 && slot < 18 && e.level[slot] == level && e.stage[slot] == stage
    && e.rateHi < 12 && !e.maxRate && step <= 1 && (e.incLo <==> step == 1)
    && e.kon.before == c.keyOn && !e.off.before && !e.doKon.before && e.sl == next.sl
  }

  lemma SecondClock(e: Eg, k: Clocking, c: Control, next: Control, level: int, stage: Stage, slot: nat, rate: nat,
                    step: nat)
    requires Entered(e, c, level, stage, slot, rate) && rate < 48
    requires k.cycle == NextCycle(slot) && k.shiftLock <= 13
    requires step == O.Shift(rate / 4, rate % 4, true, O.Clock(k.shiftLock, true, 0))
    ensures Decided(Tick(e, k, next), c, next, level, stage, slot, step)
  {
    StoreTouchesOne(e, k, next, slot);
    ShiftIsBit(rate, k.shiftLock);
    var s := StoreSlot(e, Back(k.cycle, 2), k.counterState);
    SlowIncrement(s, k.lowLock, k.shiftLock, 0);
    hide NextLevel, NextStage, StepHi, SlotRate, O.Shift;
  }

  lemma ShiftIsBit(rate: nat, egAdd: nat)
    requires rate < 48
    ensures O.Shift(rate / 4, rate % 4, true, O.Clock(egAdd, true, 0)) <= 1
  {}

  lemma ThirdClock(e: Eg, k: Clocking, last: Control, c: Control, next: Control, level: int, stage: Stage, slot: nat,
                   step: nat)
    requires Decided(e, c, next, level, stage, slot, step) && k.cycle < 18 && Back(k.cycle, 2) == slot
    requires stage != Attack && 0 <= level < 124 && (c.keyOn <==> stage != Release)
    requires stage == Decay ==> level / 8 != next.sl
    ensures var r := Tick(e, k, last);
            r.stage[slot] == stage && r.level[slot] == level + if k.counterState % 4 == 3 then step else 0
  {
    hide StepHi, SlotRate;
    assert NextStage(e, level, stage) == stage;
    assert NextLevel(e, level, stage, k.counterState) == level + if k.counterState % 4 == 3 then step else 0;
    hide NextLevel, NextStage;
  }

  /** A slot enters in one clock, its increments are prepared in the next and it is stored in the third. */
  lemma ThreeClocks(e: Eg, k0: Clocking, k1: Clocking, k2: Clocking, c0: Control, c1: Control, c2: Control, slot: nat,
                    reg: nat)
    requires |e.level| == |e.stage| == 18 && slot < 18 && k0.cycle == slot && k1.cycle == NextCycle(slot)
    requires k2.cycle == NextCycle(k1.cycle) && k1.shiftLock <= 13
    requires Falling(c0, c1, e.level[slot], e.stage[slot], slot, reg) && reg > 0
    requires 4 * reg + KeyScale(c0) < 48
    ensures var rate := 4 * reg + KeyScale(c0);
            var r := Tick(Tick(Tick(e, k0, c0), k1, c1), k2, c2);
            var step := O.Shift(rate / 4, rate % 4, true, O.Clock(k1.shiftLock, true, 0));
            && r.stage[slot] == e.stage[slot]
            && r.level[slot] == e.level[slot] + if k2.counterState % 4 == 3 then step else 0
  {
    var rate, level, stage := 4 * reg + KeyScale(c0), e.level[slot], e.stage[slot];
    var step := O.Shift(rate / 4, rate % 4, true, O.Clock(k1.shiftLock, true, 0));
    hide Tick, Obeys, KeyScale, Carrier, Entered, Decided, O.Shift;
    FirstClock(e, k0, c0, slot, reg);
    var e1 := Tick(e, k0, c0);
    SecondClock(e1, k1, c0, c1, level, stage, slot, rate, step);
    ThirdClock(Tick(e1, k1, c1), k2, c2, c0, c1, level, stage, slot, step);
  }

  // ---------- A slot on the running chip ----------

  lemma {:induction false} LockBound(n: nat)
    ensures T.Ticks(T.Reset(), n).shiftLock <= 13
  {
    if n > 0 {
      assert T.Ticks(T.Reset(), n) == T.Tick(T.Ticks(T.Reset(), n - 1));
      hide T.Ticks;
      LockBound(n - 1);
    }
  }

  /** The slot that is stored in a given clock of every sample. */
  function StoredIn(u: nat): (slot: nat)
    requires u < 18
    ensures slot < 18
  {
    Back(u, 2)
  }

  lemma CyclesRound(n: nat, u: nat)
    requires n >= 2 && u == n % 18
    ensures (n - 2) % 18 == Back(u, 2) && (n - 1) % 18 == NextCycle(Back(u, 2)) && NextCycle((n - 1) % 18) == u
  {
    var q := n / 18;
    assert n == 18 * q + u;
    if u >= 2 {
      DivModUnique(n - 2, 18, q, u - 2);
      DivModUnique(n - 1, 18, q, u - 1);
    } else if u == 1 {
      DivModUnique(n - 2, 18, q - 1, 17);
      DivModUnique(n - 1, 18, q, 0);
    } else {
      DivModUnique(n - 2, 18, q - 1, 16);
      DivModUnique(n - 1, 18, q - 1, 17);
    }
  }

  /** Until its turn comes again a slot is left alone. */
  lemma {:induction false} LeftAlone(cs: nat -> Control, n: nat, k: nat)
    requires k <= 17
    ensures var slot := StoredIn(n % 18);
            && Pipeline(cs, n + 1 + k).level[slot] == Pipeline(cs, n + 1).level[slot]
            && Pipeline(cs, n + 1 + k).stage[slot] == Pipeline(cs, n + 1).stage[slot]
    decreases k
  {
    hide Tick, Pipeline, ClockingAt;
    if k > 0 {
      LeftAlone(cs, n, k - 1);
      NextClock(cs, n + k);
      OtherSlot(n, k);
      StoreTouchesOne(Pipeline(cs, n + k), ClockingAt(n + k), cs(n + k), StoredIn(n % 18));
    }
  }

  lemma OtherSlot(n: nat, k: nat)
    requires 1 <= k <= 17
    ensures Back((n + k) % 18, 2) != Back(n % 18, 2)
  {
    var q, u := n / 18, n % 18;
    assert n == 18 * q + u;
    if u + k < 18 {
      DivModUnique(n + k, 18, q, u + k);
    } else {
      DivModUnique(n + k, 18, q + 1, u + k - 18);
    }
  }

  /** The state of the chip when a slot enters the pass that stores it in clock u of sample m. */
  ghost function Entering(cs: nat -> Control, u: nat, m: nat): (e: Eg)
    requires u < 18 && 18 * m + u >= 2
    ensures |e.level| == |e.stage| == 18
  {
    Pipeline(cs, 18 * m + u - 2)
  }

  /** The control values of that pass: they leave the slot in its stage, at the rate made of a register and of
      the key scaling, and, for a decay, with a sustain band. */
  ghost predicate Plays(cs: nat -> Control, u: nat, m: nat, stage: Stage, reg: nat, rate: nat, sl: nat) {
    && u < 18 && 18 * m + u >= 2
    && var c, next := cs(18 * m + u - 2), cs(18 * m + u - 1);
       && ValidControl(c) && stage != Attack && (c.keyOn <==> stage != Release)
       && Obeys(c, stage, false, Carrier(StoredIn(u)), reg) && rate == 4 * reg + KeyScale(c)
       && (stage == Decay ==> next.sl == sl)
  }

  /** Where the level of a falling slot stops: a decay at its band, the others where they are silent. */
  function Top(stage: Stage, sl: nat): nat { if stage == Decay then 8 * sl else 124 }

  /** One pass: in the last sample of a group of four the slot may step, by the group's timer value. */
  lemma OnePass(cs: nat -> Control, u: nat, q: nat, r: nat, reg: nat, rate: nat, sl: nat)
    requires r < 4 && u < 18 && 18 * (4 * q + r) + u >= 2 && sl < 16 && reg > 0 && rate < 48
    requires var e := Entering(cs, u, 4 * q + r);
             && Plays(cs, u, 4 * q + r, e.stage[StoredIn(u)], reg, rate, sl)
             && 0 <= e.level[StoredIn(u)] < Top(e.stage[StoredIn(u)], sl)
    ensures var e, f, slot := Entering(cs, u, 4 * q + r), Entering(cs, u, 4 * q + r + 1), StoredIn(u);
            && f.stage[slot] == e.stage[slot]
            && f.level[slot] == e.level[slot] + if r == 3 then R.ShiftAt(rate / 4, rate % 4, q % 0x4_0000) else 0
  {
    hide Tick, Obeys, KeyScale, Pipeline, ClockingAt, O.Shift, Carrier, Opl3Timing.EgAdd;
    var n, slot := 18 * (4 * q + r) + u, StoredIn(u);
    ThreeMore(cs, n);
    PassClocks(q, r, u);
    LeftAlone(cs, n, 15);
    var e := Pipeline(cs, n - 2);
    ThreeClocks(e, ClockingAt(n - 2), ClockingAt(n - 1), ClockingAt(n), cs(n - 2), cs(n - 1), cs(n), slot, reg);
  }

  lemma ThreeMore(cs: nat -> Control, n: nat)
    requires n >= 2
    ensures ClockingAt(n - 2).cycle < 18 && ClockingAt(n - 1).cycle < 18 && ClockingAt(n).cycle < 18
    ensures Pipeline(cs, n + 1)
         == Tick(Tick(Tick(Pipeline(cs, n - 2), ClockingAt(n - 2), cs(n - 2)), ClockingAt(n - 1), cs(n - 1)),
                 ClockingAt(n), cs(n))
  {
    hide Tick, Pipeline, ClockingAt;
    NextClock(cs, n - 2);
    NextClock(cs, n - 1);
    NextClock(cs, n);
  }

  /** The clocks of a pass: its cycles, its place in the group, and the lock its increments are prepared with. */
  lemma PassClocks(q: nat, r: nat, u: nat)
    requires r < 4 && u < 18 && 18 * (4 * q + r) + u >= 2
    ensures var n, slot := 18 * (4 * q + r) + u, StoredIn(u);
            && n % 18 == u
            && ClockingAt(n - 2).cycle == slot && ClockingAt(n - 1).cycle == NextCycle(slot)
            && ClockingAt(n).cycle == u == NextCycle(NextCycle(slot)) && ClockingAt(n).counterState % 4 == r
            && ClockingAt(n - 1).shiftLock <= 13
            && (r == 3 ==> ClockingAt(n - 1).shiftLock == Opl3Timing.EgAdd(q % 0x4_0000))
  {
    hide ClockingAt, Opl3Timing.EgAdd;
    var n := 18 * (4 * q + r) + u;
    ClocksOfGroup(q, r, u);
    DivModUnique(n, 18, 4 * q + r, u);
    CyclesRound(n, u);
    CycleAt(n - 2);
    CycleAt(n - 1);
    if r == 3 {
      if u > 0 {
        ClocksOfGroup(q, 3, u - 1);
      } else {
        ClocksOfGroup(q, 2, 17);
      }
    }
  }

  lemma CycleAt(n: nat)
    ensures ClockingAt(n).cycle == n % 18 && ClockingAt(n).shiftLock <= 13
  {
    LockBound(n + 1);
    hide T.Ticks;
  }

  /** Four passes: one chance to step. */
  lemma OneGroup(cs: nat -> Control, u: nat, q: nat, stage: Stage, reg: nat, rate: nat, sl: nat, level: int)
    requires u < 18 && 18 * (4 * q) + u >= 2 && sl < 16 && reg > 0 && rate < 48
    requires forall m :: 4 * q <= m < 4 * q + 4 ==> Plays(cs, u, m, stage, reg, rate, sl)
    requires var e := Entering(cs, u, 4 * q);
             e.stage[StoredIn(u)] == stage && e.level[StoredIn(u)] == level && 0 <= level < Top(stage, sl)
    ensures var f := Entering(cs, u, 4 * q + 4);
            && f.stage[StoredIn(u)] == stage
            && f.level[StoredIn(u)] == level + R.ShiftAt(rate / 4, rate % 4, q % 0x4_0000)
  {
    hide Plays, Entering, StoredIn, R.ShiftAt, Top;
    assert Plays(cs, u, 4 * q, stage, reg, rate, sl) && Plays(cs, u, 4 * q + 1, stage, reg, rate, sl);
    assert Plays(cs, u, 4 * q + 2, stage, reg, rate, sl) && Plays(cs, u, 4 * q + 3, stage, reg, rate, sl);
    OnePass(cs, u, q, 0, reg, rate, sl);
    OnePass(cs, u, q, 1, reg, rate, sl);
    OnePass(cs, u, q, 2, reg, rate, sl);
    OnePass(cs, u, q, 3, reg, rate, sl);
  }

  /** A falling slot adds to its level the steps OPL3 counts for its rate over the same timer values. */
  lemma {:induction false} FallsByItsSteps(cs: nat -> Control, u: nat, q: nat, k: nat, stage: Stage, reg: nat,
                                           rate: nat, sl: nat, level: int)
    requires u < 18 && 18 * (4 * q) + u >= 2 && sl < 16 && reg > 0 && rate < 48
    requires forall m :: 4 * q <= m < 4 * (q + k) ==> Plays(cs, u, m, stage, reg, rate, sl)
    requires var e := Entering(cs, u, 4 * q); e.stage[StoredIn(u)] == stage && e.level[StoredIn(u)] == level
    requires q % 0x4_0000 + k <= 0x4_0000
    requires 0 <= level && level + R.Steps(rate / 4, rate % 4, q % 0x4_0000, k) < Top(stage, sl)
    ensures var f := Entering(cs, u, 4 * (q + k));
            && f.stage[StoredIn(u)] == stage
            && f.level[StoredIn(u)] == level + R.Steps(rate / 4, rate % 4, q % 0x4_0000, k)
    decreases k
  {
    hide Plays, Entering, StoredIn, R.ShiftAt, Top;
    if k > 0 {
      FallsByItsSteps(cs, u, q, k - 1, stage, reg, rate, sl, level);
      DivModUnique(q + k - 1, 0x4_0000, q / 0x4_0000, q % 0x4_0000 + k - 1);
      var now := level + R.Steps(rate / 4, rate % 4, q % 0x4_0000, k - 1);
      OneGroup(cs, u, q + k - 1, stage, reg, rate, sl, now);
    }
  }

  /** On the running chip a decay, a sustain or a release at a slow rate falls by exactly 4 + rateLo in every
      aligned period of 2^(14 - rateHi) values of the timer, four samples each, in every one of its trips: also
      after a wrap, when the lock that is out of date is gone before it can matter. */
  lemma FallsPerPeriod(cs: nat -> Control, u: nat, trip: nat, i: nat, period: nat, first: nat, stage: Stage, reg: nat,
                       rate: nat, rateHi: nat, rateLo: nat, sl: nat, level: int)
    requires u < 18 && sl < 16 && reg > 0 && 1 <= rateHi < 12 && rateLo < 4 && rate == 4 * rateHi + rateLo
    requires period == Pow2(14 - rateHi) && first == period * i && first + period <= 0x4_0000 && trip + first > 0
    requires var q := 0x4_0000 * trip + first;
             && (forall m :: 4 * q <= m < 4 * (q + period) ==> Plays(cs, u, m, stage, reg, rate, sl))
             && 18 * (4 * q) + u >= 2
             && Entering(cs, u, 4 * q).stage[StoredIn(u)] == stage
             && Entering(cs, u, 4 * q).level[StoredIn(u)] == level
    requires 0 <= level && level + 4 + rateLo < Top(stage, sl)
    ensures var f := Entering(cs, u, 4 * (0x4_0000 * trip + first + period));
            f.stage[StoredIn(u)] == stage && f.level[StoredIn(u)] == level + 4 + rateLo
  {
    hide Plays, Entering, StoredIn, R.Steps, Top, Pow2;
    var q := 0x4_0000 * trip + first;
    DivModUnique(q, 0x4_0000, trip, first);
    DivModUnique(rate, 4, rateHi, rateLo);
    R.StepsPerPeriod(rateHi, rateLo, i);
    FallsByItsSteps(cs, u, q, period, stage, reg, rate, sl, level);
  }

  // ---------- Attack ----------

  /** Which part of the level an attack step takes: none, or one in sixteen, eight, four or two. */
  function Divisor(steps: int): nat {
    if steps == 1 then 16 else if steps == 2 then 8 else if steps == 3 then 4 else if steps == 4 then 2 else 1
  }

  /** An attack step: the level counted from one loses that part of itself, rounded up. */
  lemma AttackShrinks(e: Eg, level: int, counterState: nat)
    requires !e.maxRate && e.kon.before && 0 < level <= 127 && 0 <= AttackShift(e) <= 4
    ensures var was, now, d := level + 1, NextLevel(e, level, Attack, counterState) + 1, Divisor(AttackShift(e));
            now == if AttackShift(e) == 0 then was else was * (d - 1) / d
  {
    SmallPowers();
    hide Pow2, FallStep, AttackShift;
    var was, now, d := level + 1, NextLevel(e, level, Attack, counterState) + 1, Divisor(AttackShift(e));
    if AttackShift(e) > 0 {
      assert now == was + (-was) / d;
      RoundedUp(was, d);
    }
  }

  lemma RoundedUp(was: int, d: int)
    requires was > 0 && d > 0
    ensures was + (-was) / d == was * (d - 1) / d
  {
    var q, r := was / d, was % d;
    assert was == q * d + r;
    assert was * (d - 1) == was * d - was;
    SubMul(was, q, d);
    assert (-q) * d == -(q * d) && (-q - 1) * d == -(q * d) - d && (was - q - 1) * d == (was - q) * d - d;
    if r == 0 {
      DivModUnique(-was, d, -q, 0);
      DivModUnique(was * (d - 1), d, was - q, 0);
    } else {
      DivModUnique(-was, d, -q - 1, d - r);
      DivModUnique(was * (d - 1), d, was - q - 1, d - r);
    }
  }

  /** How large the step is: at a slow rate the smallest, when OPL3's rate would step; at a fast rate larger by
      one for every rate, and by OPL3's pattern. The highest rate takes none. */
  lemma AttackPace(e: Eg, lowLock: nat, shiftLock: nat, t: nat)
    requires e.rate < 64 && lowLock < 4 && shiftLock <= 13
    ensures var p, hi, lo := PrepareIncrements(e, lowLock, shiftLock), e.rate / 4, e.rate % 4;
            && (p.maxRate <==> e.rate >= 60)
            && AttackShift(p) == if e.rate >= 48 then hi - 11 + O.IncStep(lo, lowLock)
                                 else O.Shift(hi, lo, !e.zeroRate, O.Clock(shiftLock, true, t))
  {
    SlowIncrement(e, lowLock, shiftLock, t);
    FastIncrement(e, lowLock, shiftLock);
    if e.rate < 48 {
      ShiftOfSlow(e.rate, !e.zeroRate, shiftLock, t);
    }
    hide O.Shift, O.IncStep, StepHi;
  }

  lemma ShiftOfSlow(rate: nat, nonzero: bool, egAdd: nat, t: nat)
    requires rate < 48
    ensures O.Shift(rate / 4, rate % 4, nonzero, O.Clock(egAdd, true, t)) <= 1
  {}

  /** A slot that counts as silent goes to the bottom; a slot that starts begins at full volume if its rate is the
      highest, and at its present level if not. */
  lemma SilenceAndStart(e: Eg, level: int, stage: Stage, counterState: nat)
    requires stage != Attack
    ensures e.off.before && !e.doKon.before ==> NextLevel(e, level, stage, counterState) == 127
    ensures e.doKon.before ==> NextLevel(e, level, stage, counterState) == if e.maxRate then 0 else level
  {
    hide FallStep;
  }

  // ---------- The order of the stages ----------

  /** What a pass makes of a slot's stage, given its key and whether the key starts it from silence. */
  ghost predicate Follows(next: Stage, stage: Stage, level: int, keyOn: bool, starts: bool, sl: nat) {
    && (next == Attack <==> starts || (keyOn && stage == Attack && level != 0))
    && (next == Decay <==> !starts && keyOn && ((stage == Attack && level == 0) || (stage == Decay && level / 8 != sl)))
    && (next == Sustain <==> !starts && keyOn && (stage == Sustain || (stage == Decay && level / 8 == sl)))
    && (next == Release <==> !starts && (!keyOn || stage == Release))
  }

  /** A slot's key and start on their way through the pipeline. */
  lemma KeyThroughPipeline(e: Eg, k0: Clocking, k1: Clocking, k2: Clocking, c0: Control, c1: Control, c2: Control,
                           slot: nat)
    requires |e.level| == |e.stage| == 18 && slot < 18 && k0.cycle == slot && k1.cycle == NextCycle(slot)
    requires k2.cycle == NextCycle(k1.cycle)
    ensures var starts := e.stage[slot] == Release && c0.keyOn && e.level[slot] / 4 == 31;
            var r := Tick(Tick(Tick(e, k0, c0), k1, c1), k2, c2);
            Follows(r.stage[slot], e.stage[slot], e.level[slot], c0.keyOn, starts, c1.sl)
  {
    hide Tick, Follows;
    var e1 := Tick(e, k0, c0);
    StoreTouchesOne(e, k0, c0, slot);
    KeyEnters(e, k0, c0);
    var e2 := Tick(e1, k1, c1);
    StoreTouchesOne(e1, k1, c1, slot);
    KeyMoves(e1, k1, c1);
    StageStored(e2, k2, c2, slot);
    KeyHeld(c0.keyOn, e2.doKon.before);
  }

  lemma KeyEnters(e: Eg, k: Clocking, c: Control)
    requires |e.level| == |e.stage| == 18 && k.cycle < 18
    ensures var r, s := Tick(e, k, c), k.cycle;
            r.kon.now == c.keyOn && r.doKon.now == (e.stage[s] == Release && c.keyOn && e.level[s] / 4 == 31)
  {
    hide StepHi, SlotRate, NextLevel, NextStage;
  }

  lemma KeyMoves(e: Eg, k: Clocking, c: Control)
    requires |e.level| == |e.stage| == 18 && k.cycle < 18
    ensures var r := Tick(e, k, c); r.kon.before == e.kon.now && r.doKon.before == e.doKon.now && r.sl == c.sl
  {
    hide StepHi, SlotRate, NextLevel, NextStage;
  }

  lemma StageStored(e: Eg, k: Clocking, c: Control, slot: nat)
    requires |e.level| == |e.stage| == 18 && k.cycle < 18 && Back(k.cycle, 2) == slot
    ensures Follows(Tick(e, k, c).stage[slot], e.stage[slot], e.level[slot], e.kon.before || e.doKon.before,
                    e.doKon.before, e.sl)
  {
    hide StepHi, SlotRate, NextLevel;
  }

  lemma KeyHeld(keyOn: bool, starts: bool)
    requires starts ==> keyOn
    ensures (keyOn || starts) == keyOn
  {}

  /** On the running chip, in every pass of every slot: a key that goes down on a silent released slot starts an
      attack, which lasts until the level is zero, then comes the decay until the level is in its band, then the
      sustain; a key that is up releases. */
  lemma StagesInOrder(cs: nat -> Control, u: nat, m: nat)
    requires u < 18 && 18 * m + u >= 2
    ensures var e, f, slot := Entering(cs, u, m), Entering(cs, u, m + 1), StoredIn(u);
            var keyOn := cs(18 * m + u - 2).keyOn;
            var starts := e.stage[slot] == Release && keyOn && e.level[slot] / 4 == 31;
            Follows(f.stage[slot], e.stage[slot], e.level[slot], keyOn, starts, cs(18 * m + u - 1).sl)
  {
    hide Tick, Pipeline, ClockingAt, Follows;
    var n, slot := 18 * m + u, StoredIn(u);
    assert m == 4 * (m / 4) + m % 4;
    ThreeMore(cs, n);
    PassClocks(m / 4, m % 4, u);
    LeftAlone(cs, n, 15);
    KeyThroughPipeline(Pipeline(cs, n - 2), ClockingAt(n - 2), ClockingAt(n - 1), ClockingAt(n),
                       cs(n - 2), cs(n - 1), cs(n), slot);
  }
}
