/** The OPLL amplitude LFO: a 9-bit up/down counter in a register that rotates one place per clock. */
module OpllLfo {
  import opened Bits
  import opened SerialAdder
  import opened Opl3Timing

  datatype Lfo = Lfo(cycles: nat, counter: nat, vibCounter: nat, amCounter: seq<bool>, amStep: bool,
                     amDir: bool, amCar: bool, amOut: nat)

  function Reset(): Lfo {
    Lfo(0, 0, 0, Zeros(9), false, false, false, 0)
  }

  /** The direction bit as the first clock of a sample leaves it: the tests are single-bit masks. */
  function NextDir(dir: bool, am: seq<bool>): bool
    requires |am| == 9
  {
    if dir then !(!am[0] && !am[1] && !am[2] && !am[3] && !am[4] && !am[5] && !am[6])
    else am[0] && am[3] && am[5] && am[6]
  }

  /** One clock of OPLL_DoLFO, with the latch of the output at the start of OPLL_Clock. */
  function Tick(t: Lfo): (r: Lfo)
    requires |t.amCounter| == 9
    ensures |r.amCounter| == 9
  {
    var inc := t.amStep && t.cycles < 9 && (t.amDir || t.cycles == 0);
    var ring := AddBit(Ring(t.amCounter, t.amCar && t.cycles < 9), inc);
    Lfo(
      if t.cycles == 17 then 0 else t.cycles + 1,
      if t.cycles != 17 then t.counter else if t.counter == 0xffff then 0 else t.counter + 1,
      if t.cycles == 17 && t.counter % 0x400 == 0x3ff then (t.vibCounter + 1) % 8 else t.vibCounter,
      ring.reg,
      if t.cycles == 17 then t.counter % 64 == 63 else t.amStep,
      if t.cycles == 0 then NextDir(t.amDir, t.amCounter) else t.amDir,
      ring.carry,
      if t.cycles == 0 then Value(t.amCounter[3..7]) else t.amOut)
  }

  function Ticks(t: Lfo, n: nat): (r: Lfo)
    requires |t.amCounter| == 9
    ensures |r.amCounter| == 9
  {
    if n == 0 then t else Tick(Ticks(t, n - 1))
  }

  /** What a sample adds: nothing, one, or all ones, which is minus one. */
  function Addend(t: Lfo): (d: seq<bool>)
    requires |t.amCounter| == 9
    ensures |d| == 9
  {
    if !t.amStep then Zeros(9)
    else if NextDir(t.amDir, t.amCounter) then AllSet(9)
    else Zeros(9)[0 := true]
  }

  /** k clocks into a sample: nine clocks add, nine more rotate the sum back into place. */
  ghost predicate InSample(t0: Lfo, k: nat, t: Lfo)
    requires |t0.amCounter| == 9 && 1 <= k <= 18
  {
    var ring := if k <= 9 then AfterBits(t0.amCounter, Addend(t0), k)
                else AfterBits(Add(t0.amCounter, Addend(t0)), Zeros(9), k - 9);
    && t.cycles == (if k == 18 then 0 else k)
    && t.counter == (if k < 18 then t0.counter else if t0.counter == 0xffff then 0 else t0.counter + 1)
    && t.amStep == (if k < 18 then t0.amStep else t0.counter % 64 == 63)
    && t.amDir == NextDir(t0.amDir, t0.amCounter)
    && t.amCounter == ring.reg && t.amCar == ring.carry
    && t.amOut == Value(t0.amCounter[3..7])
  }

  lemma {:induction false} ClocksIntoSample(t0: Lfo, k: nat)
    requires t0.cycles == 0 && |t0.amCounter| == 9 && !t0.amCar && 1 <= k <= 18
    ensures InSample(t0, k, Ticks(t0, k))
  {
    if k == 1 {
      assert Ticks(t0, 1) == Tick(Ticks(t0, 0));
      AddBitStep(t0.amCounter, Addend(t0), 0);
    } else {
      ClocksIntoSample(t0, k - 1);
      LaterClock(t0, k - 1, Ticks(t0, k - 1));
    }
  }

  lemma LaterClock(t0: Lfo, k: nat, t: Lfo)
    requires t0.cycles == 0 && |t0.amCounter| == 9 && 1 <= k < 18 && InSample(t0, k, t)
    ensures InSample(t0, k + 1, Tick(t))
  {
    if k < 9 {
      AddBitStep(t0.amCounter, Addend(t0), k);
      AddendBit(t0, k);
    } else {
      RotateStep(t0, k, t);
    }
    hide AfterBits, AddBit, Add, Addend, NextDir, Value;
  }

  lemma AddendBit(t: Lfo, k: nat)
    requires |t.amCounter| == 9 && 1 <= k < 9
    ensures Addend(t)[k] == (t.amStep && NextDir(t.amDir, t.amCounter))
  {
    hide NextDir;
  }

  lemma RotateStep(t0: Lfo, k: nat, t: Lfo)
    requires |t0.amCounter| == 9 && 9 <= k < 18 && InSample(t0, k, t)
    ensures AddBit(Ring(t.amCounter, false), false) == AfterBits(Add(t0.amCounter, Addend(t0)), Zeros(9), k - 8)
  {
    var v, d := t0.amCounter, Addend(t0);
    hide Addend, NextDir, Value, Add;
    var s := Add(v, d);
    TurnOver(v, d);
    assert t.amCounter == AfterBits(s, Zeros(9), k - 9).reg;
    NoCarry(s, k - 9);
    AddBitStep(s, Zeros(9), k - 9);
    assert AfterBits(s, Zeros(9), k - 9) == Ring(t.amCounter, false);
    hide AfterBits, AddBit;
  }

  /** Nine clocks of adding are where nine clocks of rotating begin. */
  lemma TurnOver(v: seq<bool>, d: seq<bool>)
    requires |v| == |d| == 9
    ensures AfterBits(v, d, 9).reg == AfterBits(Add(v, d), Zeros(9), 0).reg
  {
    FullTurn(v, d);
    assert Add(v, d)[0..] == Add(v, d);
  }

  lemma NineBits(s: seq<bool>)
    requires |s| == 9
    ensures Value(s) == BitAt(s[0], 0) + BitAt(s[1], 1) + BitAt(s[2], 2) + BitAt(s[3], 3) + BitAt(s[4], 4)
                      + BitAt(s[5], 5) + BitAt(s[6], 6) + BitAt(s[7], 7) + BitAt(s[8], 8)
  {
    hide Value, BitAt;
    FourBits(s);
    NextTop(s, 8); NextTop(s, 7); NextTop(s, 6); NextTop(s, 5); NextTop(s, 4);
    assert s[..9] == s;
  }

  lemma FourBits(s: seq<bool>)
    requires |s| == 9
    ensures Value(s[..4]) == BitAt(s[0], 0) + BitAt(s[1], 1) + BitAt(s[2], 2) + BitAt(s[3], 3)
  {
    hide Value, BitAt;
    NextTop(s, 3); NextTop(s, 2); NextTop(s, 1); NextTop(s, 0);
  }

  lemma NextTop(s: seq<bool>, i: nat)
    requires i < |s|
    ensures Value(s[..i + 1]) == Value(s[..i]) + BitAt(s[i], i)
    ensures Value(s[..0]) == 0
  {
    assert s[..i + 1][..i] == s[..i];
  }

  /** On the counter's range the two mask tests are tests for the end points. */
  lemma MasksAreEndPoints(dir: bool, am: seq<bool>)
    requires |am| == 9 && Value(am) <= 105
    ensures NextDir(dir, am) == if dir then Value(am) != 0 else Value(am) == 105
  {
    hide Value, Pow2;
    NineBits(am);
    SmallPowers();
  }

  /** One sample moves the counter one step along its direction when a step is due. */
  lemma SampleStep(t0: Lfo)
    requires t0.cycles == 0 && |t0.amCounter| == 9 && !t0.amCar && Value(t0.amCounter) <= 105
    ensures var t := Ticks(t0, 18); var v := Value(t0.amCounter); var down := NextDir(t0.amDir, t0.amCounter);
            && t.cycles == 0 && !t.amCar && |t.amCounter| == 9
            && t.counter == (if t0.counter == 0xffff then 0 else t0.counter + 1)
            && t.amStep == (t0.counter % 64 == 63)
            && t.amDir == down
            && Value(t.amCounter) == (if !t0.amStep then v else if down then v - 1 else v + 1)
            && t.amOut == Value(t0.amCounter[3..7])
  {
    ClocksIntoSample(t0, 18);
    hide Ticks, Value, NextDir, Addend;
    var v, d := t0.amCounter, Addend(t0);
    SumRotatedBack(v, d);
    FullTurn(v, d);
    MasksAreEndPoints(t0.amDir, v);
    AddendValues(t0);
    SmallPowers();
    hide Add, Pow2, AfterBits;
  }

  /** Nine further clocks that add nothing bring the sum back to where it was. */
  lemma SumRotatedBack(v: seq<bool>, d: seq<bool>)
    requires |v| == |d| == 9
    ensures AfterBits(Add(v, d), Zeros(9), 9) == Ring(Add(v, d), false)
  {
    var s := Add(v, d);
    FullTurn(s, Zeros(9));
    NoSetBit(Zeros(9));
    NoCarry(s, 9);
    ValueBound(s);
    ValueInjective(Add(s, Zeros(9)), s);
  }

  lemma AddendValues(t: Lfo)
    requires |t.amCounter| == 9
    ensures Value(Addend(t)) == if !t.amStep then 0 else if NextDir(t.amDir, t.amCounter) then 511 else 1
  {
    hide Value, Pow2, NextDir;
    SmallPowers();
    AllSetValue(9);
    NoSetBit(Zeros(9));
    OneBit();
  }

  lemma OneBit()
    ensures Value(Zeros(9)[0 := true]) == 1
  {
    var s := Zeros(9)[0 := true];
    LowBitFirst(s);
    NoSetBit(s[1..]);
    SmallPowers();
  }

  lemma {:induction false} TicksAdd(t: Lfo, a: nat, b: nat)
    requires |t.amCounter| == 9
    ensures Ticks(t, a + b) == Ticks(Ticks(t, a), b)
  {
    hide Tick;
    if b > 0 {
      TicksAdd(t, a, b - 1);
    }
  }

  /** The LFO at the start of sample number n of a run from reset. */
  function AfterSamples(n: nat): (t: Lfo)
    ensures |t.amCounter| == 9
  {
    Ticks(Reset(), 18 * n)
  }

  lemma NextSample(n: nat)
    ensures AfterSamples(n + 1) == Ticks(AfterSamples(n), 18)
  {
    TicksAdd(Reset(), 18 * n, 18);
    hide Ticks;
  }

  /** Steps taken before sample 64q + r: one at the start of each group of 64 but the first. */
  function Steps(q: nat, r: nat): nat { if r == 0 && q > 0 then q - 1 else q }

  ghost predicate AtBoundary(q: nat, r: nat, t: Lfo)
    requires r < 64
  {
    var pos := Steps(q, r) % 210;
    && t.cycles == 0 && !t.amCar && |t.amCounter| == 9
    && t.counter == 64 * (q % 1024) + r
    && t.amStep == (r == 0 && q > 0)
    && Value(t.amCounter) == Triangle(pos)
    && NextDir(t.amDir, t.amCounter) == (pos >= 105)
  }

  /** At every sample boundary of every run the counter is the 210-step triangle of the number of
      steps so far; in particular it never leaves 0..105. */
  lemma {:induction false} CounterIsTriangle(q: nat, r: nat)
    requires r < 64
    ensures AtBoundary(q, r, AfterSamples(64 * q + r))
    decreases q, r
  {
    hide Ticks, AfterSamples, NextDir, Value, Addend;
    if q == 0 && r == 0 {
      ResetBoundary();
    } else {
      var q0, r0 := if r > 0 then q else q - 1, if r > 0 then r - 1 else 63;
      CounterIsTriangle(q0, r0);
      var t0 := AfterSamples(64 * q0 + r0);
      NextSample(64 * q0 + r0);
      SampleStep(t0);
      BoundaryStep(q0, r0, t0, Ticks(t0, 18));
    }
  }

  lemma ResetBoundary()
    ensures AtBoundary(0, 0, AfterSamples(0))
  {
    NoSetBit(Zeros(9));
  }

  lemma BoundaryStep(q: nat, r: nat, t0: Lfo, t: Lfo)
    requires r < 64 && AtBoundary(q, r, t0)
    requires t.cycles == 0 && !t.amCar && |t.amCounter| == 9
    requires t.counter == (if t0.counter == 0xffff then 0 else t0.counter + 1)
    requires t.amStep == (t0.counter % 64 == 63)
    requires t.amDir == NextDir(t0.amDir, t0.amCounter)
    requires Value(t.amCounter) == (if !t0.amStep then Value(t0.amCounter)
                                    else if t.amDir then Value(t0.amCounter) - 1 else Value(t0.amCounter) + 1)
    ensures if r < 63 then AtBoundary(q, r + 1, t) else AtBoundary(q + 1, 0, t)
  {
    hide Value, NextDir;
    assert (64 * (q % 1024) + r) % 64 == r;
    NextMod(q, 1024);
    if r == 0 && q > 0 {
      NextMod(q - 1, 210);
    }
    MasksAreEndPoints(t.amDir, t.amCounter);
  }

  /** The same triangle position OPL3 keeps: one sample later, OPLL's serial counter equals the
      unshifted tremolo level OPL3 derives from its position counter. */
  lemma AgreesWithOpl3Tremolo(q: nat, r: nat)
    requires r < 64
    ensures var pos := After(64 * q + r).tremoloPos;
            pos < 210 && Value(AfterSamples(64 * q + r + 1).amCounter) == Triangle(pos)
  {
    hide AfterSamples, After, Value;
    CountersAfter(64 * q + r);
    assert (64 * q + r) / 64 == q;
    if r < 63 {
      CounterIsTriangle(q, r + 1);
    } else {
      CounterIsTriangle(q + 1, 0);
    }
  }

  /** What the output stage gets in a sample: an eighth of the triangle, rounded down. */
  lemma LatchedLevel(q: nat, r: nat, k: nat)
    requires r < 64 && 1 <= k <= 18
    ensures Ticks(AfterSamples(64 * q + r), k).amOut == Triangle(Steps(q, r) % 210) / 8
  {
    hide Ticks, AfterSamples, Value, NextDir, Addend;
    CounterIsTriangle(q, r);
    var t := AfterSamples(64 * q + r);
    ClocksIntoSample(t, k);
    HighBits(t.amCounter);
  }

  lemma HighBits(am: seq<bool>)
    requires |am| == 9 && Value(am) <= 105
    ensures Value(am[3..7]) == Value(am) / 8
  {
    var s := am[3..7];
    hide Value, Pow2;
    NineBits(am);
    FourLow(s);
    SmallPowers();
    var low := BitAt(am[0], 0) + BitAt(am[1], 1) + BitAt(am[2], 2);
    DivModUnique(Value(am), 8, Value(s), low);
  }

  lemma FourLow(s: seq<bool>)
    requires |s| == 4
    ensures Value(s) == BitAt(s[0], 0) + BitAt(s[1], 1) + BitAt(s[2], 2) + BitAt(s[3], 3)
  {
    var wide := s + [false, false, false, false, false];
    FourBits(wide);
    assert wide[..4] == s;
  }

  /** The counters behind both LFOs, in every clock of every run: the samples so far, and a vibrato position that
      moves every 1024 of them, which is OPL3's. */
  lemma {:induction false} CountersInClock(n: nat)
    ensures var t := Ticks(Reset(), n);
            t.cycles == n % 18 && t.counter == n / 18 % 0x1_0000 && t.vibCounter == n / 18 / 1024 % 8
  {
    hide Tick;
    if n == 0 {
      assert Ticks(Reset(), 0) == Reset();
    } else {
      CountersInClock(n - 1);
      OneClock(Ticks(Reset(), n - 1));
      hide Ticks;
      NextMod(n - 1, 18);
      QuotientNonneg(n - 1, 18);
      NextCount((n - 1) / 18);
    }
  }

  /** What a clock does to those counters. */
  lemma OneClock(t: Lfo)
    requires |t.amCounter| == 9
    ensures var r := Tick(t);
            if t.cycles != 17 then r.cycles == t.cycles + 1 && r.counter == t.counter && r.vibCounter == t.vibCounter
            else
              && r.cycles == 0
              && r.counter == (if t.counter == 0xffff then 0 else t.counter + 1)
              && r.vibCounter == if t.counter % 0x400 == 0x3ff then (t.vibCounter + 1) % 8 else t.vibCounter
  {
    hide NextDir, Value;
  }

  lemma NextCount(m: nat)
    ensures (m + 1) % 0x1_0000 == if m % 0x1_0000 == 0xffff then 0 else m % 0x1_0000 + 1
    ensures m / 1024 >= 0
    ensures (m + 1) / 1024 % 8 == if m % 0x1_0000 % 1024 == 1023 then (m / 1024 % 8 + 1) % 8 else m / 1024 % 8
  {
    NextMod(m, 0x1_0000);
    NextMod(m, 1024);
    ModOfMod(m, 1024, 64);
    QuotientNonneg(m, 1024);
    StepMod(m / 1024, 8);
  }

  lemma AgreesWithOpl3Vibrato(samples: nat, k: nat)
    requires k < 18
    ensures Ticks(Reset(), 18 * samples + k).vibCounter == After(samples).vibPos
  {
    hide Ticks, After;
    CountersInClock(18 * samples + k);
    CountersAfter(samples);
    DivModUnique(18 * samples + k, 18, samples, k);
  }
}
