/** The OPLL envelope timer: an 18-bit counter kept in a register that rotates one place per clock. */
module OpllTimer {
  import opened Bits
  import opened SerialAdder
  import opened Opl3Timing

  datatype Timer = Timer(cycles: nat, counterState: nat, counterStatePrev: nat, reg: seq<bool>, carry: bool,
                         lowLock: nat, shift: nat, shiftLock: nat, shiftStop: bool)

  function Reset(): Timer {
    Timer(0, 0, 0, Zeros(18), false, 0, 0, 0, false)
  }

  /** One clock of the timer section of OPLL_EnvelopeGenerate. */
  function Tick(t: Timer): Timer
    requires |t.reg| == 18
  {
    var inc := t.counterState % 4 == 3 && (t.cycles == 0 || t.carry);
    var ring := AddBit(Ring(t.reg, false), inc);
    var seen := ring.reg[16];
    var shift := if !t.shiftStop && seen then t.cycles else t.shift;
    var lock := t.cycles == 0 && t.counterStatePrev % 2 == 1;
    Timer(
      if t.cycles == 17 then 0 else t.cycles + 1,
      if t.cycles != 17 then t.counterState else if t.counterState == 255 then 0 else t.counterState + 1,
      t.counterState,
      ring.reg,
      ring.carry,
      if lock then LowTwo(t.reg) else t.lowLock,
      if lock then 0 else shift,
      if lock then Clip(shift) else t.shiftLock,
      t.cycles != 0 && (t.shiftStop || seen))
  }

  function LowTwo(reg: seq<bool>): nat
    requires |reg| >= 2
  {
    BitAt(reg[0], 0) + BitAt(reg[1], 1)
  }

  function Clip(shift: nat): nat { if shift > 13 then 0 else shift }

  function Ticks(t: Timer, n: nat): (r: Timer)
    requires |t.reg| == 18
    ensures |r.reg| == 18
  {
    if n == 0 then t else Tick(Ticks(t, n - 1))
  }

  /** The addend of a sample: one, or nothing. */
  function Addend(t: Timer): (d: seq<bool>)
    ensures |d| == 18
  {
    Zeros(18)[0 := t.counterState % 4 == 3]
  }

  /** The counter's value during the sample that starts in t. */
  function Next(t: Timer): (s: seq<bool>)
    requires |t.reg| == 18
    ensures |s| == 18
  {
    Add(t.reg, Addend(t))
  }

  /** The lowest set bit below limit, or limit. */
  function FirstSet(s: seq<bool>, limit: nat): (i: nat)
    requires limit <= |s|
    ensures i <= limit && (i < limit ==> s[i]) && forall j | 0 <= j < i :: !s[j]
  {
    if limit == 0 then 0
    else if FirstSet(s, limit - 1) < limit - 1 || s[limit - 1] then FirstSet(s, limit - 1)
    else limit
  }

  /** What `shift` becomes in the first clock of the next sample, before any lock. */
  function Pending(t: Timer): nat
    requires |t.reg| == 18
  {
    if !t.shiftStop && t.reg[17] then 0 else t.shift
  }

  /** A sample in progress, k clocks in: the register is the serial adder's, and the bits of the
      new value that have passed position 16 have been scanned for the lowest one. */
  ghost predicate InSample(t0: Timer, k: nat, t: Timer)
    requires |t0.reg| == 18 && 1 <= k <= 18
  {
    var ring := AfterBits(t0.reg, Addend(t0), k);
    var n := Next(t0);
    var first := FirstSet(n, k - 1);
    && t.cycles == (if k == 18 then 0 else k)
    && t.counterState == (if k < 18 then t0.counterState else if t0.counterState == 255 then 0 else t0.counterState + 1)
    && t.counterStatePrev == t0.counterState
    && t.reg == ring.reg && t.carry == ring.carry
    && t.shiftStop == (first < k - 1)
    && t.shift == (if first < k - 1 then first + 1 else if t0.counterStatePrev % 2 == 1 then 0 else Pending(t0))
    && (if t0.counterStatePrev % 2 == 1
        then t.lowLock == LowTwo(t0.reg) && t.shiftLock == Clip(Pending(t0))
        else t.lowLock == t0.lowLock && t.shiftLock == t0.shiftLock)
  }

  lemma {:induction false} ClocksIntoSample(t0: Timer, k: nat)
    requires t0.cycles == 0 && |t0.reg| == 18 && 1 <= k <= 18
    ensures InSample(t0, k, Ticks(t0, k))
  {
    if k == 1 {
      assert Ticks(t0, 1) == Tick(Ticks(t0, 0));
      AddBitStep(t0.reg, Addend(t0), 0);
    } else {
      ClocksIntoSample(t0, k - 1);
      LaterClock(t0, k - 1, Ticks(t0, k - 1));
    }
  }

  lemma LaterClock(t0: Timer, k: nat, t: Timer)
    requires t0.cycles == 0 && |t0.reg| == 18 && 1 <= k < 18 && InSample(t0, k, t)
    ensures InSample(t0, k + 1, Tick(t))
  {
    var d := Addend(t0);
    AddBitStep(t0.reg, d, k);
    if t0.counterState % 4 != 3 {
      assert d == Zeros(18);
      NoCarry(t0.reg, k);
    }
    assert !d[k];
    assert AddBit(Ring(t.reg, t.carry), false) == AfterBits(t0.reg, d, k + 1);
    assert Tick(t).reg == AfterBits(t0.reg, d, k + 1).reg && Tick(t).carry == AfterBits(t0.reg, d, k + 1).carry;
    assert Tick(t).reg[16] == Next(t0)[k - 1];
    hide AfterBits, AddBit;
  }

  /** The shift a nonzero value leaves behind: its trailing zeros plus one. A set bit 17 alone
      passes the scan in the next sample's first clock and reads as no shift. */
  function Scanned(n: nat): nat
    requires n > 0
  {
    if Ctz(n) == 17 then 0 else Ctz(n) + 1
  }

  /** One whole sample: eighteen clocks of rotating and carrying add one to the counter when the
      counter state is 3 mod 4 and leave it alone otherwise, and scan the result. */
  lemma SampleStep(t0: Timer)
    requires t0.cycles == 0 && |t0.reg| == 18
    ensures var t := Ticks(t0, 18); var v := Value(t.reg);
            && t.cycles == 0
            && v == (if t0.counterState % 4 != 3 then Value(t0.reg)
                     else if Value(t0.reg) == 0x3_ffff then 0 else Value(t0.reg) + 1)
            && t.counterState == (if t0.counterState == 255 then 0 else t0.counterState + 1)
            && t.counterStatePrev == t0.counterState
            && Pending(t) == (if v > 0 then Scanned(v)
                              else if t0.counterStatePrev % 2 == 1 then 0 else Pending(t0))
  {
    var n := Next(t0);
    ClocksIntoSample(t0, 18);
    FullTurn(t0.reg, Addend(t0));
    NextValue(t0);
    var first := FirstSet(n, 17);
    if first < 17 {
      LowestSetBit(n, first);
    } else if n[17] {
      LowestSetBit(n, 17);
    } else {
      NoSetBit(n);
    }
    hide Ctz, Value, Add, Ticks, FirstSet;
  }

  lemma NextValue(t: Timer)
    requires |t.reg| == 18
    ensures Value(Next(t)) == if t.counterState % 4 != 3 then Value(t.reg)
                              else if Value(t.reg) == 0x3_ffff then 0 else Value(t.reg) + 1
  {
    hide Value, Add;
    assert Pow2(18) == 0x4_0000 by { assert Pow2(6) == 0x40; assert Pow2(12) == 0x1000; }
    hide Pow2;
    FullTurn(t.reg, Addend(t));
    OneOrNothing(t);
    ValueBound(t.reg);
  }

  lemma OneOrNothing(t: Timer)
    ensures Value(Addend(t)) == if t.counterState % 4 == 3 then 1 else 0
  {
    var d := Addend(t);
    LowBitFirst(d);
    NoSetBit(d[1..]);
    assert Pow2(0) == 1;
  }

  lemma {:induction false} TicksAdd(t: Timer, a: nat, b: nat)
    requires |t.reg| == 18
    ensures Ticks(t, a + b) == Ticks(Ticks(t, a), b)
  {
    hide Tick;
    if b > 0 {
      TicksAdd(t, a, b - 1);
    }
  }

  /** The timer at the start of sample number n of a run from reset. */
  function AfterSamples(n: nat): (t: Timer)
    ensures |t.reg| == 18
  {
    Ticks(Reset(), 18 * n)
  }

  lemma NextSample(n: nat)
    ensures AfterSamples(n + 1) == Ticks(AfterSamples(n), 18)
  {
    TicksAdd(Reset(), 18 * n, 18);
    hide Ticks;
  }

  /** The timer after 4q + r samples from reset. */
  ghost predicate AtBoundary(q: nat, r: nat, t: Timer)
    requires r < 4
  {
    var v := q % 0x4_0000;
    && t.cycles == 0 && |t.reg| == 18
    && Value(t.reg) == v
    && t.counterState == 4 * (q % 64) + r
    && t.counterStatePrev == (if q == 0 && r == 0 then 0 else if t.counterState == 0 then 255 else t.counterState - 1)
    && Pending(t) == (if v > 0 then Scanned(v) else if q > 0 && r == 0 then 1 else 0)
  }

  /** At every sample boundary of every run the counter holds the number of completed groups of
      four samples, modulo its width. */
  lemma {:induction false} TimerAfter(q: nat, r: nat)
    requires r < 4
    ensures AtBoundary(q, r, AfterSamples(4 * q + r))
    decreases q, r
  {
    hide Ticks, AfterSamples, Value, Pending, Scanned;
    if q == 0 && r == 0 {
      ResetBoundary();
    } else {
      var q0, r0 := if r > 0 then q else q - 1, if r > 0 then r - 1 else 3;
      TimerAfter(q0, r0);
      var t0 := AfterSamples(4 * q0 + r0);
      NextSample(4 * q0 + r0);
      SampleStep(t0);
      BoundaryStep(q0, r0, t0, Ticks(t0, 18));
    }
  }

  lemma ResetBoundary()
    ensures AtBoundary(0, 0, AfterSamples(0))
  {
    NoSetBit(Zeros(18));
  }

  lemma BoundaryStep(q: nat, r: nat, t0: Timer, t: Timer)
    requires r < 4 && AtBoundary(q, r, t0) && t.cycles == 0 && |t.reg| == 18
    requires Value(t.reg) == (if t0.counterState % 4 != 3 then Value(t0.reg)
                              else if Value(t0.reg) == 0x3_ffff then 0 else Value(t0.reg) + 1)
    requires t.counterState == (if t0.counterState == 255 then 0 else t0.counterState + 1)
    requires t.counterStatePrev == t0.counterState
    requires Pending(t) == (if Value(t.reg) > 0 then Scanned(Value(t.reg))
                            else if t0.counterStatePrev % 2 == 1 then 0 else Pending(t0))
    ensures if r < 3 then AtBoundary(q, r + 1, t) else AtBoundary(q + 1, 0, t)
  {
    hide Ctz, Value;
    PhaseParity(q % 64, r);
    NextMod(q, 0x4_0000);
    NextMod(q, 64);
    AllOnes();
  }

  lemma AllOnes()
    ensures Ctz(0x3_ffff) == 0
  {}

  /** What the clocks test of a counter state 4h + r and of its predecessor. */
  lemma PhaseParity(h: nat, r: nat)
    requires r < 4
    ensures (4 * h + r) % 4 == r
    ensures 4 * h + r > 0 ==> ((4 * h + r - 1) % 2 == 1 <==> r % 2 == 0)
  {
    DivModUnique(4 * h + r, 4, h, r);
    if r == 0 {
      DivModUnique(4 * h - 1, 2, 2 * h - 1, 1);
    } else {
      DivModUnique(4 * h + r - 1, 2, 2 * h + (r - 1) / 2, (r - 1) % 2);
    }
  }

  /** The value locked at the start of every second sample is the shift OPL3 computes directly,
      except for the one lock that follows the counter's wrap to zero, which still holds the shift
      of the value before the wrap. */
  lemma LockedShift(q: nat, r: nat)
    requires (r == 0 && q > 0) || r == 2
    ensures var t := Tick(AfterSamples(4 * q + r)); var v := q % 0x4_0000;
            && t.lowLock == v % 4
            && (t.shiftLock == EgAdd(v) <==> !(r == 0 && v == 0))
            && (r == 0 && v == 0 ==> t.shiftLock == 1)
  {
    hide AfterSamples, Ctz, Value;
    var t := AfterSamples(4 * q + r);
    TimerAfter(q, r);
    ClocksIntoSample(t, 1);
    LowTwoBits(t.reg);
    PhaseParity(q % 64, r);
    assert Ticks(t, 1) == Tick(Ticks(t, 0));
  }

  lemma LowTwoBits(s: seq<bool>)
    requires |s| >= 2
    ensures LowTwo(s) == Value(s) % 4
  {
    LowBitFirst(s);
    LowBitFirst(s[1..]);
    assert Pow2(1) == 2 && Pow2(0) == 1;
    hide Value, Pow2;
    var rest := Value(s[1..][1..]);
    assert Value(s) == LowTwo(s) + 4 * rest;
  }
}
