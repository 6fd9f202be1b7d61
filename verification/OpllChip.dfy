/** The OPLL chip's envelope generator and LFO as OPLL_Clock updates them in place, one object for
    each section of the chip's record. The register file supplies one Control per clock. */
module OpllChip {
  import opened Bits
  import opened SerialAdder
  import T = OpllTimer
  import L = OpllLfo
  import E = OpllEnvelope
  import S = OpllSpeed

  class EnvelopeTimer {
    var counterState: nat
    var counterStatePrev: nat
    var timer: seq<bool>
    var carry: bool
    var lowLock: nat
    var shift: nat
    var shiftLock: nat
    var shiftStop: bool

    ghost function State(cycle: nat): T.Timer
      reads this
    {
      T.Timer(cycle, counterState, counterStatePrev, timer, carry, lowLock, shift, shiftLock, shiftStop)
    }

    constructor ()
      ensures State(0) == T.Reset()
    {
      counterState, counterStatePrev, timer, carry := 0, 0, Zeros(18), false;
      lowLock, shift, shiftLock, shiftStop := 0, 0, 0, false;
    }

    /** The timer section of OPLL_EnvelopeGenerate. */
    method Clock(cycle: nat)
      requires |timer| == 18 && cycle < 18
      modifies this
      ensures State(E.NextCycle(cycle)) == T.Tick(old(State(cycle)))
    {
      hide T.LowTwo;
      var low := T.LowTwo(timer);
      Rotate(cycle);
      Scan(cycle, low);
      counterStatePrev := counterState;
      if cycle == 17 {
        counterState := if counterState == 255 then 0 else counterState + 1;
      }
    }

    method Rotate(cycle: nat)
      requires |timer| == 18
      modifies this`timer, this`carry
      ensures Ring(timer, carry) == AddBit(Ring(old(timer), false), counterState % 4 == 3 && (cycle == 0 || old(carry)))
    {
      var inc := false;
      if counterState % 4 == 3 {
        inc := cycle == 0 || carry;
      }
      var bit := timer[0];
      carry := bit && inc;
      timer := timer[1..] + [bit != inc];
    }

    /** Record the position of the first set bit to pass, and lock it every second sample. */
    method Scan(cycle: nat, low: nat)
      requires |timer| == 18
      modifies this`lowLock, this`shift, this`shiftLock, this`shiftStop
      ensures var lock := cycle == 0 && counterStatePrev % 2 == 1;
              var found := if !old(shiftStop) && timer[16] then cycle else old(shift);
              && lowLock == (if lock then low else old(lowLock))
              && shift == (if lock then 0 else found)
              && shiftLock == (if lock then T.Clip(found) else old(shiftLock))
              && shiftStop == (cycle != 0 && (old(shiftStop) || timer[16]))
    {
      if !shiftStop && timer[16] {
        shift := cycle;
      }
      if cycle == 0 && counterStatePrev % 2 == 1 {
        lowLock := low;
        shiftLock := shift;
        if shiftLock > 13 {
          shiftLock := 0;
        }
        shift := 0;
      }
      shiftStop := shiftStop || timer[16];
      if cycle == 0 {
        shiftStop := false;
      }
    }
  }

  class AmLfo {
    var counter: nat
    var vibCounter: nat
    var amCounter: seq<bool>
    var amStep: bool
    var amDir: bool
    var amCar: bool
    var amOut: nat

    ghost function State(cycle: nat): L.Lfo
      reads this
    {
      L.Lfo(cycle, counter, vibCounter, amCounter, amStep, amDir, amCar, amOut)
    }

    constructor ()
      ensures State(0) == L.Reset()
    {
      counter, vibCounter, amCounter := 0, 0, Zeros(9);
      amStep, amDir, amCar, amOut := false, false, false, 0;
    }

    /** The output latch of OPLL_Clock and OPLL_DoLFO. */
    method Clock(cycle: nat)
      requires |amCounter| == 9 && cycle < 18
      modifies this
      ensures State(E.NextCycle(cycle)) == L.Tick(old(State(cycle)))
    {
      hide L.NextDir, Value;
      if cycle == 0 {
        amOut := Value(amCounter[3..7]);
      }
      Count(cycle);
      RotateAmCounter(cycle);
    }

    method Count(cycle: nat)
      modifies this`counter, this`vibCounter, this`amStep
      ensures counter == (if cycle != 17 then old(counter) else if old(counter) == 0xffff then 0 else old(counter) + 1)
      ensures vibCounter == (if cycle == 17 && old(counter) % 0x400 == 0x3ff then (old(vibCounter) + 1) % 8
                             else old(vibCounter))
      ensures amStep == (if cycle == 17 then old(counter) % 64 == 63 else old(amStep))
    {
      if cycle == 17 {
        if counter % 0x400 == 0x3ff {
          vibCounter := (vibCounter + 1) % 8;
        }
        amStep := counter % 64 == 63;
        counter := if counter == 0xffff then 0 else counter + 1;
      }
    }

    method RotateAmCounter(cycle: nat)
      requires |amCounter| == 9
      modifies this`amCounter, this`amDir, this`amCar
      ensures amDir == (if cycle == 0 then L.NextDir(old(amDir), old(amCounter)) else old(amDir))
      ensures Ring(amCounter, amCar)
           == AddBit(Ring(old(amCounter), old(amCar) && cycle < 9),
                     amStep && cycle < 9 && (old(amDir) || cycle == 0))
    {
      var amInc := false;
      if amStep && cycle < 9 {
        amInc := amDir || cycle == 0;
      }
      if cycle >= 9 {
        amCar := false;
      }
      if cycle == 0 {
        if amDir && !(exists i :: 0 <= i < 7 && amCounter[i]) {
          amDir := false;
        } else if !amDir && amCounter[0] && amCounter[3] && amCounter[5] && amCounter[6] {
          amDir := true;
        }
      }
      var bit := amCounter[0];
      amCounter := amCounter[1..] + [Sum(bit, amInc, amCar)];
      amCar := Carry(bit, amInc, amCar);
    }
  }

  class EnvelopeGenerator {
    const level: array<int>
    const stage: array<E.Stage>
    var kon: E.Delay
    var doKon: E.Delay
    var off: E.Delay
    var rate: nat
    var maxRate: bool
    var zeroRate: bool
    var incLo: bool
    var incHi: bool
    var rateHi: nat
    var sl: nat

    ghost function State(): E.Eg
      reads this, level, stage
    {
      E.Eg(level[..], stage[..], kon, doKon, off, rate, maxRate, zeroRate, incLo, incHi, rateHi, sl)
    }

    constructor ()
      ensures level.Length == stage.Length == 18 && State() == E.Reset()
      ensures fresh(level) && fresh(stage)
    {
      level := new int[18](i => 127);
      stage := new E.Stage[18](i => E.Release);
      kon, doKon, off := E.Delay(false, false), E.Delay(false, false), E.Delay(false, false);
      rate, maxRate, zeroRate, incLo, incHi, rateHi, sl := 0, false, false, false, false, 0, 0;
    }

    /** OPLL_EnvelopeGenerate after its timer section: one slot leaves the pipeline, one enters. */
    method Clock(k: E.Clocking, c: E.Control)
      requires level.Length == stage.Length == 18 && k.cycle < 18
      modifies this, level, stage
      ensures State() == E.Tick(old(State()), k, c)
    {
      hide E.StoreSlot, E.PrepareIncrements, E.EnterSlot;
      StoreSlot(E.Back(k.cycle, 2), k.counterState);
      PrepareIncrements(k.lowLock, k.shiftLock);
      EnterSlot(k.cycle, c);
    }

    method StoreSlot(slot: nat, counterState: nat)
      requires level.Length == stage.Length == 18 && slot < 18
      modifies level, stage
      ensures State() == E.StoreSlot(old(State()), slot, counterState)
    {
      hide E.NextLevel, E.NextStage;
      var next, nextStage := UpdateSlot(level[slot], stage[slot], counterState);
      level[slot] := next % 256;
      stage[slot] := nextStage;
    }

    method UpdateSlot(was: int, stage0: E.Stage, counterState: nat) returns (next: int, nextStage: E.Stage)
      ensures next == E.NextLevel(State(), was, stage0, counterState)
      ensures nextStage == E.NextStage(State(), was, stage0)
    {
      next, nextStage := was, E.Attack;
      if stage0 != E.Attack && off.before && !doKon.before {
        next := 127;
      }
      if maxRate && doKon.before {
        next := 0;
      }
      var step := 0;
      match stage0 {
        case Attack =>
          if !maxRate && kon.before && was != 0 {
            var shift := if rateHi < 12 then (if incLo then 1 else 0) else rateHi - 11 + (if incHi then 1 else 0);
            if 0 < shift <= 5 {
              step := (-was - 1) / Pow2(5 - shift);
            }
          }
          nextStage := if was == 0 then E.Decay else E.Attack;
        case Decay =>
          if !off.before && !doKon.before && was / 8 != sl {
            step := FallingStep(counterState);
          }
          nextStage := if was / 8 == sl then E.Sustain else E.Decay;
        case _ =>
          if !off.before && !doKon.before {
            step := FallingStep(counterState);
          }
          nextStage := stage0;
      }
      if !kon.before {
        nextStage := E.Release;
      }
      if doKon.before {
        nextStage := E.Attack;
      }
      next := next + step;
    }

    method FallingStep(counterState: nat) returns (step: int)
      ensures step == E.FallStep(State(), counterState)
    {
      var odd, third := counterState % 2 == 1, counterState % 4 == 3;
      var i0 := rateHi == 15 || (rateHi == 14 && incHi);
      var i1 := (rateHi == 14 && !incHi) || (rateHi == 13 && incHi)
                || (rateHi == 13 && !incHi && odd)
                || (rateHi == 12 && incHi && odd)
                || (rateHi == 12 && !incHi && third)
                || (incLo && third);
      step := (if i0 then 2 else 0) + (if i1 then 1 else 0);
    }

    method PrepareIncrements(lowLock: nat, shiftLock: nat)
      modifies this
      ensures State() == E.PrepareIncrements(old(State()), lowLock, shiftLock)
    {
      hide E.StepHi;
      var hi, lo := rate / 4, rate % 4;
      incHi := E.StepHi(lo, lowLock);
      var sum := (shiftLock + hi) % 16;
      incLo := false;
      if hi < 12 && !zeroRate {
        if sum == 12 {
          incLo := true;
        } else if sum == 13 {
          incLo := lo >= 2;
        } else if sum == 14 {
          incLo := lo % 2 == 1;
        }
      }
      maxRate := hi == 15;
      rateHi := hi;
    }

    method EnterSlot(cycle: nat, c: E.Control)
      requires level.Length == stage.Length == 18 && cycle < 18
      modifies this`kon, this`off, this`doKon, this`rate, this`zeroRate, this`sl
      ensures State() == E.EnterSlot(old(State()), cycle, c)
    {
      hide E.SlotRate;
      var silent := level[cycle] / 4 == 31;
      var starting := stage[cycle] == E.Release && c.keyOn && silent;
      var r := LookUpRate(cycle, c, stage[cycle], starting, silent);
      SetRate(r, c);
      kon, off, doKon := kon.Push(c.keyOn), off.Push(silent), doKon.Push(starting);
      zeroRate, sl := r == 0, c.sl;
    }

    method SetRate(r: nat, c: E.Control)
      modifies this`rate
      ensures var ksr := if c.ksr then c.ksrFreq else c.ksrFreq / 4;
              rate == if r * 4 + ksr >= 64 then 60 + ksr % 4 else r * 4 + ksr
    {
      var ksr := c.ksrFreq;
      if !c.ksr {
        ksr := ksr / 4;
      }
      rate := r * 4 + ksr;
      if rate >= 64 {
        rate := 60 + ksr % 4;
      }
    }

    method LookUpRate(cycle: nat, c: E.Control, stage0: E.Stage, starting: bool, silent: bool) returns (r: nat)
      ensures r == E.SlotRate(c, stage0, starting, silent, ((cycle + 1) / 3) % 2 == 1)
    {
      r := 0;
      var carrier := ((cycle + 1) / 3) % 2 == 1;
      match if starting then E.Attack else stage0 {
        case Attack => r := c.ar;
        case Decay => r := c.dr;
        case Sustain =>
          if !c.et {
            r := c.rr;
          }
        case Release =>
          if c.son {
            r := 5;
          } else {
            r := c.rr;
          }
      }
      if !c.keyOn && !carrier && !c.drumTone {
        r := 0;
      }
      if c.keyOn && stage0 == E.Release && !silent {
        r := 12;
      }
      if !c.keyOn && !c.son && carrier && !c.et {
        r := 7;
      }
    }
  }

  class Opll {
    var cycles: nat
    const timer: EnvelopeTimer
    const lfo: AmLfo
    const eg: EnvelopeGenerator
    ghost var clocks: nat
    ghost var history: seq<E.Control>

    ghost const Repr: set<object>

    /** The timer and the LFO are where that many clocks from reset put them, and the envelope
        pipeline is where the history of control values has put it. */
    ghost predicate Valid()
      reads this, Repr
    {
      && Repr == {this, timer, lfo, eg, eg.level, eg.stage}
      && eg.level.Length == eg.stage.Length == 18
      && cycles == clocks % 18
      && timer.State(cycles) == T.Ticks(T.Reset(), clocks)
      && lfo.State(cycles) == L.Ticks(L.Reset(), clocks)
      && E.Valid(eg.State(), clocks, cycles)
      && |history| == clocks && eg.State() == S.Pipeline(S.Played(history), clocks)
    }

    constructor ()
      ensures Valid() && clocks == 0 && fresh(Repr)
    {
      cycles, clocks, history := 0, 0, [];
      timer := new EnvelopeTimer();
      lfo := new AmLfo();
      var generator := new EnvelopeGenerator();
      eg := generator;
      Repr := {this, timer, lfo, generator, generator.level, generator.stage};
      new;
      assert forall i :: 0 <= i < 18 ==> eg.level[i] == 127;
    }

    /** One clock of the chip, for any control values the register file can supply. */
    method Clock(c: E.Control)
      requires Valid() && E.ValidControl(c)
      modifies Repr
      ensures Valid() && clocks == old(clocks) + 1 && history == old(history) + [c]
      ensures var k := E.Clocking(old(cycles), timer.counterStatePrev, timer.lowLock, timer.shiftLock);
              eg.State() == E.Tick(old(eg.State()), k, c)
    {
      hide T.Tick, L.Tick, E.Tick, E.Valid, S.Pipeline, S.Played;
      timer.Clock(cycles);
      var k := E.Clocking(cycles, timer.counterStatePrev, timer.lowLock, timer.shiftLock);
      ghost var e := eg.State();
      eg.Clock(k, c);
      lfo.Clock(cycles);
      LocksInRange(clocks + 1);
      NextMod(clocks, 18);
      E.TickKeepsValid(e, clocks, k, c);
      S.OneMoreClock(history, c);
      cycles := E.NextCycle(cycles);
      clocks, history := clocks + 1, history + [c];
    }
  }

  /** What Opll.Valid says at clock 18n: the timer holds the number of groups of four samples and the AM
      counter the triangle of the steps so far. */
  lemma SampleBoundary(n: nat)
    ensures T.AtBoundary(n / 4, n % 4, T.Ticks(T.Reset(), 18 * n))
    ensures L.AtBoundary(n / 64, n % 64, L.Ticks(L.Reset(), 18 * n))
  {
    hide T.AtBoundary, L.AtBoundary, T.Ticks, L.Ticks;
    assert n == 4 * (n / 4) + n % 4 == 64 * (n / 64) + n % 64;
    T.TimerAfter(n / 4, n % 4);
    L.CounterIsTriangle(n / 64, n % 64);
  }

  /** The locked timer values in every run from reset; nothing is locked in the first two clocks. */
  lemma {:induction false} LocksInRange(clocks: nat)
    ensures var t := T.Ticks(T.Reset(), clocks);
            t.lowLock < 4 && t.shiftLock <= 13 && (clocks <= 2 ==> t.shiftLock == 0)
            && (clocks <= 2 ==> t.cycles == clocks) && (clocks == 0 ==> t.counterStatePrev == 0)
  {
    if clocks > 0 {
      var t := T.Ticks(T.Reset(), clocks - 1);
      assert T.Ticks(T.Reset(), clocks) == T.Tick(t);
      hide T.Ticks, Pow2, AddBit;
      LocksInRange(clocks - 1);
      SmallPowers();
    }
  }
}
