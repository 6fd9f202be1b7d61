/** How fast an OPL3 envelope moves: what the shift taken from the lowest set bit of the timer amounts to. */
module Opl3Rate {
  import opened Bits
  import opened Opl3Timing
  import opened Opl3Envelope

  // ---------- Trailing zeros ----------

  lemma {:induction false} ZerosOfMultiple(c: nat, j: nat)
    requires j > 0
    ensures Pow2(c) * j > 0 && Ctz(Pow2(c) * j) == c + Ctz(j)
  {
    hide Ctz;
    if c == 0 {
      assert Pow2(c) * j == j;
    } else {
      ZerosOfMultiple(c - 1, j);
      assert Pow2(c) == 2 * Pow2(c - 1);
      hide Pow2;
      var p := Pow2(c - 1);
      assert (2 * p) * j == 2 * (p * j);
      EvenZeros(p * j);
    }
  }

  lemma EvenZeros(half: nat)
    requires half > 0
    ensures Ctz(2 * half) == 1 + Ctz(half)
  {
    DivModUnique(2 * half, 2, half, 0);
  }

  lemma {:induction false} ZerosBelow(n: nat, c: nat)
    requires n > 0 && n % Pow2(c) != 0
    ensures Ctz(n) < c
    decreases c
  {
    if c == 0 {
      assert false;
    } else if n % 2 == 0 {
      var half, unit := n / 2, Pow2(c - 1);
      assert Pow2(c) == 2 * unit;
      if half % unit == 0 {
        var q := half / unit;
        assert n == 2 * half == 2 * (q * unit) == q * (2 * unit);
        DivModUnique(n, 2 * unit, q, 0);
      }
      ZerosBelow(half, c - 1);
    }
  }

  lemma ZerosModEight(j: nat)
    requires j > 0
    ensures match j % 8
            case 0 => Ctz(j) >= 3
            case 4 => Ctz(j) == 2
            case r => Ctz(j) == if r % 2 == 1 then 0 else 1
  {
    var h, r := j / 8, j % 8;
    assert j == 8 * h + r;
    hide Ctz;
    if r % 2 == 1 {
      DivModUnique(j, 2, 4 * h + r / 2, 1);
      OddOrEven(j);
    } else {
      DivModUnique(j, 2, 4 * h + r / 2, 0);
      DivModUnique(j / 2, 2, 2 * h + r / 4, r / 2 % 2);
      DivModUnique(j / 2 / 2, 2, h, r / 4);
      OddOrEven(j);
      OddOrEven(j / 2);
      if r % 4 == 0 {
        OddOrEven(j / 2 / 2);
      }
    }
  }

  lemma OddOrEven(n: nat)
    requires n > 0
    ensures if n % 2 == 1 then Ctz(n) == 0 else n / 2 > 0 && Ctz(n) == 1 + Ctz(n / 2)
  {}

  // ---------- The steps of a slow rate ----------

  /** The shift in a sample with the state bit set, at a timer value. */
  function ShiftAt(rateHi: nat, rateLo: nat, timer: nat): nat {
    Shift(rateHi, rateLo, true, Clock(EgAdd(timer), true, 0))
  }

  /** Whether the rate steps at the j-th multiple of its unit: at every odd one, at the doubles of odd ones
      for low rates 2 and 3, and at their fourfolds for low rates 1 and 3. */
  function StepAt(rateLo: nat, j: nat): nat {
    match j % 8
    case 0 => 0
    case 4 => rateLo % 2
    case r => if r % 2 == 1 then 1 else rateLo / 2 % 2
  }

  /** The envelope can only step at multiples of a unit that halves with every rate. */
  lemma ShiftAtMultiple(rateHi: nat, rateLo: nat, j: nat)
    requires 1 <= rateHi < 12 && rateLo < 4
    ensures ShiftAt(rateHi, rateLo, Pow2(11 - rateHi) * j) == StepAt(rateLo, j)
  {
    var unit := Pow2(11 - rateHi);
    if j == 0 {
      assert unit * j == 0;
    } else {
      ZerosOfMultiple(11 - rateHi, j);
      ZerosModEight(j);
    }
    hide Ctz, Pow2;
  }

  lemma NoShiftBetween(rateHi: nat, rateLo: nat, timer: nat)
    requires 1 <= rateHi < 12 && timer % Pow2(11 - rateHi) != 0
    ensures ShiftAt(rateHi, rateLo, timer) == 0
  {
    if timer == 0 {
      DivModUnique(0, Pow2(11 - rateHi), 0, 0);
    } else {
      ZerosBelow(timer, 11 - rateHi);
    }
    hide Ctz, Pow2;
  }

  /** The steps over n timer values from first on. */
  function Steps(rateHi: nat, rateLo: nat, first: nat, n: nat): nat {
    if n == 0 then 0 else Steps(rateHi, rateLo, first, n - 1) + ShiftAt(rateHi, rateLo, first + n - 1)
  }

  lemma {:induction false} StepsOfUnit(rateHi: nat, rateLo: nat, j: nat, first: nat, n: nat)
    requires 1 <= rateHi < 12 && rateLo < 4 && first == Pow2(11 - rateHi) * j && 0 < n <= Pow2(11 - rateHi)
    ensures Steps(rateHi, rateLo, first, n) == StepAt(rateLo, j)
    decreases n
  {
    hide ShiftAt, StepAt, Pow2;
    if n == 1 {
      ShiftAtMultiple(rateHi, rateLo, j);
      OneStep(rateHi, rateLo, first);
    } else {
      StepsOfUnit(rateHi, rateLo, j, first, n - 1);
      DivModUnique(first + n - 1, Pow2(11 - rateHi), j, n - 1);
      NoShiftBetween(rateHi, rateLo, first + n - 1);
    }
  }

  lemma OneStep(rateHi: nat, rateLo: nat, first: nat)
    ensures Steps(rateHi, rateLo, first, 1) == ShiftAt(rateHi, rateLo, first)
  {
    hide ShiftAt;
    assert Steps(rateHi, rateLo, first, 0) == 0;
  }

  lemma {:induction false} StepsAdd(rateHi: nat, rateLo: nat, first: nat, n: nat, m: nat)
    ensures Steps(rateHi, rateLo, first, n + m) == Steps(rateHi, rateLo, first, n) + Steps(rateHi, rateLo, first + n, m)
  {
    if m > 0 {
      StepsAdd(rateHi, rateLo, first, n, m - 1);
      hide ShiftAt;
    }
  }

  /** Sum of the steps at the first n multiples from 8q on. */
  function StepSum(rateLo: nat, q: nat, n: nat): nat {
    if n == 0 then 0 else StepSum(rateLo, q, n - 1) + StepAt(rateLo, 8 * q + n - 1)
  }

  lemma {:induction false} StepsOfUnits(rateHi: nat, rateLo: nat, q: nat, n: nat, unit: nat, first: nat, width: nat)
    requires 1 <= rateHi < 12 && rateLo < 4 && unit == Pow2(11 - rateHi)
    requires first == unit * (8 * q) && width == unit * n
    ensures Steps(rateHi, rateLo, first, width) == StepSum(rateLo, q, n)
    decreases n
  {
    hide Pow2, StepAt, ShiftAt;
    if n > 0 {
      var m := n - 1;
      LastUnit(unit, 8 * q, m);
      hide Steps;
      StepsOfUnits(rateHi, rateLo, q, m, unit, first, width - unit);
      StepsOfUnit(rateHi, rateLo, 8 * q + m, first + width - unit, unit);
      StepsAdd(rateHi, rateLo, first, width - unit, unit);
    }
  }

  lemma LastUnit(unit: nat, a: nat, m: nat)
    ensures unit * (m + 1) - unit == unit * m >= 0 && unit * a + unit * m == unit * (a + m)
  {
    MulMonotone(0, m, unit);
  }

  lemma StepAtPlace(rateLo: nat, q: nat, m: nat)
    requires rateLo < 4 && m < 8
    ensures StepAt(rateLo, 8 * q + m) == StepAt(rateLo, m)
  {
    DivModUnique(8 * q + m, 8, q, m);
    DivModUnique(m, 8, 0, m);
  }

  lemma EightSteps(rateLo: nat, q: nat)
    requires rateLo < 4
    ensures StepSum(rateLo, q, 8) == 4 + rateLo
  {
    assert StepSum(rateLo, q, 0) == 0;
    hide StepSum, StepAt;
    NextStepSum(rateLo, q, 0); NextStepSum(rateLo, q, 1); NextStepSum(rateLo, q, 2); NextStepSum(rateLo, q, 3);
    NextStepSum(rateLo, q, 4); NextStepSum(rateLo, q, 5); NextStepSum(rateLo, q, 6); NextStepSum(rateLo, q, 7);
    StepsInEight(rateLo);
  }

  lemma NextStepSum(rateLo: nat, q: nat, m: nat)
    requires rateLo < 4 && m < 8
    ensures StepSum(rateLo, q, m + 1) == StepSum(rateLo, q, m) + StepAt(rateLo, m)
  {
    StepAtPlace(rateLo, q, m);
    hide StepAt;
  }

  lemma StepsInEight(rateLo: nat)
    requires rateLo < 4
    ensures StepAt(rateLo, 0) + StepAt(rateLo, 1) + StepAt(rateLo, 2) + StepAt(rateLo, 3)
            + StepAt(rateLo, 4) + StepAt(rateLo, 5) + StepAt(rateLo, 6) + StepAt(rateLo, 7) == 4 + rateLo
  {}

  /** What a slow rate means: rate rateHi with low bits rateLo makes 4 + rateLo steps in every period of
      2^(14 - rateHi) timer values, so the speed is proportional to (4 + rateLo) * 2^rateHi. */
  lemma StepsPerPeriod(rateHi: nat, rateLo: nat, q: nat)
    requires 1 <= rateHi < 12 && rateLo < 4
    ensures var period := Pow2(14 - rateHi);
            period * q >= 0 && Steps(rateHi, rateLo, period * q, period) == 4 + rateLo
  {
    hide Steps, StepSum, ShiftAt, StepAt;
    var unit, n := Pow2(11 - rateHi), 8;
    assert Pow2(14 - rateHi) == 2 * Pow2(13 - rateHi) && Pow2(13 - rateHi) == 2 * Pow2(12 - rateHi);
    assert Pow2(12 - rateHi) == 2 * unit;
    hide Pow2;
    assert (8 * unit) * q == unit * (8 * q);
    MulMonotone(0, 8 * q, unit);
    StepsOfUnits(rateHi, rateLo, q, n, unit, unit * (8 * q), unit * n);
    EightSteps(rateLo, q);
  }

  // ---------- In samples of the running chip ----------

  /** The envelope's shift in sample n of the chip, whose counters start at reset. */
  ghost function SampleShift(rateHi: nat, rateLo: nat, n: nat): nat { Shift(rateHi, rateLo, true, ClockAt(n)) }

  /** The steps over n samples from first on. */
  ghost function SampleSteps(rateHi: nat, rateLo: nat, first: nat, n: nat): nat {
    if n == 0 then 0 else SampleSteps(rateHi, rateLo, first, n - 1) + SampleShift(rateHi, rateLo, first + n - 1)
  }

  /** Through every wrap: every second sample can step, by the timer value of the sample before it. */
  lemma ShiftInSample(rateHi: nat, rateLo: nat, n: nat)
    requires rateHi < 12
    ensures SampleShift(rateHi, rateLo, n) == if n % 2 == 1 then ShiftAt(rateHi, rateLo, EgTimerAt(n - 1)) else 0
  {
    hide After, EgTimerAt, EgTimerRemAt, EgAdd;
    CountersAfter(n);
  }

  /** The sample pair that shows timer value first + i, counted from an even sample. */
  ghost predicate ShowsValue(start: nat, first: nat, i: nat) { EgTimerAt(start + 2 * i) == first + i }

  lemma {:induction false} TwoSamplesAValue(rateHi: nat, rateLo: nat, start: nat, first: nat, m: nat)
    requires rateHi < 12 && start % 2 == 0 && forall i :: 0 <= i < m ==> ShowsValue(start, first, i)
    ensures SampleSteps(rateHi, rateLo, start, 2 * m) == Steps(rateHi, rateLo, first, m)
    decreases m
  {
    hide SampleShift, ShiftAt, EgTimerAt;
    if m > 0 {
      var k := m - 1;
      TwoSamplesAValue(rateHi, rateLo, start, first, k);
      assert ShowsValue(start, first, k);
      ShiftInSample(rateHi, rateLo, start + 2 * k);
      ShiftInSample(rateHi, rateLo, start + 2 * k + 1);
      TwoMore(rateHi, rateLo, start, 2 * k);
    }
  }

  lemma TwoMore(rateHi: nat, rateLo: nat, start: nat, n: nat)
    ensures SampleSteps(rateHi, rateLo, start, n + 2)
         == SampleSteps(rateHi, rateLo, start, n)
            + SampleShift(rateHi, rateLo, start + n) + SampleShift(rateHi, rateLo, start + n + 1)
  {
    hide SampleShift;
  }

  /** The sample in which a trip of the timer reaches a value that it shows for two samples. */
  function StartOf(trip: nat, value: nat): nat
    requires trip == 0 || value >= 2
  {
    if trip == 0 then 2 * value else FIRST_TRIP + LATER_TRIP * (trip - 1) + 2 * value - 2
  }

  lemma TripShows(trip: nat, first: nat, i: nat)
    requires (trip == 0 || first >= 2) && first + i <= EG_TIMER_MAX
    ensures StartOf(trip, first) % 2 == 0 && ShowsValue(StartOf(trip, first), first, i)
  {
    var n := StartOf(trip, first) + 2 * i;
    if trip > 0 {
      DivModUnique(n - FIRST_TRIP, LATER_TRIP, trip - 1, 2 * (first + i) - 2);
    }
  }

  /** The running chip steps 4 + rateLo times in the 2 * 2^(14 - rateHi) samples of every aligned period of the
      timer, in its first trip and, but for the first period after a wrap, in every later one. */
  lemma StepsOnChip(rateHi: nat, rateLo: nat, trip: nat, q: nat, period: nat, first: nat)
    requires 1 <= rateHi < 12 && rateLo < 4 && period == Pow2(14 - rateHi) && first == period * q
    requires (trip == 0 || first >= 2) && first + period <= EG_TIMER_MAX + 1
    ensures SampleSteps(rateHi, rateLo, StartOf(trip, first), 2 * period) == 4 + rateLo
  {
    hide SampleSteps, Steps, StartOf, ShowsValue, Pow2;
    StepsPerPeriod(rateHi, rateLo, q);
    forall i | 0 <= i < period
      ensures ShowsValue(StartOf(trip, first), first, i)
    {
      TripShows(trip, first, i);
    }
    TripShows(trip, first, 0);
    TwoSamplesAValue(rateHi, rateLo, StartOf(trip, first), first, period);
  }

  /** In the first period after a wrap the values 0 and 1 last one sample each and value 1 is never acted on:
      only the rate that steps at every value loses a step. */
  lemma StepsAfterWrap(rateHi: nat, rateLo: nat, trip: nat, period: nat)
    requires 1 <= rateHi < 12 && rateLo < 4 && period == Pow2(14 - rateHi) && trip >= 1
    ensures period >= 8
    ensures SampleSteps(rateHi, rateLo, StartOf(trip, 2) - 2, 2 * period - 2)
         == 4 + rateLo - (if rateHi == 11 then 1 else 0)
  {
    hide SampleSteps, Steps, ShowsValue, SampleShift, ShiftAt, EgTimerAt;
    PeriodBounds(14 - rateHi);
    var start := StartOf(trip, 2) - 2;
    hide StartOf, Pow2;
    var from := start + 2;
    forall i | 0 <= i < period - 2
      ensures ShowsValue(from, 2, i)
    {
      TripShows(trip, 2, i);
    }
    TripShows(trip, 2, 0);
    TwoSamplesAValue(rateHi, rateLo, from, 2, period - 2);
    WrapPair(rateHi, rateLo, trip, start);
    PairBefore(rateHi, rateLo, start, 2 * (period - 2));
    TwoValuesBefore(rateHi, rateLo, period);
  }

  lemma PeriodBounds(e: nat)
    requires 3 <= e <= 13
    ensures 8 <= Pow2(e) <= 0x2000
  {
    SmallPowers();
    if e > 9 {
      assert Pow2(10) == 1024 && Pow2(11) == 2048 && Pow2(12) == 4096 && Pow2(13) == 8192;
    }
  }

  lemma WrapPair(rateHi: nat, rateLo: nat, trip: nat, start: nat)
    requires rateHi < 12 && trip >= 1 && start == FIRST_TRIP + LATER_TRIP * (trip - 1)
    ensures SampleShift(rateHi, rateLo, start) == SampleShift(rateHi, rateLo, start + 1) == 0
  {
    hide SampleShift, Ctz;
    ShiftInSample(rateHi, rateLo, start);
    ShiftInSample(rateHi, rateLo, start + 1);
    DivModUnique(start - FIRST_TRIP, LATER_TRIP, trip - 1, 0);
    assert EgTimerAt(start) == 0 && EgAdd(0) == 0;
  }

  lemma {:induction false} PairBefore(rateHi: nat, rateLo: nat, start: nat, n: nat)
    ensures SampleSteps(rateHi, rateLo, start, n + 2)
         == SampleShift(rateHi, rateLo, start) + SampleShift(rateHi, rateLo, start + 1)
            + SampleSteps(rateHi, rateLo, start + 2, n)
  {
    hide SampleShift;
    if n == 0 {
      TwoMore(rateHi, rateLo, start, n);
    } else {
      PairBefore(rateHi, rateLo, start, n - 1);
    }
  }

  lemma TwoValuesBefore(rateHi: nat, rateLo: nat, period: nat)
    requires 1 <= rateHi < 12 && rateLo < 4 && period == Pow2(14 - rateHi) && period >= 8
    ensures Steps(rateHi, rateLo, 2, period - 2) == 4 + rateLo - (if rateHi == 11 then 1 else 0)
  {
    hide Pow2, ShiftAt;
    var zero, two := 0, 2;
    assert Steps(rateHi, rateLo, 0, zero) == 0;
    hide Steps;
    StepsPerPeriod(rateHi, rateLo, 0);
    StepsAdd(rateHi, rateLo, 0, two, period - 2);
    StepsAdd(rateHi, rateLo, 0, 1, 1);
    OneStep(rateHi, rateLo, 0);
    OneStep(rateHi, rateLo, 1);
    FirstValues(rateHi, rateLo);
  }

  lemma FirstValues(rateHi: nat, rateLo: nat)
    requires rateHi < 12
    ensures ShiftAt(rateHi, rateLo, 0) == 0 && ShiftAt(rateHi, rateLo, 1) == if rateHi == 11 then 1 else 0
  {
    assert Ctz(1) == 0;
  }
}
