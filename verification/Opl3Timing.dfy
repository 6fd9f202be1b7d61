/** The free-running counters OPL3_Generate advances once per sample. */
module Opl3Timing {
  import opened Bits

  const EG_TIMER_MAX: nat := 0xf_ffff_ffff

  /** The envelope shift a timer value stands for: one more than its trailing zeros, if at most 12. */
  function EgAdd(timer: nat): nat {
    if timer == 0 || Ctz(timer) > 12 then 0 else Ctz(timer) + 1
  }

  /** The tremolo triangle of a position in 0..209. */
  function Triangle(pos: nat): (level: nat)
    requires pos < 210
  {
    if pos < 105 then pos else 210 - pos
  }

  function ShiftRight(x: nat, shift: nat): nat {
    hide Pow2;
    QuotientNonneg(x, Pow2(shift));
    x / Pow2(shift)
  }

  /** The tremolo a position gives under a shift of 2 or 4. */
  function Tremolo(pos: nat, shift: nat): (t: nat)
    requires pos < 210 && (shift == 2 || shift == 4)
    ensures t <= 26
  {
    SmallPowers();
    ShiftRight(Triangle(pos), shift)
  }

  /** The two depths of the tremolo: at its peak it is 26 or 6. */
  lemma TremoloDepth(pos: nat)
    requires pos < 210
    ensures Tremolo(pos, 2) == (if pos < 105 then pos else 210 - pos) / 4
    ensures Tremolo(pos, 4) == (if pos < 105 then pos else 210 - pos) / 16
    ensures Tremolo(105, 2) == 26 && Tremolo(105, 4) == 6
  {
    SmallPowers();
  }

  datatype Counters = Counters(timer: nat, tremoloPos: nat, vibPos: nat,
                               egTimer: nat, egTimerRem: bool, egState: bool, egAdd: nat)

  const RESET := Counters(0, 0, 0, 0, false, false, 0)

  function Advanced(c: Counters): Counters {
    var bump := c.egTimerRem || c.egState;
    Counters(
      (c.timer + 1) % 0x1_0000,
      if c.timer % 64 == 63 then (c.tremoloPos + 1) % 210 else c.tremoloPos,
      if c.timer % 1024 == 1023 then (c.vibPos + 1) % 8 else c.vibPos,
      if !bump then c.egTimer else if c.egTimer == EG_TIMER_MAX then 0 else c.egTimer + 1,
      if !bump then c.egTimerRem else c.egTimer == EG_TIMER_MAX,
      !c.egState,
      EgAdd(c.egTimer))
  }

  ghost function After(samples: nat): Counters {
    if samples == 0 then RESET else Advanced(After(samples - 1))
  }

  /** The first trip of the envelope timer takes two samples a value; each later one is two samples
      shorter, because after a wrap the values 0 and 1 last only one sample each. */
  const FIRST_TRIP: nat := 2 * EG_TIMER_MAX + 2
  const LATER_TRIP: nat := 2 * EG_TIMER_MAX

  /** Where in its trip the envelope timer is, zero being the sample just after a wrap. */
  function TripAt(samples: nat): nat
    requires samples >= FIRST_TRIP
  {
    (samples - FIRST_TRIP) % LATER_TRIP
  }

  function EgTimerAt(samples: nat): nat {
    if samples < FIRST_TRIP then samples / 2
    else if TripAt(samples) == 0 then 0
    else (TripAt(samples) + 2) / 2
  }

  function EgTimerRemAt(samples: nat): bool { samples >= FIRST_TRIP && TripAt(samples) == 0 }

  /** Every counter in terms of the number of samples alone. */
  ghost function CountersAt(samples: nat): Counters {
    Counters(samples % 0x1_0000, samples / 64 % 210, samples / 1024 % 8,
             EgTimerAt(samples), EgTimerRemAt(samples), samples % 2 == 1,
             if samples == 0 then 0 else EgAdd(EgTimerAt(samples - 1)))
  }

  /** After every number of samples, through every wrap. */
  lemma {:induction false} CountersAfter(samples: nat)
    ensures After(samples) == CountersAt(samples)
  {
    hide CountersAt, Advanced;
    if samples > 0 {
      CountersAfter(samples - 1);
      NextCounters(samples - 1);
    } else {
      FirstCounters();
    }
  }

  lemma StateBitAlternates(n: nat)
    ensures After(n + 1).egState <==> !After(n).egState
  {
    assert After(n + 1) == Advanced(After(n));
    hide After;
  }

  lemma FirstCounters()
    ensures CountersAt(0) == RESET
  {
    FirstEgTimer();
    hide EgTimerAt, EgTimerRemAt;
  }

  lemma NextCounters(n: nat)
    ensures Advanced(CountersAt(n)) == CountersAt(n + 1)
  {
    hide EgAdd, EgTimerAt, EgTimerRemAt;
    NextSample(n);
    NextEgTimer(n);
  }

  lemma FirstEgTimer()
    ensures EgTimerAt(0) == 0 && !EgTimerRemAt(0)
  {}

  lemma NextEgTimer(n: nat)
    ensures var bump := EgTimerRemAt(n) || n % 2 == 1;
            && EgTimerAt(n + 1) == (if !bump then EgTimerAt(n)
                                    else if EgTimerAt(n) == EG_TIMER_MAX then 0 else EgTimerAt(n) + 1)
            && EgTimerRemAt(n + 1) == (if !bump then EgTimerRemAt(n) else EgTimerAt(n) == EG_TIMER_MAX)
  {
    NextMod(n, 2);
    if n >= FIRST_TRIP {
      NextMod(n - FIRST_TRIP, LATER_TRIP);
      SameParity(n);
      hide TripAt;
      var o := TripAt(n);
      assert TripAt(n + 1) == if o == LATER_TRIP - 1 then 0 else o + 1;
      NextMod(o + 2, 2);
    } else if n + 1 == FIRST_TRIP {
      DivModUnique(0, LATER_TRIP, 0, 0);
    }
  }

  /** The trips are of even length, so the position in a trip keeps the parity of the sample count. */
  lemma SameParity(n: nat)
    requires n >= FIRST_TRIP
    ensures TripAt(n) % 2 == n % 2 && TripAt(n) < LATER_TRIP
    ensures TripAt(n + 1) == if TripAt(n) == LATER_TRIP - 1 then 0 else TripAt(n) + 1
  {
    var m := n - FIRST_TRIP;
    NextMod(m, LATER_TRIP);
    var q, r := m / LATER_TRIP, m % LATER_TRIP;
    var h := EG_TIMER_MAX * q;
    assert LATER_TRIP * q == 2 * h;
    assert n == 2 * (h + EG_TIMER_MAX + 1) + r;
  }

  lemma NextSample(n: nat)
    ensures (n % 0x1_0000 + 1) % 0x1_0000 == (n + 1) % 0x1_0000
    ensures n % 0x1_0000 % 64 == n % 64 && n % 0x1_0000 % 1024 == n % 1024
    ensures (n + 1) / 64 == if n % 64 == 63 then n / 64 + 1 else n / 64
    ensures (n + 1) / 1024 == if n % 1024 == 1023 then n / 1024 + 1 else n / 1024
    ensures (n / 64 % 210 + 1) % 210 == (n / 64 + 1) % 210
    ensures (n / 1024 % 8 + 1) % 8 == (n / 1024 + 1) % 8
    ensures (n + 1) % 2 == 1 - n % 2
    ensures (n + 1) / 2 == n / 2 + n % 2
  {
    StepMod(n / 64, 210);
    StepMod(n / 1024, 8);
    StepMod(n, 0x1_0000);
    NextMod(n, 64);
    NextMod(n, 1024);
    NextMod(n, 2);
    ModOfMod(n, 64, 1024);
    ModOfMod(n, 1024, 64);
  }

  lemma StepMod(n: nat, m: nat)
    requires m > 1
    ensures (n % m + 1) % m == (n + 1) % m
  {
    NextMod(n, m);
    if n % m < m - 1 {
      DivModUnique(n % m + 1, m, 0, n % m + 1);
    }
  }

  lemma ModOfMod(n: nat, a: nat, b: nat)
    requires a > 0 && b > 0
    ensures a * b > 0 && n % (a * b) % a == n % a
  {
    MulAtLeast(a, b);
    var q, r := n / (a * b), n % (a * b);
    var h, x := r / a, r % a;
    assert n == q * (a * b) + r;
    assert r == h * a + x;
    assert q * (a * b) == (q * b) * a;
    SubMul(q * b + h, h, a);
    DivModUnique(n, a, q * b + h, x);
  }

  class Chip {
    var timer: nat
    var tremoloPos: nat
    var tremoloShift: nat
    var tremolo: nat
    var vibPos: nat
    var egTimer: nat
    var egTimerRem: bool
    var egState: bool
    var egAdd: nat

    ghost predicate Valid()
      reads this
    {
      timer < 0x1_0000 && tremoloPos < 210 && egTimer <= EG_TIMER_MAX
      && (tremoloShift == 2 || tremoloShift == 4) && tremolo <= 26
    }

    ghost function State(): Counters
      reads this
    {
      Counters(timer, tremoloPos, vibPos, egTimer, egTimerRem, egState, egAdd)
    }

    constructor ()
      ensures Valid() && State() == RESET
    {
      timer, tremoloPos, tremoloShift, tremolo, vibPos := 0, 0, 4, 0, 0;
      egTimer, egTimerRem, egState, egAdd := 0, false, false, 0;
    }

    /** The counter section of one sample. */
    method Advance()
      requires Valid()
      modifies this
      ensures Valid() && State() == Advanced(old(State()))
      ensures tremoloShift == old(tremoloShift)
      ensures tremolo == Tremolo(tremoloPos, tremoloShift)
    {
      AdvanceLfo();
      AdvanceEnvelopeTimer();
    }

    method AdvanceLfo()
      requires Valid()
      modifies this`tremoloPos, this`tremolo, this`vibPos, this`timer
      ensures Valid()
      ensures tremoloPos == Advanced(old(State())).tremoloPos
      ensures vibPos == Advanced(old(State())).vibPos
      ensures timer == Advanced(old(State())).timer
      ensures tremolo == Tremolo(tremoloPos, tremoloShift)
    {
      hide EgAdd;
      AdvanceTremolo();
      if timer % 1024 == 1023 {
        vibPos := (vibPos + 1) % 8;
      }
      timer := (timer + 1) % 0x1_0000;
    }

    method AdvanceTremolo()
      requires tremoloPos < 210 && (tremoloShift == 2 || tremoloShift == 4)
      modifies this`tremoloPos, this`tremolo
      ensures tremoloPos == if timer % 64 == 63 then (old(tremoloPos) + 1) % 210 else old(tremoloPos)
      ensures tremoloPos < 210 && tremolo == Tremolo(tremoloPos, tremoloShift)
    {
      hide ShiftRight;
      if timer % 64 == 63 {
        tremoloPos := (tremoloPos + 1) % 210;
      }
      if tremoloPos < 105 {
        tremolo := ShiftRight(tremoloPos, tremoloShift);
      } else {
        tremolo := ShiftRight(210 - tremoloPos, tremoloShift);
      }
    }

    method AdvanceEnvelopeTimer()
      requires Valid()
      modifies this`egAdd, this`egTimer, this`egTimerRem, this`egState
      ensures Valid()
      ensures egAdd == EgAdd(old(egTimer))
      ensures egTimer == Advanced(old(State())).egTimer
      ensures egTimerRem == Advanced(old(State())).egTimerRem
      ensures egState == !old(egState)
    {
      egAdd := 0;
      if egTimer != 0 {
        var shift := ScanForSetBit(egTimer);
        egAdd := if shift > 12 then 0 else shift + 1;
      }
      if egTimerRem || egState {
        if egTimer == EG_TIMER_MAX {
          egTimer, egTimerRem := 0, true;
        } else {
          egTimer, egTimerRem := egTimer + 1, false;
        }
      }
      egState := !egState;
    }
  }

  /** The scan for the lowest set bit of a nonzero 36-bit timer. */
  method ScanForSetBit(timer: nat) returns (shift: nat)
    requires 0 < timer <= EG_TIMER_MAX
    ensures shift == Ctz(timer)
  {
    shift := 0;
    var rest := timer;
    assert Pow2(36) == 0x10_0000_0000 by { assert Pow2(12) == 0x1000; assert Pow2(24) == 0x100_0000; }
    while shift < 36 && rest % 2 == 0
      invariant shift <= 36 && rest > 0 && Ctz(timer) == shift + Ctz(rest)
      invariant rest < Pow2(36 - shift)
    {
      rest := rest / 2;
      shift := shift + 1;
    }
  }
}
