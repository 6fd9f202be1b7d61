/** The running OPL3: thirty-six operators played in slot order through whatever wiring the register writes
    have left, and mixed. */
module Opl3Sound {
  import opened Bits
  import opened Opl3Timing
  import opened Opl3Envelope
  import opened Opl3Wave
  import W = Opl3Wiring

  /** One operator: its envelope, its last two outputs and its feedback. */
  datatype Op = Op(env: Env, out: int, prout: int, fbmod: int)

  const START := Op(Opl3Envelope.RESET, 0, 0, 0)

  /** What an operator's registers, its channel and its phase generator supply for one sample. */
  datatype Patch = Patch(form: nat, fb: nat, phase: nat, r: Regs, key: bool, tremolo: bool)

  /** One sample: the register writes before it, what each operator is supplied with, and the tremolo shift. */
  datatype Sample = Sample(writes: seq<W.Write>, patches: seq<Patch>, tremoloShift: nat)

  ghost predicate ValidPatch(p: Patch) { p.form < 8 && p.fb < 8 && ValidRegs(p.r) }

  ghost predicate ValidSample(s: Sample) {
    && |s.patches| == 36 && (forall j :: 0 <= j < 36 ==> ValidPatch(s.patches[j]))
    && (s.tremoloShift == 2 || s.tremoloShift == 4)
  }

  // ---------- Ranges ----------

  ghost predicate OpOk(o: Op) {
    InRange(o.env) && -4085 <= o.out <= 4084 && -4085 <= o.prout <= 4084 && -2043 <= o.fbmod <= 2042
  }

  ghost predicate OpsOk(ops: seq<Op>) { |ops| == 36 && forall j :: 0 <= j < 36 ==> OpOk(ops[j]) }

  ghost predicate TapOk(t: W.Tap) { t.Zero? || 0 <= t.slot < 36 }

  ghost predicate WiresOk(w: W.Wires) {
    TapOk(w.mod0) && TapOk(w.mod1) && TapOk(w.out0) && TapOk(w.out1) && TapOk(w.out2) && TapOk(w.out3)
  }

  ghost predicate ChipOk(s: W.Chip) { |s.ch| == 18 && forall i :: 0 <= i < 18 ==> WiresOk(s.ch[i].w) }

  lemma AcyclicOk(w: W.Wires, i: nat)
    requires i < 18 && W.Acyclic(w, i)
    ensures WiresOk(w)
  {
    W.SlotAtLeast(i);
    assert W.Slot(i) <= 32;
    hide W.Slot;
  }

  /** No register write ever makes the chip look at an operator it does not have. */
  lemma RunOk(ws: seq<W.Write>)
    ensures ChipOk(W.Run(ws))
  {
    W.EveryRunAcyclic(ws);
    hide WiresOk, W.Acyclic, W.Run, W.ShapeOk;
    forall i | 0 <= i < 18
      ensures WiresOk(W.Run(ws).ch[i].w)
    {
      AcyclicOk(W.Run(ws).ch[i].w, i);
    }
  }

  // ---------- One sample ----------

  function Read(t: W.Tap, ops: seq<Op>): int
    requires |ops| == 36 && TapOk(t)
  {
    match t
    case Zero => 0
    case Fb(slot) => ops[slot].fbmod
    case Out(slot) => ops[slot].out
  }

  /** The channel a slot belongs to: the first operators of three channels, then their second ones. */
  function ChannelOf(j: nat): nat { 3 * (j / 6) + j % 3 }

  function ModOf(s: W.Chip, j: nat): W.Tap
    requires |s.ch| == 18 && j < 36
  {
    if j % 6 < 3 then s.ch[ChannelOf(j)].w.mod0 else s.ch[ChannelOf(j)].w.mod1
  }

  lemma SlotOfChannel(j: nat)
    requires j < 36
    ensures ChannelOf(j) < 18 && W.Slot(ChannelOf(j)) + (if j % 6 < 3 then 0 else 3) == j
  {
    var g, m := j / 6, j % 6;
    var b := if m < 3 then m else m - 3;
    DivModUnique(j, 3, if m < 3 then 2 * g else 2 * g + 1, b);
    DivModUnique(3 * g + b, 3, g, b);
  }

  /** The attenuation an operator plays at. */
  function Level(o: Op, p: Patch, trem: nat): (level: nat)
    requires OpOk(o) && ValidPatch(p) && trem <= 26
    ensures level <= 1013
  {
    AttenuationRange(o.env, p.r, if p.tremolo then trem else 0);
    Attenuation(o.env.rout, p.r, if p.tremolo then trem else 0)
  }

  /** An operator follows the chip's tremolo exactly if its flag says so. */
  lemma TremoloByFlag(o: Op, p: Patch, trem: nat)
    requires OpOk(o) && ValidPatch(p) && trem <= 26
    ensures Level(o, p.(tremolo := true), trem) == Level(o, p.(tremolo := true), 0) + trem
    ensures Level(o, p.(tremolo := false), trem) == Level(o, p.(tremolo := true), 0)
  {
    hide ValidRegs;
    AttenuationParts(o.env.rout, p.r, trem);
    AttenuationParts(o.env.rout, p.r, 0);
    hide Attenuation;
  }

  /** Feedback and envelope of one operator, its output still the old one. */
  function Prepared(o: Op, p: Patch, c: Clock): (r: Op)
    requires OpOk(o) && ValidPatch(p)
    ensures OpOk(r)
  {
    FeedbackRange(o.prout, o.out, p.fb);
    LevelStep(o.env, p.r, p.key, c);
    Op(Calc(o.env, p.r, p.key, c), o.out, o.out, Feedback(o.prout, o.out, p.fb))
  }

  /** One operator played: feedback, envelope, and then the output, which sees the new feedback. */
  function Play(s: W.Chip, ops: seq<Op>, j: nat, p: Patch, c: Clock, trem: nat): (r: seq<Op>)
    requires ChipOk(s) && OpsOk(ops) && j < 36 && ValidPatch(p) && trem <= 26
    ensures OpsOk(r)
  {
    var ready := ops[j := Prepared(ops[j], p, c)];
    ModOk(s, j);
    var phase := p.phase + Read(ModOf(s, j), ready);
    OutputRange(p.form, phase, Level(ops[j], p, trem));
    ready[j := ready[j].(out := Wave(p.form, phase, Level(ops[j], p, trem)))]
  }

  lemma ModOk(s: W.Chip, j: nat)
    requires ChipOk(s) && j < 36
    ensures TapOk(ModOf(s, j))
  {
    SlotOfChannel(j);
    hide W.Slot;
    assert WiresOk(s.ch[ChannelOf(j)].w);
  }

  /** The first n operators played, in slot order. */
  function Sweep(s: W.Chip, ops: seq<Op>, ps: seq<Patch>, c: Clock, trem: nat, n: nat): (r: seq<Op>)
    requires ChipOk(s) && OpsOk(ops) && n <= |ps| == 36 && trem <= 26
    requires forall j :: 0 <= j < 36 ==> ValidPatch(ps[j])
    ensures OpsOk(r)
  {
    if n == 0 then ops
    else
      hide Play, ChipOk, OpsOk, ValidPatch;
      Play(s, Sweep(s, ops, ps, c, trem, n - 1), n - 1, ps[n - 1], c, trem)
  }

  // ---------- The sweep solves the graph ----------

  lemma PlayTouchesOne(s: W.Chip, ops: seq<Op>, j: nat, p: Patch, c: Clock, trem: nat, i: nat)
    requires ChipOk(s) && OpsOk(ops) && j < 36 && ValidPatch(p) && trem <= 26 && i < 36 && i != j
    ensures Play(s, ops, j, p, c, trem)[i] == ops[i]
  {
    hide Prepared, Wave, Level, ModOf, WiresOk, OpOk, ValidPatch;
  }

  /** An operator is as its own step left it, and untouched before. */
  lemma {:induction false} SweepKeeps(s: W.Chip, ops: seq<Op>, ps: seq<Patch>, c: Clock, trem: nat, i: nat, n: nat)
    requires ChipOk(s) && OpsOk(ops) && n <= |ps| == 36 && trem <= 26 && i < 36
    requires forall j :: 0 <= j < 36 ==> ValidPatch(ps[j])
    ensures n <= i ==> Sweep(s, ops, ps, c, trem, n)[i] == ops[i]
    ensures i < n ==> Sweep(s, ops, ps, c, trem, n)[i] == Sweep(s, ops, ps, c, trem, i + 1)[i]
    decreases n
  {
    hide Play, ChipOk, OpOk, ValidPatch;
    if n > 0 {
      SweepKeeps(s, ops, ps, c, trem, i, n - 1);
      if n - 1 != i {
        PlayTouchesOne(s, Sweep(s, ops, ps, c, trem, n - 1), n - 1, ps[n - 1], c, trem, i);
      }
    }
  }

  /** What an operator that was o must be after a sample in which it read the given modulation. */
  ghost predicate Solves(r: Op, o: Op, p: Patch, c: Clock, trem: nat, modulation: int)
    requires OpOk(o) && ValidPatch(p) && trem <= 26
  {
    && r.env == Calc(o.env, p.r, p.key, c)
    && r.prout == o.out && r.fbmod == Feedback(o.prout, o.out, p.fb)
    && r.out == Wave(p.form, p.phase + modulation, Level(o, p, trem))
  }

  lemma PlaySolves(s: W.Chip, ops: seq<Op>, j: nat, p: Patch, c: Clock, trem: nat)
    requires ChipOk(s) && OpsOk(ops) && j < 36 && ValidPatch(p) && trem <= 26 && InputsBefore(s, j)
    ensures TapOk(ModOf(s, j))
    ensures var r := Play(s, ops, j, p, c, trem);
            OpOk(ops[j]) && Solves(r[j], ops[j], p, c, trem, Read(ModOf(s, j), r))
  {
    hide Wave, Level, Calc, Feedback, ModOf, OpOk, ValidPatch, WiresOk;
    ModOk(s, j);
    var t := ModOf(s, j);
    var ready := ops[j := Prepared(ops[j], p, c)];
    var r := Play(s, ops, j, p, c, trem);
    assert Read(t, ready) == Read(t, r);
  }

  ghost predicate InputsBefore(s: W.Chip, j: nat)
    requires |s.ch| == 18 && j < 36
  {
    var t := ModOf(s, j); t.Zero? || t == W.Fb(j) || (t.Out? && 0 <= t.slot < j)
  }

  /** In every wiring the register writes can leave, an operator only looks at itself and at operators played
      before it. */
  lemma RunInputsBefore(ws: seq<W.Write>, j: nat)
    requires j < 36
    ensures InputsBefore(W.Run(ws), j)
  {
    W.EveryRunAcyclic(ws);
    SlotOfChannel(j);
    var s, i := W.Run(ws), ChannelOf(j);
    hide W.Slot, W.Run, W.ShapeOk, W.Reaches, ChannelOf, W.TapOk;
    assert W.Acyclic(s.ch[i].w, i);
  }

  lemma SameRead(s: W.Chip, ops: seq<Op>, ps: seq<Patch>, c: Clock, trem: nat, j: nat, n: nat)
    requires ChipOk(s) && OpsOk(ops) && |ps| == 36 && trem <= 26 && j < n <= 36 && InputsBefore(s, j)
    requires forall i :: 0 <= i < 36 ==> ValidPatch(ps[i])
    ensures TapOk(ModOf(s, j))
    ensures Read(ModOf(s, j), Sweep(s, ops, ps, c, trem, j + 1)) == Read(ModOf(s, j), Sweep(s, ops, ps, c, trem, n))
  {
    assert |s.ch| == 18;
    hide Sweep, ModOf, ChipOk, OpOk, ValidPatch;
    ModOk(s, j);
    var t := ModOf(s, j);
    if t.Out? {
      SweepKeeps(s, ops, ps, c, trem, t.slot, j + 1);
      SweepKeeps(s, ops, ps, c, trem, t.slot, n);
    } else {
      SweepKeeps(s, ops, ps, c, trem, j, n);
    }
  }

  /** Every operator of a finished sample satisfies its equation: its output is the waveform at its phase plus
      what its modulation input reads in the same finished sample. The sweep in slot order is a solution of
      the operator graph, with no operator a sample late. */
  lemma SweepSolves(s: W.Chip, ops: seq<Op>, ps: seq<Patch>, c: Clock, trem: nat, j: nat, n: nat)
    requires ChipOk(s) && OpsOk(ops) && |ps| == 36 && trem <= 26 && j < n <= 36 && InputsBefore(s, j)
    requires forall i :: 0 <= i < 36 ==> ValidPatch(ps[i])
    ensures TapOk(ModOf(s, j)) && OpOk(ops[j])
    ensures var end := Sweep(s, ops, ps, c, trem, n);
            Solves(end[j], ops[j], ps[j], c, trem, Read(ModOf(s, j), end))
  {
    var before, after := Sweep(s, ops, ps, c, trem, j), Sweep(s, ops, ps, c, trem, j + 1);
    assert after == Play(s, before, j, ps[j], c, trem) by { hide Play; }
    hide Sweep, Play, Solves, Read, ModOf, ChipOk, OpOk, ValidPatch, TapOk, InputsBefore;
    SweepKeeps(s, ops, ps, c, trem, j, j);
    SweepKeeps(s, ops, ps, c, trem, j, n);
    PlaySolves(s, before, j, ps[j], c, trem);
    SameRead(s, ops, ps, c, trem, j, n);
  }

  // ---------- The mix ----------

  /** The four values at a channel's taps. */
  function TapValues(w: W.Wires, ops: seq<Op>): (vs: seq<int>)
    requires |ops| == 36 && WiresOk(w)
    ensures |vs| == 4
  {
    [Read(w.out0, ops), Read(w.out1, ops), Read(w.out2, ops), Read(w.out3, ops)]
  }

  function AllTaps(s: W.Chip, ops: seq<Op>): (taps: seq<seq<int>>)
    requires ChipOk(s) && |ops| == 36
    ensures |taps| == 18 && forall i :: 0 <= i < 18 ==> |taps[i]| == 4
  {
    seq(18, i requires 0 <= i < 18 => TapValues(s.ch[i].w, ops))
  }

  lemma ReadInRange(t: W.Tap, ops: seq<Op>)
    requires OpsOk(ops) && TapOk(t)
    ensures -4085 <= Read(t, ops) <= 4084
  {
    if !t.Zero? {
      assert OpOk(ops[t.slot]);
    }
  }

  lemma TapsInRange(s: W.Chip, ops: seq<Op>)
    requires ChipOk(s) && OpsOk(ops)
    ensures Taps(AllTaps(s, ops))
  {
    hide OpOk, Read;
    forall i | 0 <= i < 18
      ensures forall j :: 0 <= j < 4 ==> -4085 <= AllTaps(s, ops)[i][j] <= 4084
    {
      var w := s.ch[i].w;
      assert WiresOk(w) && |ops| == 36;
      ReadInRange(w.out0, ops);
      ReadInRange(w.out1, ops);
      ReadInRange(w.out2, ops);
      ReadInRange(w.out3, ops);
    }
  }

  /** Whatever the operators and the wiring, as long as both are in range: every four-tap sum fits 16 bits and
      the mix of any of the channels stays far inside 32 bits. */
  lemma MixFits(s: W.Chip, ops: seq<Op>, enabled: seq<bool>, n: nat)
    requires ChipOk(s) && OpsOk(ops) && n <= |enabled| == 18
    ensures forall i :: 0 <= i < 18 ==> Fits16(Sum(AllTaps(s, ops)[i]))
    ensures -294120 <= MixOf(AllTaps(s, ops), enabled, n) <= 294120
  {
    hide WiresOk, OpOk, MixOf, Sum, TapValues;
    TapsInRange(s, ops);
    var taps := AllTaps(s, ops);
    hide AllTaps;
    MixRange(taps, enabled, n);
    forall i | 0 <= i < 18
      ensures Fits16(Sum(taps[i]))
    {
      SumRange(taps[i]);
    }
  }

  // ---------- Every run ----------

  /** All register writes up to sample n, that sample's own included. */
  function WritesUpTo(history: seq<Sample>, n: nat): seq<W.Write>
    requires n < |history|
  {
    if n == 0 then history[0].writes else WritesUpTo(history, n - 1) + history[n].writes
  }

  /** The wiring in sample n. */
  function WiringIn(history: seq<Sample>, n: nat): (s: W.Chip)
    requires n < |history|
    ensures ChipOk(s)
  {
    RunOk(WritesUpTo(history, n));
    W.Run(WritesUpTo(history, n))
  }

  ghost function TremoloIn(history: seq<Sample>, n: nat): (trem: nat)
    requires n < |history| && ValidSample(history[n])
    ensures trem <= 26
  {
    CountersAfter(n);
    Tremolo(After(n).tremoloPos, history[n].tremoloShift)
  }

  /** The operators before sample n. */
  ghost function OpsBefore(history: seq<Sample>, n: nat): (ops: seq<Op>)
    requires n <= |history| && forall i :: 0 <= i < |history| ==> ValidSample(history[i])
    ensures OpsOk(ops)
    decreases n, 37
  {
    if n == 0 then seq(36, i => START) else OpsIn(history, n - 1, 36)
  }

  /** The operators in sample n when the first k of them have been played. */
  ghost function OpsIn(history: seq<Sample>, n: nat, k: nat): (ops: seq<Op>)
    requires n < |history| && k <= 36 && forall i :: 0 <= i < |history| ==> ValidSample(history[i])
    ensures OpsOk(ops)
    decreases n, 38
  {
    hide ValidPatch, ChipOk, OpsOk, Sweep;
    Sweep(WiringIn(history, n), OpsBefore(history, n), history[n].patches, ClockAt(n), TremoloIn(history, n), k)
  }

  /** For every history of register writes, waveforms, phases and envelopes, in every sample and at every point
      of it: all thirty-six outputs are in -4085..4084, every four-tap sum read through the wiring of that
      moment fits 16 bits, and the mix of the eighteen channels stays in -294120..294120. */
  lemma EveryRunFits(history: seq<Sample>, n: nat, k: nat, enabled: seq<bool>)
    requires n < |history| && k <= 36 && |enabled| == 18
    requires forall i :: 0 <= i < |history| ==> ValidSample(history[i])
    ensures var s, ops := WiringIn(history, n), OpsIn(history, n, k);
            && |ops| == 36 && (forall j :: 0 <= j < 36 ==> -4085 <= ops[j].out <= 4084)
            && (forall j :: 0 <= j < 36 ==> 0 <= ops[j].env.rout <= 0x1ff)
            && (forall i :: 0 <= i < 18 ==> Fits16(Sum(AllTaps(s, ops)[i])))
            && -294120 <= MixOf(AllTaps(s, ops), enabled, 18) <= 294120
  {
    hide WiringIn, OpsIn, AllTaps, MixOf, Sum, ValidSample, ChipOk;
    var s, ops := WiringIn(history, n), OpsIn(history, n, k);
    MixFits(s, ops, enabled, 18);
    forall j | 0 <= j < 36
      ensures -4085 <= ops[j].out <= 4084 && 0 <= ops[j].env.rout <= 0x1ff
    {
      assert OpOk(ops[j]);
    }
  }

  /** In every sample of every history the finished outputs solve the equations of the operator graph that the
      register writes have left. */
  lemma EveryRunSolves(history: seq<Sample>, n: nat, j: nat)
    requires n < |history| && j < 36
    requires forall i :: 0 <= i < |history| ==> ValidSample(history[i])
    ensures var s, o, p := WiringIn(history, n), OpsBefore(history, n)[j], history[n].patches[j];
            && OpOk(o) && ValidPatch(p) && TapOk(ModOf(s, j))
            && Solves(OpsIn(history, n, 36)[j], o, p, ClockAt(n), TremoloIn(history, n),
                      Read(ModOf(s, j), OpsIn(history, n, 36)))
  {
    hide OpsBefore, ClockAt, TremoloIn, Sweep, Solves, Read, ModOf, OpOk, ValidPatch, ChipOk, TapOk, InputsBefore;
    assert ValidSample(history[n]);
    RunInputsBefore(WritesUpTo(history, n), j);
    hide WritesUpTo;
    SweepSolves(WiringIn(history, n), OpsBefore(history, n), history[n].patches, ClockAt(n),
                TremoloIn(history, n), j, 36);
  }

  // ---------- The chip's own code ----------

  /** What the two objects of an operator hold. */
  ghost function OpOf(eg: Slot, wave: Operator): Op
    reads eg, wave
  {
    Op(eg.State(), wave.out, wave.prout, wave.fbmod)
  }

  /** The feedback and the envelope of one operator, before its output. */
  method Prepare(eg: Slot, wave: Operator, p: Patch, c: Clock, trem: nat)
    requires OpOk(OpOf(eg, wave)) && ValidPatch(p) && trem <= 26
    modifies eg, wave`fbmod, wave`prout
    ensures OpOf(eg, wave) == Prepared(old(OpOf(eg, wave)), p, c)
    ensures eg.egOut == Level(old(OpOf(eg, wave)), p, trem)
  {
    hide ValidRegs, Calc, Feedback, Attenuation;
    wave.CalcFB(p.fb);
    eg.regs, eg.key := p.r, p.key;
    eg.EnvelopeCalc(c, if p.tremolo then trem else 0);
  }

  class Generator {
    const eg: seq<Slot>
    const waves: seq<Operator>
    var mixbuff0: int
    var mixbuff1: int

    /** Thirty-six operators of two objects each, none of them shared. */
    ghost predicate Valid() {
      && |eg| == |waves| == 36
      && (forall i, j :: 0 <= i < j < 36 ==> eg[i] != eg[j])
      && (forall i, j :: 0 <= i < j < 36 ==> waves[i] != waves[j])
    }

    ghost function Ops(): (ops: seq<Op>)
      requires Valid()
      reads eg, waves
      ensures |ops| == 36 && forall j :: 0 <= j < 36 ==> ops[j] == OpOf(eg[j], waves[j])
    {
      seq(36, j requires 0 <= j < 36 reads eg, waves => OpOf(eg[j], waves[j]))
    }

    constructor ()
      ensures Valid() && fresh(eg) && fresh(waves)
      ensures Ops() == seq(36, i => START) && mixbuff0 == mixbuff1 == 0
    {
      var slots: seq<Slot>, operators: seq<Operator> := [], [];
      for n := 0 to 36
        invariant |slots| == |operators| == n
        invariant forall i :: 0 <= i < n ==> fresh(slots[i]) && fresh(operators[i])
        invariant forall i :: 0 <= i < n ==> OpOf(slots[i], operators[i]) == START
        invariant forall i, j :: 0 <= i < j < n ==> slots[i] != slots[j]
        invariant forall i, j :: 0 <= i < j < n ==> operators[i] != operators[j]
      {
        var slot := new Slot();
        var operator := new Operator();
        slots, operators := slots + [slot], operators + [operator];
      }
      eg, waves := slots, operators;
      mixbuff0, mixbuff1 := 0, 0;
    }

    /** Following a pointer to another operator's feedback or output, or to the constant zero. */
    method ReadTap(t: W.Tap) returns (value: int)
      requires Valid() && TapOk(t)
      ensures value == Read(t, Ops())
    {
      match t
      case Zero => value := 0;
      case Fb(slot) => value := waves[slot].fbmod;
      case Out(slot) => value := waves[slot].out;
    }

    /** One slot of a loop. */
    method PlaySlot(s: W.Chip, j: nat, p: Patch, c: Clock, trem: nat)
      requires Valid() && ChipOk(s) && OpsOk(Ops()) && j < 36 && ValidPatch(p) && trem <= 26
      modifies eg[j], waves[j]
      ensures Ops() == Play(s, old(Ops()), j, p, c, trem)
    {
      hide OpOk, ValidPatch, Level, Prepared, Wave, ModOf, WiresOk;
      ghost var before := Ops();
      assert OpOk(before[j]);
      Prepare(eg[j], waves[j], p, c, trem);
      ghost var ready := before[j := Prepared(before[j], p, c)];
      assert Ops() == ready;
      ModOk(s, j);
      var modulation := ReadTap(ModOf(s, j));
      FormOk(p);
      OkFields(ready[j]);
      waves[j].Generate(p.form, p.phase, modulation, eg[j].egOut);
      assert Ops() == ready[j := ready[j].(out := waves[j].out)];
    }

    /** The slots from first up to last, as one of OPL3_Generate's loops plays them. */
    method GenerateSlots(s: W.Chip, ps: seq<Patch>, c: Clock, trem: nat, first: nat, last: nat, ghost ops: seq<Op>)
      requires Valid() && ChipOk(s) && OpsOk(ops) && first <= last <= |ps| == 36 && trem <= 26
      requires forall j :: 0 <= j < 36 ==> ValidPatch(ps[j])
      requires Ops() == Sweep(s, ops, ps, c, trem, first)
      modifies eg, waves
      ensures Ops() == Sweep(s, ops, ps, c, trem, last)
    {
      hide Play, ChipOk, OpsOk, ValidPatch;
      for ii := first to last
        invariant Ops() == Sweep(s, ops, ps, c, trem, ii)
      {
        PlaySlot(s, ii, ps[ii], c, trem);
      }
    }

    /** The values at all taps, in the objects' present state. */
    method ReadAllTaps(s: W.Chip) returns (taps: seq<seq<int>>)
      requires Valid() && ChipOk(s) && OpsOk(Ops())
      ensures taps == AllTaps(s, Ops())
    {
      hide OpsOk, Read, TapOk;
      taps := [];
      for i := 0 to 18
        invariant |taps| == i && forall k :: 0 <= k < i ==> taps[k] == AllTaps(s, Ops())[k]
      {
        var w := s.ch[i].w;
        assert WiresOk(w);
        var a := ReadTap(w.out0);
        var b := ReadTap(w.out1);
        var c := ReadTap(w.out2);
        var d := ReadTap(w.out3);
        taps := taps + [[a, b, c, d]];
      }
    }

    /** One side, from the outputs as they are now. */
    method MixSide(s: W.Chip, enabled: seq<bool>) returns (mix: int)
      requires Valid() && ChipOk(s) && OpsOk(Ops()) && |enabled| == 18
      ensures mix == MixOf(AllTaps(s, Ops()), enabled, 18) && Fits32(mix)
    {
      hide OpsOk, MixOf, TapValues, Read, WiresOk;
      TapsInRange(s, Ops());
      var taps := ReadAllTaps(s);
      mix := Mix(taps, enabled);
    }

    /** One sample: each side is mixed as soon as the slots it is due after have been played, and the right
        side leaves the chip one sample late. */
    method Generate(s: W.Chip, ps: seq<Patch>, c: Clock, trem: nat, cha: seq<bool>, chb: seq<bool>)
      returns (left: int, right: int)
      requires Valid() && ChipOk(s) && OpsOk(Ops()) && |ps| == 36 && trem <= 26 && |cha| == |chb| == 18
      requires forall j :: 0 <= j < 36 ==> ValidPatch(ps[j])
      modifies this, eg, waves
      ensures Ops() == Sweep(s, old(Ops()), ps, c, trem, 36) && OpsOk(Ops())
      ensures mixbuff0 == MixOf(AllTaps(s, Sweep(s, old(Ops()), ps, c, trem, 15)), cha, 18)
      ensures mixbuff1 == MixOf(AllTaps(s, Sweep(s, old(Ops()), ps, c, trem, 33)), chb, 18)
      ensures Fits32(mixbuff0) && Fits32(mixbuff1)
      ensures left == ClipSample(mixbuff0) && right == ClipSample(old(mixbuff1))
    {
      hide Sweep, ChipOk, OpsOk, ValidPatch, MixOf, AllTaps;
      ghost var ops := Ops();
      SweepStarts(s, ops, ps, c, trem);
      right := ClipSample(mixbuff1);
      GenerateSlots(s, ps, c, trem, 0, 15, ops);
      mixbuff0 := MixSide(s, cha);
      GenerateSlots(s, ps, c, trem, 15, 18, ops);
      left := ClipSample(mixbuff0);
      GenerateSlots(s, ps, c, trem, 18, 33, ops);
      mixbuff1 := MixSide(s, chb);
      GenerateSlots(s, ps, c, trem, 33, 36, ops);
    }
  }

  lemma FormOk(p: Patch)
    requires ValidPatch(p)
    ensures p.form < 8
  {}

  lemma OkFields(o: Op)
    requires OpOk(o)
    ensures -4085 <= o.out <= 4084 && -4085 <= o.prout <= 4084 && -2043 <= o.fbmod <= 2042
  {}

  lemma SweepStarts(s: W.Chip, ops: seq<Op>, ps: seq<Patch>, c: Clock, trem: nat)
    requires ChipOk(s) && OpsOk(ops) && |ps| == 36 && trem <= 26
    requires forall j :: 0 <= j < 36 ==> ValidPatch(ps[j])
    ensures Sweep(s, ops, ps, c, trem, 0) == ops
  {}
}
