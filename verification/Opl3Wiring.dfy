/** The operator graph of the OPL3: which output every operator and every channel tap reads, and how
    register writes rewire it. */
module Opl3Wiring {
  import opened Bits

  /** Where a modulation input or an output tap points: the constant zero, an operator's feedback, or an
      operator's output. */
  datatype Tap = Zero | Fb(slot: int) | Out(slot: int)

  datatype Kind = TwoOp | FourOp | FourOp2 | Drum

  /** The modulation inputs of a channel's two operators and its four output taps. */
  datatype Wires = Wires(mod0: Tap, mod1: Tap, out0: Tap, out1: Tap, out2: Tap, out3: Tap)

  datatype Channel = Channel(kind: Kind, con: nat, alg: nat, w: Wires)

  datatype Chip = Chip(newm: bool, ch: seq<Channel>)

  const UNWIRED := Channel(TwoOp, 0, 0, Wires(Zero, Zero, Zero, Zero, Zero, Zero))

  /** The number of a channel's first operator; the second one is three further. */
  function Slot(i: nat): nat { 6 * (i / 3) + i % 3 }

  const CH_SLOT: seq<nat> := [0, 1, 2, 6, 7, 8, 12, 13, 14, 18, 19, 20, 24, 25, 26, 30, 31, 32]

  lemma SlotTable(i: nat)
    requires i < 18
    ensures CH_SLOT[i] == Slot(i)
  {}

  predicate HasPair(i: nat) { i % 9 < 6 }

  function Pair(i: nat): (p: nat)
    requires HasPair(i)
    ensures i < 18 ==> p < 18 && p != i && HasPair(p)
  {
    if i % 9 < 3 then i + 3 else i - 3
  }

  // ---------- The wirings ----------

  function Serial(i: nat): Wires {
    Wires(Fb(Slot(i)), Out(Slot(i)), Out(Slot(i) + 3), Zero, Zero, Zero)
  }

  function Parallel(i: nat): Wires {
    Wires(Fb(Slot(i)), Zero, Out(Slot(i)), Out(Slot(i) + 3), Zero, Zero)
  }

  function TwoOpWires(i: nat, alg: nat): Wires { if alg % 2 == 0 then Serial(i) else Parallel(i) }

  /** The first half of a four-operator voice puts nothing out itself. */
  function FirstHalf(i: nat, alg: nat): Wires {
    Wires(Fb(Slot(i)), if alg % 4 < 2 then Out(Slot(i)) else Zero, Zero, Zero, Zero, Zero)
  }

  /** The second half, whose first operator is number Slot(i) and whose partner's are six and three less. */
  function SecondHalf(i: nat, alg: nat): Wires {
    var p0, p1, s0, s1 := Slot(i) - 6, Slot(i) - 3, Slot(i), Slot(i) + 3;
    match alg % 4
    case 0 => Wires(Out(p1), Out(s0), Out(s1), Zero, Zero, Zero)
    case 1 => Wires(Zero, Out(s0), Out(p1), Out(s1), Zero, Zero)
    case 2 => Wires(Out(p1), Out(s0), Out(p0), Out(s1), Zero, Zero)
    case _ => Wires(Out(p1), Zero, Out(p0), Out(s0), Out(s1), Zero)
  }

  /** The modulation inputs of a drum channel, its taps left alone. */
  function DrumMods(i: nat, alg: nat, w: Wires): Wires {
    if i == 7 || i == 8 then w.(mod0 := Zero, mod1 := Zero)
    else w.(mod0 := Fb(Slot(i)), mod1 := if alg % 2 == 0 then Out(Slot(i)) else Zero)
  }

  function DrumTaps(i: nat, w: Wires): Wires {
    var s0, s1 := Slot(i), Slot(i) + 3;
    if i == 6 then w.(out0 := Out(s1), out1 := Out(s1), out2 := Zero, out3 := Zero)
    else w.(out0 := Out(s0), out1 := Out(s0), out2 := Out(s1), out3 := Out(s1))
  }

  // ---------- Register writes ----------

  ghost predicate ShapeOk(c: Channel, i: nat) {
    && c.con < 2
    && (c.alg < 2 || (c.alg == 8 && i % 9 < 3) || (4 <= c.alg < 8 && 3 <= i % 9 < 6))
    && (c.kind == FourOp ==> i % 9 < 3)
    && (c.kind == FourOp2 ==> 3 <= i % 9 < 6)
    && (c.kind == Drum ==> 6 <= i < 9)
  }

  /** What makes every use of a channel's partner legal. */
  ghost predicate Legal(cs: seq<Channel>) {
    |cs| == 18 && forall i :: 0 <= i < 18 ==> ShapeOk(cs[i], i)
  }

  /** OPL3_ChannelSetupAlg. */
  function SetupAlg(cs: seq<Channel>, i: nat): (r: seq<Channel>)
    requires Legal(cs) && i < 18
    ensures Legal(r)
  {
    hide DrumMods, FirstHalf, SecondHalf, TwoOpWires;
    var c := cs[i];
    if c.kind == Drum then cs[i := c.(w := DrumMods(i, c.alg, c.w))]
    else if c.alg / 8 % 2 == 1 then cs
    else if c.alg / 4 % 2 == 1 then
      cs[Pair(i) := cs[Pair(i)].(w := FirstHalf(Pair(i), c.alg))][i := c.(w := SecondHalf(i, c.alg))]
    else cs[i := c.(w := TwoOpWires(i, c.alg))]
  }

  /** Both halves of a four-operator voice are set up from both connection bits. */
  function SetupPair(cs: seq<Channel>, first: nat): (r: seq<Channel>)
    requires Legal(cs) && first < 18 && first % 9 < 3
    ensures Legal(r)
  {
    var second := first + 3;
    var alg := 4 + 2 * cs[first].con + cs[second].con;
    SetupAlg(cs[first := cs[first].(alg := 8)][second := cs[second].(alg := alg)], second)
  }

  /** OPL3_ChannelWriteC0, the connection bit only. */
  function WriteC0(s: Chip, i: nat, data: nat): (r: Chip)
    requires Legal(s.ch) && i < 18
    ensures Legal(r.ch)
  {
    s.(ch := Rewire(s.newm, Stored(s.ch, i, data), i))
  }

  /** The connection bit stored. */
  function Stored(cs: seq<Channel>, i: nat, data: nat): (r: seq<Channel>)
    requires Legal(cs) && i < 18
    ensures Legal(r)
  {
    cs[i := cs[i].(con := data % 2, alg := data % 2)]
  }

  /** The setup that follows, by the channel's kind. */
  function Rewire(newm: bool, cs: seq<Channel>, i: nat): (r: seq<Channel>)
    requires Legal(cs) && i < 18
    ensures Legal(r)
  {
    hide SetupPair, SetupAlg;
    assert ShapeOk(cs[i], i);
    if newm && cs[i].kind == FourOp then SetupPair(cs, i)
    else if newm && cs[i].kind == FourOp2 then SetupPair(cs, i - 3)
    else SetupAlg(cs, i)
  }

  /** The bit of the four-operator register a channel of a pair answers to. */
  function PairBit(i: nat): nat { i % 3 + 3 * (i / 9) }

  /** The lower channel that bit number bit joins with its partner. */
  function Joined(bit: nat): nat { if bit >= 3 then bit + 6 else bit }

  lemma PairBits(bit: nat, k: nat)
    requires bit < 6 && k < 18
    ensures var c := Joined(bit);
            && c + 3 < 18
            && (k == c ==> k % 9 < 3)
            && (k == c + 3 ==> 3 <= k % 9 < 6)
            && (k % 9 < 6 ==> (PairBit(k) == bit <==> k == c || k == c + 3) && PairBit(k) < 6)
  {}

  /** The kind OPL3_ChannelSet4Op gives channel i: six channel pairs have a bit each. */
  function Kind4(i: nat, kind: Kind, data: nat): Kind {
    if i % 9 >= 6 then kind
    else if data / Pow2(PairBit(i)) % 2 == 0 then TwoOp
    else if i % 9 < 3 then FourOp else FourOp2
  }

  function Set4Op(s: Chip, data: nat): (r: Chip)
    requires Legal(s.ch)
    ensures Legal(r.ch)
  {
    s.(ch := seq(18, i requires 0 <= i < 18 => s.ch[i].(kind := Kind4(i, s.ch[i].kind, data))))
  }

  function Rhythmic(c: Channel, i: nat, on: bool): Channel {
    if on then c.(kind := Drum, w := DrumMods(i, c.alg, DrumTaps(i, c.w)))
    else c.(kind := TwoOp, w := TwoOpWires(i, c.alg))
  }

  /** The wiring part of OPL3_ChannelUpdateRhythm. */
  function UpdateRhythm(s: Chip, data: nat): (r: Chip)
    requires Legal(s.ch)
    ensures Legal(r.ch)
  {
    var on := data / 32 % 2 == 1;
    s.(ch := s.ch[6 := Rhythmic(s.ch[6], 6, on)][7 := Rhythmic(s.ch[7], 7, on)][8 := Rhythmic(s.ch[8], 8, on)])
  }

  /** OPL3_WriteReg, as far as the wiring is concerned. */
  function WriteReg(s: Chip, reg: nat, v: nat): (r: Chip)
    requires Legal(s.ch)
    ensures Legal(r.ch)
  {
    var high, low := reg / 256 % 2, reg % 256;
    if low == 0x04 && high == 1 then Set4Op(s, v)
    else if low == 0x05 && high == 1 then s.(newm := v % 2 == 1)
    else if low == 0xbd && high == 0 then UpdateRhythm(s, v)
    else if 0xc0 <= low < 0xc9 then WriteC0(s, 9 * high + low - 0xc0, v)
    else s
  }

  function Reset(): (s: Chip)
    ensures Legal(s.ch)
  {
    Chip(false, seq(18, i requires 0 <= i < 18 => UNWIRED.(w := Serial(i))))
  }

  datatype Write = Write(reg: nat, v: nat)

  function Run(ws: seq<Write>): (s: Chip)
    ensures Legal(s.ch)
  {
    if ws == [] then Reset()
    else WriteReg(Run(ws[..|ws| - 1]), ws[|ws| - 1].reg, ws[|ws| - 1].v)
  }

  // ---------- The invariant ----------

  /** The wires a channel's kind, connection bit and algorithm register call for; an algorithm of eight
      marks the lower half of a voice, whose wires follow its own connection bit. */
  function Expected(c: Channel, i: nat): Wires {
    if c.kind == Drum then DrumMods(i, c.alg, DrumTaps(i, UNWIRED.w))
    else if c.alg < 2 then TwoOpWires(i, c.alg)
    else if c.alg < 8 then SecondHalf(i, c.alg)
    else FirstHalf(i, 2 * c.con)
  }

  ghost predicate Matches(cs: seq<Channel>, i: nat)
    requires |cs| == 18 && i < 18
  {
    cs[i].w == Expected(cs[i], i)
  }

  ghost predicate Inv(s: Chip) {
    Legal(s.ch) && forall i :: 0 <= i < 18 ==> Matches(s.ch, i)
  }

  lemma ResetMatches()
    ensures Inv(Reset())
  {
    hide Serial;
  }

  lemma SetupMatches(cs: seq<Channel>, i: nat, k: nat)
    requires Legal(cs) && i < 18 && k < 18 && cs[i].alg < 2
    requires k != i ==> Matches(cs, k)
    requires cs[i].kind == Drum ==> DrumTaps(i, cs[i].w) == cs[i].w
    ensures Matches(SetupAlg(cs, i), k)
  {
    hide FirstHalf, SecondHalf, TwoOpWires, Slot;
  }

  lemma PairMatches(cs: seq<Channel>, first: nat, k: nat)
    requires Legal(cs) && first < 18 && first % 9 < 3 && k < 18
    requires cs[first].kind != Drum && cs[first + 3].kind != Drum
    requires k != first && k != first + 3 ==> Matches(cs, k)
    ensures Matches(SetupPair(cs, first), k)
  {
    hide SecondHalf, TwoOpWires, Slot, DrumMods, DrumTaps;
  }

  lemma Set4OpMatches(s: Chip, data: nat)
    requires Inv(s)
    ensures Inv(Set4Op(s, data))
  {
    var r := Set4Op(s, data);
    forall k | 0 <= k < 18
      ensures Matches(r.ch, k)
    {
      hide FirstHalf, SecondHalf, TwoOpWires, Slot, DrumMods, DrumTaps, Pow2;
      assert Matches(s.ch, k) && ShapeOk(s.ch[k], k);
    }
  }

  lemma RhythmMatches(s: Chip, data: nat)
    requires Inv(s)
    ensures Inv(UpdateRhythm(s, data))
  {
    var r := UpdateRhythm(s, data);
    forall k | 0 <= k < 18
      ensures Matches(r.ch, k)
    {
      hide FirstHalf, SecondHalf, TwoOpWires, Slot;
      assert Matches(s.ch, k) && ShapeOk(s.ch[k], k);
    }
  }

  lemma WriteC0Matches(s: Chip, i: nat, data: nat)
    requires Inv(s) && i < 18
    ensures Inv(WriteC0(s, i, data))
  {
    hide FirstHalf, SecondHalf, TwoOpWires, Slot, SetupAlg, SetupPair;
    var cs := Stored(s.ch, i, data);
    var r := WriteC0(s, i, data);
    assert ShapeOk(s.ch[i], i) && Matches(s.ch, i);
    forall k | 0 <= k < 18
      ensures Matches(r.ch, k)
    {
      assert ShapeOk(s.ch[k], k) && Matches(s.ch, k);
      assert k != i ==> Matches(cs, k);
      if s.newm && cs[i].kind == FourOp {
        assert ShapeOk(s.ch[i + 3], i + 3);
        PairMatches(cs, i, k);
      } else if s.newm && cs[i].kind == FourOp2 {
        assert ShapeOk(s.ch[i - 3], i - 3);
        PairMatches(cs, i - 3, k);
      } else {
        SetupMatches(cs, i, k);
      }
    }
  }

  /** After every sequence of register writes the wires are exactly the ones the algorithm registers call for. */
  lemma {:induction false} EveryRunMatches(ws: seq<Write>)
    ensures Inv(Run(ws))
  {
    if ws == [] {
      ResetMatches();
    } else {
      var s, w := Run(ws[..|ws| - 1]), ws[|ws| - 1];
      EveryRunMatches(ws[..|ws| - 1]);
      hide Inv, WriteReg;
      WriteMatches(s, w.reg, w.v);
    }
  }

  lemma WriteMatches(s: Chip, reg: nat, v: nat)
    requires Inv(s)
    ensures Inv(WriteReg(s, reg, v))
  {
    hide Matches, ShapeOk, WriteC0, Set4Op, UpdateRhythm;
    var high, low := reg / 256 % 2, reg % 256;
    if low == 0x04 && high == 1 {
      Set4OpMatches(s, v);
    } else if low == 0xbd && high == 0 {
      RhythmMatches(s, v);
    } else if 0xc0 <= low < 0xc9 {
      WriteC0Matches(s, 9 * high + low - 0xc0, v);
    }
  }

  /** The lower channel of a pair is the first half of a voice exactly when the upper one is the second half. */
  ghost predicate Paired(cs: seq<Channel>) {
    |cs| == 18 && forall i :: 0 <= i < 15 && i % 9 < 3 ==> PairedAt(cs, i)
  }

  lemma SetupKinds(cs: seq<Channel>, i: nat, k: nat)
    requires Legal(cs) && i < 18 && k < 18
    ensures SetupAlg(cs, i)[k].kind == cs[k].kind
  {
    hide Slot, FirstHalf, SecondHalf, TwoOpWires, DrumMods;
  }

  lemma SetupPairKinds(cs: seq<Channel>, first: nat, k: nat)
    requires Legal(cs) && first < 18 && first % 9 < 3 && k < 18
    ensures SetupPair(cs, first)[k].kind == cs[k].kind
  {
    assert ShapeOk(cs[first], first) && ShapeOk(cs[first + 3], first + 3);
    var alg := 4 + 2 * cs[first].con + cs[first + 3].con;
    var marked := cs[first := cs[first].(alg := 8)][first + 3 := cs[first + 3].(alg := alg)];
    assert Legal(marked);
    hide SetupAlg, ShapeOk;
    SetupKinds(marked, first + 3, k);
  }

  lemma WriteC0Kinds(s: Chip, i: nat, data: nat, k: nat)
    requires Legal(s.ch) && i < 18 && k < 18
    ensures WriteC0(s, i, data).ch[k].kind == s.ch[k].kind
  {
    var cs := Stored(s.ch, i, data);
    assert ShapeOk(s.ch[i], i) && Legal(cs);
    hide SetupAlg, SetupPair, Legal;
    if s.newm && cs[i].kind == FourOp {
      SetupPairKinds(cs, i, k);
    } else if s.newm && cs[i].kind == FourOp2 {
      SetupPairKinds(cs, i - 3, k);
    } else {
      SetupKinds(cs, i, k);
    }
  }

  ghost predicate PairedAt(cs: seq<Channel>, i: nat)
    requires |cs| == 18 && i < 15
  {
    cs[i].kind == FourOp <==> cs[i + 3].kind == FourOp2
  }

  lemma Set4OpPaired(s: Chip, v: nat, i: nat)
    requires Legal(s.ch) && i < 15 && i % 9 < 3
    ensures PairedAt(Set4Op(s, v).ch, i)
  {
    assert PairBit(i) == PairBit(i + 3);
    hide PairBit, Pow2;
  }

  lemma RhythmPaired(s: Chip, v: nat, i: nat)
    requires Legal(s.ch) && i < 15 && i % 9 < 3 && PairedAt(s.ch, i)
    ensures PairedAt(UpdateRhythm(s, v).ch, i)
  {
    assert i != 6 && i != 7 && i != 8 && i + 3 != 6 && i + 3 != 7 && i + 3 != 8;
    hide Rhythmic;
  }

  lemma C0Paired(s: Chip, i: nat, data: nat, k: nat)
    requires Legal(s.ch) && i < 18 && k < 15 && PairedAt(s.ch, k)
    ensures PairedAt(WriteC0(s, i, data).ch, k)
  {
    hide WriteC0;
    WriteC0Kinds(s, i, data, k);
    WriteC0Kinds(s, i, data, k + 3);
  }

  lemma WritePaired(s: Chip, reg: nat, v: nat)
    requires Legal(s.ch) && Paired(s.ch)
    ensures Paired(WriteReg(s, reg, v).ch)
  {
    var r := WriteReg(s, reg, v);
    var high, low := reg / 256 % 2, reg % 256;
    hide WriteC0, Set4Op, UpdateRhythm, ShapeOk;
    forall i | 0 <= i < 15 && i % 9 < 3
      ensures PairedAt(r.ch, i)
    {
      assert PairedAt(s.ch, i);
      Set4OpPaired(s, v, i);
      RhythmPaired(s, v, i);
      if 0xc0 <= low < 0xc9 {
        C0Paired(s, 9 * high + low - 0xc0, v, i);
      }
    }
  }

  /** In every run the two kinds of a voice come and go together. */
  lemma {:induction false} EveryRunPaired(ws: seq<Write>)
    ensures Paired(Run(ws).ch)
  {
    if ws != [] {
      EveryRunPaired(ws[..|ws| - 1]);
      hide Paired, WriteReg;
      WritePaired(Run(ws[..|ws| - 1]), ws[|ws| - 1].reg, ws[|ws| - 1].v);
    }
  }

  // ---------- The graph is acyclic ----------

  /** An operator's modulation input may only look at the constant, at its own feedback, or at an
      operator computed before it. */
  ghost predicate InputOk(t: Tap, slot: int) {
    t == Zero || t == Fb(slot) || (t.Out? && 0 <= t.slot < slot)
  }

  /** The operators a channel may look at: its own, and for the upper channels of the pairs its partner's. */
  ghost predicate Reaches(i: nat, slot: int) {
    slot == Slot(i) || slot == Slot(i) + 3 || (3 <= i % 9 < 6 && (slot == Slot(i) - 6 || slot == Slot(i) - 3))
  }

  ghost predicate TapOk(t: Tap, i: nat) { t == Zero || (t.Out? && Reaches(i, t.slot)) }

  ghost predicate Acyclic(w: Wires, i: nat) {
    && InputOk(w.mod0, Slot(i)) && InputOk(w.mod1, Slot(i) + 3)
    && (w.mod0.Out? ==> Reaches(i, w.mod0.slot)) && (w.mod1.Out? ==> Reaches(i, w.mod1.slot))
    && TapOk(w.out0, i) && TapOk(w.out1, i) && TapOk(w.out2, i) && TapOk(w.out3, i)
  }

  lemma MatchesAcyclic(s: Chip, i: nat)
    requires Inv(s) && i < 18
    ensures Acyclic(s.ch[i].w, i)
  {
    assert Matches(s.ch, i) && ShapeOk(s.ch[i], i);
    SlotAtLeast(i);
    hide Slot, Inv, ShapeOk;
  }

  lemma SlotAtLeast(i: nat)
    ensures Slot(i) >= 0 && (3 <= i % 9 < 6 ==> Slot(i) >= 6)
  {}

  /** After every sequence of register writes the slot order 0..35 is a topological order of the operator
      graph, and no channel looks outside its own pair. */
  lemma EveryRunAcyclic(ws: seq<Write>)
    ensures forall i :: 0 <= i < 18 ==> Acyclic(Run(ws).ch[i].w, i)
  {
    hide Matches, ShapeOk, Acyclic, Run;
    EveryRunMatches(ws);
    var s := Run(ws);
    forall i | 0 <= i < 18
      ensures Acyclic(s.ch[i].w, i)
    {
      MatchesAcyclic(s, i);
    }
  }

  // ---------- The two halves of a voice ----------

  lemma SetupSecond(cs: seq<Channel>, i: nat)
    requires Legal(cs) && i < 18 && 3 <= i % 9 < 6 && cs[i].kind != Drum && 4 <= cs[i].alg < 8
    ensures SetupAlg(cs, i) == cs[i - 3 := cs[i - 3].(w := FirstHalf(i - 3, cs[i].alg))]
                                 [i := cs[i].(w := SecondHalf(i, cs[i].alg))]
  {
    hide FirstHalf, SecondHalf, Slot, ShapeOk;
  }

  /** The closed form of a voice's setup. */
  lemma PairForm(cs: seq<Channel>, first: nat)
    requires Legal(cs) && first < 18 && first % 9 < 3
    requires cs[first].kind != Drum && cs[first + 3].kind != Drum
    ensures var second, alg := first + 3, 4 + 2 * cs[first].con + cs[first + 3].con;
            SetupPair(cs, first) == cs[first := cs[first].(alg := 8, w := FirstHalf(first, alg))]
                                      [second := cs[second].(alg := alg, w := SecondHalf(second, alg))]
  {
    assert ShapeOk(cs[first], first) && ShapeOk(cs[first + 3], first + 3);
    var alg := 4 + 2 * cs[first].con + cs[first + 3].con;
    var marked := cs[first := cs[first].(alg := 8)][first + 3 := cs[first + 3].(alg := alg)];
    assert Legal(marked);
    hide FirstHalf, SecondHalf, Slot, ShapeOk, SetupAlg;
    SetupSecond(marked, first + 3);
  }

  /** A voice with given connection bits. */
  function Voice(cs: seq<Channel>, first: nat, x: nat, y: nat): seq<Channel>
    requires first + 3 < |cs|
  {
    cs[first := Channel(FourOp, x, 8, FirstHalf(first, 4 + 2 * x + y))]
      [first + 3 := Channel(FourOp2, y, 4 + 2 * x + y, SecondHalf(first + 3, 4 + 2 * x + y))]
  }

  /** A connection write to either half of a voice: the bit is stored and both halves follow. */
  lemma VoiceWrite(s: Chip, first: nat, i: nat, data: nat)
    requires Legal(s.ch) && s.newm && first < 18 && s.ch[first].kind == FourOp
    requires first + 3 < 18 && s.ch[first + 3].kind == FourOp2 && (i == first || i == first + 3)
    ensures var x := if i == first then data % 2 else s.ch[first].con;
            var y := if i == first then s.ch[first + 3].con else data % 2;
            WriteC0(s, i, data) == s.(ch := Voice(s.ch, first, x, y))
  {
    assert ShapeOk(s.ch[first], first) && ShapeOk(s.ch[first + 3], first + 3);
    var cs := Stored(s.ch, i, data);
    hide FirstHalf, SecondHalf, Slot, SetupPair, ShapeOk;
    PairForm(cs, first);
  }

  lemma VoiceTwice(cs: seq<Channel>, first: nat, x: nat, y: nat, x': nat, y': nat)
    requires first + 3 < |cs|
    ensures Voice(Voice(cs, first, x, y), first, x', y') == Voice(cs, first, x', y')
  {
    hide FirstHalf, SecondHalf;
  }

  /** Writing the connection bits of the two halves of a four-operator voice in either order gives the
      same chip. */
  lemma HalvesCommute(s: Chip, first: nat, d: nat, e: nat)
    requires Inv(s) && s.newm && first < 18 && s.ch[first].kind == FourOp && s.ch[first + 3].kind == FourOp2
    ensures first + 3 < 18
    ensures WriteC0(WriteC0(s, first, d), first + 3, e) == WriteC0(WriteC0(s, first + 3, e), first, d)
  {
    assert ShapeOk(s.ch[first], first);
    var a, b := s.ch[first].con, s.ch[first + 3].con;
    hide FirstHalf, SecondHalf, WriteC0, Legal, Matches;
    VoiceWrite(s, first, first, d);
    VoiceWrite(s, first, first + 3, e);
    VoiceWrite(WriteC0(s, first, d), first, first + 3, e);
    VoiceWrite(WriteC0(s, first + 3, e), first, first, d);
    hide Voice;
    VoiceTwice(s.ch, first, d % 2, b, d % 2, e % 2);
    VoiceTwice(s.ch, first, a, e % 2, d % 2, e % 2);
  }

  // ---------- Every operator is heard once ----------

  function Hit(t: Tap, slot: int): nat { if t == Out(slot) then 1 else 0 }

  /** How many inputs and taps of a channel read an operator's output. */
  function UsesIn(w: Wires, slot: int): nat {
    Hit(w.mod0, slot) + Hit(w.mod1, slot)
    + Hit(w.out0, slot) + Hit(w.out1, slot) + Hit(w.out2, slot) + Hit(w.out3, slot)
  }

  function Uses(cs: seq<Channel>, slot: int, n: nat): nat
    requires n <= |cs|
  {
    if n == 0 then 0 else Uses(cs, slot, n - 1) + UsesIn(cs[n - 1].w, slot)
  }

  /** How many inputs and taps of the whole chip read an operator's output. */
  function AllUses(s: Chip, slot: int): nat { Uses(s.ch, slot, |s.ch|) }

  lemma {:induction false} NoUses(cs: seq<Channel>, slot: int, n: nat)
    requires n <= |cs| && forall k :: 0 <= k < n ==> UsesIn(cs[k].w, slot) == 0
    ensures Uses(cs, slot, n) == 0
  {
    if n > 0 {
      hide UsesIn;
      NoUses(cs, slot, n - 1);
    }
  }

  /** If only channels a and b look at an operator, the count is theirs. */
  lemma {:induction false} UsesOfTwo(cs: seq<Channel>, slot: int, n: nat, a: nat, b: nat)
    requires a < b < n <= |cs|
    requires forall k :: 0 <= k < n && k != a && k != b ==> UsesIn(cs[k].w, slot) == 0
    ensures Uses(cs, slot, n) == UsesIn(cs[a].w, slot) + UsesIn(cs[b].w, slot)
    decreases n
  {
    hide UsesIn;
    if n - 1 > b {
      UsesOfTwo(cs, slot, n - 1, a, b);
    } else {
      UsesOfOne(cs, slot, n - 1, a);
    }
  }

  lemma {:induction false} UsesOfOne(cs: seq<Channel>, slot: int, n: nat, a: nat)
    requires a < n <= |cs|
    requires forall k :: 0 <= k < n && k != a ==> UsesIn(cs[k].w, slot) == 0
    ensures Uses(cs, slot, n) == UsesIn(cs[a].w, slot)
  {
    hide UsesIn;
    if n - 1 > a {
      UsesOfOne(cs, slot, n - 1, a);
    } else {
      NoUses(cs, slot, n - 1);
    }
  }

  /** A channel that cannot reach an operator does not use it. */
  lemma OutOfReach(w: Wires, k: nat, slot: int)
    requires Acyclic(w, k) && !Reaches(k, slot)
    ensures UsesIn(w, slot) == 0
  {
    hide Reaches, Slot;
  }

  /** Bank, row and column of a channel. */
  lemma Coordinates(i: nat)
    ensures i == 9 * (i / 9) + 3 * (i % 9 / 3) + i % 3 && i % 9 == 3 * (i % 9 / 3) + i % 3
    ensures Slot(i) == 18 * (i / 9) + 6 * (i % 9 / 3) + i % 3 && i % 9 / 3 < 3
  {
    var h, m := i / 9, i % 9;
    var g, b := m / 3, m % 3;
    assert i == 9 * h + m && m == 3 * g + b;
    DivModUnique(i, 3, 3 * h + g, b);
  }

  lemma UpperSlot(i: nat)
    ensures Slot(i + 3) == Slot(i) + 6
  {
    DivModUnique(i + 3, 3, i / 3 + 1, i % 3);
  }

  lemma Apart(h: int, g: int, b: int, h': int, g': int, b': int, op: int)
    requires 0 <= g < 3 && 0 <= b < 3 && 0 <= g' < 3 && 0 <= b' < 3 && 0 <= op < 2
    requires h != h' || g != g' || b != b'
    ensures var d := 18 * (h' - h) + 6 * (g' - g) + b' - b - 3 * op;
            && d != 0 && d != -3
            && (g' == 1 ==> ((d == 6 || d == 3) <==> h' == h && g == 0 && b' == b))
  {}

  /** The operators of channel i are reached from i itself and, below a pair, from its upper partner. */
  lemma WhoReaches(i: nat, k: nat, op: nat)
    requires i < 18 && k < 18 && op < 2 && k != i
    ensures Reaches(k, Slot(i) + 3 * op) <==> i % 9 < 3 && k == i + 3
  {
    Coordinates(i);
    Coordinates(k);
    hide Slot;
    Apart(i / 9, i % 9 / 3, i % 3, k / 9, k % 9 / 3, k % 3, op);
  }

  /** The count for an operator of channel i. */
  lemma UsesHere(s: Chip, i: nat, op: nat)
    requires Inv(s) && i < 18 && op < 2
    ensures AllUses(s, Slot(i) + 3 * op) == UsesIn(s.ch[i].w, Slot(i) + 3 * op)
              + if i % 9 < 3 && i + 3 < 18 then UsesIn(s.ch[i + 3].w, Slot(i) + 3 * op) else 0
  {
    hide Matches, Acyclic, Slot, UsesIn, Reaches, ShapeOk;
    var slot := Slot(i) + 3 * op;
    forall k | 0 <= k < 18 && k != i && !(i % 9 < 3 && k == i + 3)
      ensures UsesIn(s.ch[k].w, slot) == 0
    {
      MatchesAcyclic(s, k);
      WhoReaches(i, k, op);
      OutOfReach(s.ch[k].w, k, slot);
    }
    if i % 9 < 3 {
      UsesOfTwo(s.ch, slot, 18, i, i + 3);
    } else {
      UsesOfOne(s.ch, slot, 18, i);
    }
  }

  lemma UsedByVoice(first: nat, alg: nat, op: nat)
    requires first % 9 < 3 && op < 2
    ensures UsesIn(FirstHalf(first, alg), Slot(first) + 3 * op)
            + UsesIn(SecondHalf(first + 3, alg), Slot(first) + 3 * op) == 1
    ensures UsesIn(SecondHalf(first + 3, alg), Slot(first + 3) + 3 * op) == 1
  {
    UpperSlot(first);
    hide Slot;
  }

  /** Right after a connection write to either half of a four-operator voice, each of its four operators
      feeds exactly one modulation input or output tap of the whole chip. */
  lemma VoiceHeardOnce(s: Chip, first: nat, i: nat, data: nat, op: nat)
    requires Inv(s) && s.newm && first < 18 && s.ch[first].kind == FourOp
    requires first + 3 < 18 && s.ch[first + 3].kind == FourOp2 && (i == first || i == first + 3) && op < 2
    ensures var r := WriteC0(s, i, data);
            AllUses(r, Slot(first) + 3 * op) == 1 && AllUses(r, Slot(first + 3) + 3 * op) == 1
  {
    hide WriteC0, Matches, ShapeOk, Slot, FirstHalf, SecondHalf, UsesIn, AllUses;
    var r := WriteC0(s, i, data);
    WriteC0Matches(s, i, data);
    var alg := VoiceWires(s, first, i, data);
    UsesHere(r, first, op);
    UsesHere(r, first + 3, op);
    UsedByVoice(first, alg, op);
  }

  lemma VoiceWires(s: Chip, first: nat, i: nat, data: nat) returns (alg: nat)
    requires Legal(s.ch) && s.newm && first < 18 && s.ch[first].kind == FourOp
    requires first + 3 < 18 && s.ch[first + 3].kind == FourOp2 && (i == first || i == first + 3)
    ensures first % 9 < 3
    ensures var r := WriteC0(s, i, data);
            r.ch[first].w == FirstHalf(first, alg) && r.ch[first + 3].w == SecondHalf(first + 3, alg)
  {
    assert ShapeOk(s.ch[first], first);
    hide WriteC0, Legal, FirstHalf, SecondHalf;
    VoiceWrite(s, first, i, data);
    alg := WriteC0(s, i, data).ch[first + 3].alg;
  }

  lemma UsedByTwoOp(i: nat, alg: nat)
    ensures UsesIn(TwoOpWires(i, alg), Slot(i)) == 1 && UsesIn(TwoOpWires(i, alg), Slot(i) + 3) == 1
    ensures UsesIn(TwoOpWires(i, alg), Slot(i) - 6) == 0 && UsesIn(TwoOpWires(i, alg), Slot(i) - 3) == 0
  {
    hide Slot;
  }

  lemma UsedBySecondHalf(i: nat, alg: nat)
    ensures UsesIn(SecondHalf(i, alg), Slot(i) - 3) == 1
  {
    hide Slot;
  }

  lemma SetupTwoOpForm(cs: seq<Channel>, i: nat)
    requires Legal(cs) && i < 18 && cs[i].kind != Drum && cs[i].alg < 2
    ensures SetupAlg(cs, i) == cs[i := cs[i].(w := TwoOpWires(i, cs[i].alg))]
  {
    hide TwoOpWires, ShapeOk;
  }

  lemma TwoOpWrite(s: Chip, i: nat, data: nat)
    requires Legal(s.ch) && i < 18 && s.ch[i].kind != Drum
    requires !s.newm || s.ch[i].kind == TwoOp
    ensures var r := WriteC0(s, i, data);
            r.ch[i].w == TwoOpWires(i, data % 2) && forall k :: 0 <= k < 18 && k != i ==> r.ch[k] == s.ch[k]
  {
    hide TwoOpWires, SetupAlg, ShapeOk;
    SetupTwoOpForm(Stored(s.ch, i, data), i);
  }

  /** After a two-operator connection write both operators of the channel feed exactly one input, if and
      only if the channel's upper partner, where it has one, is not still wired as the second half of a
      four-operator voice. The partner's algorithm register tells. */
  lemma ChannelHeardOnce(s: Chip, i: nat, data: nat)
    requires Inv(s) && i < 18 && s.ch[i].kind != Drum
    requires !s.newm || s.ch[i].kind == TwoOp
    ensures var r := WriteC0(s, i, data);
            (AllUses(r, Slot(i)) == 1 && AllUses(r, Slot(i) + 3) == 1)
            <==> !(i % 9 < 3 && i + 3 < 18 && s.ch[i + 3].alg >= 4)
  {
    hide WriteC0, AllUses, UsesIn, TwoOpWires, SecondHalf, Slot;
    var r := WriteC0(s, i, data);
    WriteC0Matches(s, i, data);
    TwoOpWrite(s, i, data);
    UsesHere(r, i, 0);
    UsesHere(r, i, 1);
    UsedByTwoOp(i, data % 2);
    if i % 9 < 3 {
      PartnerUses(s, i);
    }
  }

  lemma UpperWires(s: Chip, k: nat)
    requires Inv(s) && k < 18 && 3 <= k % 9 < 6
    ensures s.ch[k].w == if s.ch[k].alg >= 4 then SecondHalf(k, s.ch[k].alg) else TwoOpWires(k, s.ch[k].alg)
  {
    assert Matches(s.ch, k) && ShapeOk(s.ch[k], k);
    hide Slot, TwoOpWires, SecondHalf;
  }

  lemma PartnerUses(s: Chip, i: nat)
    requires Inv(s) && i < 18 && i % 9 < 3
    ensures i + 3 < 18
    ensures var w, stale := s.ch[i + 3].w, s.ch[i + 3].alg >= 4;
            UsesIn(w, Slot(i) + 3) == (if stale then 1 else 0) && (!stale ==> UsesIn(w, Slot(i)) == 0)
  {
    UpperSlot(i);
    hide UsesIn, TwoOpWires, SecondHalf, Slot;
    hide Matches, ShapeOk;
    UpperWires(s, i + 3);
    UsedByTwoOp(i + 3, s.ch[i + 3].alg);
    UsedBySecondHalf(i + 3, s.ch[i + 3].alg);
  }

  lemma Separate(s: Chip, i: nat)
    requires Legal(s.ch) && i < 18 && i % 9 < 6
    ensures Set4Op(s, 0).ch[i] == s.ch[i].(kind := TwoOp)
  {
    hide Pow2;
    assert 0 / Pow2(PairBit(i)) == 0;
  }

  /** The failing case is reached from every playing voice: separate the pair, then write the lower
      channel's connection, and its second operator feeds two places. */
  lemma SeparatedVoiceHeardTwice(s: Chip, first: nat, d: nat, e: nat)
    requires Inv(s) && s.newm && first < 18 && s.ch[first].kind == FourOp
    requires first + 3 < 18 && s.ch[first + 3].kind == FourOp2
    ensures var separated := Set4Op(WriteC0(s, first, d), 0);
            AllUses(WriteC0(separated, first, e), Slot(first) + 3) == 2
  {
    assert ShapeOk(s.ch[first], first);
    var played := WriteC0(s, first, d);
    var separated := Set4Op(played, 0);
    WriteC0Matches(s, first, d);
    VoiceWrite(s, first, first, d);
    Set4OpMatches(played, 0);
    hide WriteC0, Set4Op, AllUses, FirstHalf, SecondHalf, Slot, Matches, ShapeOk;
    Separate(played, first);
    Separate(played, first + 3);
    StaleUses(separated, first, e);
  }

  lemma StaleUses(s: Chip, i: nat, e: nat)
    requires Inv(s) && i < 18 && i % 9 < 3 && s.ch[i].kind == TwoOp && s.ch[i + 3].alg >= 4
    ensures AllUses(WriteC0(s, i, e), Slot(i) + 3) == 2
  {
    hide WriteC0, AllUses, UsesIn, TwoOpWires, SecondHalf, Slot;
    WriteC0Matches(s, i, e);
    TwoOpWrite(s, i, e);
    UsesHere(WriteC0(s, i, e), i, 1);
    UsedByTwoOp(i, e % 2);
    PartnerUses(s, i);
  }

  lemma Decodes(s: Chip, v: nat)
    requires Legal(s.ch)
    ensures WriteReg(s, 0xc0, v) == WriteC0(s, 0, v)
    ensures WriteReg(s, 0x104, v) == Set4Op(s, v)
    ensures WriteReg(s, 0x105, 1) == s.(newm := true)
  {
    hide WriteC0, Set4Op, Legal;
  }

  lemma Join(s: Chip)
    requires Inv(s)
    ensures var r := Set4Op(s, 1);
            Inv(r) && r.newm == s.newm && r.ch[0].kind == FourOp && r.ch[3].kind == FourOp2
  {
    Set4OpMatches(s, 1);
    assert Pow2(0) == 1;
    hide Pow2, Inv;
  }

  /** New mode on, the first pair joined and played, the pair separated again, all from reset. */
  function Separated(): (s: Chip)
    ensures Legal(s.ch)
  {
    hide Legal, WriteReg, Reset;
    var joined := WriteReg(WriteReg(Reset(), 0x105, 1), 0x104, 1);
    WriteReg(WriteReg(joined, 0xc0, 0), 0x104, 0)
  }

  lemma SeparatedForm()
    ensures var joined := Set4Op(Reset().(newm := true), 1);
            Inv(joined) && joined.newm && joined.ch[0].kind == FourOp && joined.ch[3].kind == FourOp2
            && Separated() == Set4Op(WriteC0(joined, 0, 0), 0)
  {
    ResetMatches();
    var on := Reset().(newm := true);
    assert Inv(on);
    hide Reset, Matches, ShapeOk, WriteReg, WriteC0, Set4Op;
    Join(on);
    var joined := Set4Op(on, 1);
    Decodes(Reset(), 1);
    Decodes(on, 1);
    Decodes(joined, 0);
    Decodes(WriteC0(joined, 0, 0), 0);
  }

  /** Five register writes after a reset, operator 3 feeds two places. */
  lemma FiveWritesHeardTwice()
    ensures AllUses(WriteReg(Separated(), 0xc0, 0), 3) == 2
  {
    hide AllUses, WriteC0, Set4Op, WriteReg, Reset, Separated, Matches, ShapeOk;
    SeparatedForm();
    Decodes(Separated(), 0);
    SeparatedVoiceHeardTwice(Set4Op(Reset().(newm := true), 1), 0, 0, 0);
  }

  // ---------- The chip's own code ----------

  /** Channel k after the first bits of the four-operator register have been served. */
  function KindsUpTo(c: Channel, k: nat, data: nat, bit: nat): Channel {
    if PairBit(k) < bit then c.(kind := Kind4(k, c.kind, data)) else c
  }

  lemma OneBit(c: Channel, k: nat, data: nat, bit: nat)
    requires k < 18 && bit < 6
    ensures var chnum, on := Joined(bit), data / Pow2(bit) % 2 == 1;
            KindsUpTo(c, k, data, bit + 1) ==
            if k == chnum then KindsUpTo(c, k, data, bit).(kind := if on then FourOp else TwoOp)
            else if k == chnum + 3 then KindsUpTo(c, k, data, bit).(kind := if on then FourOp2 else TwoOp)
            else KindsUpTo(c, k, data, bit)
  {
    PairBits(bit, k);
    hide PairBit, Pow2, Joined;
  }

  lemma KindsDone(s: Chip, data: nat)
    requires Legal(s.ch)
    ensures forall k :: 0 <= k < 18 ==> Set4Op(s, data).ch[k] == KindsUpTo(s.ch[k], k, data, 6)
  {
    hide Pow2;
  }

  class Opl3 {
    var newm: bool
    const channel: array<Channel>

    ghost predicate Valid()
      reads this, channel
    {
      channel.Length == 18 && Inv(State())
    }

    ghost function State(): Chip
      reads this, channel
    {
      Chip(newm, channel[..])
    }

    constructor ()
      ensures Valid() && fresh(channel) && State() == Reset()
    {
      newm := false;
      channel := new Channel[18](i => UNWIRED);
      new;
      for i := 0 to 18
        invariant forall k :: 0 <= k < 18 ==> channel[k] == if k < i then UNWIRED.(w := Serial(k)) else UNWIRED
        invariant !newm
      {
        assert Legal(channel[..]);
        hide Serial, SetupAlg, ShapeOk;
        SetupTwoOpForm(channel[..], i);
        assert TwoOpWires(i, 0) == Serial(i);
        hide TwoOpWires;
        ChannelSetupAlg(i);
      }
      assert channel[..] == Reset().ch;
      ResetMatches();
    }

    method ChannelSetupAlg(i: nat)
      requires channel.Length == 18 && i < 18 && Legal(channel[..])
      modifies channel
      ensures channel[..] == SetupAlg(old(channel[..]), i)
    {
      hide TwoOpWires, FirstHalf, SecondHalf, DrumMods, Slot;
      var c := channel[i];
      assert ShapeOk(c, i);
      if c.kind == Drum {
        SetupDrum(i);
      } else if c.alg / 8 % 2 == 1 {
      } else if c.alg / 4 % 2 == 1 {
        SetupVoice(i);
      } else {
        SetupTwoOp(i);
      }
    }

    method SetupTwoOp(i: nat)
      requires channel.Length == 18 && i < 18
      modifies channel
      ensures channel[..] == var cs := old(channel[..]); cs[i := cs[i].(w := TwoOpWires(i, cs[i].alg))]
    {
      var c, s0, s1 := channel[i], Slot(i), Slot(i) + 3;
      if c.alg % 2 == 0 {
        channel[i] := c.(w := Wires(Fb(s0), Out(s0), Out(s1), Zero, Zero, Zero));
      } else {
        channel[i] := c.(w := Wires(Fb(s0), Zero, Out(s0), Out(s1), Zero, Zero));
      }
    }

    method SetupDrum(i: nat)
      requires channel.Length == 18 && i < 18
      modifies channel
      ensures channel[..] == var cs := old(channel[..]); cs[i := cs[i].(w := DrumMods(i, cs[i].alg, cs[i].w))]
    {
      var c := channel[i];
      if i == 7 || i == 8 {
        channel[i] := c.(w := c.w.(mod0 := Zero, mod1 := Zero));
      } else if c.alg % 2 == 0 {
        channel[i] := c.(w := c.w.(mod0 := Fb(Slot(i)), mod1 := Out(Slot(i))));
      } else {
        channel[i] := c.(w := c.w.(mod0 := Fb(Slot(i)), mod1 := Zero));
      }
    }

    method SetupVoice(i: nat)
      requires channel.Length == 18 && i < 18 && 3 <= i % 9 < 6
      modifies channel
      ensures channel[..] == var cs := old(channel[..]);
              cs[Pair(i) := cs[Pair(i)].(w := FirstHalf(Pair(i), cs[i].alg))]
                [i := cs[i].(w := SecondHalf(i, cs[i].alg))]
    {
      var p, alg := Pair(i), channel[i].alg;
      var p0, p1, s0, s1 := Slot(p), Slot(p) + 3, Slot(i), Slot(i) + 3;
      var a, b;
      match alg % 4 {
        case 0 =>
          a := Wires(Fb(p0), Out(p0), Zero, Zero, Zero, Zero);
          b := Wires(Out(p1), Out(s0), Out(s1), Zero, Zero, Zero);
        case 1 =>
          a := Wires(Fb(p0), Out(p0), Zero, Zero, Zero, Zero);
          b := Wires(Zero, Out(s0), Out(p1), Out(s1), Zero, Zero);
        case 2 =>
          a := Wires(Fb(p0), Zero, Zero, Zero, Zero, Zero);
          b := Wires(Out(p1), Out(s0), Out(p0), Out(s1), Zero, Zero);
        case _ =>
          a := Wires(Fb(p0), Zero, Zero, Zero, Zero, Zero);
          b := Wires(Out(p1), Zero, Out(p0), Out(s0), Out(s1), Zero);
      }
      channel[p] := channel[p].(w := a);
      channel[i] := channel[i].(w := b);
    }

    method ChannelWriteC0(i: nat, data: nat)
      requires Valid() && i < 18
      modifies channel
      ensures Valid() && State() == WriteC0(old(State()), i, data)
    {
      WriteC0Matches(State(), i, data);
      hide Matches, Rewire;
      assert ShapeOk(channel[i], i);
      var con := data % 2;
      channel[i] := channel[i].(con := con, alg := con);
      assert channel[..] == Stored(old(channel[..]), i, data);
      hide Stored;
      RewireChannel(i);
    }

    /** The setup after a connection write. */
    method RewireChannel(i: nat)
      requires channel.Length == 18 && i < 18 && Legal(channel[..])
      modifies channel
      ensures channel[..] == Rewire(newm, old(channel[..]), i)
    {
      hide SetupAlg, TwoOpWires, FirstHalf, SecondHalf, DrumMods;
      assert ShapeOk(channel[i], i);
      hide ShapeOk;
      if newm && channel[i].kind == FourOp {
        MarkPair(i);
        ChannelSetupAlg(i + 3);
      } else if newm && channel[i].kind == FourOp2 {
        MarkPair(i - 3);
        ChannelSetupAlg(i);
      } else {
        ChannelSetupAlg(i);
      }
    }

    /** The upper channel of a voice gets both connection bits, the lower one is marked inactive. */
    method MarkPair(first: nat)
      requires channel.Length == 18 && first < 18 && first % 9 < 3 && Legal(channel[..])
      modifies channel
      ensures Legal(channel[..])
      ensures channel[..] == var cs := old(channel[..]);
              cs[first := cs[first].(alg := 8)]
                [first + 3 := cs[first + 3].(alg := 4 + 2 * cs[first].con + cs[first + 3].con)]
    {
      assert ShapeOk(channel[first], first) && ShapeOk(channel[first + 3], first + 3);
      channel[first + 3] := channel[first + 3].(alg := 4 + 2 * channel[first].con + channel[first + 3].con);
      channel[first] := channel[first].(alg := 8);
    }

    method ChannelSet4Op(data: nat)
      requires Valid()
      modifies channel
      ensures Valid() && State() == Set4Op(old(State()), data)
    {
      Set4OpMatches(State(), data);
      ghost var before := channel[..];
      hide Set4Op, Inv, Legal, Kind4, PairBit, Pow2;
      for bit := 0 to 6
        invariant forall k :: 0 <= k < 18 ==> channel[k] == KindsUpTo(before[k], k, data, bit)
      {
        ghost var now := channel[..];
        var chnum := if bit >= 3 then bit + 9 - 3 else bit;
        SetPairKinds(chnum, data / Pow2(bit) % 2 == 1);
        forall k | 0 <= k < 18
          ensures channel[k] == KindsUpTo(before[k], k, data, bit + 1)
        {
          hide KindsUpTo;
          OneBit(before[k], k, data, bit);
        }
      }
      KindsDone(old(State()), data);
      assert channel[..] == Set4Op(old(State()), data).ch;
    }

    method SetPairKinds(chnum: nat, on: bool)
      requires channel.Length == 18 && chnum + 3 < 18
      modifies channel
      ensures channel[..] == var cs := old(channel[..]);
              cs[chnum := cs[chnum].(kind := if on then FourOp else TwoOp)]
                [chnum + 3 := cs[chnum + 3].(kind := if on then FourOp2 else TwoOp)]
    {
      if on {
        channel[chnum] := channel[chnum].(kind := FourOp);
        channel[chnum + 3] := channel[chnum + 3].(kind := FourOp2);
      } else {
        channel[chnum] := channel[chnum].(kind := TwoOp);
        channel[chnum + 3] := channel[chnum + 3].(kind := TwoOp);
      }
    }

    method ChannelUpdateRhythm(data: nat)
      requires Valid()
      modifies channel
      ensures Valid() && State() == UpdateRhythm(old(State()), data)
    {
      RhythmMatches(State(), data);
      hide Matches;
      var on := data / 32 % 2 == 1;
      RhythmChannel(6, on);
      RhythmChannel(7, on);
      RhythmChannel(8, on);
    }

    /** What the rhythm register does to one of its three channels. */
    method RhythmChannel(i: nat, on: bool)
      requires channel.Length == 18 && Legal(channel[..]) && 6 <= i < 9
      modifies channel
      ensures Legal(channel[..]) && channel[..] == old(channel[..])[i := Rhythmic(old(channel[i]), i, on)]
    {
      assert ShapeOk(channel[i], i);
      var c, s0, s1 := channel[i], Slot(i), Slot(i) + 3;
      if on {
        if i == 6 {
          channel[i] := c.(kind := Drum, w := c.w.(out0 := Out(s1), out1 := Out(s1), out2 := Zero, out3 := Zero));
        } else {
          channel[i] := c.(kind := Drum, w := c.w.(out0 := Out(s0), out1 := Out(s0), out2 := Out(s1), out3 := Out(s1)));
        }
      } else {
        channel[i] := c.(kind := TwoOp);
      }
      hide Slot;
      ChannelSetupAlg(i);
    }

    /** A register write; registers that do not touch the wiring are left out. */
    method WriteRegister(reg: nat, v: nat)
      requires Valid()
      modifies this`newm, channel
      ensures Valid() && State() == WriteReg(old(State()), reg, v)
    {
      var high, low := reg / 256 % 2, reg % 256;
      WriteMatches(State(), reg, v);
      hide Inv, WriteC0, Set4Op, UpdateRhythm;
      if low == 0x04 && high == 1 {
        ChannelSet4Op(v);
      } else if low == 0x05 && high == 1 {
        newm := v % 2 == 1;
      } else if low == 0xbd && high == 0 {
        ChannelUpdateRhythm(v);
      } else if 0xc0 <= low < 0xc9 {
        ChannelWriteC0(9 * high + low - 0xc0, v);
      }
    }
  }
}
