/** What the wiring that register writes leave means for the sound: which operator modulates which, and whose
    outputs a channel adds to the mix. */
module Opl3Voices {
  import opened Bits
  import opened Opl3Wave
  import opened Opl3Sound
  import W = Opl3Wiring

  // ---------- The registers ----------

  /** The last value written to a register, zero after reset. */
  function Last(ws: seq<W.Write>, reg: nat): nat {
    if ws == [] then 0
    else if ws[|ws| - 1].reg % 0x200 == reg then ws[|ws| - 1].v
    else Last(ws[..|ws| - 1], reg)
  }

  /** The connection register of a channel: nine in each of the two banks. */
  function ConnectionReg(i: nat): nat { if i < 9 then 0xc0 + i else 0x1c0 + i - 9 }

  function Connection(ws: seq<W.Write>, i: nat): nat { Last(ws, ConnectionReg(i)) % 2 }

  /** Whether register 0x104 joins a channel with the one three above or below it. */
  function InVoice(ws: seq<W.Write>, i: nat): bool {
    i % 9 < 6 && Last(ws, 0x104) / Pow2(i % 3 + 3 * (i / 9)) % 2 == 1
  }

  /** Whether register 0xbd makes a channel a drum channel. */
  function IsDrum(ws: seq<W.Write>, i: nat): bool { 6 <= i < 9 && Last(ws, 0xbd) / 32 % 2 == 1 }

  /** What the chip keeps of the registers. */
  ghost predicate Remembers(s: W.Chip, ws: seq<W.Write>, i: nat)
    requires |s.ch| == 18 && i < 18
  {
    && s.ch[i].con == Connection(ws, i)
    && s.ch[i].kind == (if InVoice(ws, i) then (if i % 9 < 3 then W.FourOp else W.FourOp2)
                        else if IsDrum(ws, i) then W.Drum else W.TwoOp)
    && s.newm == (Last(ws, 0x105) % 2 == 1)
    && (i % 9 >= 6 ==> s.ch[i].alg == s.ch[i].con)
  }

  lemma NextLast(ws: seq<W.Write>, w: W.Write, reg: nat)
    ensures Last(ws + [w], reg) == if w.reg % 0x200 == reg then w.v else Last(ws, reg)
  {
    assert (ws + [w])[..|ws|] == ws;
  }

  lemma Address(reg: nat)
    ensures reg % 0x200 == 0x100 * (reg / 0x100 % 2) + reg % 0x100
  {
    var h, l := reg / 0x100, reg % 0x100;
    assert reg == 0x100 * h + l && h == 2 * (h / 2) + h % 2;
    DivModUnique(reg, 0x200, h / 2, 0x100 * (h % 2) + l);
  }

  lemma SetupKeeps(cs: seq<W.Channel>, i: nat, k: nat)
    requires W.Legal(cs) && i < 18 && k < 18
    ensures W.SetupAlg(cs, i)[k].kind == cs[k].kind && W.SetupAlg(cs, i)[k].con == cs[k].con
    ensures W.SetupAlg(cs, i)[k].alg == cs[k].alg
  {
    hide W.Slot, W.FirstHalf, W.SecondHalf, W.TwoOpWires, W.DrumMods;
  }

  lemma PairKeeps(cs: seq<W.Channel>, first: nat, k: nat)
    requires W.Legal(cs) && first < 18 && first % 9 < 3 && k < 18
    ensures W.SetupPair(cs, first)[k].kind == cs[k].kind && W.SetupPair(cs, first)[k].con == cs[k].con
    ensures k % 9 >= 6 ==> W.SetupPair(cs, first)[k].alg == cs[k].alg
  {
    assert W.ShapeOk(cs[first], first) && W.ShapeOk(cs[first + 3], first + 3);
    var alg := 4 + 2 * cs[first].con + cs[first + 3].con;
    var marked := cs[first := cs[first].(alg := 8)][first + 3 := cs[first + 3].(alg := alg)];
    assert W.Legal(marked);
    hide W.SetupAlg, W.ShapeOk;
    SetupKeeps(marked, first + 3, k);
  }

  lemma ConnectionKeeps(s: W.Chip, i: nat, v: nat, k: nat)
    requires W.Legal(s.ch) && i < 18 && k < 18
    ensures var r := W.WriteC0(s, i, v);
            && r.newm == s.newm && r.ch[k].kind == s.ch[k].kind
            && r.ch[k].con == (if k == i then v % 2 else s.ch[k].con)
            && (k % 9 >= 6 ==> r.ch[k].alg == if k == i then v % 2 else s.ch[k].alg)
  {
    var cs := W.Stored(s.ch, i, v);
    assert W.ShapeOk(s.ch[i], i) && W.Legal(cs);
    hide W.SetupAlg, W.SetupPair, W.Legal;
    if s.newm && cs[i].kind == W.FourOp {
      PairKeeps(cs, i, k);
    } else if s.newm && cs[i].kind == W.FourOp2 {
      PairKeeps(cs, i - 3, k);
    } else {
      SetupKeeps(cs, i, k);
    }
  }

  /** One more register write, as its channel sees it. */
  lemma WriteRemembered(s: W.Chip, ws: seq<W.Write>, w: W.Write, i: nat)
    requires W.Legal(s.ch) && i < 18 && Remembers(s, ws, i)
    ensures Remembers(W.WriteReg(s, w.reg, w.v), ws + [w], i)
  {
    hide Last, W.WriteC0, W.UpdateRhythm, W.Set4Op, W.Legal, Pow2;
    Address(w.reg);
    NextLast(ws, w, 0x104);
    NextLast(ws, w, 0x105);
    NextLast(ws, w, 0xbd);
    NextLast(ws, w, ConnectionReg(i));
    var high, low := w.reg / 256 % 2, w.reg % 256;
    if low == 0x04 && high == 1 {
      KindsWritten(s, w.v, i);
    } else if low == 0xbd && high == 0 {
      RhythmWritten(s, w.v, i);
    } else if 0xc0 <= low < 0xc9 {
      ConnectionKeeps(s, 9 * high + low - 0xc0, w.v, i);
    }
  }

  lemma KindsWritten(s: W.Chip, v: nat, i: nat)
    requires W.Legal(s.ch) && i < 18
    ensures var r := W.Set4Op(s, v);
            && r.newm == s.newm && r.ch[i].con == s.ch[i].con && r.ch[i].alg == s.ch[i].alg
            && r.ch[i].kind == if i % 9 >= 6 then s.ch[i].kind
                               else if v / Pow2(i % 3 + 3 * (i / 9)) % 2 == 0 then W.TwoOp
                               else if i % 9 < 3 then W.FourOp else W.FourOp2
  {
    hide Pow2;
  }

  lemma RhythmWritten(s: W.Chip, v: nat, i: nat)
    requires W.Legal(s.ch) && i < 18
    ensures var r := W.UpdateRhythm(s, v);
            && r.newm == s.newm && r.ch[i].con == s.ch[i].con && r.ch[i].alg == s.ch[i].alg
            && r.ch[i].kind == if !(6 <= i < 9) then s.ch[i].kind else if v / 32 % 2 == 1 then W.Drum else W.TwoOp
  {
    hide W.DrumMods, W.DrumTaps, W.TwoOpWires;
  }

  /** In every run a channel's connection bit and kind, and the chip's mode, are what the registers last
      written say. */
  lemma {:induction false} EveryRunRemembers(ws: seq<W.Write>, i: nat)
    requires i < 18
    ensures Remembers(W.Run(ws), ws, i)
  {
    if ws == [] {
      ResetRemembered(i);
    } else {
      var front, w := ws[..|ws| - 1], ws[|ws| - 1];
      EveryRunRemembers(front, i);
      hide Remembers, W.WriteReg;
      WriteRemembered(W.Run(front), front, w, i);
      assert front + [w] == ws;
    }
  }

  lemma ResetRemembered(i: nat)
    requires i < 18
    ensures Remembers(W.Reset(), [], i)
  {
    hide Pow2;
    var z := 0;
    assert z / Pow2(i % 3 + 3 * (i / 9)) == 0;
  }

  // ---------- What is heard ----------

  /** A channel's first operator; its second one is three further. */
  function FirstOp(i: nat): nat { 6 * (i / 3) + i % 3 }

  /** What a channel adds to a side of the mix that it is switched to. */
  function Heard(s: W.Chip, ops: seq<Op>, i: nat): int
    requires ChipOk(s) && |ops| == 36 && i < 18
  {
    assert WiresOk(s.ch[i].w);
    Sum(TapValues(s.ch[i].w, ops))
  }

  /** What modulates an operator. */
  function ModulationOf(s: W.Chip, ops: seq<Op>, j: nat): int
    requires ChipOk(s) && |ops| == 36 && j < 36
  {
    ModOk(s, j);
    Read(ModOf(s, j), ops)
  }

  lemma HeardIsSum(s: W.Chip, ops: seq<Op>, i: nat)
    requires ChipOk(s) && |ops| == 36 && i < 18
    ensures var w := s.ch[i].w;
            && WiresOk(w)
            && Heard(s, ops, i) == Read(w.out0, ops) + Read(w.out1, ops) + Read(w.out2, ops) + Read(w.out3, ops)
  {
    assert WiresOk(s.ch[i].w);
    var w := s.ch[i].w;
    hide WiresOk, Sum, Read;
    SumOfFour(TapValues(w, ops));
  }

  /** The two operators of a channel read the two modulation inputs. */
  lemma OpsOfChannel(s: W.Chip, i: nat)
    requires |s.ch| == 18 && i < 18
    ensures FirstOp(i) + 3 < 36 && FirstOp(i) == W.Slot(i)
    ensures ModOf(s, FirstOp(i)) == s.ch[i].w.mod0 && ModOf(s, FirstOp(i) + 3) == s.ch[i].w.mod1
  {
    var g, b := i / 3, i % 3;
    DivModUnique(6 * g + b, 6, g, b);
    DivModUnique(6 * g + b + 3, 6, g, b + 3);
    DivModUnique(6 * g + b, 3, 2 * g, b);
    DivModUnique(6 * g + b + 3, 3, 2 * g + 1, b);
  }

  /** A two-operator channel: the first operator modulates itself. With the connection bit clear it also
      modulates the second, which alone is heard; with the bit set neither is modulated and both are heard. */
  ghost predicate PlaysPair(s: W.Chip, ops: seq<Op>, i: nat, bit: nat)
    requires ChipOk(s) && |ops| == 36 && i < 18
  {
    OpsOfChannel(s, i);
    var a, b := FirstOp(i), FirstOp(i) + 3;
    && ModulationOf(s, ops, a) == ops[a].fbmod
    && ModulationOf(s, ops, b) == (if bit == 0 then ops[a].out else 0)
    && Heard(s, ops, i) == (if bit == 0 then ops[b].out else ops[a].out + ops[b].out)
  }

  /** A four-operator voice, by the connection bits of its two channels. */
  ghost predicate PlaysVoice(s: W.Chip, ops: seq<Op>, i: nat, x: nat, y: nat)
    requires ChipOk(s) && |ops| == 36 && i < 15
  {
    OpsOfChannel(s, i);
    OpsOfChannel(s, i + 3);
    var a, b, c, d := FirstOp(i), FirstOp(i) + 3, FirstOp(i + 3), FirstOp(i + 3) + 3;
    && ModulationOf(s, ops, a) == ops[a].fbmod
    && ModulationOf(s, ops, b) == (if x == 0 then ops[a].out else 0)
    && ModulationOf(s, ops, c) == (if x == 0 && y == 1 then 0 else ops[b].out)
    && ModulationOf(s, ops, d) == (if x == 1 && y == 1 then 0 else ops[c].out)
    && Heard(s, ops, i) == 0
    && Heard(s, ops, i + 3)
       == (if x == 0 && y == 0 then ops[d].out
           else if x == 0 then ops[b].out + ops[d].out
           else if y == 0 then ops[a].out + ops[d].out
           else ops[a].out + ops[c].out + ops[d].out)
  }

  /** A drum channel: the bass drum like a pair of which only the second operator is heard, the others
      unmodulated; everything twice as loud. */
  ghost predicate PlaysDrum(s: W.Chip, ops: seq<Op>, i: nat, bit: nat)
    requires ChipOk(s) && |ops| == 36 && 6 <= i < 9
  {
    OpsOfChannel(s, i);
    var a, b := FirstOp(i), FirstOp(i) + 3;
    && ModulationOf(s, ops, a) == (if i == 6 then ops[a].fbmod else 0)
    && ModulationOf(s, ops, b) == (if i == 6 && bit == 0 then ops[a].out else 0)
    && Heard(s, ops, i) == (if i == 6 then 2 * ops[b].out else 2 * (ops[a].out + ops[b].out))
  }

  /** The wires of a pair in numbers of its first operator. */
  lemma WiresOfPair(i: nat, bit: nat, a: nat)
    requires bit < 2 && a == W.Slot(i)
    ensures W.TwoOpWires(i, bit)
         == if bit == 0 then W.Wires(W.Fb(a), W.Out(a), W.Out(a + 3), W.Zero, W.Zero, W.Zero)
            else W.Wires(W.Fb(a), W.Zero, W.Out(a), W.Out(a + 3), W.Zero, W.Zero)
  {
    hide W.Slot;
  }

  lemma PairModulated(s: W.Chip, ops: seq<Op>, i: nat, bit: nat)
    requires ChipOk(s) && |ops| == 36 && i < 18 && bit < 2 && s.ch[i].w == W.TwoOpWires(i, bit)
    ensures var a := FirstOp(i);
            && a + 3 < 36
            && ModulationOf(s, ops, a) == ops[a].fbmod
            && ModulationOf(s, ops, a + 3) == if bit == 0 then ops[a].out else 0
  {
    assert |s.ch| == 18;
    hide W.Slot, FirstOp, ModOf, ChipOk, WiresOk, W.TwoOpWires;
    OpsOfChannel(s, i);
    WiresOfPair(i, bit, FirstOp(i));
  }

  lemma PairHeard(s: W.Chip, ops: seq<Op>, i: nat, bit: nat)
    requires ChipOk(s) && |ops| == 36 && i < 18 && bit < 2 && s.ch[i].w == W.TwoOpWires(i, bit)
    ensures var a := FirstOp(i);
            a + 3 < 36 && Heard(s, ops, i) == if bit == 0 then ops[a + 3].out else ops[a].out + ops[a + 3].out
  {
    assert |s.ch| == 18;
    hide W.Slot, FirstOp, ModOf, Heard, ChipOk, WiresOk, W.TwoOpWires;
    OpsOfChannel(s, i);
    WiresOfPair(i, bit, FirstOp(i));
    HeardIsSum(s, ops, i);
  }

  lemma PairSounds(s: W.Chip, ops: seq<Op>, i: nat, bit: nat)
    requires ChipOk(s) && |ops| == 36 && i < 18 && bit < 2 && s.ch[i].w == W.TwoOpWires(i, bit)
    ensures PlaysPair(s, ops, i, bit)
  {
    assert |s.ch| == 18;
    hide W.Slot, FirstOp, ModOf, ModulationOf, Heard, ChipOk, WiresOk, W.TwoOpWires;
    OpsOfChannel(s, i);
    PairModulated(s, ops, i, bit);
    PairHeard(s, ops, i, bit);
  }

  /** The two halves of a voice, by its two connection bits. */
  ghost predicate VoiceWires(s: W.Chip, i: nat, x: nat, y: nat) {
    && |s.ch| == 18 && i < 15 && i % 9 < 3 && x < 2 && y < 2
    && s.ch[i].w == W.FirstHalf(i, 4 + 2 * x + y) && s.ch[i + 3].w == W.SecondHalf(i + 3, 4 + 2 * x + y)
  }

  /** The wires of the two halves in numbers of the voice's first operator. */
  lemma HalvesOfVoice(i: nat, x: nat, y: nat, a: nat)
    requires x < 2 && y < 2 && a == W.Slot(i)
    ensures W.FirstHalf(i, 4 + 2 * x + y)
         == W.Wires(W.Fb(a), if x == 0 then W.Out(a) else W.Zero, W.Zero, W.Zero, W.Zero, W.Zero)
    ensures W.SecondHalf(i + 3, 4 + 2 * x + y)
         == if x == 0 && y == 0 then W.Wires(W.Out(a + 3), W.Out(a + 6), W.Out(a + 9), W.Zero, W.Zero, W.Zero)
            else if x == 0 then W.Wires(W.Zero, W.Out(a + 6), W.Out(a + 3), W.Out(a + 9), W.Zero, W.Zero)
            else if y == 0 then W.Wires(W.Out(a + 3), W.Out(a + 6), W.Out(a), W.Out(a + 9), W.Zero, W.Zero)
            else W.Wires(W.Out(a + 3), W.Zero, W.Out(a), W.Out(a + 6), W.Out(a + 9), W.Zero)
  {
    W.UpperSlot(i);
    hide W.Slot;
  }

  lemma VoiceModulated(s: W.Chip, ops: seq<Op>, i: nat, x: nat, y: nat)
    requires ChipOk(s) && |ops| == 36 && VoiceWires(s, i, x, y)
    ensures var a := FirstOp(i);
            && a + 9 < 36
            && ModulationOf(s, ops, a) == ops[a].fbmod
            && ModulationOf(s, ops, a + 3) == (if x == 0 then ops[a].out else 0)
            && ModulationOf(s, ops, a + 6) == (if x == 0 && y == 1 then 0 else ops[a + 3].out)
            && ModulationOf(s, ops, a + 9) == (if x == 1 && y == 1 then 0 else ops[a + 6].out)
  {
    assert |s.ch| == 18;
    hide W.Slot, FirstOp, ModOf, Heard, ChipOk, WiresOk, W.FirstHalf, W.SecondHalf;
    OpsOfChannel(s, i);
    OpsOfChannel(s, i + 3);
    W.UpperSlot(i);
    HalvesOfVoice(i, x, y, FirstOp(i));
  }

  lemma VoiceHeard(s: W.Chip, ops: seq<Op>, i: nat, x: nat, y: nat)
    requires ChipOk(s) && |ops| == 36 && VoiceWires(s, i, x, y)
    ensures var a := FirstOp(i);
            && a + 9 < 36
            && Heard(s, ops, i) == 0
            && Heard(s, ops, i + 3)
               == (if x == 0 && y == 0 then ops[a + 9].out
                   else if x == 0 then ops[a + 3].out + ops[a + 9].out
                   else if y == 0 then ops[a].out + ops[a + 9].out
                   else ops[a].out + ops[a + 6].out + ops[a + 9].out)
  {
    assert |s.ch| == 18;
    hide W.Slot, FirstOp, ModOf, Heard, ChipOk, WiresOk, W.FirstHalf, W.SecondHalf;
    OpsOfChannel(s, i);
    OpsOfChannel(s, i + 3);
    W.UpperSlot(i);
    HalvesOfVoice(i, x, y, FirstOp(i));
    HeardIsSum(s, ops, i);
    HeardIsSum(s, ops, i + 3);
  }

  lemma VoiceSounds(s: W.Chip, ops: seq<Op>, i: nat, x: nat, y: nat)
    requires ChipOk(s) && |ops| == 36 && VoiceWires(s, i, x, y)
    ensures PlaysVoice(s, ops, i, x, y)
  {
    assert |s.ch| == 18;
    hide W.Slot, FirstOp, ModOf, Heard, ModulationOf, ChipOk, WiresOk, W.FirstHalf, W.SecondHalf;
    OpsOfChannel(s, i);
    OpsOfChannel(s, i + 3);
    W.UpperSlot(i);
    VoiceModulated(s, ops, i, x, y);
    VoiceHeard(s, ops, i, x, y);
  }

  lemma DrumSounds(s: W.Chip, ops: seq<Op>, i: nat, c: W.Channel)
    requires ChipOk(s) && |ops| == 36 && 6 <= i < 9 && s.ch[i] == c && c.kind == W.Drum && W.Expected(c, i) == c.w
    ensures PlaysDrum(s, ops, i, c.alg % 2)
  {
    assert |s.ch| == 18;
    hide W.Slot, FirstOp, ModOf, Heard, ChipOk, WiresOk;
    OpsOfChannel(s, i);
    HeardIsSum(s, ops, i);
  }

  // ---------- What a run leaves to be heard ----------

  lemma PairWires(s: W.Chip, i: nat)
    requires W.Inv(s) && i < 18 && i % 9 >= 6 && s.ch[i].kind == W.TwoOp
    ensures s.ch[i].alg < 2 && s.ch[i].w == W.TwoOpWires(i, s.ch[i].alg)
  {
    assert W.Matches(s.ch, i) && W.ShapeOk(s.ch[i], i);
    hide W.TwoOpWires;
  }

  lemma DrumWires(s: W.Chip, i: nat)
    requires W.Inv(s) && 6 <= i < 9 && s.ch[i].kind == W.Drum
    ensures s.ch[i].alg < 2 && W.Expected(s.ch[i], i) == s.ch[i].w
  {
    assert W.Matches(s.ch, i) && W.ShapeOk(s.ch[i], i);
    hide W.DrumMods, W.DrumTaps;
  }

  /** What a channel sounds like, by the registers: in new mode a channel that register 0x104 has joined plays
      its part of a voice, a drum channel its drums, and any other a pair. */
  ghost predicate SoundsAs(s: W.Chip, ws: seq<W.Write>, i: nat, ops: seq<Op>)
    requires ChipOk(s) && |ops| == 36 && i < 18
  {
    var first := if i % 9 < 3 then i else i - 3;
    if Last(ws, 0x105) % 2 == 1 && InVoice(ws, i) then
      first < 15 && PlaysVoice(s, ops, first, Connection(ws, first), Connection(ws, first + 3))
    else if IsDrum(ws, i) then PlaysDrum(s, ops, i, Connection(ws, i))
    else PlaysPair(s, ops, i, Connection(ws, i))
  }

  /** In every run, at every moment, a channel outside the pairs sounds as the registers say. */
  lemma EveryRunOutsidePairs(ws: seq<W.Write>, i: nat, ops: seq<Op>)
    requires i < 18 && i % 9 >= 6 && |ops| == 36
    ensures ChipOk(W.Run(ws)) && SoundsAs(W.Run(ws), ws, i, ops)
  {
    hide PlaysDrum, PlaysPair, W.Run, W.Inv, Last, ChipOk, Pow2;
    EveryRunRemembers(ws, i);
    W.EveryRunMatches(ws);
    RunOk(ws);
    var s := W.Run(ws);
    if IsDrum(ws, i) {
      DrumWires(s, i);
      DrumSounds(s, ops, i, s.ch[i]);
    } else {
      PairWires(s, i);
      PairSounds(s, ops, i, s.ch[i].alg);
    }
  }

  /** The last of a run's writes, when it is to a connection register. */
  lemma LastWrite(ws: seq<W.Write>, i: nat, v: nat)
    requires i < 18
    ensures W.Run(ws + [W.Write(ConnectionReg(i), v)]) == W.WriteC0(W.Run(ws), i, v)
  {
    var all := ws + [W.Write(ConnectionReg(i), v)];
    assert all[..|all| - 1] == ws;
    assert W.Run(all) == W.WriteReg(W.Run(ws), ConnectionReg(i), v);
    hide W.Run, W.WriteC0, W.Legal;
    Decoded(i);
  }

  lemma Decoded(i: nat)
    requires i < 18
    ensures var reg := ConnectionReg(i);
            && reg / 256 % 2 == (if i < 9 then 0 else 1) && reg % 256 == 0xc0 + (if i < 9 then i else i - 9)
            && reg % 0x200 == reg
  {}

  /** The two channels of a pair answer to one bit. */
  lemma SameBit(i: nat)
    requires i < 18 && i % 9 < 6
    ensures var first := if i % 9 < 3 then i else i - 3;
            && first < 15 && first % 9 < 3 && (first + 3) % 9 >= 3 && (first + 3) % 9 < 6
            && first % 3 == i % 3 == (first + 3) % 3 && first / 9 == i / 9 == (first + 3) / 9
  {}

  lemma VoiceLeft(s: W.Chip, first: nat, i: nat, v: nat)
    requires W.Legal(s.ch) && s.newm && first < 15 && (i == first || i == first + 3)
    requires s.ch[first].kind == W.FourOp && s.ch[first + 3].kind == W.FourOp2
    ensures var r := W.WriteC0(s, i, v);
            var x, y := r.ch[first].con, r.ch[first + 3].con;
            VoiceWires(r, first, x, y)
  {
    hide W.WriteC0, W.FirstHalf, W.SecondHalf;
    assert W.ShapeOk(s.ch[first], first) && W.ShapeOk(s.ch[first + 3], first + 3);
    W.VoiceWrite(s, first, i, v);
  }

  /** The kinds and the mode before the write, from the registers after it. */
  lemma KindsBefore(ws: seq<W.Write>, i: nat, v: nat, k: nat)
    requires i < 18 && k < 18
    ensures var all, s := ws + [W.Write(ConnectionReg(i), v)], W.Run(ws);
            && s.newm == (Last(all, 0x105) % 2 == 1)
            && s.ch[k].kind == (if InVoice(all, k) then (if k % 9 < 3 then W.FourOp else W.FourOp2)
                                else if IsDrum(all, k) then W.Drum else W.TwoOp)
            && Connection(all, i) == v % 2
  {
    hide W.Run, Last, Pow2;
    var w := W.Write(ConnectionReg(i), v);
    EveryRunRemembers(ws, k);
    Decoded(i);
    NextLast(ws, w, 0x104);
    NextLast(ws, w, 0x105);
    NextLast(ws, w, 0xbd);
    NextLast(ws, w, ConnectionReg(i));
  }

  lemma ConnectionRemembered(ws: seq<W.Write>, i: nat)
    requires i < 18
    ensures W.Run(ws).ch[i].con == Connection(ws, i)
  {
    hide W.Run, Connection, InVoice, IsDrum, Last;
    EveryRunRemembers(ws, i);
  }

  /** Before a write to a half of a voice the chip knows the voice. */
  lemma VoiceKnown(ws: seq<W.Write>, i: nat, v: nat, first: nat)
    requires i < 18 && i % 9 < 6 && first == if i % 9 < 3 then i else i - 3
    requires var all := ws + [W.Write(ConnectionReg(i), v)]; Last(all, 0x105) % 2 == 1 && InVoice(all, i)
    ensures var s := W.Run(ws);
            first < 15 && s.newm && s.ch[first].kind == W.FourOp && s.ch[first + 3].kind == W.FourOp2
  {
    hide W.Run, Last, Pow2, ConnectionReg, Connection, IsDrum;
    SameBit(i);
    KindsBefore(ws, i, v, first);
    KindsBefore(ws, i, v, first + 3);
  }

  lemma WriteToVoice(ws: seq<W.Write>, i: nat, v: nat, first: nat, ops: seq<Op>)
    requires i < 18 && i % 9 < 6 && |ops| == 36 && first == if i % 9 < 3 then i else i - 3
    requires var all := ws + [W.Write(ConnectionReg(i), v)]; Last(all, 0x105) % 2 == 1 && InVoice(all, i)
    ensures var all := ws + [W.Write(ConnectionReg(i), v)];
            && ChipOk(W.Run(all)) && first < 15
            && PlaysVoice(W.Run(all), ops, first, Connection(all, first), Connection(all, first + 3))
  {
    var all := ws + [W.Write(ConnectionReg(i), v)];
    VoiceKnown(ws, i, v, first);
    hide PlaysVoice, W.Run, Last, Pow2, W.WriteC0, ChipOk, ConnectionReg, Connection, VoiceWires, W.Legal, InVoice;
    RunOk(all);
    LastWrite(ws, i, v);
    ConnectionRemembered(all, first);
    ConnectionRemembered(all, first + 3);
    VoiceLeft(W.Run(ws), first, i, v);
    VoiceSounds(W.Run(all), ops, first, Connection(all, first), Connection(all, first + 3));
  }

  lemma WriteToPair(ws: seq<W.Write>, i: nat, v: nat, ops: seq<Op>)
    requires i < 18 && i % 9 < 6 && |ops| == 36
    requires var all := ws + [W.Write(ConnectionReg(i), v)]; Last(all, 0x105) % 2 == 0 || !InVoice(all, i)
    ensures var all := ws + [W.Write(ConnectionReg(i), v)];
            ChipOk(W.Run(all)) && PlaysPair(W.Run(all), ops, i, Connection(all, i)) && Connection(all, i) == v % 2
  {
    var all := ws + [W.Write(ConnectionReg(i), v)];
    assert |W.Run(all).ch| == 18 && |W.Run(ws).ch| == 18;
    hide PlaysPair, W.Run, Last, Pow2, W.WriteC0, ChipOk, ConnectionReg, Connection, W.TwoOpWires, W.Legal;
    RunOk(all);
    LastWrite(ws, i, v);
    KindsBefore(ws, i, v, i);
    W.TwoOpWrite(W.Run(ws), i, v);
    PairSounds(W.Run(all), ops, i, v % 2);
  }

  /** After any register writes, a write to the connection register of a channel of a pair makes it sound as
      the registers say. */
  lemma ConnectionWriteSounds(ws: seq<W.Write>, i: nat, v: nat, ops: seq<Op>)
    requires i < 18 && i % 9 < 6 && |ops| == 36
    ensures var all := ws + [W.Write(ConnectionReg(i), v)];
            ChipOk(W.Run(all)) && SoundsAs(W.Run(all), all, i, ops)
  {
    hide PlaysPair, PlaysVoice, PlaysDrum, W.Run, Last, ChipOk, ConnectionReg, Connection, InVoice;
    var all := ws + [W.Write(ConnectionReg(i), v)];
    if Last(all, 0x105) % 2 == 1 && InVoice(all, i) {
      WriteToVoice(ws, i, v, if i % 9 < 3 then i else i - 3, ops);
    } else {
      WriteToPair(ws, i, v, ops);
    }
  }
}
