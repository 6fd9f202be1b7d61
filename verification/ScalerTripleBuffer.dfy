/** The scaler's triple buffering between the input frames and the output frames (triple buffer mode on,
    freeze off, progressive input). */
module ScalerTripleBuffer {

  type Buf = b: int | 0 <= b < 3

  /** The buffer to use next by the side that is at a while the other side is at b. */
  function BufNext(a: Buf, b: Buf): Buf {
    if (a == 0 && b == 1) || (a == 1 && b == 0) then 2
    else if (a == 1 && b == 2) || (a == 2 && b == 1) then 0
    else 1
  }

  /** From two different buffers the third follows, for either side. */
  lemma NextIsThird(a: Buf, b: Buf)
    ensures a != b ==> BufNext(a, b) != a && BufNext(a, b) != b && BufNext(a, b) == BufNext(b, a)
    ensures a == b ==> BufNext(a, b) == 1
  {}

  /** The registers for the first field, and the copies for the second. */
  datatype Regs = Regs(ibuf0: Buf, obuf0: Buf, bufup0: bool, ibuf1: Buf, obuf1: Buf)

  const RESET := Regs(0, 0, false, 0, 0)

  /** What happens in one clock: an input frame ends, the output's vertical sync falls, both or neither. */
  datatype Event = Event(frameEnd: bool, vsync: bool)

  /** Whether the output switches buffers. */
  predicate Switches(s: Regs, e: Event) { e.vsync && (s.bufup0 || e.frameEnd) }

  function Next(s: Regs, e: Event): Regs {
    Regs(
      if e.frameEnd then BufNext(s.ibuf0, s.obuf0) else s.ibuf0,
      if e.vsync && e.frameEnd then s.ibuf0
      else if e.vsync && s.bufup0 then BufNext(s.obuf0, s.ibuf0)
      else s.obuf0,
      if e.vsync then false else s.bufup0 || e.frameEnd,
      s.ibuf0,
      s.obuf0)
  }

  // ---------- What the buffers hold ----------

  /** How many frames have been completed, and for each buffer the last frame completed in it, zero for none. */
  datatype Memory = Memory(frames: nat, held: map<Buf, nat>)

  function Empty(): Memory { Memory(0, map[0 := 0, 1 := 0, 2 := 0]) }

  function Written(m: Memory, s: Regs, e: Event): Memory {
    if e.frameEnd then Memory(m.frames + 1, m.held[s.ibuf0 := m.frames + 1]) else m
  }

  datatype World = World(s: Regs, m: Memory)

  function Step(w: World, e: Event): World { World(Next(w.s, e), Written(w.m, w.s, e)) }

  function Run(es: seq<Event>): World {
    if es == [] then World(RESET, Empty()) else Step(Run(es[..|es| - 1]), es[|es| - 1])
  }

  // ---------- The invariant ----------

  ghost predicate Inv(w: World) {
    var s, m := w.s, w.m;
    && m.held.Keys == {0, 1, 2}
    && (forall b :: b in m.held ==> m.held[b] <= m.frames)
    && (m.frames == 0 ==> s.ibuf0 == s.obuf0 == 0 && !s.bufup0)
    && (m.frames > 0 ==> s.ibuf0 != s.obuf0)
    && (m.frames == 1 && s.bufup0 ==> s.obuf0 == 0 && s.ibuf0 == 1 && m.held[2] == 0)
    && (m.frames > 1 && s.bufup0 ==> m.held[BufNext(s.obuf0, s.ibuf0)] == m.frames)
  }

  lemma InvStep(w: World, e: Event)
    requires Inv(w)
    ensures Inv(Step(w, e))
  {}

  lemma {:induction false} EveryRun(es: seq<Event>)
    ensures Inv(Run(es))
  {
    if es != [] {
      EveryRun(es[..|es| - 1]);
      InvStep(Run(es[..|es| - 1]), es[|es| - 1]);
    }
  }

  // ---------- What it guarantees ----------

  function After(s: Regs, es: seq<Event>): Regs {
    if es == [] then s else Next(After(s, es[..|es| - 1]), es[|es| - 1])
  }

  /** Once the two sides use different buffers they always do, whatever happens, the copies one clock later. */
  lemma {:induction false} OnceApart(s: Regs, es: seq<Event>)
    requires s.ibuf0 != s.obuf0
    ensures var r := After(s, es); r.ibuf0 != r.obuf0 && (es != [] ==> r.ibuf1 != r.obuf1)
  {
    if es != [] {
      OnceApart(s, es[..|es| - 1]);
    }
  }

  /** From the first completed frame on the input never writes the buffer the output shows. */
  lemma ShownIsNotWritten(es: seq<Event>, e: Event)
    ensures var w, r := Run(es), Step(Run(es), e);
            w.m.frames > 0 ==>
              && w.s.ibuf0 != w.s.obuf0
              && r.s.ibuf1 != r.s.obuf1
              && w.s.obuf0 in w.m.held && w.s.obuf0 in r.m.held
              && r.m.held[w.s.obuf0] == w.m.held[w.s.obuf0]
  {
    EveryRun(es);
    InvStep(Run(es), e);
  }

  /** A switch of the output selects the frame completed last, whatever came before, if and only if it is
      not the very first frame, or that frame ends in the very clock of the switch. */
  lemma SwitchSelectsNewest(es: seq<Event>, e: Event)
    requires Switches(Run(es).s, e)
    ensures var r := Step(Run(es), e);
            && r.s.obuf0 in r.m.held
            && (r.m.held[r.s.obuf0] == r.m.frames <==> r.m.frames >= 2 || e.frameEnd)
  {
    EveryRun(es);
    InvStep(Run(es), e);
  }

  /** The failing case: one frame completed, then one switch, and the output shows a buffer nobody wrote. */
  lemma FirstFrameIsMissed()
    ensures var w := Run([Event(true, false), Event(false, true)]);
            w.m.frames == 1 && w.s.obuf0 == 2 && 2 in w.m.held && w.m.held[2] == 0 && !w.s.bufup0
  {
    var a, b := Event(true, false), Event(false, true);
    assert [a, b][..1] == [a] && [a][..0] == [];
    assert Run([a]) == Step(Run([]), a);
    assert Run([a, b]) == Step(Run([a]), b);
  }

  /** How many frames have been completed since the output's last vertical sync. */
  function FramesSince(es: seq<Event>): nat {
    if es == [] || es[|es| - 1].vsync then 0
    else FramesSince(es[..|es| - 1]) + if es[|es| - 1].frameEnd then 1 else 0
  }

  lemma {:induction false} FrameWaits(es: seq<Event>)
    ensures Run(es).s.bufup0 <==> FramesSince(es) > 0
  {
    if es != [] {
      FrameWaits(es[..|es| - 1]);
    }
  }

  /** The output changes buffers only at a vertical sync, and then if and only if a frame has been completed
      since the last one, or is in that very clock; the first frame alone may leave it where it was. */
  lemma OutputMoves(es: seq<Event>, e: Event)
    ensures var w, r := Run(es), Step(Run(es), e);
            && (r.s.obuf0 != w.s.obuf0 ==> e.vsync && (FramesSince(es) > 0 || e.frameEnd))
            && (e.vsync && (FramesSince(es) > 0 || e.frameEnd) && w.m.frames > 0 ==> r.s.obuf0 != w.s.obuf0)
  {
    EveryRun(es);
    FrameWaits(es);
  }

  /** The input changes buffers exactly when a frame ends, to one that it has not just written and that the
      output does not show. */
  lemma InputMoves(es: seq<Event>, e: Event)
    ensures var w, r := Run(es), Step(Run(es), e);
            && (r.s.ibuf0 != w.s.ibuf0 <==> e.frameEnd)
            && (e.frameEnd ==> r.s.ibuf0 != w.s.obuf0 && r.s.ibuf0 != r.s.obuf0)
  {
    EveryRun(es);
    InvStep(Run(es), e);
  }

  // ---------- The clocked process ----------

  class BufferControl {
    var iendframe0: bool
    var iendframe02: bool
    var vsv0: bool
    var vsv1: bool
    var ibuf0: Buf
    var obuf0: Buf
    var bufup0: bool
    var ibuf1: Buf
    var obuf1: Buf

    ghost function State(): Regs
      reads this
    {
      Regs(ibuf0, obuf0, bufup0, ibuf1, obuf1)
    }

    /** The rising edge of the input's frame end and the falling edge of the output's vertical sync. */
    function Seen(): Event
      reads this
    {
      Event(iendframe0 && !iendframe02, vsv1 && !vsv0)
    }

    /** One clock; endframe is the input side's signal, vs the sync generator's new value, if it advances. */
    method Clock(endframe: bool, advance: bool, vs: bool)
      modifies this
      ensures State() == Next(old(State()), old(Seen()))
      ensures iendframe0 == endframe && iendframe02 == old(iendframe0)
      ensures if advance then vsv0 == vs && vsv1 == old(vsv0) else vsv0 == old(vsv0) && vsv1 == old(vsv1)
    {
      var frameEnd, vsync := iendframe0 && !iendframe02, vsv1 && !vsv0;
      var ibuf, obuf, up := ibuf0, obuf0, bufup0;
      ibuf1, obuf1 := ibuf, obuf;
      if frameEnd {
        ibuf0 := BufNext(ibuf, obuf);
        bufup0 := true;
      }
      if vsync && up {
        obuf0 := BufNext(obuf, ibuf);
        bufup0 := false;
      }
      if vsync && frameEnd {
        bufup0 := false;
        obuf0 := ibuf;
      }
      iendframe0, iendframe02 := endframe, iendframe0;
      if advance {
        vsv0, vsv1 := vs, vsv0;
      }
    }
  }
}
