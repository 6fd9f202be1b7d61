/** OPL3's buffer of timed register writes: a ring of 1024 entries, a queue of pending writes. */
module Opl3WriteBuffer {

  const SIZE: nat := 1024
  const DELAY: nat := 2
  const BUSY: nat := 0x200

  datatype Write = Write(reg: nat, data: nat)
  datatype Pending = Pending(time: nat, write: Write)

  /** The buffer as a queue, with the writes applied to the chip so far. */
  datatype Fifo = Fifo(queue: seq<Pending>, samples: nat, lastTime: nat, applied: seq<Write>)

  const EMPTY := Fifo([], 0, 0, [])

  function PopHead(f: Fifo): Fifo
    requires f.queue != []
  {
    f.(queue := f.queue[1..], applied := f.applied + [f.queue[0].write])
  }

  /** A write issued: when all entries are pending the oldest is applied at once, and the sample count
      jumps to the time it was due. */
  function Issue(f: Fifo, reg: nat, data: nat): Fifo {
    var g := if |f.queue| < SIZE then f else PopHead(f).(samples := f.queue[0].time);
    var time := if f.lastTime + DELAY < g.samples then g.samples else f.lastTime + DELAY;
    g.(queue := g.queue + [Pending(time, Write(reg % BUSY, data))], lastTime := time)
  }

  /** One sample generated: the head is applied exactly when it is due now. */
  function Generate(f: Fifo): Fifo {
    var g := if f.queue != [] && f.queue[0].time == f.samples then PopHead(f) else f;
    g.(samples := g.samples + 1)
  }

  /** Pending times rise by at least the delay, and nothing is overdue. */
  ghost predicate Ordered(f: Fifo) {
    && |f.queue| <= SIZE
    && (forall i :: 0 <= i < |f.queue| - 1 ==> f.queue[i].time + DELAY <= f.queue[i + 1].time)
    && (f.queue != [] ==> f.samples <= f.queue[0].time && f.queue[|f.queue| - 1].time == f.lastTime)
  }

  lemma IssueKeepsOrder(f: Fifo, reg: nat, data: nat)
    requires Ordered(f)
    ensures Ordered(Issue(f, reg, data))
  {
    if |f.queue| == SIZE {
      assert f.queue[0].time + DELAY <= f.queue[1].time;
    }
  }

  lemma GenerateKeepsOrder(f: Fifo)
    requires Ordered(f)
    ensures Ordered(Generate(f))
  {}

  // ---------- Runs ----------

  datatype Op = IssueOp(reg: nat, data: nat) | GenerateOp

  function Step(f: Fifo, op: Op): Fifo {
    match op
    case IssueOp(reg, data) => Issue(f, reg, data)
    case GenerateOp => Generate(f)
  }

  function Run(ops: seq<Op>): Fifo {
    if ops == [] then EMPTY else Step(Run(ops[..|ops| - 1]), ops[|ops| - 1])
  }

  /** The writes issued, in order, as the chip will see them. */
  function Issued(ops: seq<Op>): seq<Write> {
    if ops == [] then []
    else match ops[|ops| - 1]
      case IssueOp(reg, data) => Issued(ops[..|ops| - 1]) + [Write(reg % BUSY, data)]
      case GenerateOp => Issued(ops[..|ops| - 1])
  }

  function Writes(queue: seq<Pending>): (ws: seq<Write>)
    ensures |ws| == |queue| && forall i :: 0 <= i < |queue| ==> ws[i] == queue[i].write
  {
    seq(|queue|, i requires 0 <= i < |queue| => queue[i].write)
  }

  /** In every run each issued write is applied once or still pending, in issue order, also through
      overflow; and nothing pending is overdue. */
  lemma {:induction false} ExactlyOnceInOrder(ops: seq<Op>)
    ensures var f := Run(ops); Ordered(f) && f.applied + Writes(f.queue) == Issued(ops)
  {
    if ops != [] {
      var n := |ops| - 1;
      ExactlyOnceInOrder(ops[..n]);
      StepKeepsHistory(Run(ops[..n]), ops[n]);
    }
  }

  lemma StepKeepsHistory(f: Fifo, op: Op)
    requires Ordered(f)
    ensures var g := Step(f, op);
            && Ordered(g)
            && g.applied + Writes(g.queue)
               == f.applied + Writes(f.queue) + if op.IssueOp? then [Write(op.reg % BUSY, op.data)] else []
  {
    if op.IssueOp? {
      IssueKeepsOrder(f, op.reg, op.data);
      IssueKeepsHistory(f, op.reg, op.data);
    } else {
      GenerateKeepsOrder(f);
      if f.queue != [] {
        PopKeepsHistory(f);
      }
    }
    hide Writes, Issue, Ordered;
  }

  lemma PopKeepsHistory(f: Fifo)
    requires f.queue != []
    ensures PopHead(f).applied + Writes(PopHead(f).queue) == f.applied + Writes(f.queue)
  {
    assert Writes(f.queue) == [f.queue[0].write] + Writes(f.queue[1..]);
  }

  lemma IssueKeepsHistory(f: Fifo, reg: nat, data: nat)
    requires |f.queue| <= SIZE
    ensures Issue(f, reg, data).applied + Writes(Issue(f, reg, data).queue)
         == f.applied + Writes(f.queue) + [Write(reg % BUSY, data)]
  {
    var w := Write(reg % BUSY, data);
    var g := if |f.queue| < SIZE then f else PopHead(f);
    if |f.queue| == SIZE {
      PopKeepsHistory(f);
    }
    assert Writes(Issue(f, reg, data).queue) == Writes(g.queue) + [w];
  }

  // ---------- When an entry is applied ----------

  /** What the draining loop does: apply the head as long as it is due or overdue. */
  function Drain(f: Fifo): Fifo
    decreases |f.queue|
  {
    if f.queue != [] && f.queue[0].time <= f.samples then Drain(PopHead(f)) else f
  }

  /** In every ordered buffer the loop applies the head exactly if its time is now, and nothing more. */
  lemma DrainsAtMostOne(f: Fifo)
    requires Ordered(f)
    ensures Drain(f).(samples := f.samples + 1) == Generate(f)
  {
    if f.queue != [] && f.queue[0].time <= f.samples {
      var g := PopHead(f);
      assert |f.queue| > 1 ==> f.queue[0].time + DELAY <= f.queue[1].time;
      assert Drain(f) == Drain(g);
      assert Drain(g) == g;
    }
  }

  /** An entry that left the queue: through overflow or when a sample was generated, and at which count. */
  datatype Exit = Exit(entry: Pending, overflow: bool, at: nat)

  /** The entry, if any, that an operation makes leave. */
  function Leaves(f: Fifo, op: Op): seq<Exit> {
    if f.queue != [] && |Step(f, op).applied| > |f.applied| then [Exit(f.queue[0], op.IssueOp?, f.samples)] else []
  }

  function Exits(ops: seq<Op>): seq<Exit> {
    if ops == [] then []
    else Exits(ops[..|ops| - 1]) + Leaves(Run(ops[..|ops| - 1]), ops[|ops| - 1])
  }

  function Entries(es: seq<Exit>): (q: seq<Pending>)
    ensures |q| == |es| && forall i :: 0 <= i < |es| ==> q[i] == es[i].entry
  {
    seq(|es|, i requires 0 <= i < |es| => es[i].entry)
  }

  /** Every entry ever issued, with the time it was given. */
  function Scheduled(ops: seq<Op>): seq<Pending> {
    if ops == [] then []
    else if ops[|ops| - 1].GenerateOp? then Scheduled(ops[..|ops| - 1])
    else
      var q := Run(ops).queue;
      Scheduled(ops[..|ops| - 1]) + if q == [] then [] else [q[|q| - 1]]
  }

  ghost predicate OnTime(e: Exit) { if e.overflow then e.at <= e.entry.time else e.at == e.entry.time }

  ghost predicate AllOnTime(es: seq<Exit>) { forall i :: 0 <= i < |es| ==> OnTime(es[i]) }

  ghost predicate NoneOverdue(f: Fifo) { forall i :: 0 <= i < |f.queue| ==> f.samples <= f.queue[i].time }

  /** The time given to the entry issued last, zero if there was none. */
  function LatestTime(ops: seq<Op>): nat {
    if Scheduled(ops) == [] then 0 else Scheduled(ops)[|Scheduled(ops)| - 1].time
  }

  lemma {:induction false} LatestTimeIs(ops: seq<Op>)
    ensures Run(ops).lastTime == LatestTime(ops)
  {
    if ops != [] {
      var f, op := Run(ops[..|ops| - 1]), ops[|ops| - 1];
      LatestTimeIs(ops[..|ops| - 1]);
      assert Run(ops) == Step(f, op);
      IssuedLast(f, op);
      hide Run, Step;
    }
  }

  lemma IssuedLast(f: Fifo, op: Op)
    ensures var g := Step(f, op);
            if op.IssueOp? then g.queue != [] && g.queue[|g.queue| - 1].time == g.lastTime else g.lastTime == f.lastTime
  {}

  /** In every run a write issued gets the earliest time that is not past and two samples after the time of the
      write before it. Only when all 1024 places are taken does it push the oldest entry out, and then the sample
      count jumps to that entry's time. */
  lemma IssuedAtEarliest(ops: seq<Op>, reg: nat, data: nat)
    ensures var f, g, next := Run(ops), Run(ops + [IssueOp(reg, data)]), LatestTime(ops) + 2;
            && g.queue != []
            && g.queue[|g.queue| - 1] == Pending(if g.samples > next then g.samples else next, Write(reg % 0x200, data))
            && |f.queue| <= 1024
            && Exits(ops + [IssueOp(reg, data)])
               == Exits(ops) + (if |f.queue| == 1024 then [Exit(f.queue[0], true, f.samples)] else [])
            && g.samples == if |f.queue| == 1024 then f.queue[0].time else f.samples
  {
    var all := ops + [IssueOp(reg, data)];
    assert all[..|all| - 1] == ops;
    ExactlyOnceInOrder(ops);
    LatestTimeIs(ops);
    NextRun(all);
    hide Run, Exits, LatestTime;
  }

  /** In every run, whatever is issued between the samples: each scheduled entry has left in its turn or is
      still pending; it left either flushed by overflow, before its time or at it, or in the very sample
      whose count equals its time; and no pending entry's time has passed. */
  lemma {:induction false} AppliedWhenDue(ops: seq<Op>)
    ensures var f := Run(ops);
            Ordered(f) && NoneOverdue(f) && AllOnTime(Exits(ops)) && Entries(Exits(ops)) + f.queue == Scheduled(ops)
  {
    hide Step, Leaves, OnTime, Ordered, NoneOverdue;
    if ops == [] {
      EmptyInOrder();
    } else {
      var n := |ops| - 1;
      var f, op := Run(ops[..n]), ops[n];
      AppliedWhenDue(ops[..n]);
      ExitStep(f, op);
      NotOverdue(Step(f, op));
      var g, left := Step(f, op), Leaves(f, op);
      var last := if op.IssueOp? then [g.queue[|g.queue| - 1]] else [];
      NextRun(ops);
      NextScheduled(ops);
      hide Run, Exits, Scheduled, Entries;
      JoinExits(Exits(ops[..n]), left, g.queue);
      Regroup(Entries(Exits(ops[..n])), f.queue, Entries(left) + g.queue, last);
    }
  }

  lemma NextRun(ops: seq<Op>)
    requires ops != []
    ensures var front, op := ops[..|ops| - 1], ops[|ops| - 1];
            Run(ops) == Step(Run(front), op) && Exits(ops) == Exits(front) + Leaves(Run(front), op)
  {
    hide Step, Leaves;
  }

  lemma NextScheduled(ops: seq<Op>)
    requires ops != [] && (ops[|ops| - 1].IssueOp? ==> Run(ops).queue != [])
    ensures var front, op := ops[..|ops| - 1], ops[|ops| - 1];
            Scheduled(ops) == Scheduled(front) + if op.IssueOp? then [Run(ops).queue[|Run(ops).queue| - 1]] else []
  {
    hide Run;
  }

  lemma Regroup<T>(a: seq<T>, q: seq<T>, r: seq<T>, last: seq<T>)
    requires r == q + last
    ensures a + r == (a + q) + last
  {}

  lemma EmptyInOrder()
    ensures Ordered(EMPTY) && NoneOverdue(EMPTY)
  {}

  lemma NotOverdue(f: Fifo)
    requires Ordered(f)
    ensures NoneOverdue(f)
  {
    RisingTimes(f);
  }

  lemma JoinExits(a: seq<Exit>, b: seq<Exit>, q: seq<Pending>)
    ensures Entries(a + b) + q == Entries(a) + (Entries(b) + q)
  {
    assert Entries(a + b) == Entries(a) + Entries(b);
  }

  lemma ExitStep(f: Fifo, op: Op)
    requires Ordered(f)
    ensures var g := Step(f, op);
            && Ordered(g)
            && AllOnTime(Leaves(f, op))
            && (op.IssueOp? ==> g.queue != [])
            && Entries(Leaves(f, op)) + g.queue == f.queue + if op.IssueOp? then [g.queue[|g.queue| - 1]] else []
  {
    if op.IssueOp? {
      IssueKeepsOrder(f, op.reg, op.data);
    } else {
      GenerateKeepsOrder(f);
    }
    hide Ordered;
  }

  function Samples(f: Fifo, n: nat): Fifo {
    if n == 0 then f else Generate(Samples(f, n - 1))
  }

  /** h has k entries fewer than f: exactly those due before h's sample count. */
  ghost predicate Drained(f: Fifo, h: Fifo, k: nat) {
    && k <= |f.queue| && h.queue == f.queue[k..]
    && (forall i :: 0 <= i < k ==> f.queue[i].time < h.samples)
    && (forall i :: k <= i < |f.queue| ==> f.queue[i].time >= h.samples)
  }

  /** With no further writes, n samples apply exactly the entries due before then: an entry goes in the
      sample whose count equals its time. */
  lemma {:induction false} QuietSamples(f: Fifo, n: nat)
    requires Ordered(f)
    ensures var g := Samples(f, n);
            && Ordered(g) && g.samples == f.samples + n && |g.queue| <= |f.queue|
            && Drained(f, g, |f.queue| - |g.queue|)
  {
    hide Ordered, Drained, Generate;
    if n == 0 {
      NoneDrained(f);
    } else {
      var h := Samples(f, n - 1);
      QuietSamples(f, n - 1);
      GenerateKeepsOrder(h);
      GenerateCounts(h);
      RisingTimes(h);
      DrainStep(f, h, |f.queue| - |h.queue|);
    }
  }

  lemma GenerateCounts(f: Fifo)
    ensures Generate(f).samples == f.samples + 1 && |Generate(f).queue| <= |f.queue|
  {}

  lemma NoneDrained(f: Fifo)
    requires Ordered(f)
    ensures Drained(f, f, 0)
  {
    NotOverdue(f);
  }

  lemma DrainStep(f: Fifo, h: Fifo, k: nat)
    requires Drained(f, h, k) && Ordered(h)
    requires forall i :: 0 < i < |h.queue| ==> h.queue[0].time < h.queue[i].time
    ensures Drained(f, Generate(h), |f.queue| - |Generate(h).queue|)
  {
    forall i | k <= i < |f.queue|
      ensures f.queue[i] == h.queue[i - k]
    {}
    if h.queue != [] && h.queue[0].time == h.samples {
      assert h.queue[1..] == f.queue[k + 1..];
      forall i | k + 1 <= i < |f.queue|
        ensures f.queue[i].time >= h.samples + 1
      {
        assert h.queue[0].time < h.queue[i - k].time;
      }
    } else {
      forall i | k <= i < |f.queue|
        ensures f.queue[i].time >= h.samples + 1
      {
        assert i > k ==> h.queue[0].time < h.queue[i - k].time;
      }
    }
  }

  lemma {:induction false} RisingTimes(f: Fifo)
    requires Ordered(f)
    ensures forall i :: 0 < i < |f.queue| ==> f.queue[0].time < f.queue[i].time
    decreases |f.queue|
  {
    if |f.queue| > 1 {
      var n := |f.queue| - 1;
      RisingTimes(f.(queue := f.queue[..n], lastTime := f.queue[n - 1].time));
      forall i | 0 < i < |f.queue|
        ensures f.queue[0].time < f.queue[i].time
      {
        if i < n {
          assert f.queue[..n][i] == f.queue[i];
        } else {
          assert f.queue[n - 1].time + DELAY <= f.queue[n].time;
          assert n - 1 > 0 ==> f.queue[..n][n - 1].time > f.queue[..n][0].time;
        }
      }
    }
  }

  // ---------- The ring ----------

  datatype Entry = Entry(time: nat, reg: nat, data: nat)

  function IsBusy(reg: nat): bool { (reg / BUSY) % 2 == 1 }

  function WithBusy(reg: nat): nat { if IsBusy(reg) then reg else reg + BUSY }

  /** The slot i places round the ring from cur. */
  function At(cur: nat, i: nat): (slot: nat)
    requires cur < SIZE && i <= SIZE
    ensures slot < SIZE
  {
    if cur + i < SIZE then cur + i else cur + i - SIZE
  }

  /** How many places slot lies beyond cur, going round. */
  function Offset(cur: nat, slot: nat): (i: nat)
    requires cur < SIZE && slot < SIZE
    ensures i < SIZE && At(cur, i) == slot
  {
    if slot >= cur then slot - cur else slot + SIZE - cur
  }

  class WriteBuffer {
    const ring: array<Entry>
    var cur: nat
    var last: nat
    var samplecnt: nat
    var lasttime: nat
    var applied: seq<Write>
    ghost var count: nat

    ghost predicate Shape()
      reads this
    {
      ring.Length == SIZE && cur < SIZE && count <= SIZE && last == At(cur, count)
    }

    ghost function Queue(): (q: seq<Pending>)
      reads this, ring
      requires Shape()
      ensures |q| == count
    {
      seq(count, i requires 0 <= i < count && Shape() reads this, ring =>
        Pending(ring[At(cur, i)].time, Write(ring[At(cur, i)].reg % BUSY, ring[At(cur, i)].data)))
    }

    ghost function Abstract(): Fifo
      reads this, ring
      requires Shape()
    {
      Fifo(Queue(), samplecnt, lasttime, applied)
    }

    /** The pending entries are exactly the ring segment of that length from cur. */
    ghost predicate Valid()
      reads this, ring
    {
      && Shape()
      && (forall j :: 0 <= j < SIZE ==> IsBusy(ring[j].reg) == (Offset(cur, j) < count))
      && Ordered(Abstract())
    }

    constructor ()
      ensures Valid() && Abstract() == EMPTY && fresh(ring)
    {
      ring := new Entry[SIZE](i => Entry(0, 0, 0));
      cur, last, samplecnt, lasttime, applied, count := 0, 0, 0, 0, [], 0;
    }

    /** Stands for the call of OPL3_WriteReg. */
    method WriteReg(reg: nat, data: nat)
      modifies this`applied
      ensures applied == old(applied) + [Write(reg, data)]
    {
      applied := applied + [Write(reg, data)];
    }

    /** OPL3_WriteRegBuffered. */
    method WriteRegBuffered(reg: nat, v: nat)
      requires Valid()
      modifies this, ring
      ensures Valid() && Abstract() == Issue(old(Abstract()), reg, v)
    {
      hide Ordered, IsBusy, Queue;
      IssueKeepsOrder(Abstract(), reg, v);
      MakeRoom();
      Append(reg, v);
    }

    /** When the slot to be written next is still pending, apply it now. */
    method MakeRoom()
      requires Valid()
      modifies this`cur, this`samplecnt, this`count, this`applied
      ensures Shape() && count < SIZE
      ensures forall j :: 0 <= j < SIZE && j != last ==> IsBusy(ring[j].reg) == (Offset(cur, j) < count)
      ensures var f := old(Abstract());
              Abstract() == if |f.queue| < SIZE then f else PopHead(f).(samples := f.queue[0].time)
    {
      hide Ordered, IsBusy;
      ghost var q := Queue();
      assert IsBusy(ring[last].reg) == (count == SIZE);
      if IsBusy(ring[last].reg) {
        assert q[0] == Pending(ring[cur].time, Write(ring[cur].reg % BUSY, ring[cur].data));
        WriteReg(ring[last].reg % BUSY, ring[last].data);
        cur := if last + 1 == SIZE then 0 else last + 1;
        samplecnt := ring[last].time;
        count := count - 1;
        assert Queue() == q[1..];
      }
    }

    method Append(reg: nat, v: nat)
      requires Shape() && count < SIZE
      requires forall j :: 0 <= j < SIZE && j != last ==> IsBusy(ring[j].reg) == (Offset(cur, j) < count)
      modifies this`last, this`lasttime, this`count, ring
      ensures Shape()
      ensures forall j :: 0 <= j < SIZE ==> IsBusy(ring[j].reg) == (Offset(cur, j) < count)
      ensures var f := old(Abstract());
              var time := if f.lastTime + DELAY < f.samples then f.samples else f.lastTime + DELAY;
              Abstract() == f.(queue := f.queue + [Pending(time, Write(reg % BUSY, v))], lastTime := time)
    {
      ghost var q := Queue();
      var time1, time2 := lasttime + DELAY, samplecnt;
      if time1 < time2 {
        time1 := time2;
      }
      BusyBit(reg);
      hide IsBusy, WithBusy;
      ring[last] := Entry(time1, WithBusy(reg), v);
      lasttime := time1;
      last := if last + 1 == SIZE then 0 else last + 1;
      count := count + 1;
      assert Queue() == q + [Pending(time1, Write(reg % BUSY, v))];
    }

    /** The last part of OPL3_Generate: apply what is due, then count the sample. */
    method ApplyDue()
      requires Valid()
      modifies this, ring
      ensures Valid() && Abstract() == Generate(old(Abstract()))
    {
      hide IsBusy, Ordered;
      ghost var f := Abstract();
      GenerateKeepsOrder(f);
      HeadFirst(f);
      while ring[cur].time <= samplecnt
        invariant Shape() && samplecnt == f.samples
        invariant forall j :: 0 <= j < SIZE ==> IsBusy(ring[j].reg) == (Offset(cur, j) < count)
        invariant Abstract() == f || (f.queue != [] && f.queue[0].time == f.samples && Abstract() == PopHead(f))
        decreases count
      {
        if !IsBusy(ring[cur].reg) {
          break;
        }
        assert Offset(cur, cur) == 0 < count;
        assert Queue()[0].time == ring[cur].time;
        TakeHead();
      }
      assert count > 0 ==> IsBusy(ring[cur].reg) && Queue()[0].time == ring[cur].time;
      ghost var q := Queue();
      samplecnt := samplecnt + 1;
      assert Queue() == q;
    }

    method TakeHead()
      requires Shape() && count > 0
      requires forall j :: 0 <= j < SIZE ==> IsBusy(ring[j].reg) == (Offset(cur, j) < count)
      modifies this`cur, this`count, this`applied, ring
      ensures Shape() && count == old(count) - 1
      ensures forall j :: 0 <= j < SIZE ==> IsBusy(ring[j].reg) == (Offset(cur, j) < count)
      ensures old(Abstract()).queue != [] && Abstract() == PopHead(old(Abstract()))
    {
      hide IsBusy;
      ghost var q := Queue();
      assert q[0] == Pending(ring[cur].time, Write(ring[cur].reg % BUSY, ring[cur].data));
      Unmark();
      WriteReg(ring[cur].reg, ring[cur].data);
      Advance();
    }

    /** The busy bit of the head is cleared; the queue as such is unchanged. */
    method Unmark()
      requires Shape() && count > 0
      modifies ring
      ensures Queue() == old(Queue()) && ring[cur].reg == old(ring[cur].reg) % BUSY && !IsBusy(ring[cur].reg)
      ensures ring[cur].data == old(ring[cur].data)
      ensures forall j :: 0 <= j < SIZE && j != cur ==> ring[j] == old(ring[j])
    {
      BusyBit(ring[cur].reg);
      hide IsBusy;
      ghost var q := Queue();
      ring[cur] := ring[cur].(reg := ring[cur].reg % BUSY);
      assert Queue() == q;
    }

    method Advance()
      requires Shape() && count > 0 && !IsBusy(ring[cur].reg)
      requires forall j :: 0 <= j < SIZE && j != cur ==> IsBusy(ring[j].reg) == (Offset(cur, j) < count)
      modifies this`cur, this`count
      ensures Shape() && count == old(count) - 1 && Queue() == old(Queue())[1..]
      ensures forall j :: 0 <= j < SIZE ==> IsBusy(ring[j].reg) == (Offset(cur, j) < count)
    {
      hide IsBusy;
      ghost var q := Queue();
      cur := if cur + 1 == SIZE then 0 else cur + 1;
      count := count - 1;
      assert Queue() == q[1..];
    }
  }

  /** Nothing pending is overdue, and only the head can be due. */
  lemma HeadFirst(f: Fifo)
    requires Ordered(f)
    ensures f.queue != [] ==> f.queue[0].time >= f.samples
    ensures |f.queue| > 1 ==> f.queue[1].time > f.samples
  {}

  lemma BusyBit(reg: nat)
    ensures IsBusy(WithBusy(reg)) && WithBusy(reg) % BUSY == reg % BUSY
    ensures !IsBusy(reg % BUSY) && reg % BUSY % BUSY == reg % BUSY
  {}
}
