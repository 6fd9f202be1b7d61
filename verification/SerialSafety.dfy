/** What the server may write, over every run: arbitrary bytes, arbitrary chunks, arbitrary timeouts. */
module SerialSafety {
  import opened Bits
  import opened DiskImage
  import opened Fletcher
  import opened SerialServer

  /** The job a trace has open: the last accepted command and the sectors written or sent for it so far. */
  datatype Job = NoJob | Job(drive: nat, command: nat, lba: nat, count: nat, done: nat)

  function Open(trace: seq<Event>): Job {
    if trace == [] then NoJob
    else match trace[|trace| - 1]
      case Accepted(drive, command, lba, count) => Job(drive, command, lba, count, 0)
      case _ =>
        var j := Open(trace[..|trace| - 1]);
        if j.Job? then j.(done := j.done + 1) else NoJob
  }

  /** A permitted write: the next sector of an accepted write command that still has sectors due, to a
      drive that is not read-only, with data whose checksum was received. */
  ghost predicate Permitted(j: Job, e: Event, disks: map<nat, Disk>)
    requires e.Wrote?
  {
    && j.Job? && j.command == WRITE && j.drive == e.drive
    && j.done < j.count
    && e.lba == (j.lba + j.done) % ULONG
    && e.crc == Checksum(Words(e.data))
    && e.drive in disks && !disks[e.drive].readOnly
  }

  ghost predicate TraceOk(trace: seq<Event>, disks: map<nat, Disk>) {
    forall i :: 0 <= i < |trace| && trace[i].Wrote? ==> Permitted(Open(trace[..i]), trace[i], disks)
  }

  /** The disks after the writes a trace records, and no others. */
  function Replay(disks: map<nat, Disk>, trace: seq<Event>): map<nat, Disk> {
    if trace == [] then disks
    else
      var before := Replay(disks, trace[..|trace| - 1]);
      match trace[|trace| - 1]
      case Wrote(drive, lba, data, _) =>
        if drive in before
        then before[drive := before[drive].(sectors := WriteAt(before[drive].sectors, lba, data))]
        else before
      case _ => before
  }

  ghost predicate SameDrives(disks: map<nat, Disk>, start: map<nat, Disk>) {
    && disks.Keys == start.Keys
    && forall d :: d in disks ==> disks[d] == start[d].(sectors := disks[d].sectors)
  }

  /** A write command in progress is the trace's open job, and the counters add up. */
  ghost predicate JobMatches(s: Server) {
    s.workCount > 0 && s.workCommand == WRITE ==>
      Open(s.trace) == Job(s.drive, WRITE, s.mylba, s.workOffset + s.workCount, s.workOffset)
  }

  ghost predicate Safe(s: Server, start: map<nat, Disk>) {
    && TraceOk(s.trace, start)
    && s.disks == Replay(start, s.trace)
    && SameDrives(s.disks, start)
    && JobMatches(s)
  }

  lemma Extend(trace: seq<Event>, e: Event, start: map<nat, Disk>)
    requires TraceOk(trace, start)
    requires e.Wrote? ==> Permitted(Open(trace), e, start)
    ensures TraceOk(trace + [e], start)
  {
    var t := trace + [e];
    forall i | 0 <= i < |t| && t[i].Wrote?
      ensures Permitted(Open(t[..i]), t[i], start)
    {
      if i < |trace| {
        assert t[..i] == trace[..i] && t[i] == trace[i];
      } else {
        assert t[..i] == trace;
      }
    }
  }

  lemma SectorIsSafe(s: Server, start: map<nat, Disk>)
    requires Ready(s) && s.drive in s.disks && Safe(s, start) && s.workCount > 0 && s.workCommand == WRITE
    ensures Safe(OnSector(s), start)
    ensures |OnSector(s).trace| <= |s.trace| + 1
  {
    hide Checksum, Words, WriteAt, TraceOk;
    var data := s.buff[..512];
    var crc := WordOf(s.buff[512], s.buff[513]);
    if Checksum(Words(data)) == crc && !s.disks[s.drive].readOnly {
      var e := Wrote(s.drive, Target(s), data, crc);
      Extend(s.trace, e, start);
      Front(s.trace, e);
    }
  }

  lemma Front(trace: seq<Event>, e: Event)
    ensures (trace + [e])[..|trace|] == trace
  {}

  lemma RespondIsSafe(cfg: Config, s: Server, start: map<nat, Disk>)
    requires Ready(s) && s.drive in s.disks && s.workCount >= 0 && Safe(s, start)
    ensures Safe(Respond(cfg, s), start)
  {
    hide TraceOk, SameDrives, Packet, Checksum, Words;
    var r := Respond(cfg, s);
    if r.trace != s.trace {
      var e := r.trace[|s.trace|];
      Extend(s.trace, e, start);
      Front(s.trace, e);
    }
  }

  lemma NewCommandIsSafe(cfg: Config, s: Server, start: map<nat, Disk>)
    requires Ready(s) && s.workCount == 0 && Safe(s, start)
    ensures Safe(OnNewCommand(cfg, s), start)
  {
    hide Checksum, Words, LbaOf, Respond;
    var b := s.buff;
    var e := Accepted(DriveOf(b), CommandOf(b), LbaOf(b, s.disks), b[2]);
    var s1 := s.(drive := e.drive, workCommand := e.command, mylba := e.lba,
                 workOffset := 0, workCount := b[2], trace := s.trace + [e]);
    if s1.drive in s1.disks {
      Extend(s.trace, e, start);
      assert s1.trace[..|s.trace|] == s.trace;
      assert Safe(s1, start);
      RespondIsSafe(cfg, s1, start);
    }
  }

  lemma ProcessIsSafe(cfg: Config, s: Server, start: map<nat, Disk>)
    requires Buffered(s) && Safe(s, start)
    ensures Safe(Process(cfg, s), start)
  {
    hide TraceOk, Replay, SameDrives, Open, Respond, OnSector, OnNewCommand;
    if s.readto > 0 && s.buffoffset == s.readto {
      var r := s.(buffoffset := 0, readto := 0);
      if s.readto == 514 {
        SectorIsSafe(r, start);
      } else if s.workCount == 0 {
        NewCommandIsSafe(cfg, r, start);
      } else if r.buff[0] == s.workCount {
        RespondIsSafe(cfg, r, start);
      }
    }
  }

  /** The state a late chunk leaves for the rest of the loop body: the open command is dropped, and the chunk
      is kept only if it may start a new one. Nothing buffered means nothing left to do. */
  function LateBuffered(s: Server, chunk: seq<byte>): (t: Server)
    requires Inv(s) && 0 < |chunk| <= Requested(s) && s.readto > 0
    ensures if t.buffoffset > 0 then Buffered(t) else Inv(t)
  {
    var buff := Splice(s.buff, s.buffoffset, chunk);
    var s1 := s.(workCount := 0, workOffset := 0, workCommand := 0, readto := 0);
    if |chunk| <= 8 && IsHeader(chunk[0]) then
      s1.(buff := Splice(buff, 0, chunk), buffoffset := |chunk|, readto := 8)
    else if |chunk| == 1 then s1.(buff := buff[0 := chunk[0]], buffoffset := 1)
    else s1.(buff := buff, buffoffset := 0)
  }

  /** A chunk that arrives after the client has been silent too long. */
  function ReceiveLate(cfg: Config, s: Server, chunk: seq<byte>): (r: Server)
    requires Inv(s) && 0 < |chunk| <= Requested(s) && s.readto > 0
    ensures Inv(r)
  {
    if s.halted then s
    else
      var t := LateBuffered(s, chunk);
      if t.buffoffset > 0 then Process(cfg, t) else t
  }

  datatype Arrival = Chunk(bytes: seq<byte>) | Late(bytes: seq<byte>)

  /** What an arrival does. */
  function Arrive(cfg: Config, s: Server, a: Arrival): (r: Server)
    requires Inv(s) && 0 < |a.bytes| <= Requested(s) && (a.Late? ==> s.readto > 0)
    ensures Inv(r)
  {
    if a.Late? then ReceiveLate(cfg, s, a.bytes) else Receive(cfg, s, a.bytes)
  }

  /** All bytes of a run. */
  function Bytes(run: seq<Arrival>): seq<byte> {
    if run == [] then [] else Bytes(run[..|run| - 1]) + run[|run| - 1].bytes
  }

  /** The states a run can pass through: chunks of any size the server asked for, with a timeout
      wherever it was in the middle of a packet. */
  ghost predicate Admissible(cfg: Config, s: Server, run: seq<Arrival>)
    requires Inv(s)
    decreases |run|, 0
  {
    run != [] ==>
      var n := |run| - 1;
      && Admissible(cfg, s, run[..n])
      && var t := AfterRun(cfg, s, run[..n]);
         0 < |run[n].bytes| <= Requested(t) && (run[n].Late? ==> t.readto > 0)
  }

  ghost function AfterRun(cfg: Config, s: Server, run: seq<Arrival>): (r: Server)
    requires Inv(s) && Admissible(cfg, s, run)
    ensures Inv(r)
    decreases |run|, 1
  {
    if run == [] then s
    else
      var n := |run| - 1;
      Arrive(cfg, AfterRun(cfg, s, run[..n]), run[n])
  }

  /** Whatever bytes arrive, in whatever chunks and with whatever timeouts: the disks hold exactly the
      writes in the trace, and each of those was permitted. */
  lemma {:induction false} EveryRunIsSafe(cfg: Config, start: map<nat, Disk>, buff: seq<byte>, run: seq<Arrival>)
    requires |buff| == 514 && Admissible(cfg, Initial(buff, start), run)
    ensures Safe(AfterRun(cfg, Initial(buff, start), run), start)
  {
    if run != [] {
      var n := |run| - 1;
      EveryRunIsSafe(cfg, start, buff, run[..n]);
      StepIsSafe(cfg, AfterRun(cfg, Initial(buff, start), run[..n]), run[n], start);
    }
  }

  lemma StepIsSafe(cfg: Config, s: Server, a: Arrival, start: map<nat, Disk>)
    requires Inv(s) && 0 < |a.bytes| <= Requested(s) && (a.Late? ==> s.readto > 0) && Safe(s, start)
    ensures Safe(Arrive(cfg, s, a), start)
  {
    hide TraceOk, Replay, SameDrives, Open, Process;
    if !s.halted {
      if a.Chunk? {
        ProcessIsSafe(cfg, Arrived(s, a.bytes), start);
      } else if LateBuffered(s, a.bytes).buffoffset > 0 {
        ProcessIsSafe(cfg, LateBuffered(s, a.bytes), start);
      }
    }
  }

  /** One more arrival. */
  lemma Extended(cfg: Config, s: Server, run: seq<Arrival>, a: Arrival)
    requires Inv(s) && Admissible(cfg, s, run)
    requires var t := AfterRun(cfg, s, run); 0 < |a.bytes| <= Requested(t) && (a.Late? ==> t.readto > 0)
    ensures Admissible(cfg, s, run + [a])
    ensures AfterRun(cfg, s, run + [a]) == Arrive(cfg, AfterRun(cfg, s, run), a)
    ensures Bytes(run + [a]) == Bytes(run) + a.bytes
  {
    hide Arrive;
    assert (run + [a])[..|run|] == run;
  }

  ghost predicate NoneLate(run: seq<Arrival>) { forall i :: 0 <= i < |run| ==> run[i].Chunk? }

  /** Without timeouts only the bytes of a run matter, not how they were cut. */
  lemma {:induction false} RunIsItsBytes(cfg: Config, s: Server, run: seq<Arrival>)
    requires Inv(s) && Admissible(cfg, s, run) && NoneLate(run)
    ensures AfterRun(cfg, s, run) == Feed(cfg, s, Bytes(run))
  {
    hide Receive, Feed, ReceiveLate;
    if run == [] {
      FeedNothing(cfg, s);
    } else {
      var n := |run| - 1;
      RunIsItsBytes(cfg, s, run[..n]);
      ChunkIsItsBytes(cfg, AfterRun(cfg, s, run[..n]), run[n].bytes);
      FeedConcat(cfg, s, Bytes(run[..n]), run[n].bytes);
    }
  }

  /** In particular a read-only disk is never changed. */
  lemma {:induction false} ReadOnlyUntouched(start: map<nat, Disk>, trace: seq<Event>, d: nat)
    requires TraceOk(trace, start) && d in start && start[d].readOnly
    ensures d in Replay(start, trace) && Replay(start, trace)[d] == start[d]
  {
    if trace != [] {
      var n := |trace| - 1;
      assert forall i :: 0 <= i < n ==> trace[..n][..i] == trace[..i];
      ReadOnlyUntouched(start, trace[..n], d);
    }
  }
}
