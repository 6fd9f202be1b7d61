/** What the server answers: to every packet it can receive, and in every run. */
module SerialReplies {
  import opened Bits
  import opened DiskImage
  import opened Fletcher
  import opened SerialServer
  import opened SerialSafety
  import opened SerialRoundTrip

  /** Two bytes of the wire as a number, the low one first. */
  function LowFirst(lo: byte, hi: byte): word {
    var l: int, h: int := lo, hi;
    l + 256 * h
  }

  /** The word at the end of a packet is the checksum of what comes before it. */
  ghost predicate Intact(b: seq<byte>)
    requires |b| >= 2
  {
    var n := |b| - 2;
    LowFirst(b[n], b[n + 1]) == Checksum(Words(b[..n]))
  }

  /** Nothing the outside can see has changed. */
  ghost predicate Unanswered(t: Server, s: Server) {
    t.disks == s.disks && t.trace == s.trace && t.output == s.output && t.lastScan == s.lastScan && t.halted == s.halted
  }

  // ---------- A sector ----------

  ghost predicate AtSector(s: Server) { Inv(s) && !s.halted && s.readto == 514 && s.buffoffset == 0 }

  /** A sector written and acknowledged: its two checksum bytes go back, and nothing else. */
  ghost predicate Acknowledged(t: Server, s: Server, b: seq<byte>)
    requires |b| == 514
  {
    && t.output == s.output + [b[512], b[513]]
    && t.trace == s.trace + [Wrote(s.drive, (s.mylba + s.workOffset) % 0x1_0000_0000, b[..512],
                                   LowFirst(b[512], b[513]))]
    && t.workCount == s.workCount - 1 && t.workOffset == s.workOffset + 1
    && t.readto == if s.workCount > 1 then 1 else 0
  }

  /** A sector rejected: nothing goes back, and the job stays open. */
  ghost predicate Rejected(t: Server, s: Server) {
    Unanswered(t, s) && t.readto == 0 && t.workCount == s.workCount && t.workOffset == s.workOffset
  }

  /** The next sector of a write. A corrupted one, and any for a read-only drive, is neither written nor
      acknowledged; any other is. */
  lemma SectorOutcome(cfg: Config, s: Server, b: seq<byte>)
    requires AtSector(s) && |b| == 514
    ensures s.drive in s.disks
    ensures var t := Feed(cfg, s, b);
            && Inv(t) && !t.halted
            && if Intact(b) && !s.disks[s.drive].readOnly then Acknowledged(t, s, b) else Rejected(t, s)
  {
    hide Feed, Checksum, Words, WriteAt;
    ChunkIsItsBytes(cfg, s, b);
    assert Splice(s.buff, 0, b) == b;
    assert b[512..514] == [b[512], b[513]];
  }

  // ---------- A command ----------

  /** Eight bytes that start like a command, between packets. */
  lemma EightBytes(cfg: Config, s: Server, b: seq<byte>)
    requires Inv(s) && !s.halted && s.readto == 0 && |b| == 8 && 0xa0 <= b[0] < 0xc0
    ensures Feed(cfg, s, b) == OnCommand(cfg, s.(buff := Splice(s.buff, 0, b)))
  {
    hide OnCommand, Splice, Feed;
    HeaderByte(cfg, s, b);
    var s1 := s.(buff := Splice(s.buff, 0, b[..1]), buffoffset := 1, readto := 8);
    ChunkIsItsBytes(cfg, s1, b[1..]);
    SpliceTwice(s.buff, b);
  }

  /** After the first byte of a command the server waits for seven more. */
  lemma HeaderByte(cfg: Config, s: Server, b: seq<byte>)
    requires Inv(s) && !s.halted && s.readto == 0 && 0 < |b| <= 8 && 0xa0 <= b[0] < 0xc0
    ensures var s1 := s.(buff := Splice(s.buff, 0, b[..1]), buffoffset := 1, readto := 8);
            Inv(s1) && Feed(cfg, s, b) == Feed(cfg, s1, b[1..])
  {
    hide OnCommand, Feed, Splice;
    var head := b[..1];
    assert b == head + b[1..];
    FeedConcat(cfg, s, head, b[1..]);
    ChunkIsItsBytes(cfg, s, head);
    assert Splice(s.buff, 0, head)[0] == b[0] by { SpliceHead(s.buff, head); }
  }

  lemma SpliceHead(buff: seq<byte>, head: seq<byte>)
    requires |buff| == 514 && |head| == 1
    ensures Splice(buff, 0, head)[0] == head[0]
  {}

  lemma SpliceTwice(buff: seq<byte>, b: seq<byte>)
    requires |buff| == 514 && 0 < |b| <= 8
    ensures Splice(Splice(buff, 0, b[..1]), 1, b[1..]) == Splice(buff, 0, b)
  {}

  function DriveNamed(b: seq<byte>): nat
    requires |b| == 8
  {
    b[1] / 16 % 2
  }

  /** A command that is corrupted, names a drive that is not there, or would write to a read-only one (the low
      bit of its first byte) has no effect and gets no answer. */
  lemma CommandRefused(cfg: Config, s: Server, b: seq<byte>)
    requires Idle(s) && |b| == 8 && 0xa0 <= b[0] < 0xc0
    requires !Intact(b) || DriveNamed(b) !in s.disks || (b[0] % 2 == 1 && s.disks[DriveNamed(b)].readOnly)
    ensures var t := Feed(cfg, s, b); Idle(t) && Unanswered(t, s)
  {
    hide Feed, Checksum, Words, LbaOf, Respond;
    EightBytes(cfg, s, b);
    SplicedCommand(s.buff, b);
    assert b[0] % 4 % 2 == b[0] % 2;
  }

  lemma SplicedCommand(buff: seq<byte>, b: seq<byte>)
    requires |buff| == 514 && |b| == 8
    ensures var c := Splice(buff, 0, b);
            c[..8] == b && c[..6] == b[..6] && forall i :: 0 <= i < 8 ==> c[i] == b[i]
  {
    var c := Splice(buff, 0, b);
    assert c[..8] == b;
    assert forall i :: 0 <= i < 8 ==> c[i] == c[..8][i];
    assert c[..6] == c[..8][..6];
  }

  /** A command the server takes: intact, for a drive it has, which is writable if the command writes. */
  ghost predicate Takes(s: Server, b: seq<byte>) {
    && Idle(s) && |b| == 8 && 0xa0 <= b[0] < 0xc0
    && Intact(b) && DriveNamed(b) in s.disks && (b[0] % 2 == 1 ==> !s.disks[DriveNamed(b)].readOnly)
  }

  /** The server with a command it has taken. */
  function Taken(s: Server, b: seq<byte>): Server
    requires |s.buff| == 514 && |b| == 8
  {
    s.(buff := Splice(s.buff, 0, b), drive := DriveNamed(b), workCommand := b[0] % 4, mylba := LbaOf(b, s.disks),
       workOffset := 0, workCount := b[2],
       trace := s.trace + [Accepted(DriveNamed(b), b[0] % 4, LbaOf(b, s.disks), b[2])])
  }

  lemma CommandTaken(cfg: Config, s: Server, b: seq<byte>)
    requires Takes(s, b)
    ensures Ready(Taken(s, b)) && DriveNamed(b) in s.disks
    ensures Feed(cfg, s, b) == Respond(cfg, Taken(s, b))
  {
    hide Checksum, Words, LbaOf, Respond, Feed;
    EightBytes(cfg, s, b);
    SplicedCommand(s.buff, b);
    SameLba(Splice(s.buff, 0, b), b, s.disks);
    assert b[0] % 4 % 2 == b[0] % 2;
  }

  /** A write command is answered by waiting for its first sector. */
  lemma WriteAsksForSector(cfg: Config, s: Server, b: seq<byte>)
    requires Takes(s, b) && b[0] % 4 == 3 && b[2] > 0
    ensures var t := Feed(cfg, s, b);
            && AtSector(t) && t.workCount == b[2] && t.output == s.output && t.disks == s.disks
            && t.trace == s.trace + [Accepted(DriveNamed(b), 3, LbaOf(b, s.disks), b[2])]
  {
    hide Checksum, Words, LbaOf, Feed, Splice;
    CommandTaken(cfg, s, b);
  }

  /** A read or write command for no sectors at all is answered by one sector, and whatever byte follows ends it. */
  lemma NoSectorsSendsOne(cfg: Config, s: Server, b: seq<byte>, next: byte)
    requires Takes(s, b) && b[0] % 4 != 0 && b[2] == 0
    requires LbaOf(b, s.disks) < |s.disks[DriveNamed(b)].sectors|
    ensures var t := Feed(cfg, s, b + [next]);
            && Idle(t) && t.disks == s.disks
            && t.output == s.output + Packet(s.disks[DriveNamed(b)].sectors[LbaOf(b, s.disks)])
  {
    hide Checksum, Words, LbaOf, Feed, Splice, Packet;
    CommandTaken(cfg, s, b);
    var t := Feed(cfg, s, b);
    assert t.readto == 1 && t.workCount == -1 by { hide OnSector; }
    hide Respond;
    WrongContinuation(cfg, t, next);
    FeedConcat(cfg, s, b, [next]);
  }

  /** The identify sector a command asks for: for its drive, port and baud word, with the scan flag set if the
      command sets it or, for drive 1, the identify command before it did. */
  function Identity(cfg: Config, b: seq<byte>, lastScan: byte): Sector
    requires |b| == 8
  {
    cfg.inquire(DriveNamed(b), LowFirst(b[4], b[5]), b[3] != 0 || (DriveNamed(b) == 1 && lastScan != 0))
  }

  /** An identify command is answered by that sector; with baud emulation on, one at another speed by nothing. */
  lemma InquireAnswered(cfg: Config, s: Server, b: seq<byte>)
    requires Takes(s, b) && b[0] % 4 == 0 && b[2] == 1
    ensures var t := Feed(cfg, s, b);
            && Idle(t) && t.disks == s.disks
            && if cfg.speedEmulation && b[5] != cfg.divisor then t.output == s.output && t.lastScan == s.lastScan
               else t.output == s.output + Packet(Identity(cfg, b, s.lastScan)) && t.lastScan == b[3]
  {
    hide Checksum, Words, LbaOf, Feed, Packet;
    CommandTaken(cfg, s, b);
    SplicedCommand(s.buff, b);
    hide Splice;
  }

  // ---------- Single bytes ----------

  /** Between packets a byte that cannot start a command is dropped. */
  lemma NoiseIgnored(cfg: Config, s: Server, x: byte)
    requires Idle(s) && !(0xa0 <= x < 0xc0)
    ensures Feed(cfg, s, [x]) == s.(buff := s.buff[0 := x])
  {
    ChunkIsItsBytes(cfg, s, [x]);
    assert Splice(s.buff, 0, [x]) == s.buff[0 := x];
    hide Feed;
  }

  /** A continuation byte other than the number of sectors still to come ends the job without an answer. */
  lemma WrongContinuation(cfg: Config, s: Server, x: byte)
    requires Inv(s) && !s.halted && s.readto == 1 && x != s.workCount
    ensures var t := Feed(cfg, s, [x]); Idle(t) && Unanswered(t, s)
  {
    hide OnNewCommand, Respond;
    ChunkIsItsBytes(cfg, s, [x]);
    assert Splice(s.buff, 0, [x]) == s.buff[0 := x];
    hide Feed;
  }

  /** The command that follows a rejected sector is lost: it is taken for a continuation of the open write,
      which it ends, or, if its first byte happens to be the number of sectors still to come, carries on. */
  lemma CommandAfterRejection(cfg: Config, s: Server, b: seq<byte>)
    requires Inv(s) && !s.halted && s.readto == 0 && s.workCount > 0 && s.workCommand == 3
    requires |b| == 8 && 0xa0 <= b[0] < 0xc0
    ensures var t := Feed(cfg, s, b);
            && Unanswered(t, s)
            && if b[0] == s.workCount then AtSector(t) && t.workCount == s.workCount && t.mylba == s.mylba
                                           && t.workOffset == s.workOffset
               else Idle(t)
  {
    hide Checksum, Words, LbaOf, OnNewCommand;
    EightBytes(cfg, s, b);
    SplicedCommand(s.buff, b);
    hide Feed;
  }

  // ---------- Timeouts ----------

  /** A server between packets with the same images and the same answers behind it. */
  function Forgotten(s: Server, buff: seq<byte>): Server {
    s.(buff := buff, buffoffset := 0, readto := 0, workCommand := 0, workOffset := 0, workCount := 0)
  }

  /** After a timeout the server is one that has no job open: a chunk that can be the start of a command, or a
      single byte, is received as such a server would receive it, and anything else is dropped. */
  lemma LateIsForgotten(cfg: Config, s: Server, chunk: seq<byte>)
    requires Inv(s) && !s.halted && 0 < |chunk| <= Requested(s) && s.readto > 0
    ensures var f := Forgotten(s, Splice(s.buff, s.buffoffset, chunk));
            && Idle(f)
            && ReceiveLate(cfg, s, chunk)
               == if (|chunk| <= 8 && 0xa0 <= chunk[0] < 0xc0) || |chunk| == 1 then Feed(cfg, f, chunk) else f
  {
    hide OnCommand, Splice;
    var f := Forgotten(s, Splice(s.buff, s.buffoffset, chunk));
    if |chunk| <= 8 && 0xa0 <= chunk[0] < 0xc0 {
      StartOfCommand(cfg, f, chunk);
    } else if |chunk| == 1 {
      assert chunk == [chunk[0]];
      NoiseIgnored(cfg, f, chunk[0]);
      SpliceOne(f.buff, chunk[0]);
    }
    hide Feed;
  }

  lemma SpliceOne(buff: seq<byte>, x: byte)
    requires |buff| == 514
    ensures Splice(buff, 0, [x]) == buff[0 := x]
  {}

  /** The first bytes of a command, in one chunk. */
  lemma StartOfCommand(cfg: Config, f: Server, chunk: seq<byte>)
    requires Idle(f) && 0 < |chunk| <= 8 && 0xa0 <= chunk[0] < 0xc0
    ensures Feed(cfg, f, chunk)
         == Process(cfg, f.(buff := Splice(f.buff, 0, chunk), buffoffset := |chunk|, readto := 8))
  {
    hide OnCommand, Splice, Feed;
    HeaderByte(cfg, f, chunk);
    var f1 := f.(buff := Splice(f.buff, 0, chunk[..1]), buffoffset := 1, readto := 8);
    SpliceTwice(f.buff, chunk);
    if |chunk| == 1 {
      assert chunk[1..] == [] && chunk[..1] == chunk;
      FeedNothing(cfg, f1);
    } else {
      ChunkIsItsBytes(cfg, f1, chunk[1..]);
    }
  }

  // ---------- Every run ----------

  /** What an event puts on the wire. */
  function Reply(e: Event): seq<byte> {
    match e
    case Accepted(_, _, _, _) => []
    case Wrote(_, _, data, crc) => [crc % 256, crc / 256]
    case Sent(_, _, data) => Packet(data)
    case Identified(_, _, _, data) => Packet(data)
  }

  function Replies(trace: seq<Event>): seq<byte> {
    if trace == [] then [] else Replies(trace[..|trace| - 1]) + Reply(trace[|trace| - 1])
  }

  /** The scan byte of the last identify command, unless a sector has been sent since. */
  function LastScan(trace: seq<Event>): byte {
    if trace == [] then 0
    else match trace[|trace| - 1]
      case Identified(_, _, scan, _) => scan
      case Sent(_, _, _) => 0
      case _ => LastScan(trace[..|trace| - 1])
  }

  /** How many sectors a job comes to; a command for none still gets one. */
  function Due(j: Job): nat
    requires j.Job?
  {
    if j.count == 0 then 1 else j.count
  }

  /** A sector sent is the next one of a job that is no write with sectors to come, as the images are then. */
  ghost predicate RightSector(j: Job, e: Event, disks: map<nat, Disk>)
    requires e.Sent?
  {
    && j.Job? && j.drive == e.drive && j.command != 0 && (j.command == 3 ==> j.count == 0) && j.done < Due(j)
    && e.lba == (j.lba + j.done) % 0x1_0000_0000
    && e.drive in disks && e.lba < |disks[e.drive].sectors| && e.data == disks[e.drive].sectors[e.lba]
  }

  /** An identify sector is for the drive and the words of an identify command. */
  ghost predicate RightIdentity(cfg: Config, j: Job, e: Event, lastScan: byte)
    requires e.Identified?
  {
    && j.Job? && j.drive == e.drive && j.command == 0 && j.done < Due(j)
    && e.data == cfg.inquire(e.drive, e.portBaud, e.scan != 0 || (e.drive == 1 && lastScan != 0))
  }

  ghost predicate Right(cfg: Config, trace: seq<Event>, e: Event, start: map<nat, Disk>) {
    match e
    case Sent(_, _, _) => RightSector(Open(trace), e, Replay(start, trace))
    case Identified(_, _, _, _) => RightIdentity(cfg, Open(trace), e, LastScan(trace))
    case _ => true
  }

  ghost predicate AllRight(cfg: Config, trace: seq<Event>, start: map<nat, Disk>) {
    forall i :: 0 <= i < |trace| ==> Right(cfg, trace[..i], trace[i], start)
  }

  /** The job the server works on is the trace's open one. */
  ghost predicate Serves(s: Server) {
    s.workCount != 0 ==>
      s.workOffset + s.workCount >= 0
      && Open(s.trace) == Job(s.drive, s.workCommand, s.mylba, s.workOffset + s.workCount, s.workOffset)
  }

  ghost predicate Truthful(cfg: Config, s: Server, start: map<nat, Disk>) {
    && AllRight(cfg, s.trace, start)
    && s.output == Replies(s.trace)
    && s.lastScan == LastScan(s.trace)
    && Serves(s)
  }

  lemma OneMoreRight(cfg: Config, trace: seq<Event>, e: Event, start: map<nat, Disk>)
    requires AllRight(cfg, trace, start) && Right(cfg, trace, e, start)
    ensures AllRight(cfg, trace + [e], start) && Replies(trace + [e]) == Replies(trace) + Reply(e)
    ensures LastScan(trace + [e]) == if e.Identified? then e.scan else if e.Sent? then 0 else LastScan(trace)
  {
    hide Right, Reply;
    var t := trace + [e];
    assert t[..|t| - 1] == trace;
    forall i | 0 <= i < |t|
      ensures Right(cfg, t[..i], t[i], start)
    {
      if i < |trace| {
        assert t[..i] == trace[..i] && t[i] == trace[i];
      }
    }
  }

  lemma OpenAfter(trace: seq<Event>, e: Event)
    ensures Open(trace + [e])
         == if e.Accepted? then Job(e.drive, e.command, e.lba, e.count, 0)
            else if Open(trace).Job? then Open(trace).(done := Open(trace).done + 1) else NoJob
  {
    assert (trace + [e])[..|trace|] == trace;
  }

  lemma CrcBytes(buff: seq<byte>)
    requires |buff| == 514
    ensures var crc := WordOf(buff[512], buff[513]); buff[512..514] == [crc % 256, crc / 256]
  {}

  lemma SectorIsTruthful(cfg: Config, s: Server, start: map<nat, Disk>)
    requires Ready(s) && s.drive in s.disks && Truthful(cfg, s, start) && s.workCount > 0
    ensures Truthful(cfg, OnSector(s), start)
  {
    hide Checksum, Words, WriteAt, AllRight, Replies, LastScan, Open, Replay, WordOf;
    var data := s.buff[..512];
    var crc := WordOf(s.buff[512], s.buff[513]);
    if Checksum(Words(data)) == crc && !s.disks[s.drive].readOnly {
      var e := Wrote(s.drive, Target(s), data, crc);
      OneMoreRight(cfg, s.trace, e, start);
      OpenAfter(s.trace, e);
      CrcBytes(s.buff);
    }
  }

  lemma RespondIsTruthful(cfg: Config, s: Server, start: map<nat, Disk>)
    requires Ready(s) && s.drive in s.disks && s.workCount >= 0 && Truthful(cfg, s, start)
    requires s.disks == Replay(start, s.trace)
    requires Open(s.trace) == Job(s.drive, s.workCommand, s.mylba, s.workOffset + s.workCount, s.workOffset)
    requires s.workCount == 0 ==> s.workOffset == 0
    ensures Truthful(cfg, Respond(cfg, s), start)
  {
    hide Checksum, Words, Packet, AllRight, Replies, LastScan, Open, Replay;
    var r := Respond(cfg, s);
    if r.trace != s.trace {
      var e := r.trace[|s.trace|];
      assert r.trace == s.trace + [e] && (e.Sent? || e.Identified?);
      assert Right(cfg, s.trace, e, start);
      OneMoreRight(cfg, s.trace, e, start);
      OpenAfter(s.trace, e);
    }
  }

  lemma NewCommandIsTruthful(cfg: Config, s: Server, start: map<nat, Disk>)
    requires Ready(s) && s.workCount == 0 && Truthful(cfg, s, start) && s.disks == Replay(start, s.trace)
    ensures Truthful(cfg, OnNewCommand(cfg, s), start)
  {
    hide Checksum, Words, LbaOf, Respond, AllRight, Replies, LastScan, Open, Replay;
    var b := s.buff;
    var e := Accepted(DriveOf(b), CommandOf(b), LbaOf(b, s.disks), b[2]);
    var s1 := s.(drive := e.drive, workCommand := e.command, mylba := e.lba,
                 workOffset := 0, workCount := b[2], trace := s.trace + [e]);
    if s1.drive in s1.disks {
      OneMoreRight(cfg, s.trace, e, start);
      OpenAfter(s.trace, e);
      SameImages(s.trace, e, start);
      RespondIsTruthful(cfg, s1, start);
    }
  }

  lemma SameImages(trace: seq<Event>, e: Event, start: map<nat, Disk>)
    requires !e.Wrote?
    ensures Replay(start, trace + [e]) == Replay(start, trace)
  {
    assert (trace + [e])[..|trace|] == trace;
  }

  lemma ProcessIsTruthful(cfg: Config, s: Server, start: map<nat, Disk>)
    requires Buffered(s) && Truthful(cfg, s, start) && s.disks == Replay(start, s.trace)
    ensures Truthful(cfg, Process(cfg, s), start)
  {
    hide AllRight, Replies, LastScan, Open, Replay, Respond, OnSector, OnNewCommand;
    if s.readto > 0 && s.buffoffset == s.readto {
      var r := s.(buffoffset := 0, readto := 0);
      if s.readto == 514 {
        SectorIsTruthful(cfg, r, start);
      } else if s.workCount == 0 {
        NewCommandIsTruthful(cfg, r, start);
      } else if r.buff[0] == s.workCount {
        RespondIsTruthful(cfg, r, start);
      }
    }
  }

  lemma StepIsTruthful(cfg: Config, s: Server, a: Arrival, start: map<nat, Disk>)
    requires Inv(s) && 0 < |a.bytes| <= Requested(s) && (a.Late? ==> s.readto > 0)
    requires Truthful(cfg, s, start) && s.disks == Replay(start, s.trace)
    ensures Truthful(cfg, Arrive(cfg, s, a), start)
  {
    hide AllRight, Replies, LastScan, Open, Replay, Process;
    if !s.halted {
      if a.Chunk? {
        ProcessIsTruthful(cfg, Arrived(s, a.bytes), start);
      } else if LateBuffered(s, a.bytes).buffoffset > 0 {
        ProcessIsTruthful(cfg, LateBuffered(s, a.bytes), start);
      }
    }
  }

  /** In every run, whatever arrives in whatever chunks and with whatever timeouts, the output is exactly the
      replies to the events of the trace: two checksum bytes for each sector written, and a packet for each
      sector sent, which is the one the open job asks for as the images are then, or identify sector. */
  lemma {:induction false} EveryRunIsTruthful(cfg: Config, start: map<nat, Disk>, buff: seq<byte>, run: seq<Arrival>)
    requires |buff| == 514 && Admissible(cfg, Initial(buff, start), run)
    ensures Truthful(cfg, AfterRun(cfg, Initial(buff, start), run), start)
  {
    hide Truthful, Arrive, Safe;
    if run == [] {
      StartIsTruthful(cfg, start, buff);
    } else {
      var n := |run| - 1;
      EveryRunIsTruthful(cfg, start, buff, run[..n]);
      EveryRunIsSafe(cfg, start, buff, run[..n]);
      SafeImages(AfterRun(cfg, Initial(buff, start), run[..n]), start);
      StepIsTruthful(cfg, AfterRun(cfg, Initial(buff, start), run[..n]), run[n], start);
    }
  }

  lemma SafeImages(s: Server, start: map<nat, Disk>)
    requires Safe(s, start)
    ensures s.disks == Replay(start, s.trace)
  {}

  lemma StartIsTruthful(cfg: Config, start: map<nat, Disk>, buff: seq<byte>)
    ensures Truthful(cfg, Initial(buff, start), start)
  {}
}
