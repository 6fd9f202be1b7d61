/** The request loop itself, reading its port in chunks of whatever size arrives. */
module SerialLoop {
  import opened Bits
  import opened DiskImage
  import opened Fletcher
  import opened SerialReplies
  import opened SerialSafety
  import opened SerialServer

  /** The serial port: bytes the client has still to send, and everything sent to it. */
  class SerialPort {
    var pending: seq<byte>
    var sent: seq<byte>

    /** At least one and at most max bytes, as many as happen to be there; none when the line closes. */
    method ReadCharacters(buff: array<byte>, at: nat, max: nat) returns (len: nat)
      requires at + max <= buff.Length && max > 0
      modifies buff, this`pending
      ensures len <= max && len <= |old(pending)|
      ensures len == 0 <==> old(pending) == []
      ensures pending == old(pending)[len..]
      ensures buff[..] == Splice(old(buff[..]), at, old(pending)[..len])
    {
      if pending == [] {
        assert old(buff[..])[..at] + [] + old(buff[..])[at..] == buff[..];
        return 0;
      }
      len :| 1 <= len <= max && len <= |pending|;
      forall i | 0 <= i < len {
        buff[at + i] := pending[i];
      }
      pending := pending[len..];
    }

    method WriteCharacters(bytes: seq<byte>)
      modifies this`sent
      ensures sent == old(sent) + bytes
    {
      sent := sent + bytes;
    }
  }

  ghost function DiskOf(img: Image): Disk
    reads img
  {
    Disk(img.head, img.sect, img.readOnly, img.sectors)
  }

  ghost function Disks(image0: Image?, image1: Image?): map<nat, Disk>
    reads image0, image1
  {
    (if image0 != null then map[0 := DiskOf(image0)] else map[])
    + (if image1 != null then map[1 := DiskOf(image1)] else map[])
  }

  /** The loop's locals that a packet handler changes. */
  datatype Work = Work(readto: nat, command: nat, offset: nat, count: int, lba: nat, lastScan: byte)

  ghost predicate Same(w: Work, s: Server) {
    w == Work(s.readto, s.workCommand, s.workOffset, s.workCount, s.mylba, s.lastScan)
  }

  method HandleSector(buff: array<byte>, img: Image, serial: SerialPort, w: Work,
                      ghost s: Server, ghost before: seq<byte>)
    returns (w': Work)
    requires Ready(s) && s.drive in s.disks && buff[..] == s.buff && Same(w, s)
    requires DiskOf(img) == s.disks[s.drive] && serial.sent == before + s.output
    modifies img`sectors, img`position, serial`sent
    ensures Same(w', OnSector(s)) && serial.sent == before + OnSector(s).output
    ensures OnSector(s).disks == s.disks[s.drive := DiskOf(img)]
  {
    hide Checksum, Words, WriteAt;
    w' := w;
    var crc := ComputeChecksum(Words(buff[..512]));
    assert buff[..512] == s.buff[..512];
    if crc != WordOf(buff[512], buff[513]) {
      return;
    }
    if img.readOnly {
      return;
    }
    img.SeekSector((w.lba + w.offset) % ULONG);
    img.WriteSector(buff[..512]);
    serial.WriteCharacters(buff[512..514]);
    w' := w.(offset := w.offset + 1, count := w.count - 1, readto := if w.count - 1 != 0 then 1 else 0);
    assert buff[512..514] == s.buff[512..514];
  }

  method SendSector(buff: array<byte>, data: Sector, serial: SerialPort, w: Work,
                    ghost s: Server, ghost e: Event, ghost before: seq<byte>)
    returns (w': Work)
    requires Ready(s) && buff.Length == 514 && Same(w, s) && serial.sent == before + s.output
    modifies buff, serial`sent
    ensures Same(w', Send(s, data, e)) && serial.sent == before + Send(s, data, e).output
    ensures buff[..] == Send(s, data, e).buff
  {
    hide Checksum, Words;
    forall i | 0 <= i < 512 {
      buff[i] := data[i];
    }
    assert buff[..512] == data;
    var crc := ComputeChecksum(Words(buff[..512]));
    buff[512], buff[513] := crc % 256, crc / 256;
    assert buff[..] == data + WordBytes(crc);
    serial.WriteCharacters(buff[..]);
    w' := w.(count := w.count - 1, offset := w.offset + 1, readto := if w.count - 1 != 0 then 1 else 0);
  }

  method DecodeLba(b: seq<byte>, img: Image?, ghost s: Server) returns (lba: nat)
    requires |b| >= 8
    requires if img == null then DriveOf(b) !in s.disks else DriveOf(b) in s.disks && s.disks[DriveOf(b)] == DiskOf(img)
    ensures lba == LbaOf(b, s.disks)
  {
    if CommandOf(b) != INQUIRE && (b[1] / 64) % 2 == 1 {
      var bits24: nat, bits16: nat, bits08: nat, bits00: nat := b[1] % 16, b[5], b[4], b[3];
      lba := bits24 * 0x100_0000 + bits16 * 0x1_0000 + bits08 * 0x100 + bits00;
    } else {
      var cyl, sect, head := WordOf(b[4], b[5]), b[3], b[1] % 16;
      lba := if img == null then 0 else ((cyl * img.head + head) * img.sect + sect - 1) % ULONG;
    }
  }

  /** An accepted command or continuation; stop is the fatal read past the end of an image. */
  method HandleRequest(cfg: Config, buff: array<byte>, serial: SerialPort, img: Image, drive: nat, w: Work,
                       ghost s: Server, ghost before: seq<byte>)
    returns (w': Work, stop: bool)
    requires Ready(s) && !s.halted && s.workCount >= 0 && buff[..] == s.buff && Same(w, s) && drive == s.drive
    requires drive in s.disks && s.disks[drive] == DiskOf(img) && serial.sent == before + s.output
    modifies buff, serial`sent, img`position
    ensures var r := Respond(cfg, s);
            && Same(w', r) && stop == r.halted && r.disks == s.disks && r.drive == drive
            && buff[..] == r.buff && serial.sent == before + r.output
  {
    hide Checksum, Words;
    w', stop := w, false;
    if w.count != 0 && w.command == WRITE {
      w' := w.(readto := 514);
    } else if w.command == INQUIRE {
      if cfg.speedEmulation && buff[5] != cfg.divisor {
        w' := w.(count := 0);
        return;
      }
      var localScan := buff[3];
      var data := cfg.inquire(drive, WordOf(buff[4], buff[5]), (drive == 1 && w.lastScan != 0) || buff[3] != 0);
      ghost var e := Identified(drive, WordOf(s.buff[4], s.buff[5]), localScan, data);
      w' := SendSector(buff, data, serial, w.(lastScan := localScan), s.(lastScan := localScan), e, before);
    } else {
      img.SeekSector((w.lba + w.offset) % ULONG);
      var ok, data := img.ReadSector();
      if !ok {
        stop := true;
        return;
      }
      w' := SendSector(buff, data, serial, w.(lastScan := 0), s.(lastScan := 0), Sent(drive, Target(s), data), before);
    }
  }

  /** A command's eight bytes, or a continuation byte, is in the buffer. The result names the image the
      request is for; stop is the fatal read past the end of an image. */
  method HandleCommand(cfg: Config, buff: array<byte>, serial: SerialPort, image0: Image?, image1: Image?,
                       drive: nat, w: Work, ghost s: Server, ghost before: seq<byte>)
    returns (drive': nat, w': Work, stop: bool)
    requires Ready(s) && !s.halted && buff[..] == s.buff && Same(w, s) && drive == s.drive
    requires s.disks == Disks(image0, image1) && serial.sent == before + s.output
    modifies buff, serial`sent, image0, image1
    ensures var r := OnCommand(cfg, s);
            && Same(w', r) && drive' == r.drive && stop == r.halted
            && buff[..] == r.buff && serial.sent == before + r.output
            && r.disks == Disks(image0, image1)
  {
    hide Respond, Checksum, Words;
    drive', w', stop := drive, w, false;
    ghost var s1 := s;
    if w.count != 0 {
      if buff[0] != w.count {
        w' := w.(count := 0);
        return;
      }
    } else {
      var b := buff[..];
      var crc := ComputeChecksum(Words(b[..6]));
      if crc != WordOf(b[6], b[7]) {
        return;
      }
      drive' := DriveOf(b);
      var img := if drive' == 1 then image1 else image0;
      var lba := DecodeLba(b, img, s);
      w' := w.(command := CommandOf(b), offset := 0, count := b[2], lba := lba);
      if img == null || (w'.command % 2 == 1 && img.readOnly) {
        w' := w'.(count := 0);
        return;
      }
      s1 := s.(drive := drive', workCommand := w'.command, mylba := lba, workOffset := 0, workCount := b[2],
               trace := s.trace + [Accepted(drive', w'.command, lba, b[2])]);
    }
    w', stop := HandleRequest(cfg, buff, serial, if drive' == 1 then image1 else image0, drive', w', s1, before);
  }

  /** The loop body once the chunk is in the buffer. */
  method HandleChunk(cfg: Config, buff: array<byte>, serial: SerialPort, image0: Image?, image1: Image?,
                     buffoffset: nat, drive: nat, w: Work, ghost s: Server, ghost before: seq<byte>)
    returns (buffoffset': nat, drive': nat, w': Work, stop: bool)
    requires Buffered(s) && !s.halted && buff[..] == s.buff && buffoffset == s.buffoffset
    requires drive == s.drive && Same(w, s)
    requires s.disks == Disks(image0, image1) && (image0 != null ==> image0 != image1)
    requires serial.sent == before + s.output
    modifies buff, serial`sent, image0, image1
    ensures var r := Process(cfg, s);
            && Same(w', r) && buffoffset' == r.buffoffset && drive' == r.drive && stop == r.halted
            && buff[..] == r.buff && serial.sent == before + r.output
            && r.disks == Disks(image0, image1)
  {
    hide OnSector, OnCommand;
    buffoffset', drive', w', stop := buffoffset, drive, w, false;
    if w.readto == 0 {
      if IsHeader(buff[0]) {
        w' := w.(readto := 8);
      } else {
        buffoffset' := 0;
      }
    } else if buffoffset == w.readto && w.readto == 514 {
      buffoffset', w' := 0, w.(readto := 0);
      var img := if drive == 1 then image1 else image0;
      ghost var r := s.(buffoffset := 0, readto := 0);
      w' := HandleSector(buff, img, serial, w', r, before);
      SectorKeeps(r);
    } else if (buffoffset == w.readto && w.readto == 8) || (buffoffset == w.readto && w.readto == 1 && w.count != 0) {
      buffoffset', w' := 0, w.(readto := 0);
      ghost var r := s.(buffoffset := 0, readto := 0);
      drive', w', stop := HandleCommand(cfg, buff, serial, image0, image1, drive, w', r, before);
      CommandKeeps(cfg, r);
    }
  }

  lemma SectorKeeps(s: Server)
    requires Ready(s) && s.drive in s.disks
    ensures var r := OnSector(s);
            r.buff == s.buff && r.buffoffset == s.buffoffset && r.drive == s.drive && r.halted == s.halted
  {
    hide Checksum, Words;
  }

  lemma CommandKeeps(cfg: Config, s: Server)
    requires Ready(s)
    ensures OnCommand(cfg, s).buffoffset == 0
  {
    hide Checksum, Words, LbaOf;
  }

  /** A floppy given before a hard disk changes places with it. */
  ghost predicate Swapped(image0: Image?, image1: Image?)
    reads image0, image1
  {
    image0 != null && image0.floppy && image1 != null && !image1.floppy
  }

  /** A chunk arrived late: the open command is dropped, and the chunk is moved to the front if it may be
      the start of a new one. */
  method HandleLate(buff: array<byte>, buffoffset: nat, len: nat, w: Work, ghost s: Server, ghost chunk: seq<byte>)
    returns (buffoffset': nat, w': Work)
    requires Inv(s) && !s.halted && s.readto > 0 && 0 < |chunk| == len <= Requested(s)
    requires Same(w, s) && buffoffset == s.buffoffset + len && buff[..] == Splice(s.buff, s.buffoffset, chunk)
    modifies buff
    ensures var t := LateBuffered(s, chunk);
            buff[..] == t.buff && buffoffset' == t.buffoffset && Same(w', t)
  {
    w' := w.(count := 0, offset := 0, command := 0, readto := 0);
    var at := buffoffset - len;
    assert buff[..][at..buffoffset] == chunk;
    assert buff[at] == chunk[0];
    if len <= 8 && IsHeader(buff[at]) {
      MoveToFront(buff, at, len);
      assert buff[..] == Splice(Splice(s.buff, s.buffoffset, chunk), 0, chunk);
      buffoffset' := len;
      w' := w'.(readto := 8);
    } else if len == 1 {
      buff[0] := buff[buffoffset - 1];
      buffoffset' := 1;
    } else {
      buffoffset' := 0;
    }
  }

  method MoveToFront(buff: array<byte>, at: nat, len: nat)
    requires at + len <= buff.Length
    modifies buff
    ensures buff[..] == Splice(old(buff[..]), 0, old(buff[..])[at..at + len])
  {
    forall i | 0 <= i < len {
      buff[i] := buff[at + i];
    }
  }

  /** The loop body from the moment the chunk has been read. */
  method ServeArrival(cfg: Config, buff: array<byte>, serial: SerialPort, image0: Image?, image1: Image?,
                      buffoffset: nat, len: nat, late: bool, drive: nat, w: Work,
                      ghost s: Server, ghost chunk: seq<byte>, ghost before: seq<byte>)
    returns (buffoffset': nat, drive': nat, w': Work, stop: bool)
    requires Inv(s) && !s.halted && 0 < |chunk| == len <= Requested(s) && (late ==> s.readto > 0)
    requires Same(w, s) && buffoffset == s.buffoffset + len && drive == s.drive
    requires buff[..] == Splice(s.buff, s.buffoffset, chunk)
    requires s.disks == Disks(image0, image1) && (image0 != null ==> image0 != image1)
    requires serial.sent == before + s.output
    modifies buff, serial`sent, image0, image1
    ensures var r := Arrive(cfg, s, if late then Late(chunk) else Chunk(chunk));
            && Same(w', r) && buffoffset' == r.buffoffset && drive' == r.drive && stop == r.halted
            && buff[..] == r.buff && serial.sent == before + r.output && r.disks == Disks(image0, image1)
  {
    hide Process, Splice, LateBuffered;
    buffoffset', drive', w', stop := buffoffset, drive, w, false;
    ghost var t := Arrived(s, chunk);
    if late {
      LateKeeps(s, chunk);
      t := LateBuffered(s, chunk);
      buffoffset', w' := HandleLate(buff, buffoffset, len, w, s, chunk);
      if buffoffset' == 0 {
        return;
      }
    }
    buffoffset', drive', w', stop :=
      HandleChunk(cfg, buff, serial, image0, image1, buffoffset', drive, w', t, before);
  }

  lemma LateKeeps(s: Server, chunk: seq<byte>)
    requires Inv(s) && 0 < |chunk| <= Requested(s) && s.readto > 0
    ensures var t := LateBuffered(s, chunk);
            t.halted == s.halted && t.disks == s.disks && t.output == s.output && t.drive == s.drive
  {}

  /** Which of the two images the server takes for drive 0. */
  ghost function InOrder(first: Image?, second: Image?): (Image?, Image?)
    reads first, second
  {
    if Swapped(first, second) then (second, first) else (first, second)
  }

  /** The server takes the two images given, and a floppy for drive 0 only if there is no hard disk for it. */
  lemma HardDiskFirst(first: Image?, second: Image?)
    ensures InOrder(first, second) == (first, second) || InOrder(first, second) == (second, first)
    ensures first == null || second == null || first.floppy == second.floppy ==> InOrder(first, second).0 == first
    ensures first != null && second != null && first.floppy != second.floppy ==>
              InOrder(first, second).0 != null && !InOrder(first, second).0.floppy
  {}

  /** The whole server. What it does is the run of arrivals it went through: however the port splits the
      input and wherever a timeout strikes, replies and disks are those of that run, the run's bytes are the
      input in order, all of it unless the server stopped at a fatal read, every write in it was permitted,
      and the replies are exactly those its events call for. With timeouts disabled only the input matters:
      everything is as if its bytes had arrived one at a time. */
  method ProcessRequests(cfg: Config, serial: SerialPort, buff: array<byte>, first: Image?, second: Image?,
                         timeoutEnabled: bool)
    returns (ghost run: seq<Arrival>)
    requires buff.Length == 514 && (first != null ==> first != second)
    modifies serial, buff, first, second
    ensures var images := old(InOrder(first, second));
            var before := old(Disks(InOrder(first, second).0, InOrder(first, second).1));
            var start := Initial(old(buff[..]), before);
            && Admissible(cfg, start, run)
            && var end := AfterRun(cfg, start, run);
               && serial.sent == old(serial.sent) + end.output && Disks(images.0, images.1) == end.disks
               && Safe(end, before) && Truthful(cfg, end, before)
               && Bytes(run) <= old(serial.pending) && (!end.halted ==> Bytes(run) == old(serial.pending))
               && (!timeoutEnabled ==> NoneLate(run) && end == Feed(cfg, start, old(serial.pending)))
  {
    hide Feed, Splice, Buffered, Checksum, Safe, Truthful, Arrive, AfterRun, Admissible, Ran, NoneLate;
    var image0, image1 := first, second;
    if image0 != null && image0.floppy && image1 != null && !image1.floppy {
      image0, image1 := second, first;
    }
    ghost var start := Initial(buff[..], Disks(image0, image1));
    ghost var input, before := serial.pending, serial.sent;
    ghost var s, taken := start, 0;
    var buffoffset, drive, stop := 0, 0, false;
    var w := Work(0, 0, 0, 0, 0, 0);
    run := [];
    RunStarts(cfg, start, input);

    while !stop
      invariant 0 <= taken <= |input| && serial.pending == input[taken..]
      invariant Inv(s) && Ran(cfg, start, run, s, input[..taken], timeoutEnabled)
      invariant buff[..] == s.buff && buffoffset == s.buffoffset && drive == s.drive && Same(w, s) && stop == s.halted
      invariant serial.sent == before + s.output && s.disks == Disks(image0, image1)
      decreases !stop, |serial.pending|
    {
      var len := serial.ReadCharacters(buff, buffoffset, if w.readto > 0 then w.readto - buffoffset else 1);
      if len == 0 {
        break;
      }
      var timedOut: bool := *;
      var late := timeoutEnabled && w.readto > 0 && timedOut;
      ghost var chunk := input[taken..][..len];
      ghost var a := if late then Late(chunk) else Chunk(chunk);
      RanOneMore(cfg, start, run, s, input[..taken], timeoutEnabled, a);
      SplitInput(input, taken, len);
      run, taken := run + [a], taken + len;
      buffoffset, drive, w, stop :=
        ServeArrival(cfg, buff, serial, image0, image1, buffoffset + len, len, late, drive, w, s, chunk, before);
      s := Arrive(cfg, s, a);
    }
    RunEnds(cfg, start, run, s, input, taken, timeoutEnabled);
  }

  /** The run so far: where it led, and which bytes it took. */
  ghost predicate Ran(cfg: Config, start: Server, run: seq<Arrival>, s: Server, bytes: seq<byte>, timeouts: bool)
    requires Inv(start)
  {
    && Admissible(cfg, start, run) && s == AfterRun(cfg, start, run) && Bytes(run) == bytes
    && (!timeouts ==> NoneLate(run))
  }

  lemma RunStarts(cfg: Config, s: Server, input: seq<byte>)
    requires Inv(s)
    ensures forall timeouts :: Ran(cfg, s, [], s, input[..0], timeouts)
  {}

  lemma RanOneMore(cfg: Config, start: Server, run: seq<Arrival>, s: Server, bytes: seq<byte>, timeouts: bool,
                   a: Arrival)
    requires Inv(start) && Inv(s) && Ran(cfg, start, run, s, bytes, timeouts) && (a.Late? ==> timeouts)
    requires 0 < |a.bytes| <= Requested(s) && (a.Late? ==> s.readto > 0)
    ensures Ran(cfg, start, run + [a], Arrive(cfg, s, a), bytes + a.bytes, timeouts)
  {
    hide AfterRun, Admissible, Arrive, Bytes;
    Extended(cfg, start, run, a);
  }

  lemma RunEnds(cfg: Config, start: Server, run: seq<Arrival>, s: Server, input: seq<byte>, taken: nat, timeouts: bool)
    requires start == Initial(start.buff, start.disks) && |start.buff| == 514
    requires taken <= |input| && Ran(cfg, start, run, s, input[..taken], timeouts) && (taken == |input| || s.halted)
    ensures Admissible(cfg, start, run) && s == AfterRun(cfg, start, run)
    ensures Safe(s, start.disks) && Truthful(cfg, s, start.disks)
    ensures Bytes(run) <= input && (!s.halted ==> Bytes(run) == input)
    ensures !timeouts ==> NoneLate(run) && s == Feed(cfg, start, input)
  {
    hide AfterRun, Admissible, Bytes, Feed, Safe, Truthful, NoneLate;
    EveryRunIsSafe(cfg, start.disks, start.buff, run);
    EveryRunIsTruthful(cfg, start.disks, start.buff, run);
    if taken == |input| {
      assert input[..taken] == input;
    }
    if !timeouts {
      RunIsItsBytes(cfg, start, run);
      if s.halted {
        FeedConcat(cfg, start, input[..taken], input[taken..]);
        assert input[..taken] + input[taken..] == input;
        HaltedForGood(cfg, s, input[taken..]);
      }
    }
  }

  lemma SplitInput(input: seq<byte>, taken: nat, len: nat)
    requires taken + len <= |input|
    ensures input[..taken] + input[taken..][..len] == input[..taken + len]
    ensures input[taken..][len..] == input[taken + len..]
  {}
}
