/** A client that writes sectors and reads them back. */
module SerialRoundTrip {
  import opened Bits
  import opened DiskImage
  import opened Fletcher
  import opened SerialServer

  // ---------- What the client sends ----------

  ghost predicate ValidCommand(b: seq<byte>, command: nat, drive: nat, count: nat) {
    && |b| == 8 && IsHeader(b[0])
    && CommandOf(b) == command && DriveOf(b) == drive && b[2] == count
    && WordOf(b[6], b[7]) == Checksum(Words(b[..6]))
  }

  /** Sectors with a continuation byte, the number still to come, between each two. */
  function WriteBody(sectors: seq<Sector>): seq<byte>
    requires 1 <= |sectors| < 256
  {
    if |sectors| == 1 then Packet(sectors[0])
    else Packet(sectors[0]) + [|sectors| - 1] + WriteBody(sectors[1..])
  }

  /** The continuation bytes of a read: n, n-1, ..., 1. */
  function Countdown(n: nat): seq<byte>
    requires n < 256
  {
    if n == 0 then [] else [n] + Countdown(n - 1)
  }

  // ---------- What the server should answer ----------

  function Echoes(sectors: seq<Sector>): seq<byte> {
    if sectors == [] then [] else WordBytes(Checksum(Words(sectors[0]))) + Echoes(sectors[1..])
  }

  function Packets(sectors: seq<Sector>): seq<byte> {
    if sectors == [] then [] else Packet(sectors[0]) + Packets(sectors[1..])
  }

  /** A disk with a run of sectors replaced. */
  function Overlay(base: seq<Sector>, at: nat, sectors: seq<Sector>): (r: seq<Sector>)
    requires at + |sectors| <= |base|
    ensures |r| == |base|
    ensures forall i :: 0 <= i < |base| ==> r[i] == if at <= i < at + |sectors| then sectors[i - at] else base[i]
  {
    base[..at] + sectors + base[at + |sectors|..]
  }

  /** Sectors written one after the other, with no check that they are inside the image. */
  function WriteAll(base: seq<Sector>, at: nat, sectors: seq<Sector>): seq<Sector>
    decreases |sectors|
  {
    if sectors == [] then base else WriteAll(WriteAt(base, at % ULONG, sectors[0]), at + 1, sectors[1..])
  }

  /** Inside the image, writing replaces the run and nothing else. */
  lemma {:induction false} WriteAllInside(base: seq<Sector>, at: nat, sectors: seq<Sector>)
    requires at + |sectors| <= |base| < ULONG
    ensures WriteAll(base, at, sectors) == Overlay(base, at, sectors)
    decreases |sectors|
  {
    if sectors == [] {
      assert Overlay(base, at, sectors) == base;
    } else {
      var next := WriteAt(base, at, sectors[0]);
      WriteAllInside(next, at + 1, sectors[1..]);
      NextOverlay(base, at, sectors);
      hide Overlay;
    }
  }

  lemma NextOverlay(base: seq<Sector>, at: nat, sectors: seq<Sector>)
    requires at + |sectors| <= |base| && sectors != []
    ensures Overlay(base[at := sectors[0]], at + 1, sectors[1..]) == Overlay(base, at, sectors)
  {}

  lemma {:induction false} WriteAllGrows(base: seq<Sector>, at: nat, sectors: seq<Sector>)
    ensures |WriteAll(base, at, sectors)| >= |base|
    decreases |sectors|
  {
    if sectors != [] {
      WriteAllGrows(WriteAt(base, at % ULONG, sectors[0]), at + 1, sectors[1..]);
    }
  }

  /** A run that ends beyond the image makes it longer, wherever it starts. */
  lemma {:induction false} WriteAllBeyond(base: seq<Sector>, at: nat, sectors: seq<Sector>)
    requires at < ULONG && |base| < ULONG && sectors != [] && |base| < at + |sectors|
    ensures |WriteAll(base, at, sectors)| > |base|
    decreases |sectors|
  {
    var next := WriteAt(base, at, sectors[0]);
    if at < |base| {
      WriteAllBeyond(next, at + 1, sectors[1..]);
    } else {
      WriteAllGrows(next, at + 1, sectors[1..]);
    }
  }

  // ---------- Whole packets ----------

  ghost predicate Idle(s: Server) {
    Inv(s) && !s.halted && s.readto == 0 && s.workCount == 0
  }

  /** Eight bytes that start with a header reach the command handler as one packet. */
  lemma CommandArrives(cfg: Config, s: Server, b: seq<byte>)
    requires Idle(s) && |b| == 8 && IsHeader(b[0])
    ensures Feed(cfg, s, b) == OnNewCommand(cfg, s.(buff := Splice(s.buff, 0, b)))
  {
    hide OnNewCommand;
    var head, rest := b[..1], b[1..];
    assert b == head + rest;
    FeedConcat(cfg, s, head, rest);
    ChunkIsItsBytes(cfg, s, head);
    var s1 := Receive(cfg, s, head);
    assert s1 == s.(buff := Splice(s.buff, 0, head), buffoffset := 1, readto := 8);
    ChunkIsItsBytes(cfg, s1, rest);
    hide Feed;
    assert Splice(s1.buff, 1, rest) == Splice(s.buff, 0, b);
  }

  lemma CommandAccepted(cfg: Config, s: Server, b: seq<byte>, command: nat, drive: nat, count: nat)
    requires Idle(s) && ValidCommand(b, command, drive, count) && drive in s.disks
    requires command % 2 == 1 ==> !s.disks[drive].readOnly
    ensures Feed(cfg, s, b)
         == Respond(cfg, s.(buff := Splice(s.buff, 0, b), drive := drive, workCommand := command,
                            mylba := LbaOf(b, s.disks),
                            workOffset := 0, workCount := count,
                            trace := s.trace + [Accepted(drive, command, LbaOf(b, s.disks), count)]))
  {
    hide Checksum, Words, LbaOf, Respond, Feed;
    CommandArrives(cfg, s, b);
    var buff := Splice(s.buff, 0, b);
    assert buff[..6] == b[..6] && buff[0] == b[0] && buff[1] == b[1] && buff[2] == b[2];
    assert buff[6] == b[6] && buff[7] == b[7];
    SameLba(buff, b, s.disks);
  }

  lemma SameLba(c: seq<byte>, b: seq<byte>, disks: map<nat, Disk>)
    requires |b| == 8 && |c| >= 8 && c[..8] == b
    ensures LbaOf(c, disks) == LbaOf(b, disks)
  {
    assert forall i :: 0 <= i < 8 ==> c[i] == c[..8][i] == b[i];
  }

  lemma ContinuationAccepted(cfg: Config, s: Server, b: byte)
    requires Inv(s) && !s.halted && s.readto == 1 && s.workCount == b > 0
    ensures Feed(cfg, s, [b]) == Respond(cfg, s.(buff := s.buff[0 := b], readto := 0))
  {
    hide Respond;
    ChunkIsItsBytes(cfg, s, [b]);
    assert Splice(s.buff, 0, [b]) == s.buff[0 := b];
    hide Feed;
  }

  // ---------- Writing ----------

  /** Waiting for the first of the given number of sectors still to be written. */
  ghost predicate AwaitsSector(s: Server, left: nat) {
    && Inv(s) && !s.halted && s.readto == 514 && s.buffoffset == 0
    && s.workCommand == WRITE && s.workCount == left > 0
    && !s.disks[s.drive].readOnly
  }

  lemma SectorArrives(cfg: Config, s: Server, data: Sector, left: nat)
    requires AwaitsSector(s, left)
    ensures var t := Feed(cfg, s, Packet(data));
            && Inv(t) && !t.halted
            && t.drive == s.drive && t.workCommand == WRITE && t.mylba == s.mylba
            && t.workOffset == s.workOffset + 1 && t.workCount == left - 1 && t.readto == (if left > 1 then 1 else 0)
            && t.disks == s.disks[s.drive := s.disks[s.drive].(
                 sectors := WriteAt(s.disks[s.drive].sectors, Target(s), data))]
            && t.output == s.output + WordBytes(Checksum(Words(data)))
  {
    hide Feed, Checksum, Words, WriteAt;
    var p := Packet(data);
    ChunkIsItsBytes(cfg, s, p);
    assert Splice(s.buff, 0, p) == p;
    assert p[..512] == data && p[512..514] == WordBytes(Checksum(Words(data)));
  }

  lemma {:induction false} WritesArrive(cfg: Config, s: Server, sectors: seq<Sector>)
    requires 1 <= |sectors| < 256 && AwaitsSector(s, |sectors|)
    ensures var t := Feed(cfg, s, WriteBody(sectors));
            && Idle(t)
            && t.disks == s.disks[s.drive := s.disks[s.drive].(
                 sectors := WriteAll(s.disks[s.drive].sectors, s.mylba + s.workOffset, sectors))]
            && t.output == s.output + Echoes(sectors)
    decreases |sectors|
  {
    hide Feed, Checksum, Words, Respond, WriteAt;
    var n := |sectors|;
    var t := Feed(cfg, s, Packet(sectors[0]));
    SectorArrives(cfg, s, sectors[0], n);
    if n == 1 {
      assert sectors[1..] == [];
    } else {
      var rest := sectors[1..];
      ContinuationAccepted(cfg, t, n - 1);
      var u := Feed(cfg, t, [n - 1]);
      AsksForNext(cfg, t, n - 1);
      FeedConcat(cfg, s, Packet(sectors[0]) + [n - 1], WriteBody(rest));
      FeedConcat(cfg, s, Packet(sectors[0]), [n - 1]);
      WritesArrive(cfg, u, rest);
    }
  }

  lemma AsksForNext(cfg: Config, t: Server, left: nat)
    requires Inv(t) && !t.halted && t.readto == 1 && t.workCount == left > 0 && t.workCommand == WRITE && left < 256
    ensures Respond(cfg, t.(buff := t.buff[0 := left], readto := 0))
         == t.(buff := t.buff[0 := left], buffoffset := 0, readto := 514)
  {}

  // ---------- Reading ----------

  /** Part way through a read command, with the given number of sectors still to be asked for. */
  ghost predicate Reading(s: Server, left: nat) {
    && Inv(s) && !s.halted && s.buffoffset == 0
    && s.workCommand != WRITE && s.workCommand != INQUIRE
    && s.workCount == left < 256 && s.readto == (if left > 0 then 1 else 0)
    && s.drive in s.disks
    && s.mylba + s.workOffset <= |s.disks[s.drive].sectors| < ULONG
  }

  /** The sectors of a run that the image has. */
  function Present(sectors: seq<Sector>, at: nat, n: nat): seq<Sector> {
    if at >= |sectors| then [] else if at + n <= |sectors| then sectors[at..at + n] else sectors[at..]
  }

  lemma SectorSent(cfg: Config, s: Server, left: nat)
    requires Ready(s) && !s.halted && s.drive in s.disks
    requires s.workCommand != WRITE && s.workCommand != INQUIRE && s.workCount == left + 1
    requires s.mylba + s.workOffset < |s.disks[s.drive].sectors| < ULONG && left < 256
    ensures var t := Respond(cfg, s);
            && Reading(t, left)
            && t.drive == s.drive && t.workCommand == s.workCommand && t.mylba == s.mylba
            && t.workOffset == s.workOffset + 1 && t.disks == s.disks
            && t.output == s.output + Packet(s.disks[s.drive].sectors[s.mylba + s.workOffset])
  {
    hide Checksum, Words;
  }

  /** A sector the image does not have is fatal. */
  lemma SectorMissing(cfg: Config, s: Server)
    requires Ready(s) && s.drive in s.disks && s.workCount >= 0
    requires s.workCommand != WRITE && s.workCommand != INQUIRE && Target(s) >= |s.disks[s.drive].sectors|
    ensures Respond(cfg, s) == s.(halted := true)
  {}

  lemma {:induction false} ReadsAnswered(cfg: Config, s: Server, left: nat)
    requires Reading(s, left)
    ensures var t := Feed(cfg, s, Countdown(left)); var at := s.mylba + s.workOffset;
            var sectors := s.disks[s.drive].sectors;
            && (t.halted <==> at + left > |sectors|) && (!t.halted ==> Idle(t)) && t.disks == s.disks
            && t.output == s.output + Packets(Present(sectors, at, left))
    decreases left
  {
    hide Feed, Respond, Packet, Packets;
    var at, sectors := s.mylba + s.workOffset, s.disks[s.drive].sectors;
    if left == 0 {
      assert Countdown(0) == [] && Present(sectors, at, 0) == [];
      FeedNothing(cfg, s);
      NoPackets(s.output);
    } else if at < |sectors| {
      ReadGoesOn(cfg, s, left);
      ReadsAnswered(cfg, Feed(cfg, s, [left]), left - 1);
      PresentStep(sectors, at, left);
      Associate(s.output, Packet(sectors[at]), Packets(Present(sectors, at + 1, left - 1)));
    } else {
      assert Present(sectors, at, left) == [];
      ReadStops(cfg, s, left);
      NoPackets(s.output);
    }
  }

  lemma ReadGoesOn(cfg: Config, s: Server, left: nat)
    requires Reading(s, left) && left > 0 && s.mylba + s.workOffset < |s.disks[s.drive].sectors|
    ensures var t := Feed(cfg, s, [left]);
            && Reading(t, left - 1) && Feed(cfg, s, Countdown(left)) == Feed(cfg, t, Countdown(left - 1))
            && t.drive == s.drive && t.mylba == s.mylba && t.workOffset == s.workOffset + 1 && t.disks == s.disks
            && t.output == s.output + Packet(s.disks[s.drive].sectors[s.mylba + s.workOffset])
  {
    hide Feed, Respond, Packet;
    ContinuationAccepted(cfg, s, left);
    SectorSent(cfg, s.(buff := s.buff[0 := left], readto := 0), left - 1);
    FeedConcat(cfg, s, [left], Countdown(left - 1));
  }

  lemma ReadStops(cfg: Config, s: Server, left: nat)
    requires Reading(s, left) && left > 0 && s.mylba + s.workOffset == |s.disks[s.drive].sectors|
    ensures var t := Feed(cfg, s, Countdown(left)); t.halted && t.disks == s.disks && t.output == s.output
  {
    hide Feed, Respond, Packet;
    var r := s.(buff := s.buff[0 := left], readto := 0);
    ContinuationAccepted(cfg, s, left);
    SectorMissing(cfg, r);
    FeedConcat(cfg, s, [left], Countdown(left - 1));
    HaltedForGood(cfg, r.(halted := true), Countdown(left - 1));
  }

  lemma NoPackets(output: seq<byte>)
    ensures output + Packets([]) == output
  {}

  lemma Associate(a: seq<byte>, b: seq<byte>, c: seq<byte>)
    ensures (a + b) + c == a + (b + c)
  {}

  lemma PresentStep(sectors: seq<Sector>, at: nat, n: nat)
    requires at < |sectors| && n >= 1
    ensures Packets(Present(sectors, at, n)) == Packet(sectors[at]) + Packets(Present(sectors, at + 1, n - 1))
  {
    hide Packet;
    assert Present(sectors, at, n)[1..] == Present(sectors, at + 1, n - 1);
  }

  // ---------- The round trip ----------

  /** The server after a complete write conversation: nothing checks that the run is inside the image. */
  lemma WriteConversation(cfg: Config, s: Server, cmd: seq<byte>, drive: nat, sectors: seq<Sector>)
    requires Idle(s) && 1 <= |sectors| < 256 && drive in s.disks && !s.disks[drive].readOnly
    requires ValidCommand(cmd, WRITE, drive, |sectors|)
    ensures var t := Feed(cfg, s, cmd + WriteBody(sectors)); var lba := LbaOf(cmd, s.disks);
            && Idle(t)
            && t.disks == s.disks[drive := s.disks[drive].(sectors := WriteAll(s.disks[drive].sectors, lba, sectors))]
            && t.output == s.output + Echoes(sectors)
  {
    hide Feed, LbaOf, Echoes, WriteBody, WriteAll;
    var lba := LbaOf(cmd, s.disks);
    var t := Feed(cfg, s, cmd);
    CommandAccepted(cfg, s, cmd, WRITE, drive, |sectors|);
    assert AwaitsSector(t, |sectors|) && t.mylba == lba && t.drive == drive && t.disks == s.disks;
    WritesArrive(cfg, t, sectors);
    FeedConcat(cfg, s, cmd, WriteBody(sectors));
  }

  /** A complete write leaves the image as long as it was if and only if all of the run is inside it. */
  lemma WriteStaysInside(cfg: Config, s: Server, cmd: seq<byte>, drive: nat, sectors: seq<Sector>)
    requires Idle(s) && 1 <= |sectors| < 256 && drive in s.disks && !s.disks[drive].readOnly
    requires ValidCommand(cmd, WRITE, drive, |sectors|) && |s.disks[drive].sectors| < ULONG
    ensures var t := Feed(cfg, s, cmd + WriteBody(sectors)); var before := s.disks[drive].sectors;
            && drive in t.disks
            && (|t.disks[drive].sectors| == |before| <==> LbaOf(cmd, s.disks) + |sectors| <= |before|)
  {
    hide Feed, LbaOf, WriteBody, WriteAll, CommandOf, DriveOf, IsHeader, Checksum, Words, WordOf;
    var lba, before := LbaOf(cmd, s.disks), s.disks[drive].sectors;
    WriteConversation(cfg, s, cmd, drive, sectors);
    if lba + |sectors| <= |before| {
      WriteAllInside(before, lba, sectors);
    } else {
      WriteAllBeyond(before, lba, sectors);
    }
  }

  /** The server after a complete read conversation: the disk is unchanged, every sector that was asked
      for and is there came back with its checksum, and the server runs on if and only if all were. */
  lemma ReadConversation(cfg: Config, s: Server, cmd: seq<byte>, command: nat, drive: nat, count: nat)
    requires Idle(s) && 1 <= count < 256 && drive in s.disks
    requires command == 2 || (command == 1 && !s.disks[drive].readOnly)
    requires ValidCommand(cmd, command, drive, count) && |s.disks[drive].sectors| < ULONG
    ensures var t := Feed(cfg, s, cmd + Countdown(count - 1)); var lba := LbaOf(cmd, s.disks);
            var sectors := s.disks[drive].sectors;
            && (t.halted <==> lba + count > |sectors|) && (!t.halted ==> Idle(t)) && t.disks == s.disks
            && t.output == s.output + Packets(Present(sectors, lba, count))
  {
    hide Feed, LbaOf, Countdown, Packet, Packets, CommandOf, DriveOf, IsHeader, Checksum, Words, WordOf, Respond;
    var lba, sectors := LbaOf(cmd, s.disks), s.disks[drive].sectors;
    var r := s.(buff := Splice(s.buff, 0, cmd), drive := drive, workCommand := command, mylba := lba,
                workOffset := 0, workCount := count, trace := s.trace + [Accepted(drive, command, lba, count)]);
    CommandAccepted(cfg, s, cmd, command, drive, count);
    FeedConcat(cfg, s, cmd, Countdown(count - 1));
    if lba < |sectors| {
      SectorSent(cfg, r, count - 1);
      ReadsAnswered(cfg, Feed(cfg, s, cmd), count - 1);
      PresentStep(sectors, lba, count);
      Associate(s.output, Packet(sectors[lba]), Packets(Present(sectors, lba + 1, count - 1)));
    } else {
      SectorMissing(cfg, r);
      HaltedForGood(cfg, r.(halted := true), Countdown(count - 1));
      NoPackets(s.output);
    }
  }

  /** A client that writes n sectors and reads the same range back gets the same bytes, each sector
      with a valid checksum; every other sector and every other drive is as it was. */
  lemma DiskRoundTrip(cfg: Config, s: Server, wcmd: seq<byte>, rcmd: seq<byte>, drive: nat, sectors: seq<Sector>)
    requires Idle(s) && 1 <= |sectors| < 256 && drive in s.disks && !s.disks[drive].readOnly
    requires ValidCommand(wcmd, WRITE, drive, |sectors|) && ValidCommand(rcmd, 2, drive, |sectors|)
    requires LbaOf(wcmd, s.disks) == LbaOf(rcmd, s.disks)
    requires LbaOf(wcmd, s.disks) + |sectors| <= |s.disks[drive].sectors| < ULONG
    ensures var t := Feed(cfg, s, (wcmd + WriteBody(sectors)) + (rcmd + Countdown(|sectors| - 1)));
            var lba := LbaOf(wcmd, s.disks);
            && Idle(t)
            && t.output == s.output + Echoes(sectors) + Packets(sectors)
            && t.disks.Keys == s.disks.Keys
            && t.disks == s.disks[drive := s.disks[drive].(sectors := t.disks[drive].sectors)]
            && t.disks[drive].sectors == Overlay(s.disks[drive].sectors, lba, sectors)
  {
    hide Feed, Echoes, WriteBody, WriteAll, Countdown, Packets, DriveOf, IsHeader, Checksum, Words, WordOf;
    var lba := LbaOf(wcmd, s.disks);
    var u := Feed(cfg, s, wcmd + WriteBody(sectors));
    WriteConversation(cfg, s, wcmd, drive, sectors);
    WriteAllInside(s.disks[drive].sectors, lba, sectors);
    assert LbaOf(rcmd, u.disks) == lba;
    hide LbaOf;
    ReadConversation(cfg, u, rcmd, 2, drive, |sectors|);
    FeedConcat(cfg, s, wcmd + WriteBody(sectors), rcmd + Countdown(|sectors| - 1));
    assert u.disks[drive].sectors[lba..lba + |sectors|] == sectors;
  }

  // ---------- The commands exist ----------

  /** The eight bytes of a command for a 28-bit sector number. */
  function EncodeLba(command: nat, drive: nat, lba: nat, count: nat): (b: seq<byte>)
    requires command < 4 && drive < 2 && lba <= MAX_LBA28 && count < 256
    ensures |b| == 8
  {
    var body := [0xa0 + command, 0x40 + 0x10 * drive + lba / 0x100_0000, count, lba % 0x100,
                 lba / 0x100 % 0x100, lba / 0x1_0000 % 0x100];
    body + WordBytes(Checksum(Words(body)))
  }

  lemma LbaCommandDecodes(command: nat, drive: nat, lba: nat, count: nat, disks: map<nat, Disk>)
    requires 1 <= command < 4 && drive < 2 && lba <= MAX_LBA28 && count < 256
    ensures var b := EncodeLba(command, drive, lba, count);
            ValidCommand(b, command, drive, count) && LbaOf(b, disks) == lba
  {
    hide Checksum, Words;
    var b := EncodeLba(command, drive, lba, count);
    assert b[..6] == [0xa0 + command, 0x40 + 0x10 * drive + lba / 0x100_0000, count, lba % 0x100,
                      lba / 0x100 % 0x100, lba / 0x1_0000 % 0x100];
    assert b[..6] + WordBytes(Checksum(Words(b[..6]))) == b;
    LbaBytes(lba);
  }

  lemma LbaBytes(lba: nat)
    requires lba <= MAX_LBA28
    ensures lba / 0x100_0000 < 16
    ensures lba == (lba / 0x100_0000) * 0x100_0000 + (lba / 0x1_0000 % 0x100) * 0x1_0000
                   + (lba / 0x100 % 0x100) * 0x100 + lba % 0x100
  {
    var a := lba / 0x100;
    var b := a / 0x100;
    assert lba / 0x1_0000 == b && lba / 0x100_0000 == b / 0x100;
  }

  /** For any run of 1 to 255 sectors inside a writable image, named by its sector number: what the client
      wrote is what it reads back, and nothing else on any drive has changed. */
  lemma WriteThenRead(cfg: Config, s: Server, drive: nat, lba: nat, sectors: seq<Sector>)
    requires Idle(s) && drive < 2 && drive in s.disks && !s.disks[drive].readOnly
    requires 1 <= |sectors| < 256 && lba <= MAX_LBA28 && lba + |sectors| <= |s.disks[drive].sectors| < ULONG
    ensures var n := |sectors|;
            var write := EncodeLba(WRITE, drive, lba, n) + WriteBody(sectors);
            var read := EncodeLba(2, drive, lba, n) + Countdown(n - 1);
            var t := Feed(cfg, s, write + read);
            && Idle(t)
            && t.output == s.output + Echoes(sectors) + Packets(sectors)
            && drive in t.disks
            && t.disks == s.disks[drive := s.disks[drive].(sectors := t.disks[drive].sectors)]
            && t.disks[drive].sectors == Overlay(s.disks[drive].sectors, lba, sectors)
  {
    var n := |sectors|;
    var wcmd, rcmd := EncodeLba(WRITE, drive, lba, n), EncodeLba(2, drive, lba, n);
    LbaCommandDecodes(WRITE, drive, lba, n, s.disks);
    LbaCommandDecodes(2, drive, lba, n, s.disks);
    hide Feed, EncodeLba, WriteBody, Countdown, Echoes, Packets, ValidCommand, LbaOf, Idle;
    DiskRoundTrip(cfg, s, wcmd, rcmd, drive, sectors);
  }

  /** The eight bytes of a command that names its first sector by cylinder, head and sector. */
  function EncodeChs(command: nat, drive: nat, a: Chs, count: nat): (b: seq<byte>)
    requires command < 4 && drive < 2 && a.cyl < 0x1_0000 && a.head < 16 && a.sect < 256 && count < 256
    ensures |b| == 8
  {
    var body := [0xa0 + command, 0x10 * drive + a.head, count, a.sect, a.cyl % 0x100, a.cyl / 0x100];
    body + WordBytes(Checksum(Words(body)))
  }

  /** Every in-range cylinder, head and sector of a geometry the server accepts fits the command, and
      the first sector of the command is that sector of the image. */
  lemma ChsCommandReachesSector(command: nat, drive: nat, a: Chs, count: nat, cyls: nat, disks: map<nat, Disk>)
    requires 1 <= command < 4 && drive < 2 && count < 256 && drive in disks
    requires InRange(cyls, disks[drive].head, disks[drive].sect)
    requires Inside(a, cyls, disks[drive].head, disks[drive].sect)
    requires cyls * disks[drive].head * disks[drive].sect <= |disks[drive].sectors| < ULONG
    ensures var b := EncodeChs(command, drive, a, count); var disk := disks[drive];
            && ValidCommand(b, command, drive, count)
            && LbaOf(b, disks) == ToLba(a, disk.head, disk.sect) < |disk.sectors|
            && FromLba(LbaOf(b, disks), disk.head, disk.sect) == a
  {
    hide EncodeChs, Checksum, Words, ToLba, FromLba;
    ChsCommandDecodes(command, drive, a, count);
    ChsRoundTrip(a, cyls, disks[drive].head, disks[drive].sect);
    hide InRange, Inside, ValidCommand;
  }

  lemma ChsCommandDecodes(command: nat, drive: nat, a: Chs, count: nat)
    requires 1 <= command < 4 && drive < 2 && a.cyl < 0x1_0000 && a.head < 16 && a.sect < 256 && count < 256
    ensures var b := EncodeChs(command, drive, a, count);
            && ValidCommand(b, command, drive, count)
            && WordOf(b[4], b[5]) == a.cyl && b[1] % 16 == a.head && b[3] == a.sect && (b[1] / 64) % 2 == 0
  {
    hide Checksum, Words;
    var b := EncodeChs(command, drive, a, count);
    var body := [0xa0 + command, 0x10 * drive + a.head, count, a.sect, a.cyl % 0x100, a.cyl / 0x100];
    assert b[..6] == body && b[6..] == WordBytes(Checksum(Words(body)));
    assert WordOf(b[6], b[7]) == Checksum(Words(body));
  }

  /** A writable image, and a name of one of its sectors that is in range of its geometry. */
  ghost predicate Named(a: Chs, cyls: nat, disk: Disk) {
    && InRange(cyls, disk.head, disk.sect) && Inside(a, cyls, disk.head, disk.sect) && !disk.readOnly
    && cyls * disk.head * disk.sect <= |disk.sectors| < ULONG
  }

  /** What an in-range name promises for a whole run: a write leaves the image as long as it was, and a read
      leaves the server running, if and only if the last sector of the run is inside the image too. */
  lemma ChsRunStaysInside(cfg: Config, s: Server, wcmd: seq<byte>, rcmd: seq<byte>, drive: nat, a: Chs, cyls: nat,
                          sectors: seq<Sector>)
    requires Idle(s) && drive < 2 && drive in s.disks && 1 <= |sectors| < 256
    requires Named(a, cyls, s.disks[drive])
    requires wcmd == EncodeChs(WRITE, drive, a, |sectors|) && rcmd == EncodeChs(2, drive, a, |sectors|)
    ensures var w := Feed(cfg, s, wcmd + WriteBody(sectors)); var r := Feed(cfg, s, rcmd + Countdown(|sectors| - 1));
            var disk := s.disks[drive]; var end := ToLba(a, disk.head, disk.sect) + |sectors|;
            && drive in w.disks
            && (|w.disks[drive].sectors| == |disk.sectors| <==> end <= |disk.sectors|)
            && (!r.halted <==> end <= |disk.sectors|)
  {
    hide Feed, EncodeChs, LbaOf, ToLba, WriteBody, Countdown, CommandOf, DriveOf, IsHeader, Checksum, Words, WordOf;
    ChsCommandReachesSector(WRITE, drive, a, |sectors|, cyls, s.disks);
    ChsCommandReachesSector(2, drive, a, |sectors|, cyls, s.disks);
    WriteStaysInside(cfg, s, wcmd, drive, sectors);
    ReadConversation(cfg, s, rcmd, 2, drive, |sectors|);
  }

  /** A write of two sectors that starts with the last one of an image: no check stops the second, and the
      image is one sector longer afterwards. */
  lemma WriteLeavesImage(cfg: Config, s: Server, cmd: seq<byte>, drive: nat, data: seq<Sector>)
    requires Idle(s) && drive in s.disks && !s.disks[drive].readOnly && |data| == 2
    requires ValidCommand(cmd, WRITE, drive, |data|) && |s.disks[drive].sectors| < ULONG
    requires LbaOf(cmd, s.disks) == |s.disks[drive].sectors| - 1
    ensures var t := Feed(cfg, s, cmd + WriteBody(data)); var at := LbaOf(cmd, s.disks);
            drive in t.disks && t.disks[drive].sectors == s.disks[drive].sectors[..at] + data
  {
    hide Feed, LbaOf, WriteBody, WriteAll, CommandOf, DriveOf, IsHeader, Checksum, Words, WordOf;
    WriteConversation(cfg, s, cmd, drive, data);
    TwoAtTheEnd(s.disks[drive].sectors, LbaOf(cmd, s.disks), data);
  }

  lemma TwoAtTheEnd(base: seq<Sector>, at: nat, data: seq<Sector>)
    requires |base| == at + 1 < ULONG && |data| == 2
    ensures WriteAll(base, at, data) == base[..at] + data
  {
    var one := WriteAt(base, at, data[0]);
    var two := WriteAt(one, at + 1, data[1]);
    NextWrite(base, at, data);
    NextWrite(one, at + 1, data[1..]);
    hide WriteAll;
    assert data[1..][1..] == [];
    assert WriteAll(two, at + 2, []) == two by { NoWrite(two, at + 2); }
    Appended(one, data[1]);
    assert two == base[..at] + data;
  }

  lemma Appended(base: seq<Sector>, d: Sector)
    ensures WriteAt(base, |base|, d) == base + [d]
  {}

  lemma NoWrite(base: seq<Sector>, at: nat)
    ensures WriteAll(base, at, []) == base
  {}

  lemma NextWrite(base: seq<Sector>, at: nat, data: seq<Sector>)
    requires at < ULONG && data != []
    ensures WriteAll(base, at, data) == WriteAll(WriteAt(base, at, data[0]), at + 1, data[1..])
  {
    hide WriteAt;
    assert at % ULONG == at;
  }

  /** Such a request can be made of a server that has just started, with an image of a single sector. */
  lemma OneSectorImageGrows(cfg: Config, s: Server, cmd: seq<byte>, disk: Disk, only: Sector, data: seq<Sector>)
    requires disk == Disk(1, 1, false, [only]) && |data| == 2
    requires |s.buff| == 514 && s == Initial(s.buff, map[0 := disk])
    requires cmd == EncodeChs(WRITE, 0, Chs(0, 0, 1), |data|)
    ensures var t := Feed(cfg, s, cmd + WriteBody(data)); 0 in t.disks && t.disks[0].sectors == data
  {
    hide Feed, EncodeChs, LbaOf, ToLba, WriteBody, CommandOf, DriveOf, IsHeader, Checksum, Words, WordOf;
    var a, one := Chs(0, 0, 1), 1;
    ChsCommandReachesSector(WRITE, 0, a, |data|, one, s.disks);
    WriteLeavesImage(cfg, s, cmd, 0, data);
    assert disk.sectors[..0] + data == data;
  }
}
