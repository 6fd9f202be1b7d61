/** The serial disk server as a machine over received bytes: what each arriving chunk does to the
    protocol state, the disks and the reply stream. */
module SerialServer {
  import opened Bits
  import opened DiskImage
  import opened Fletcher

  /** What the server uses of an image. */
  datatype Disk = Disk(head: nat, sect: nat, readOnly: bool, sectors: seq<Sector>)

  /** Everything outside the protocol: baud emulation, and the identify reply for a drive, the packed
      port and baud word and the scan flag. */
  datatype Config = Config(speedEmulation: bool, divisor: byte, inquire: (nat, nat, bool) -> Sector)

  datatype Event =
    | Accepted(drive: nat, command: nat, lba: nat, count: nat)
    | Wrote(drive: nat, lba: nat, data: Sector, crc: word)
    | Sent(drive: nat, lba: nat, data: Sector)
    | Identified(drive: nat, portBaud: word, scan: byte, data: Sector)

  datatype Server = Server(
    buff: seq<byte>, buffoffset: nat, readto: nat,
    workCommand: nat, workOffset: nat, workCount: int, mylba: nat,
    drive: nat, lastScan: byte,
    disks: map<nat, Disk>, output: seq<byte>, trace: seq<Event>, halted: bool)

  const INQUIRE: nat := 0
  const WRITE: nat := 3

  function Initial(buff: seq<byte>, disks: map<nat, Disk>): Server {
    Server(buff, 0, 0, 0, 0, 0, 0, 0, 0, disks, [], [], false)
  }

  // ---------- Bytes and words ----------

  function WordOf(lo: byte, hi: byte): word { lo + 256 * hi }

  function Words(b: seq<byte>): (ws: seq<word>)
    ensures |ws| == |b| / 2
  {
    seq(|b| / 2, i requires 0 <= i < |b| / 2 => WordOf(b[2 * i], b[2 * i + 1]))
  }

  function WordBytes(w: word): (b: seq<byte>)
    ensures |b| == 2
  {
    [w % 256, w / 256]
  }

  /** A sector or a reply on the wire: 512 bytes and their checksum. */
  function Packet(data: Sector): (p: seq<byte>)
    ensures |p| == 514
  {
    data + WordBytes(Checksum(Words(data)))
  }

  function Splice(buff: seq<byte>, at: nat, chunk: seq<byte>): (r: seq<byte>)
    requires at + |chunk| <= |buff|
    ensures |r| == |buff|
  {
    buff[..at] + chunk + buff[at + |chunk|..]
  }

  function IsHeader(b: byte): bool { b / 32 == 5 }

  // ---------- Decoding a command ----------

  function CommandOf(b: seq<byte>): nat
    requires |b| >= 8
  {
    b[0] % 4
  }

  function DriveOf(b: seq<byte>): nat
    requires |b| >= 8
  {
    (b[1] / 16) % 2
  }

  function LbaOf(b: seq<byte>, disks: map<nat, Disk>): (lba: nat)
    requires |b| >= 8
    ensures lba < ULONG
  {
    if CommandOf(b) != INQUIRE && (b[1] / 64) % 2 == 1 then
      (b[1] % 16) * 0x100_0000 + b[5] * 0x1_0000 + b[4] * 0x100 + b[3]
    else if DriveOf(b) in disks then
      ToLba(Chs(WordOf(b[4], b[5]), b[1] % 16, b[3]), disks[DriveOf(b)].head, disks[DriveOf(b)].sect) % ULONG
    else 0
  }

  // ---------- The protocol ----------

  ghost predicate Inv(s: Server) {
    && |s.buff| == 514
    && (s.readto == 0 || s.readto == 1 || s.readto == 8 || s.readto == 514)
    && (s.readto == 0 ==> s.buffoffset == 0)
    && (s.readto > 0 ==> s.buffoffset < s.readto)
    && (s.readto == 1 ==> s.workCount != 0)
    && (s.readto == 514 ==> s.workCount > 0 && s.workCommand == WRITE)
    && (s.workCount != 0 ==> s.drive in s.disks)
  }

  /** Between packets: nothing buffered, nothing awaited. */
  ghost predicate Ready(s: Server) {
    |s.buff| == 514 && s.buffoffset == 0 && s.readto == 0 && (s.workCount != 0 ==> s.drive in s.disks)
  }

  /** How many bytes the server asks its serial port for; never none. */
  function Requested(s: Server): (n: int)
    ensures Inv(s) ==> 0 < n && s.buffoffset + n <= 514
  {
    if s.readto > 0 then s.readto - s.buffoffset else 1
  }

  function Target(s: Server): nat { (s.mylba + s.workOffset) % ULONG }

  /** One more sector done; wait for the client's continuation byte if any are left. */
  function Advance(s: Server): (r: Server)
    ensures Ready(s) && s.drive in s.disks ==> Inv(r)
  {
    s.(workOffset := s.workOffset + 1, workCount := s.workCount - 1,
       readto := if s.workCount - 1 != 0 then 1 else 0)
  }

  /** A full 514-byte packet: 512 bytes of a sector and its checksum. */
  function OnSector(s: Server): (r: Server)
    requires Ready(s) && s.drive in s.disks
    ensures Inv(r)
  {
    var data: Sector := s.buff[..512];
    var crc := WordOf(s.buff[512], s.buff[513]);
    var disk := s.disks[s.drive];
    if Checksum(Words(data)) != crc || disk.readOnly then s
    else
      Advance(s.(disks := s.disks[s.drive := disk.(sectors := WriteAt(disk.sectors, Target(s), data))],
                 output := s.output + s.buff[512..514],
                 trace := s.trace + [Wrote(s.drive, Target(s), data, crc)]))
  }

  function Send(s: Server, data: Sector, e: Event): (r: Server)
    ensures Ready(s) && s.drive in s.disks ==> Inv(r)
  {
    Advance(s.(buff := Packet(data), output := s.output + Packet(data), trace := s.trace + [e]))
  }

  /** An accepted command or a continuation: ask for a sector, or send one. */
  function Respond(cfg: Config, s: Server): (r: Server)
    requires Ready(s) && s.drive in s.disks && s.workCount >= 0
    ensures Inv(r)
  {
    if s.workCount != 0 && s.workCommand == WRITE then s.(readto := 514)
    else if s.workCommand == INQUIRE then
      if cfg.speedEmulation && s.buff[5] != cfg.divisor then s.(workCount := 0)
      else
        var portBaud := WordOf(s.buff[4], s.buff[5]);
        var data := cfg.inquire(s.drive, portBaud, (s.drive == 1 && s.lastScan != 0) || s.buff[3] != 0);
        Send(s.(lastScan := s.buff[3]), data, Identified(s.drive, portBaud, s.buff[3], data))
    else if Target(s) < |s.disks[s.drive].sectors| then
      var data := s.disks[s.drive].sectors[Target(s)];
      Send(s.(lastScan := 0), data, Sent(s.drive, Target(s), data))
    else s.(halted := true)
  }

  function OnNewCommand(cfg: Config, s: Server): (r: Server)
    requires Ready(s) && s.workCount == 0
    ensures Inv(r)
  {
    var b := s.buff;
    if Checksum(Words(b[..6])) != WordOf(b[6], b[7]) then s
    else
      var s1 := s.(drive := DriveOf(b), workCommand := CommandOf(b), mylba := LbaOf(b, s.disks),
                   workOffset := 0, workCount := b[2]);
      if s1.drive !in s.disks || (s1.workCommand % 2 == 1 && s.disks[s1.drive].readOnly) then
        s1.(workCount := 0)
      else
        Respond(cfg, s1.(trace := s.trace + [Accepted(s1.drive, s1.workCommand, s1.mylba, b[2])]))
  }

  /** Eight bytes of a command, or whatever is taken for the continuation of one still open. */
  function OnCommand(cfg: Config, s: Server): (r: Server)
    requires Ready(s)
    ensures Inv(r)
  {
    if s.workCount == 0 then OnNewCommand(cfg, s)
    else if s.buff[0] != s.workCount then s.(workCount := 0)
    else Respond(cfg, s)
  }

  /** The invariant but for the bytes that have just arrived. */
  ghost predicate Buffered(s: Server) {
    && Inv(s.(buffoffset := 0)) && 0 < s.buffoffset
    && (if s.readto == 0 then s.buffoffset == 1 else s.buffoffset <= s.readto)
  }

  /** The loop body once the chunk is in the buffer. */
  function Process(cfg: Config, s: Server): (r: Server)
    requires Buffered(s)
    ensures Inv(r)
  {
    if s.readto == 0 then
      if IsHeader(s.buff[0]) then s.(readto := 8) else s.(buffoffset := 0)
    else if s.buffoffset < s.readto then s
    else if s.readto == 514 then OnSector(s.(buffoffset := 0, readto := 0))
    else OnCommand(cfg, s.(buffoffset := 0, readto := 0))
  }

  /** A chunk in the buffer. */
  function Arrived(s: Server, chunk: seq<byte>): (t: Server)
    requires Inv(s) && 0 < |chunk| <= Requested(s)
    ensures Buffered(t)
  {
    s.(buff := Splice(s.buff, s.buffoffset, chunk), buffoffset := s.buffoffset + |chunk|)
  }

  function Receive(cfg: Config, s: Server, chunk: seq<byte>): (r: Server)
    requires Inv(s) && 0 < |chunk| <= Requested(s)
    ensures Inv(r)
  {
    if s.halted then s
    else Process(cfg, Arrived(s, chunk))
  }

  /** The reference behaviour: one byte at a time. */
  function Feed(cfg: Config, s: Server, bytes: seq<byte>): (r: Server)
    requires Inv(s)
    ensures Inv(r)
  {
    if bytes == [] then s
    else Receive(cfg, Feed(cfg, s, bytes[..|bytes| - 1]), [bytes[|bytes| - 1]])
  }

  lemma FeedNothing(cfg: Config, s: Server)
    requires Inv(s)
    ensures Feed(cfg, s, []) == s
  {}

  // ---------- Chunking does not matter ----------

  /** A chunk the server asked for acts like its bytes, one after the other. */
  lemma {:induction false} ChunkIsItsBytes(cfg: Config, s: Server, chunk: seq<byte>)
    requires Inv(s) && 0 < |chunk| <= Requested(s)
    ensures Receive(cfg, s, chunk) == Feed(cfg, s, chunk)
  {
    hide Process, Feed;
    var n := |chunk| - 1;
    var front := chunk[..n];
    FeedLast(cfg, s, chunk);
    if n == 0 {
      FeedNothing(cfg, s);
      assert front == [] && [chunk[0]] == chunk;
    } else {
      ChunkIsItsBytes(cfg, s, front);
      if !s.halted {
        PartialChunk(cfg, s, front);
        var mid := Receive(cfg, s, front);
        assert Splice(mid.buff, mid.buffoffset, [chunk[n]]) == Splice(s.buff, s.buffoffset, chunk);
      }
    }
  }

  lemma FeedLast(cfg: Config, s: Server, bytes: seq<byte>)
    requires Inv(s) && bytes != []
    ensures Feed(cfg, s, bytes) == Receive(cfg, Feed(cfg, s, bytes[..|bytes| - 1]), [bytes[|bytes| - 1]])
  {
    hide Receive;
  }

  lemma PartialChunk(cfg: Config, s: Server, chunk: seq<byte>)
    requires Inv(s) && !s.halted && 0 < |chunk| < Requested(s)
    ensures Receive(cfg, s, chunk)
         == s.(buff := Splice(s.buff, s.buffoffset, chunk), buffoffset := s.buffoffset + |chunk|)
  {}

  lemma {:induction false} FeedConcat(cfg: Config, s: Server, a: seq<byte>, b: seq<byte>)
    requires Inv(s)
    ensures Feed(cfg, s, a + b) == Feed(cfg, Feed(cfg, s, a), b)
  {
    hide Receive;
    if b == [] {
      assert a + b == a;
      FeedNothing(cfg, Feed(cfg, s, a));
    } else {
      var n := |b| - 1;
      FeedConcat(cfg, s, a, b[..n]);
      assert (a + b)[..|a + b| - 1] == a + b[..n];
      FeedLast(cfg, s, a + b);
      FeedLast(cfg, Feed(cfg, s, a), b);
    }
  }

  /** After the fatal read nothing is processed any more. */
  lemma {:induction false} HaltedForGood(cfg: Config, s: Server, bytes: seq<byte>)
    requires Inv(s) && s.halted
    ensures Feed(cfg, s, bytes) == s
    decreases |bytes|
  {
    hide Process;
    if bytes != [] {
      HaltedForGood(cfg, s, bytes[..|bytes| - 1]);
    }
  }
}
