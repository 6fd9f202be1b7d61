/** Disk images: the geometry Image::init derives, and addressing by cylinder, head and sector. */
module DiskImage {
  import opened Bits

  type Sector = s: seq<byte> | |s| == 512 witness seq(512, i => 0)

  const MAX_LBA28: nat := 0xfff_ffff
  const MAX_DERIVED: nat := 65536 * 16 * 63

  datatype FloppyInfo = FloppyInfo(genuine: bool, size: nat, kind: nat, cylinders: nat, heads: nat, sectors: nat)

  const FLOPPIES: seq<FloppyInfo> := [
    FloppyInfo(true, 5760, 6, 80, 2, 36),
    FloppyInfo(false, 5600, 6, 80, 2, 36),
    FloppyInfo(false, 5800, 6, 80, 2, 36),
    FloppyInfo(true, 2880, 4, 80, 2, 18),
    FloppyInfo(false, 2800, 4, 80, 2, 18),
    FloppyInfo(true, 2400, 2, 80, 2, 15),
    FloppyInfo(true, 1440, 3, 80, 1, 18),
    FloppyInfo(true, 720, 1, 40, 2, 9),
    FloppyInfo(true, 640, 0, 40, 2, 8),
    FloppyInfo(true, 360, 0, 40, 1, 9),
    FloppyInfo(true, 320, 0, 40, 1, 8)
  ]

  /** The sizes that are taken for floppy disks. */
  ghost predicate FloppySize(size: nat) {
    size in {5760, 2880, 2400, 1440, 720, 640, 360, 320}
  }

  ghost predicate InRange(cyl: nat, head: nat, sect: nat) {
    1 <= cyl <= 65536 && 1 <= head <= 16 && 1 <= sect <= 255
  }

  /** The images Image::init accepts, given the geometry on the command line (cyl 0 for none). */
  ghost predicate Accepted(total: nat, cyl: nat, head: nat, sect: nat) {
    && 0 < total <= MAX_LBA28
    && (FloppySize(total)
        || (cyl > 0 && InRange(cyl, head, sect) && total == sect * head * cyl)
        || (cyl == 0 && (total > MAX_DERIVED || total % 1008 == 0)))
  }

  class Image {
    var cyl: nat
    var head: nat
    var sect: nat
    var floppy: bool
    var floppyType: nat
    var useCHS: bool
    var readOnly: bool
    var totallba: nat
    var sectors: seq<Sector>
    var position: nat

    constructor (contents: seq<Sector>)
      ensures sectors == contents && totallba == |contents| && !floppy
    {
      sectors, totallba, position := contents, |contents|, 0;
      cyl, head, sect, floppy, floppyType, useCHS, readOnly := 0, 0, 0, false, 0, false, false;
    }

    /** Image::init; a false result is a fatal log message. */
    method Init(pReadOnly: bool, pCyl: nat, pHead: nat, pSect: nat, pUseCHS: bool) returns (ok: bool)
      modifies this`cyl, this`head, this`sect, this`floppy, this`floppyType, this`useCHS, this`readOnly, this`totallba
      ensures ok <==> Accepted(old(totallba), pCyl, pHead, pSect)
      ensures ok ==>
        && InRange(cyl, head, sect) && readOnly == pReadOnly
        && totallba == old(totallba)
        && cyl * head * sect <= totallba
        && (cyl * head * sect < totallba <==> pCyl == 0 && totallba > MAX_DERIVED)
        && (floppy <==> FloppySize(totallba))
        && (useCHS <==> pUseCHS || floppy)
        && (pCyl > 0 && !floppy ==> cyl == pCyl && head == pHead && sect == pSect)
    {
      readOnly := pReadOnly;
      if totallba > MAX_LBA28 || totallba == 0 {
        return false;
      }
      floppy := false;
      var found := FindFloppy(totallba);
      var c, h, s, chs := pCyl, pHead, pSect, pUseCHS;
      if found < |FLOPPIES| {
        var f := FLOPPIES[found];
        floppy, floppyType := true, f.kind;
        chs, c, h, s := true, f.cylinders, f.heads, f.sectors;
        totallba := c * h * s;
      }
      ok, cyl, head, sect := ChooseGeometry(totallba, c, h, s);
      useCHS := chs;
    }

    method SeekSector(lba: nat)
      modifies this`position
      ensures position == lba
    {
      position := lba;
    }

    method WriteSector(data: Sector)
      modifies this`sectors, this`position
      ensures sectors == WriteAt(old(sectors), old(position), data) && position == old(position) + 1
    {
      sectors := WriteAt(sectors, position, data);
      position := position + 1;
    }

    /** A read beyond the end of the file is fatal. */
    method ReadSector() returns (ok: bool, data: Sector)
      modifies this`position
      ensures ok <==> old(position) < |sectors|
      ensures ok ==> data == sectors[old(position)] && position == old(position) + 1
    {
      ok, data := false, seq(512, i => 0);
      if position < |sectors| {
        ok, data := true, sectors[position];
        position := position + 1;
      }
    }
  }

  /** Writing past the end of the file extends it with zeros. */
  function WriteAt(sectors: seq<Sector>, lba: nat, data: Sector): seq<Sector> {
    if lba < |sectors| then sectors[lba := data]
    else sectors + seq(lba - |sectors|, i => seq(512, j => 0)) + [data]
  }

  /** What is where after a write: the data, what was there before, and zeros in between if there is a gap. */
  lemma WrittenSectors(sectors: seq<Sector>, lba: nat, data: Sector, i: nat)
    requires i < |sectors| || i <= lba
    ensures var r := WriteAt(sectors, lba, data);
            && |r| == (if lba < |sectors| then |sectors| else lba + 1)
            && (i == lba ==> r[i] == data) && (i != lba && i < |sectors| ==> r[i] == sectors[i])
            && (i != lba && i >= |sectors| ==> r[i] == seq(512, j => 0))
  {}

  /** The given geometry if there is one, otherwise a standard one of sixteen heads and 63 sectors. */
  method ChooseGeometry(total: nat, pCyl: nat, pHead: nat, pSect: nat)
    returns (ok: bool, cyl: nat, head: nat, sect: nat)
    requires 0 < total <= MAX_LBA28
    ensures ok <==> if pCyl > 0 then InRange(pCyl, pHead, pSect) && total == pSect * pHead * pCyl
                    else total > MAX_DERIVED || total % 1008 == 0
    ensures ok && pCyl > 0 ==> cyl == pCyl && head == pHead && sect == pSect && cyl * head * sect == total
    ensures ok && pCyl == 0 ==> head == 16 && sect == 63 && 1 <= cyl <= 65536
    ensures ok && pCyl == 0 ==> 1008 * cyl <= total && (1008 * cyl < total <==> total > MAX_DERIVED)
  {
    cyl, head, sect := 0, 0, 0;
    if pCyl != 0 {
      if pSect > 255 || pSect < 1 || pHead > 16 || pHead < 1 || pCyl > 65536 || pCyl < 1 {
        return false, cyl, head, sect;
      }
      if total != pSect * pHead * pCyl {
        return false, cyl, head, sect;
      }
      ProductOrder(pCyl, pHead, pSect);
      sect, head, cyl := pSect, pHead, pCyl;
    } else if total > MAX_DERIVED {
      cyl, head, sect := 65536, 16, 63;
    } else {
      DerivedCylinders(total);
      if total % 16 != 0 || (total / 16) % 63 != 0 {
        return false, cyl, head, sect;
      }
      sect, head := 63, 16;
      cyl := total / 63 / 16;
      if cyl > 65536 {
        return false, cyl, head, sect;
      }
    }
    return true, cyl, head, sect;
  }

  method FindFloppy(size: nat) returns (i: nat)
    ensures i <= |FLOPPIES|
    ensures i < |FLOPPIES| <==> FloppySize(size)
    ensures i < |FLOPPIES| ==>
      var f := FLOPPIES[i];
      f.size == size == f.cylinders * f.heads * f.sectors && InRange(f.cylinders, f.heads, f.sectors)
  {
    i := 0;
    while i < |FLOPPIES| && !(FLOPPIES[i].size == size && FLOPPIES[i].genuine)
      invariant i <= |FLOPPIES|
      invariant forall j :: 0 <= j < i ==> !(FLOPPIES[j].size == size && FLOPPIES[j].genuine)
    {
      i := i + 1;
    }
    if i < |FLOPPIES| {
      TableEntry(i);
    } else {
      assert FLOPPIES[0].size == 5760 && FLOPPIES[3].size == 2880 && FLOPPIES[5].size == 2400;
      assert FLOPPIES[6].size == 1440 && FLOPPIES[7].size == 720 && FLOPPIES[8].size == 640;
      assert FLOPPIES[9].size == 360 && FLOPPIES[10].size == 320;
    }
  }

  /** Every genuine table row's size is the product of its geometry. */
  lemma TableEntry(i: nat)
    requires i < |FLOPPIES| && FLOPPIES[i].genuine
    ensures var f := FLOPPIES[i];
            && f.size == f.cylinders * f.heads * f.sectors && FloppySize(f.size)
            && InRange(f.cylinders, f.heads, f.sectors)
  {
    assert !FLOPPIES[1].genuine && !FLOPPIES[2].genuine && !FLOPPIES[4].genuine;
    assert i == 0 || i == 3 || i == 5 || i == 6 || i == 7 || i == 8 || i == 9 || i == 10;
  }

  lemma ProductOrder(c: nat, h: nat, s: nat)
    ensures c * h * s == s * h * c
  {}

  lemma DerivedCylinders(total: nat)
    ensures total % 1008 == 0 <==> total % 16 == 0 && (total / 16) % 63 == 0
    ensures total % 1008 == 0 ==> total / 63 / 16 * 1008 == total
  {
    var a, b := total / 16, total % 16;
    var c, d := a / 63, a % 63;
    assert total == c * 1008 + (16 * d + b);
    DivModUnique(total, 1008, c, 16 * d + b);
    if total % 1008 == 0 {
      DivModUnique(total, 63, 16 * c, 0);
      DivModUnique(16 * c, 16, c, 0);
    }
  }

  // ---------- Cylinder, head and sector addressing ----------

  datatype Chs = Chs(cyl: nat, head: nat, sect: nat)

  ghost predicate Inside(a: Chs, cyls: nat, heads: nat, sects: nat) {
    a.cyl < cyls && a.head < heads && 1 <= a.sect <= sects
  }

  function ToLba(a: Chs, heads: nat, sects: nat): int {
    (a.cyl * heads + a.head) * sects + a.sect - 1
  }

  function FromLba(lba: nat, heads: nat, sects: nat): Chs
    requires heads > 0 && sects > 0
  {
    Chs(lba / sects / heads, lba / sects % heads, lba % sects + 1)
  }

  /** The name after a name: sectors first, then heads, then cylinders. */
  function Following(a: Chs, heads: nat, sects: nat): Chs {
    if a.sect < sects then a.(sect := a.sect + 1)
    else if a.head + 1 < heads then Chs(a.cyl, a.head + 1, 1)
    else Chs(a.cyl + 1, 0, 1)
  }

  /** Sector numbers count the in-range names from the first one, without gaps. */
  lemma CountsUp(a: Chs, heads: nat, sects: nat)
    requires a.head < heads && 1 <= a.sect <= sects
    ensures ToLba(Chs(0, 0, 1), heads, sects) == 0
    ensures ToLba(Following(a, heads, sects), heads, sects) == ToLba(a, heads, sects) + 1
  {
    var track := a.cyl * heads + a.head;
    assert (a.cyl + 1) * heads == a.cyl * heads + heads;
    assert (track + 1) * sects == track * sects + sects;
  }

  /** Every in-range triple names a sector of the image, and FromLba recovers it. */
  lemma ChsRoundTrip(a: Chs, cyls: nat, heads: nat, sects: nat)
    requires heads > 0 && sects > 0 && Inside(a, cyls, heads, sects)
    ensures 0 <= ToLba(a, heads, sects) < cyls * heads * sects
    ensures FromLba(ToLba(a, heads, sects), heads, sects) == a
  {
    var track := a.cyl * heads + a.head;
    assert track < cyls * heads by {
      SubMul(cyls, a.cyl, heads);
      MulAtLeast(cyls - a.cyl, heads);
    }
    SubMul(cyls * heads, track, sects);
    MulAtLeast(cyls * heads - track, sects);
    DivModUnique(track * sects + a.sect - 1, sects, track, a.sect - 1);
    DivModUnique(track, heads, a.cyl, a.head);
  }

  /** Every sector up to the geometry's product has exactly one in-range name. */
  lemma LbaRoundTrip(lba: nat, cyls: nat, heads: nat, sects: nat)
    requires heads > 0 && sects > 0 && lba < cyls * heads * sects
    ensures Inside(FromLba(lba, heads, sects), cyls, heads, sects)
    ensures ToLba(FromLba(lba, heads, sects), heads, sects) == lba
  {
    var track := lba / sects;
    assert lba == track * sects + lba % sects;
    assert track < cyls * heads by {
      if track >= cyls * heads {
        MulMonotone(cyls * heads, track, sects);
      }
    }
    assert track == (track / heads) * heads + track % heads;
    if track / heads >= cyls {
      MulMonotone(cyls, track / heads, heads);
    }
  }
}
