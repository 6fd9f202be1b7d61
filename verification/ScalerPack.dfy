/** The scaler's pixel packer and unpacker for 128-bit memory words. Words and shift registers are kept as
    bytes, the most significant first. */
module ScalerPack {
  import opened Bits

  datatype Pixel = Pixel(r: byte, g: byte, b: byte)

  datatype Format = Rgb565 | Rgb24 | Rgb32

  function Size(f: Format): nat {
    match f
    case Rgb565 => 2
    case Rgb24 => 3
    case Rgb32 => 4
  }

  /** Where in a word the pixel with count acpt starts. */
  function Offset(acpt: nat, f: Format): nat {
    match f
    case Rgb565 => 2 * (acpt % 8)
    case Rgb24 => if acpt <= 5 then 3 * acpt else if acpt <= 10 then 3 * acpt - 16 else 3 * acpt - 32
    case Rgb32 => 4 * (acpt % 4)
  }

  /** The two bytes of the 565 layout: low green and red, then blue and high green. */
  function First565(p: Pixel): byte { p.g / 4 % 8 * 32 + p.r / 8 }
  function Second565(p: Pixel): byte { p.b / 8 * 8 + p.g / 32 }

  /** The bytes a pixel is stored as. */
  function Bytes(p: Pixel, f: Format): (s: seq<byte>)
    ensures |s| == Size(f)
  {
    match f
    case Rgb565 => [First565(p), Second565(p)]
    case Rgb24 => [p.r, p.g, p.b]
    case Rgb32 => [p.r, p.g, p.b, 0]
  }

  // ---------- Packing ----------

  function Ishift(shift: seq<byte>, p: Pixel, f: Format): (r: seq<byte>)
    requires |shift| == 15
    ensures |r| == 15
  {
    match f
    case Rgb24 => shift[3..] + Bytes(p, f)
    case Rgb32 => shift[4..] + Bytes(p, f)
    case Rgb565 => shift[2..] + Bytes(p, f)
  }

  function Ipack(dw: seq<byte>, acpt: nat, shift: seq<byte>, p: Pixel, f: Format): (r: seq<byte>)
    requires |dw| == 16 && |shift| == 15
    ensures |r| == 16
  {
    match f
    case Rgb24 =>
      if acpt == 5 then shift + [p.r]
      else if acpt == 10 then shift[1..] + [p.r, p.g]
      else if acpt == 15 then shift[2..] + Bytes(p, f)
      else dw
    case Rgb32 => if acpt % 4 == 3 then shift[3..] + Bytes(p, f) else dw
    case Rgb565 => if acpt % 8 == 7 then shift[1..] + Bytes(p, f) else dw
  }

  predicate Inext(acpt: nat, f: Format) {
    match f
    case Rgb24 => acpt == 5 || acpt == 10 || acpt == 15
    case Rgb32 => acpt % 4 == 3
    case Rgb565 => acpt % 8 == 7
  }

  lemma Mod16(x: nat, q: nat, r: nat)
    requires x == 16 * q + r && r < 16
    ensures x / 16 == q && x % 16 == r
  {}

  lemma AddMod(x: nat, s: nat)
    requires s < 16
    ensures (x + s) % 16 == (x % 16 + s) % 16
    ensures (x + s) / 16 == x / 16 + if x % 16 + s >= 16 then 1 else 0
  {
    var q, r := x / 16, x % 16;
    if r + s >= 16 {
      Mod16(x + s, q + 1, r + s - 16);
      Mod16(r + s, 1, r + s - 16);
    } else {
      Mod16(x + s, q, r + s);
      Mod16(r + s, 0, r + s);
    }
  }

  lemma WholeSlices<T>(s: seq<T>)
    ensures s[0..] == s && s[..|s|] == s
  {}

  lemma ShortPrefixes<T>(s: seq<T>, a: T, b: T)
    requires |s| >= 2 && s[0] == a && s[1] == b
    ensures s[..1] == [a] && s[..2] == [a, b]
  {}

  /** A word is completed exactly when the pixel's bytes reach its end. */
  lemma NextInput(acpt: nat, f: Format)
    requires acpt < 16
    ensures Inext(acpt, f) <==> Offset(acpt, f) + Size(f) >= 16
  {}

  lemma OffsetAtEnd(acpt: nat, f: Format)
    requires acpt < 16 && Inext(acpt, f)
    ensures var k := Offset(acpt, f);
            match f
            case Rgb565 => acpt % 8 == 7 && k == 14
            case Rgb24 => (acpt == 5 && k == 15) || (acpt == 10 && k == 14) || (acpt == 15 && k == 13)
            case Rgb32 => acpt % 4 == 3 && k == 12
  {}

  /** The completed word is the right sixteen bytes of the shift register and the pixel. */
  lemma PackedWord(dw: seq<byte>, acpt: nat, shift: seq<byte>, p: Pixel, f: Format)
    requires |dw| == 16 && |shift| == 15 && acpt < 16 && Inext(acpt, f)
    ensures var k := Offset(acpt, f);
            12 <= k < 16 <= k + Size(f) && Ipack(dw, acpt, shift, p, f) == shift[15 - k..] + Bytes(p, f)[..16 - k]
  {
    OffsetAtEnd(acpt, f);
    WholeSlices(Bytes(p, f));
    hide Offset, Inext, Bytes;
    if f == Rgb24 {
      hide Ipack;
      PackedWord24(dw, acpt, shift, p, Offset(acpt, f));
    }
  }

  lemma PackedWord24(dw: seq<byte>, acpt: nat, shift: seq<byte>, p: Pixel, k: nat)
    requires |dw| == 16 && |shift| == 15
    requires (acpt == 5 && k == 15) || (acpt == 10 && k == 14) || (acpt == 15 && k == 13)
    ensures Ipack(dw, acpt, shift, p, Rgb24) == shift[15 - k..] + Bytes(p, Rgb24)[..16 - k]
  {
    var bytes := Bytes(p, Rgb24);
    assert bytes[0] == p.r && bytes[1] == p.g;
    hide Bytes;
    WholeSlices(shift);
    WholeSlices(bytes);
    ShortPrefixes(bytes, p.r, p.g);
    if acpt == 5 {
      assert k == 15;
    } else if acpt == 10 {
      assert k == 14;
    } else {
      assert k == 13;
    }
  }

  lemma ShiftStep(shift: seq<byte>, p: Pixel, f: Format)
    requires |shift| == 15
    ensures Ishift(shift, p, f) == shift[Size(f)..] + Bytes(p, f)
  {
    hide Bytes;
  }

  /** The registers of the input side and the words pushed so far. */
  datatype Packer = Packer(shift: seq<byte>, acpt: nat, dw: seq<byte>, out: seq<seq<byte>>)

  ghost predicate PackerOk(s: Packer) { |s.shift| == 15 && s.acpt < 16 && |s.dw| == 16 }

  /** One accepted pixel. */
  function PackPixel(s: Packer, p: Pixel, f: Format): (r: Packer)
    requires PackerOk(s)
    ensures PackerOk(r)
  {
    var dw := Ipack(s.dw, s.acpt, s.shift, p, f);
    Packer(Ishift(s.shift, p, f), (s.acpt + 1) % 16, dw, if Inext(s.acpt, f) then s.out + [dw] else s.out)
  }

  function PackLine(s: Packer, line: seq<Pixel>, f: Format): (r: Packer)
    requires PackerOk(s)
    ensures PackerOk(r)
  {
    if line == [] then s
    else PackPixel(PackLine(s, line[..|line| - 1], f), line[|line| - 1], f)
  }

  /** The line's pixels one after another, as bytes. */
  function Stream(line: seq<Pixel>, f: Format): (r: seq<byte>)
    ensures |r| == |line| * Size(f)
  {
    if line == [] then [] else Stream(line[..|line| - 1], f) + Bytes(line[|line| - 1], f)
  }

  /** The packer has pushed exactly the complete words of the byte stream and holds its last fifteen bytes. */
  ghost predicate Holds(s: Packer, f: Format, init: seq<byte>, stream: seq<byte>)
    requires |init| == 15
  {
    && PackerOk(s)
    && |stream| % 16 == Offset(s.acpt, f)
    && s.shift == (init + stream)[|stream|..]
    && WordsOf(s.out, stream)
  }

  lemma DropDrop<T>(s: seq<T>, a: nat, b: nat)
    requires a + b <= |s|
    ensures s[a..][b..] == s[a + b..]
  {}

  lemma DropHead<T>(head: seq<T>, tail: seq<T>, n: nat)
    requires n <= |tail|
    ensures (head + tail)[|head| + n..] == tail[n..]
  {}

  lemma DropBefore<T>(head: seq<T>, tail: seq<T>, n: nat)
    requires n <= |head|
    ensures (head + tail)[n..] == head[n..] + tail
  {}

  /** The last bytes of the shift register are the last bytes of the stream. */
  lemma LastBytes<T>(init: seq<T>, stream: seq<T>, keep: nat)
    requires |init| == 15 && keep <= 15 && keep <= |stream|
    ensures (init + stream)[|stream|..][15 - keep..] == stream[|stream| - keep..]
  {
    DropDrop(init + stream, |stream|, 15 - keep);
    DropHead(init, stream, |stream| - keep);
  }

  lemma ShiftedIn<T>(init: seq<T>, stream: seq<T>, more: seq<T>)
    requires |init| == 15 && |more| <= 15
    ensures (init + (stream + more))[|stream + more|..] == (init + stream)[|stream|..][|more|..] + more
  {
    assert init + (stream + more) == (init + stream) + more;
    DropBefore(init + stream, more, |stream| + |more|);
    DropDrop(init + stream, |stream|, |more|);
  }

  lemma NextOffset(acpt: nat, f: Format)
    requires acpt < 16
    ensures Offset(acpt, f) < 16
    ensures Offset((acpt + 1) % 16, f) == Offset(acpt, f) + Size(f)
         || Offset((acpt + 1) % 16, f) == Offset(acpt, f) + Size(f) - 16
  {
    if acpt == 15 {
      assert (acpt + 1) % 16 == 0 && acpt % 8 == 7 && acpt % 4 == 3;
    } else {
      assert (acpt + 1) % 16 == acpt + 1;
      AddMod8(acpt);
    }
  }

  lemma AddMod8(x: nat)
    ensures (x + 1) % 8 == if x % 8 == 7 then 0 else x % 8 + 1
    ensures (x + 1) % 4 == if x % 4 == 3 then 0 else x % 4 + 1
  {}

  lemma NextPosition(acpt: nat, f: Format, at: nat)
    requires acpt < 16 && at % 16 == Offset(acpt, f)
    ensures (at + Size(f)) % 16 == Offset((acpt + 1) % 16, f)
    ensures (at + Size(f)) / 16 == at / 16 + if Inext(acpt, f) then 1 else 0
  {
    NextInput(acpt, f);
    NextOffset(acpt, f);
    hide Inext, Offset;
    AddMod(at, Size(f));
    NextOffset((acpt + 1) % 16, f);
  }

  lemma LastWord<T>(stream: seq<T>, b: seq<T>, q: nat, k: nat)
    requires |stream| == 16 * q + k && k < 16 <= k + |b|
    ensures (stream + b)[16 * q..16 * q + 16] == stream[16 * q..] + b[..16 - k]
  {
    var word, form := (stream + b)[16 * q..16 * q + 16], stream[16 * q..] + b[..16 - k];
    assert |form| == 16;
    forall i | 0 <= i < 16
      ensures word[i] == form[i]
    {
      assert word[i] == (stream + b)[16 * q + i];
    }
  }

  ghost predicate WordsOf(out: seq<seq<byte>>, stream: seq<byte>) {
    |out| == |stream| / 16 && forall w :: 0 <= w < |out| ==> out[w] == stream[16 * w..16 * w + 16]
  }

  lemma OldWord<T>(stream: seq<T>, b: seq<T>, w: nat)
    requires 16 * w + 16 <= |stream|
    ensures (stream + b)[16 * w..16 * w + 16] == stream[16 * w..16 * w + 16]
  {}

  lemma SameWords(out: seq<seq<byte>>, stream: seq<byte>, b: seq<byte>)
    requires WordsOf(out, stream) && |stream + b| / 16 == |out|
    ensures WordsOf(out, stream + b)
  {
    forall w | 0 <= w < |out|
      ensures out[w] == (stream + b)[16 * w..16 * w + 16]
    {
      OldWord(stream, b, w);
    }
  }

  lemma OneMoreWord(out: seq<seq<byte>>, stream: seq<byte>, b: seq<byte>, word: seq<byte>)
    requires WordsOf(out, stream) && |stream + b| / 16 == |out| + 1 && |stream| % 16 + |b| >= 16
    requires word == stream[16 * |out|..] + b[..16 - |stream| % 16]
    ensures WordsOf(out + [word], stream + b)
  {
    LastWord(stream, b, |out|, |stream| % 16);
    forall w | 0 <= w < |out|
      ensures out[w] == (stream + b)[16 * w..16 * w + 16]
    {
      OldWord(stream, b, w);
    }
  }

  lemma PackPixelHolds(s: Packer, p: Pixel, f: Format, init: seq<byte>, stream: seq<byte>)
    requires |init| == 15 && Holds(s, f, init, stream)
    ensures Holds(PackPixel(s, p, f), f, init, stream + Bytes(p, f))
  {
    var b, k := Bytes(p, f), Offset(s.acpt, f);
    NextPosition(s.acpt, f, |stream|);
    ShiftStep(s.shift, p, f);
    ShiftedIn(init, stream, b);
    if Inext(s.acpt, f) {
      PackedWord(s.dw, s.acpt, s.shift, p, f);
      hide Inext, Ipack, Ishift, Offset, Bytes, WordsOf;
      LastBytes(init, stream, k);
      OneMoreWord(s.out, stream, b, Ipack(s.dw, s.acpt, s.shift, p, f));
    } else {
      hide Inext, Ipack, Ishift, Offset, Bytes, WordsOf;
      SameWords(s.out, stream, b);
    }
  }

  ghost predicate Fresh(s: Packer) { PackerOk(s) && s.acpt == 0 && s.out == [] }

  /** After any line, of any length, the words pushed are exactly the complete words of the line's bytes. */
  lemma {:induction false} PackedWords(s: Packer, line: seq<Pixel>, f: Format)
    requires Fresh(s)
    ensures Holds(PackLine(s, line, f), f, s.shift, Stream(line, f))
  {
    if line == [] {
      assert s.shift + [] == s.shift;
      WholeSlices(s.shift);
    } else {
      var before := line[..|line| - 1];
      PackedWords(s, before, f);
      hide Holds, PackPixel;
      PackPixelHolds(PackLine(s, before, f), line[|line| - 1], f, s.shift, Stream(before, f));
    }
  }

  // ---------- Unpacking ----------

  function Opack(acpt: nat, shift: seq<byte>, dr: seq<byte>, f: Format): (r: seq<byte>)
    requires |shift| == 18 && |dr| == 16
    ensures |r| == 18
  {
    match f
    case Rgb565 => if acpt % 8 == 0 then dr + dr[14..] else shift[2..] + dr[14..]
    case Rgb24 =>
      if acpt == 0 then dr + dr[14..]
      else if acpt == 5 then shift[3..4] + dr + dr[15..]
      else if acpt == 10 then shift[3..5] + dr
      else shift[3..] + dr[13..]
    case Rgb32 => if acpt % 4 == 0 then dr + dr[14..] else shift[4..] + dr[12..]
  }

  predicate Onext(acpt: nat, f: Format) {
    match f
    case Rgb565 => acpt % 8 == 0
    case Rgb24 => acpt == 0 || acpt == 5 || acpt == 10
    case Rgb32 => acpt % 4 == 0
  }

  /** The pixel at the head of the shift register; missing low bits repeat the high ones. */
  function Opix(shift: seq<byte>, f: Format): Pixel
    requires |shift| >= Size(f)
  {
    match f
    case Rgb565 =>
      var red, green, blue := shift[0] % 32, shift[1] % 8 * 8 + shift[0] / 32, shift[1] / 8;
      Pixel(8 * red + red / 4, 4 * green + green / 16, 8 * blue + blue / 4)
    case _ => Pixel(shift[0], shift[1], shift[2])
  }

  /** What the 565 layout keeps of a pixel: the top bits, repeated below. */
  function Quantised(p: Pixel, f: Format): Pixel {
    if f == Rgb565 then
      Pixel(8 * (p.r / 8) + p.r / 32, 4 * (p.g / 4) + p.g / 64, 8 * (p.b / 8) + p.b / 32)
    else p
  }

  /** The five-bit fields. */
  lemma ByEights(x: byte)
    ensures x / 8 / 4 == x / 32 && (8 * (x / 8) + x / 32) / 8 == x / 8
  {
    var q, h := x / 8, x / 8 / 4;
    DivModUnique(x, 32, h, x - 32 * h);
    DivModUnique(8 * q + h, 8, q, h);
  }

  /** The six-bit field, and its two parts. */
  lemma ByFours(x: byte)
    ensures x / 4 / 16 == x / 64 && (4 * (x / 4) + x / 64) / 4 == x / 4
    ensures x / 4 / 8 == x / 32 && 8 * (x / 32) + x / 4 % 8 == x / 4
  {
    var q, h, k := x / 4, x / 4 / 16, x / 4 / 8;
    DivModUnique(x, 64, h, x - 64 * h);
    DivModUnique(x, 32, k, x - 32 * k);
    DivModUnique(4 * q + h, 4, q, h);
  }

  lemma TwoBytes(p: Pixel)
    ensures First565(p) % 32 == p.r / 8 && First565(p) / 32 == p.g / 4 % 8
    ensures Second565(p) % 8 == p.g / 32 && Second565(p) / 8 == p.b / 8
  {
    DivModUnique(First565(p), 32, p.g / 4 % 8, p.r / 8);
    DivModUnique(Second565(p), 8, p.b / 8, p.g / 32);
  }

  /** Reading back a pixel's own bytes. */
  lemma PixelRoundTrip(p: Pixel, f: Format)
    ensures Opix(Bytes(p, f), f) == Quantised(p, f)
  {
    TwoBytes(p);
    ByEights(p.r);
    ByFours(p.g);
    ByEights(p.b);
    hide First565, Second565;
  }

  /** Storing the quantised pixel again loses nothing more. */
  lemma Idempotent(p: Pixel, f: Format)
    ensures Bytes(Quantised(p, f), f) == Bytes(p, f)
  {
    if f == Rgb565 {
      ByEights(p.r);
      ByFours(p.g);
      ByEights(p.b);
      var q := Quantised(p, f);
      assert q.r / 8 == p.r / 8 && q.g / 4 == p.g / 4 && q.b / 8 == p.b / 8;
      ByFours(q.g);
      hide Quantised;
    }
  }

  /** The registers of the output side, the address of the word it reads, and the pixels produced. */
  datatype Unpacker = Unpacker(shift: seq<byte>, acpt: nat, ad: nat, line: seq<Pixel>)

  ghost predicate UnpackerOk(s: Unpacker) { |s.shift| == 18 && s.acpt < 16 }

  /** The words in memory; what lies beyond the line is anything. */
  type Memory = nat -> seq<byte>

  ghost predicate MemoryOk(words: Memory) { forall w :: |words(w)| == 16 }

  /** One pixel taken. */
  ghost function UnpackPixel(s: Unpacker, words: Memory, f: Format): (r: Unpacker)
    requires UnpackerOk(s) && MemoryOk(words)
    ensures UnpackerOk(r) && |r.line| == |s.line| + 1
  {
    hide Opack, Opix, Onext;
    var shift := Opack(s.acpt, s.shift, words(s.ad), f);
    Unpacker(shift, (s.acpt + 1) % 16, if Onext(s.acpt, f) then s.ad + 1 else s.ad, s.line + [Opix(shift, f)])
  }

  ghost function UnpackLine(s: Unpacker, words: Memory, f: Format, n: nat): (r: Unpacker)
    requires UnpackerOk(s) && MemoryOk(words)
    ensures UnpackerOk(r) && |r.line| == |s.line| + n
  {
    if n == 0 then s else UnpackPixel(UnpackLine(s, words, f, n - 1), words, f)
  }

  ghost function ByteAt(words: Memory, j: nat): byte
    requires MemoryOk(words)
  {
    words(j / 16)[j % 16]
  }

  /** A new word is fetched exactly when the pixel at offset k needs bytes that are not there yet. */
  lemma NextOutput(acpt: nat, f: Format)
    requires acpt < 16
    ensures Onext(acpt, f) <==> Offset(acpt, f) == 0 || Offset(acpt, f) + Size(f) > 16
  {}

  /** The shift register after a step: the rest of the old bytes, then the new word if one is fetched. */
  lemma OpackForm(acpt: nat, shift: seq<byte>, dr: seq<byte>, f: Format)
    requires |shift| == 18 && |dr| == 16 && acpt < 16
    ensures var k, r := Offset(acpt, f), Opack(acpt, shift, dr, f);
            && k < 16
            && (k == 0 ==> r[..16] == dr)
            && (k > 0 ==> Size(f) + 16 - k <= 18 && r[..16 - k] == shift[Size(f)..Size(f) + 16 - k])
            && (k > 0 && Onext(acpt, f) ==> k >= 14 && r[16 - k..32 - k] == dr)
  {
    if f == Rgb24 {
      Opack24(acpt, shift, dr);
    }
  }

  lemma Opack24(acpt: nat, shift: seq<byte>, dr: seq<byte>)
    requires |shift| == 18 && |dr| == 16 && acpt < 16
    ensures var k, r := Offset(acpt, Rgb24), Opack(acpt, shift, dr, Rgb24);
            && k < 16
            && (k == 0 ==> acpt == 0 && r[..16] == dr)
            && (k > 0 ==> r[..16 - k] == shift[3..19 - k])
            && (k > 0 && Onext(acpt, Rgb24) ==> k >= 14 && r[16 - k..32 - k] == dr)
  {
    var k, r := Offset(acpt, Rgb24), Opack(acpt, shift, dr, Rgb24);
    if acpt == 5 {
      assert k == 15 && r == shift[3..4] + dr + dr[15..];
      assert r[..1] == shift[3..4] && r[1..17] == dr;
    } else if acpt == 10 {
      assert k == 14 && r == shift[3..5] + dr;
      assert r[..2] == shift[3..5] && r[2..18] == dr;
    } else if acpt != 0 {
      assert k > 0 && r == shift[3..] + dr[13..];
      assert r[..16 - k] == shift[3..19 - k];
    }
  }

  /** Before the pixel at byte position at: the words below s.ad have been read, and behind the last pixel
      the shift register holds every byte of them that is still to come. */
  ghost predicate Ahead(s: Unpacker, words: Memory, f: Format, at: nat)
    requires MemoryOk(words)
  {
    && UnpackerOk(s)
    && at % 16 == Offset(s.acpt, f)
    && s.ad == (at + 15) / 16
    && forall j :: at <= j < 16 * s.ad ==> Size(f) + j - at < 18 && s.shift[Size(f) + j - at] == ByteAt(words, j)
  }

  /** After the step the shift register starts at that pixel. */
  ghost predicate At(shift: seq<byte>, words: Memory, at: nat, end: nat)
    requires MemoryOk(words)
  {
    forall j :: at <= j < end ==> j - at < |shift| && shift[j - at] == ByteAt(words, j)
  }

  lemma FirstWord(shift: seq<byte>, words: Memory, at: nat, q: nat)
    requires MemoryOk(words) && at == 16 * q && |shift| == 18 && shift[..16] == words(q)
    ensures At(shift, words, at, at + 16)
  {
    forall j | at <= j < at + 16
      ensures shift[j - at] == ByteAt(words, j)
    {
      assert shift[j - at] == shift[..16][j - at];
    }
  }

  lemma RestOfWord(prev: seq<byte>, shift: seq<byte>, words: Memory, f: Format, at: nat, n: nat)
    requires MemoryOk(words) && |prev| == 18 && |shift| == 18 && Size(f) + n <= 18 && n <= 18
    requires forall j :: at <= j < at + n ==> Size(f) + j - at < 18 && prev[Size(f) + j - at] == ByteAt(words, j)
    requires shift[..n] == prev[Size(f)..Size(f) + n]
    ensures At(shift, words, at, at + n)
  {
    hide ByteAt;
    forall j | at <= j < at + n
      ensures shift[j - at] == ByteAt(words, j)
    {
      assert shift[j - at] == shift[..n][j - at] == prev[Size(f)..Size(f) + n][j - at];
    }
  }

  lemma NewWord(shift: seq<byte>, words: Memory, at: nat, n: nat, q: nat)
    requires MemoryOk(words) && |shift| == 18 && n <= 2 && at + n == 16 * q
    requires At(shift, words, at, at + n) && shift[n..n + 16] == words(q)
    ensures At(shift, words, at, at + n + 16)
  {
    forall j | at <= j < at + n + 16
      ensures shift[j - at] == ByteAt(words, j)
    {
      if j >= at + n {
        assert shift[j - at] == shift[n..n + 16][j - at - n];
      }
    }
  }

  lemma OutputPosition(acpt: nat, f: Format, at: nat)
    requires acpt < 16 && at % 16 == Offset(acpt, f)
    ensures (at + Size(f)) % 16 == Offset((acpt + 1) % 16, f)
    ensures (at + 15) / 16 == at / 16 + if at % 16 == 0 then 0 else 1
    ensures (at + Size(f) + 15) / 16 == (at + 15) / 16 + if Onext(acpt, f) then 1 else 0
    ensures at + Size(f) <= 16 * ((at + Size(f) + 15) / 16)
  {
    NextPosition(acpt, f, at);
    NextOutput(acpt, f);
    hide Onext, Offset;
    AddMod(at, 15);
    AddMod(at, Size(f));
    AddMod(at + Size(f), 15);
  }

  lemma StepWindow(s: Unpacker, words: Memory, f: Format, at: nat)
    requires MemoryOk(words) && UnpackerOk(s) && Ahead(s, words, f, at)
    ensures var end := (at + Size(f) + 15) / 16 * 16;
            At(Opack(s.acpt, s.shift, words(s.ad), f), words, at, end)
  {
    var k, q, dr := at % 16, at / 16, words(s.ad);
    var shift := Opack(s.acpt, s.shift, dr, f);
    OpackForm(s.acpt, s.shift, dr, f);
    NextOutput(s.acpt, f);
    OutputPosition(s.acpt, f, at);
    hide Opack, Onext, Opix, Offset, ByteAt, At;
    if k == 0 {
      FirstWord(shift, words, at, q);
    } else {
      RestOfWord(s.shift, shift, words, f, at, 16 - k);
      if Onext(s.acpt, f) {
        NewWord(shift, words, at, 16 - k, q + 1);
      }
    }
  }

  /** The output side produces the pixel at its position and is then ready for the next one. */
  lemma UnpackStep(s: Unpacker, words: Memory, f: Format, at: nat)
    requires MemoryOk(words) && UnpackerOk(s) && Ahead(s, words, f, at)
    ensures var r := UnpackPixel(s, words, f);
            && Ahead(r, words, f, at + Size(f))
            && at + Size(f) <= 16 * r.ad && At(r.shift, words, at, 16 * r.ad)
  {
    var r := UnpackPixel(s, words, f);
    StepWindow(s, words, f, at);
    OutputPosition(s.acpt, f, at);
    hide Opack, Onext, Opix, Offset, ByteAt;
  }

  // ---------- The round trip ----------

  ghost predicate Start(u: Unpacker) { UnpackerOk(u) && u.acpt == 0 && u.ad == 0 && u.line == [] }

  lemma NextPixel(n: nat, f: Format)
    requires n > 0
    ensures n * Size(f) == (n - 1) * Size(f) + Size(f)
  {}

  lemma {:induction false} UnpackedAhead(u: Unpacker, words: Memory, f: Format, n: nat)
    requires Start(u) && MemoryOk(words)
    ensures Ahead(UnpackLine(u, words, f, n), words, f, n * Size(f))
  {
    hide UnpackPixel, ByteAt, Onext;
    if n == 0 {
      assert n * Size(f) == 0;
    } else {
      hide Ahead;
      UnpackedAhead(u, words, f, n - 1);
      UnpackStep(UnpackLine(u, words, f, n - 1), words, f, (n - 1) * Size(f));
      NextPixel(n, f);
    }
  }

  lemma SamePixel(a: seq<byte>, b: seq<byte>, f: Format)
    requires |a| >= Size(f) && |b| == Size(f) && forall j :: 0 <= j < Size(f) ==> a[j] == b[j]
    ensures Opix(a, f) == Opix(b, f)
  {
    assert a[0] == b[0] && a[1] == b[1];
    if f != Rgb565 {
      assert a[2] == b[2];
    }
  }

  /** Where a pixel's bytes are in the stream. */
  lemma {:induction false} StreamAt(line: seq<Pixel>, f: Format, i: nat, j: nat)
    requires i < |line| && j < Size(f)
    ensures i * Size(f) + j < |Stream(line, f)| && Stream(line, f)[i * Size(f) + j] == Bytes(line[i], f)[j]
  {
    hide Bytes;
    var n := |line| - 1;
    NextPixel(|line|, f);
    if i < n {
      StreamAt(line[..n], f, i, j);
    }
  }

  /** The memory holds the words the packer pushed; beyond them it holds anything. */
  ghost predicate Stored(words: Memory, out: seq<seq<byte>>) {
    MemoryOk(words) && forall w :: 0 <= w < |out| ==> words(w) == out[w]
  }

  lemma StoredByte(words: Memory, out: seq<seq<byte>>, stream: seq<byte>, j: nat)
    requires Stored(words, out) && WordsOf(out, stream) && j < 16 * |out|
    ensures j < |stream| && ByteAt(words, j) == stream[j]
  {
    var w := j / 16;
    assert words(w) == stream[16 * w..16 * w + 16];
    assert stream[16 * w..16 * w + 16][j % 16] == stream[j];
  }

  /** A step at a position where the stream has a pixel's bytes produces what they decode to. */
  lemma StepDecodes(u: Unpacker, words: Memory, f: Format, at: nat,
                    out: seq<seq<byte>>, stream: seq<byte>, b: seq<byte>)
    requires Stored(words, out) && WordsOf(out, stream) && UnpackerOk(u) && Ahead(u, words, f, at)
    requires |b| == Size(f) && at + Size(f) <= 16 * |out| && at + Size(f) <= |stream|
    requires forall j :: 0 <= j < Size(f) ==> stream[at + j] == b[j]
    ensures UnpackPixel(u, words, f).line == u.line + [Opix(b, f)]
  {
    var r := UnpackPixel(u, words, f);
    UnpackStep(u, words, f, at);
    assert r.line == u.line + [Opix(r.shift, f)] by { hide Opix, Opack, Onext, Ahead, At; }
    hide Opix, Ahead, WordsOf, Stored, ByteAt, UnpackPixel;
    forall j | 0 <= j < Size(f)
      ensures r.shift[j] == b[j]
    {
      StoredByte(words, out, stream, at + j);
      assert r.shift[at + j - at] == ByteAt(words, at + j);
    }
    SamePixel(r.shift, b, f);
  }

  lemma PixelBytes(line: seq<Pixel>, f: Format, i: nat)
    requires i < |line|
    ensures i * Size(f) + Size(f) <= |Stream(line, f)|
    ensures forall j :: 0 <= j < Size(f) ==> Stream(line, f)[i * Size(f) + j] == Bytes(line[i], f)[j]
  {
    hide Stream, Bytes;
    StreamAt(line, f, i, Size(f) - 1);
    forall j | 0 <= j < Size(f)
      ensures Stream(line, f)[i * Size(f) + j] == Bytes(line[i], f)[j]
    {
      StreamAt(line, f, i, j);
    }
  }

  /** What a line keeps of its pixels. */
  function Kept(line: seq<Pixel>, f: Format): (r: seq<Pixel>)
    ensures |r| == |line|
  {
    if line == [] then [] else Kept(line[..|line| - 1], f) + [Quantised(line[|line| - 1], f)]
  }

  lemma {:induction false} PixelsBack(line: seq<Pixel>, f: Format, out: seq<seq<byte>>,
                                      u: Unpacker, words: Memory, n: nat)
    requires Start(u) && MemoryOk(words) && Stored(words, out) && WordsOf(out, Stream(line, f))
    requires n <= |line| && n * Size(f) <= 16 * |out|
    ensures UnpackLine(u, words, f, n).line == Kept(line[..n], f)
  {
    hide Bytes, Opix, Quantised, Ahead, WordsOf, Stored, UnpackPixel, Stream;
    if n > 0 {
      var before, at, b := UnpackLine(u, words, f, n - 1), (n - 1) * Size(f), Bytes(line[n - 1], f);
      NextPixel(n, f);
      PixelsBack(line, f, out, u, words, n - 1);
      UnpackedAhead(u, words, f, n - 1);
      PixelBytes(line, f, n - 1);
      PixelRoundTrip(line[n - 1], f);
      StepDecodes(before, words, f, at, out, Stream(line, f), b);
      assert line[..n][..n - 1] == line[..n - 1];
    }
  }

  /** For any line, whatever the registers and the rest of the memory hold: every pixel whose bytes lie in
      a pushed word comes back, exactly in the 24 and 32 bit formats and as its 565 quantisation otherwise. */
  lemma RoundTrip(s: Packer, line: seq<Pixel>, f: Format, u: Unpacker, words: Memory, n: nat)
    requires Fresh(s) && Start(u) && Stored(words, PackLine(s, line, f).out)
    requires n <= |line| && n * Size(f) <= 16 * |PackLine(s, line, f).out|
    ensures UnpackLine(u, words, f, n).line == Kept(line[..n], f)
  {
    PackedWords(s, line, f);
    var out := PackLine(s, line, f).out;
    assert WordsOf(out, Stream(line, f)) && MemoryOk(words);
    hide *;
    PixelsBack(line, f, out, u, words, n);
  }

  lemma WholeLine(n: nat, f: Format)
    requires n % 16 == 0
    ensures n * Size(f) % 16 == 0 && (n * Size(f) + 15) / 16 == n * Size(f) / 16
  {
    var h := n / 16;
    assert n * Size(f) == 16 * (h * Size(f));
  }

  /** A line of a multiple of sixteen pixels comes back whole, and the words read are exactly the words pushed. */
  lemma LineRoundTrip(s: Packer, line: seq<Pixel>, f: Format, u: Unpacker, words: Memory)
    requires Fresh(s) && Start(u) && Stored(words, PackLine(s, line, f).out) && |line| % 16 == 0
    ensures UnpackLine(u, words, f, |line|).line == Kept(line, f)
    ensures UnpackLine(u, words, f, |line|).ad == |PackLine(s, line, f).out|
  {
    var n := |line|;
    WholeLine(n, f);
    PackedWords(s, line, f);
    UnpackedAhead(u, words, f, n);
    assert line[..n] == line;
    assert |PackLine(s, line, f).out| == n * Size(f) / 16;
    hide UnpackLine, PackLine, Kept, Stored;
    RoundTrip(s, line, f, u, words, n);
  }

  lemma {:induction false} KeptExactly(line: seq<Pixel>, f: Format)
    requires f != Rgb565
    ensures Kept(line, f) == line
  {
    if line != [] {
      KeptExactly(line[..|line| - 1], f);
    }
  }

  lemma {:induction false} KeptStream(line: seq<Pixel>, f: Format)
    ensures Stream(Kept(line, f), f) == Stream(line, f)
  {
    hide Bytes, Quantised;
    if line != [] {
      var n := |line| - 1;
      KeptStream(line[..n], f);
      Idempotent(line[n], f);
      assert Kept(line, f)[..n] == Kept(line[..n], f);
    }
  }

  /** Packing what came back gives the same words again. */
  lemma RepackSame(s: Packer, line: seq<Pixel>, f: Format)
    requires Fresh(s)
    ensures PackLine(s, Kept(line, f), f).out == PackLine(s, line, f).out
  {
    PackedWords(s, line, f);
    PackedWords(s, Kept(line, f), f);
    KeptStream(line, f);
    hide PackLine, Kept, Stream;
  }

  // ---------- What others find in memory ----------

  lemma Whole(i: nat, j: nat, size: nat, words: nat)
    requires j < size && i * size + size <= 16 * words
    ensures 0 <= i * size + j < 16 * words
  {
    MulMonotone(0, i, size);
  }

  lemma StreamInMemory(s: Packer, line: seq<Pixel>, f: Format, words: Memory, i: nat, j: nat)
    requires Fresh(s) && Stored(words, PackLine(s, line, f).out)
    requires i < |line| && j < Size(f) && i * Size(f) + Size(f) <= 16 * |PackLine(s, line, f).out|
    ensures i * Size(f) + j >= 0 && ByteAt(words, i * Size(f) + j) == Bytes(line[i], f)[j]
  {
    hide PackLine, Stream, Bytes, ByteAt, WordsOf, Offset;
    PackedWords(s, line, f);
    StreamAt(line, f, i, j);
    Whole(i, j, Size(f), |PackLine(s, line, f).out|);
    StoredByte(words, PackLine(s, line, f).out, Stream(line, f), i * Size(f) + j);
  }

  /** Pixel i of a line in memory. With 24 and 32 bits its bytes are red, green and blue, in this order, and in
      the longer format zero. With 16 bits its two bytes, the low one first, are a number with five bits of blue,
      six of green and five of red from the top down. */
  lemma MemoryLayout(s: Packer, line: seq<Pixel>, f: Format, words: Memory, i: nat)
    requires Fresh(s) && Stored(words, PackLine(s, line, f).out)
    requires i < |line| && i * Size(f) + Size(f) <= 16 * |PackLine(s, line, f).out|
    ensures i * Size(f) >= 0
    ensures var p, at := line[i], i * Size(f);
            match f
            case Rgb565 =>
              var low: int, high: int := ByteAt(words, at), ByteAt(words, at + 1);
              low + 256 * high == p.r / 8 + 32 * (p.g / 4) + 2048 * (p.b / 8)
            case Rgb24 => ByteAt(words, at) == p.r && ByteAt(words, at + 1) == p.g && ByteAt(words, at + 2) == p.b
            case Rgb32 => ByteAt(words, at) == p.r && ByteAt(words, at + 1) == p.g && ByteAt(words, at + 2) == p.b
                          && ByteAt(words, at + 3) == 0
  {
    hide PackLine, Stored, ByteAt, First565, Second565;
    StreamInMemory(s, line, f, words, i, 0);
    StreamInMemory(s, line, f, words, i, 1);
    if f == Rgb565 {
      Fields565(line[i]);
    } else {
      StreamInMemory(s, line, f, words, i, 2);
      if f == Rgb32 {
        StreamInMemory(s, line, f, words, i, 3);
      }
    }
  }

  lemma Fields565(p: Pixel)
    ensures var low: int, high: int := First565(p), Second565(p);
            low + 256 * high == p.r / 8 + 32 * (p.g / 4) + 2048 * (p.b / 8)
  {
    ByFours(p.g);
  }

  /** What comes back of a pixel: exactly its five or six high bits of each colour, within seven or three of it,
      and black and full colour as they were. */
  lemma QuantisedNear(p: Pixel)
    ensures var q := Quantised(p, Rgb565);
            && q.r / 8 == p.r / 8 && q.g / 4 == p.g / 4 && q.b / 8 == p.b / 8
            && -7 <= q.r - p.r <= 7 && -3 <= q.g - p.g <= 3 && -7 <= q.b - p.b <= 7
            && (p.r == 0 ==> q.r == 0) && (p.r == 255 ==> q.r == 255)
            && (p.g == 0 ==> q.g == 0) && (p.g == 255 ==> q.g == 255)
            && (p.b == 0 ==> q.b == 0) && (p.b == 255 ==> q.b == 255)
  {
    ByEights(p.r);
    ByFours(p.g);
    ByEights(p.b);
  }

  // ---------- The clocked registers ----------

  /** The input side: a word is pushed in the clock in which its last byte arrives. */
  class InputSide {
    var shift: seq<byte>
    var acpt: nat
    var dw: seq<byte>
    var push: bool
    ghost var pushed: seq<seq<byte>>

    ghost function State(): Packer
      reads this
    {
      Packer(shift, acpt, dw, pushed)
    }

    method Accept(pix: Pixel, f: Format)
      requires PackerOk(State())
      modifies this
      ensures PackerOk(State()) && State() == PackPixel(old(State()), pix, f)
      ensures push <==> Inext(old(acpt), f)
      ensures push ==> pushed == old(pushed) + [dw]
    {
      hide Ipack, Ishift;
      dw := Ipack(dw, acpt, shift, pix, f);
      shift := Ishift(shift, pix, f);
      push := Inext(acpt, f);
      if push {
        pushed := pushed + [dw];
      }
      acpt := (acpt + 1) % 16;
    }
  }

  /** The output side: dr is the word the memory delivers for the address register. */
  class OutputSide {
    var shift: seq<byte>
    var acpt: nat
    var ad: nat
    var hpix: Pixel
    ghost var line: seq<Pixel>

    ghost function State(): Unpacker
      reads this
    {
      Unpacker(shift, acpt, ad, line)
    }

    method Take(dr: seq<byte>, f: Format, ghost words: Memory)
      requires UnpackerOk(State()) && MemoryOk(words) && dr == words(ad)
      modifies this
      ensures UnpackerOk(State()) && State() == UnpackPixel(old(State()), words, f)
      ensures line == old(line) + [hpix]
    {
      hide Opack, Opix;
      assert |dr| == 16;
      shift := Opack(acpt, shift, dr, f);
      hpix := Opix(shift, f);
      line := line + [hpix];
      if Onext(acpt, f) {
        ad := ad + 1;
      }
      acpt := (acpt + 1) % 16;
    }
  }
}
