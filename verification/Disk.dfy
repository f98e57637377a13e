/** A disk drive with a one-sector buffer in front of its image file. */
module Disks {
  import opened Words
  import opened Bits
  import opened Devices
  import opened Dma

  const SEEKERR: Word := 4
  const READERR: Word := 5
  const WRITERR: Word := 6
  const DMAERR: Word := 7

  const SEEKCYL := 2
  const READBLK := 3
  const WRITEBLK := 4

  const COMMAND := 1
  const DATA0 := 2

  const DMATICKS := 1024

  /** Geometry and performance figures from the image header, the clock rate, and
      the word offset at which the sectors start. */
  datatype Geometry = Geometry(cyls: Word, heads: Word, sects: Word, rotTime: Word, seekTime: Word, dataSect: Word,
                               rate: Word, start: nat)

  /** The image fits in 31 bits of byte offset, as its header promises. */
  ghost predicate Fits(g: Geometry) {
    && 0 < g.cyls <= 0xFFFF && 0 < g.heads <= 0xFF && 0 < g.sects <= 0xFF
    && (g.start + g.cyls * g.heads * g.sects * BLOCKSIZE) * 4 < 0x8000_0000
  }

  /** Buffer tag; all ones in `cyl` marks an empty buffer. */
  datatype Coord = Coord(cyl: Word, head: Word, sect: Word)

  const NOWHERE := Coord(MAXWORD, MAXWORD, MAXWORD)

  predicate InRange(g: Geometry, c: Coord) {
    c.cyl < g.cyls && c.head < g.heads && c.sect < g.sects
  }

  function SectorIndex(g: Geometry, c: Coord): nat {
    c.cyl * g.heads * g.sects + (c.head * g.sects + c.sect)
  }

  /** Byte offset of a sector in the file, in 32-bit arithmetic. */
  function FileOffset(g: Geometry, c: Coord): Word {
    (g.start + SectorIndex(g, c) * BLOCKSIZE) * 4 % WORD_SIZE
  }

  datatype Disk = Disk(status: Word, command: Word, data0: Word, tag: Coord, buf: Block, currCyl: Word, working: bool,
                       image: seq<Word>)

  datatype Reaction = Reaction(disk: Disk, memory: Memory, delay: Option<Word>, signals: seq<Signal>, panicked: bool)

  function Opcode(w: Word): nat { w % 256 }

  function SeekTarget(w: Word): Word { w / 256 % 0x1_0000 }

  /** The sector a read or write command names, on the current cylinder. */
  function Target(d: Disk, w: Word): Coord {
    Coord(d.currCyl, w / 0x1_0000 % 256, w / 256 % 256)
  }

  function W(x: int): Word { x % WORD_SIZE }

  function SectTicks(g: Geometry): Word
    requires g.sects > 0
  {
    W(g.rotTime * g.rate) / g.sects
  }

  /** Sectors to let pass before `sect`, with the head over `curr`. */
  function SectorsBetween(g: Geometry, sect: Word, curr: Word): Word {
    if sect > curr then sect - curr - 1 else W(g.sects - 1 - (curr - sect))
  }

  function ResetDelay(g: Geometry, from: Word): Word {
    W((RESETTIME + g.seekTime * from) * g.rate)
  }

  function SeekDelay(g: Geometry, from: Word, cyl: Word): Word {
    W(g.seekTime * (if cyl < from then from - cyl else cyl - from) * g.rate + 1)
  }

  function ReadDelay(g: Geometry, sect: Word, todLo: Word): Word
    requires g.sects > 0 && SectTicks(g) > 0
  {
    var t := SectTicks(g);
    var between := SectorsBetween(g, sect, todLo / t % g.sects);
    W(todLo % t + t * between + W(t * g.dataSect) / 100 + DMATICKS)
  }

  function WriteDelay(g: Geometry, sect: Word, todLo: Word): Word
    requires g.sects > 0 && SectTicks(g) > 0
  {
    var t := SectTicks(g);
    var now := W(todLo + DMATICKS);
    var between := SectorsBetween(g, sect, now / t % g.sects);
    W(DMATICKS + now % t + t * between + W(t * g.dataSect) / 100)
  }

  /** A store to a device register; a busy drive ignores it. */
  function WriteReg(g: Geometry, d: Disk, m: Memory, regnum: nat, data: Word, todLo: Word): Reaction
    requires g.sects > 0 && SectTicks(g) > 0
  {
    if d.status == BUSY then Reaction(d, m, None, [], false)
    else if regnum == DATA0 then Reaction(d.(data0 := data), m, None, [], false)
    else if regnum != COMMAND then Reaction(d, m, None, [], false)
    else
      var u := d.(command := data);
      var to := Target(d, data);
      var ok := to.head < g.heads && to.sect < g.sects;
      if Opcode(data) == RESET then
        Reaction(u.(status := BUSY), m, Some(ResetDelay(g, d.currCyl)), [IntAck], false)
      else if Opcode(data) == ACK then
        Reaction(u.(status := READY), m, None, [IntAck], false)
      else if Opcode(data) == SEEKCYL then
        var cyl := SeekTarget(data);
        if cyl < g.cyls then
          Reaction(u.(status := BUSY), m, Some(SeekDelay(g, d.currCyl, cyl)), [IntAck, IntAck], false)
        else Reaction(u.(status := SEEKERR), m, None, [IntAck, IntReq], false)
      else if Opcode(data) == READBLK then
        if !ok then Reaction(u.(status := READERR), m, None, [IntAck, IntReq], false)
        else if to == d.tag then Reaction(u.(status := BUSY), m, Some(DMATICKS), [IntAck], false)
        else Reaction(u.(status := BUSY, tag := NOWHERE), m, Some(ReadDelay(g, to.sect, todLo)), [IntAck], false)
      else if Opcode(data) == WRITEBLK then
        if !ok then Reaction(u.(status := WRITERR), m, None, [IntAck, IntReq], false)
        else
          var (buf, error) := Fetch(m, d.data0, d.buf);
          if error then Reaction(u.(status := BUSY, tag := NOWHERE, buf := buf), m, Some(DMATICKS), [IntAck], false)
          else
            var delay := WriteDelay(g, to.sect, todLo);
            Reaction(u.(status := BUSY, tag := to, buf := buf), m, Some(delay), [IntAck], false)
      else Reaction(u.(status := ILOPERR), m, None, [IntReq], false)
  }

  predicate OnFile(image: seq<Word>, at: Word) {
    at / 4 + BLOCKSIZE <= |image|
  }

  function BlockAt(image: seq<Word>, at: Word): Block
    requires OnFile(image, at)
  {
    image[at / 4..at / 4 + BLOCKSIZE]
  }

  function PutBlock(image: seq<Word>, at: Word, b: Block): (r: seq<Word>)
    requires OnFile(image, at)
    ensures |r| == |image|
  {
    image[..at / 4] + b + image[at / 4 + BLOCKSIZE..]
  }

  /** The end of an operation.  A read whose buffer still carries a tag does not
      go to the file; a write stores the buffer whatever its tag. */
  function Complete(g: Geometry, d: Disk, m: Memory): Reaction {
    var to := Target(d, d.command);
    var at := FileOffset(g, to);
    if Opcode(d.command) == RESET then
      Reaction(d.(status := READY, tag := NOWHERE), m, None, [IntReq], false)
    else if Opcode(d.command) == SEEKCYL then
      var cyl := SeekTarget(d.command);
      if d.working then Reaction(d.(currCyl := cyl, status := READY), m, None, [IntReq], false)
      else Reaction(d.(currCyl := W(cyl + d.currCyl) / 2, status := SEEKERR), m, None, [IntReq], false)
    else if Opcode(d.command) == READBLK then
      if !d.working then Reaction(d.(tag := NOWHERE, status := READERR), m, None, [IntReq], false)
      else if d.tag.cyl != MAXWORD || OnFile(d.image, at) then
        var u := if d.tag.cyl != MAXWORD then d.(tag := to) else d.(tag := to, buf := BlockAt(d.image, at));
        var (m', error) := Store(m, d.data0, u.buf);
        Reaction(u.(status := if error then DMAERR else READY), m', None, [IntReq], false)
      else Reaction(d, m, None, [], true)
    else if Opcode(d.command) == WRITEBLK then
      if !d.working then Reaction(d.(tag := NOWHERE, status := WRITERR), m, None, [IntReq], false)
      else if OnFile(d.image, at) then
        Reaction(d.(image := PutBlock(d.image, at, d.buf), status := READY), m, None, [IntReq], false)
      else Reaction(d, m, None, [], true)
    else Reaction(d, m, None, [], true)
  }

  // ---------------------------------------------------------------- layout

  /** The track of a sector, counted over all cylinders. */
  ghost function Track(g: Geometry, c: Coord): nat {
    c.cyl * g.heads + c.head
  }

  lemma IndexIs(g: Geometry, c: Coord)
    ensures SectorIndex(g, c) == Track(g, c) * g.sects + c.sect
  {
  }

  /** Different sectors have different places in the image. */
  lemma IndexInjective(g: Geometry, a: Coord, b: Coord)
    requires InRange(g, a) && InRange(g, b) && SectorIndex(g, a) == SectorIndex(g, b)
    ensures a == b
  {
    hide SectorIndex;
    assert Track(g, a) == Track(g, b) && a.sect == b.sect by {
      hide SectorIndex, Track;
      IndexIs(g, a);
      IndexIs(g, b);
      QuotientUnique(Track(g, a), a.sect, Track(g, b), b.sect, g.sects);
    }
    QuotientUnique(a.cyl, a.head, b.cyl, b.head, g.heads);
  }

  lemma IndexBound(g: Geometry, c: Coord)
    requires InRange(g, c)
    ensures SectorIndex(g, c) < g.cyls * g.heads * g.sects
  {
    IndexIs(g, c);
    TrackBound(g, c);
    hide SectorIndex, Track;
    RowsBelow(Track(g, c), g.cyls * g.heads, g.sects);
  }

  lemma TrackBound(g: Geometry, c: Coord)
    requires InRange(g, c)
    ensures Track(g, c) < g.cyls * g.heads
  {
    RowsBelow(c.cyl, g.cyls, g.heads);
  }

  ghost predicate ImageOk(g: Geometry, image: seq<Word>) {
    |image| == g.start + g.cyls * g.heads * g.sects * BLOCKSIZE
  }

  lemma OffsetIs(g: Geometry, c: Coord)
    requires Fits(g) && InRange(g, c)
    ensures FileOffset(g, c) == (g.start + SectorIndex(g, c) * BLOCKSIZE) * 4
    ensures forall image :: ImageOk(g, image) ==> OnFile(image, FileOffset(g, c))
  {
    hide SectorIndex;
    IndexBound(g, c);
  }

  /** The first sector is the first block behind the header, and the next sector, head
      or cylinder is a block, a track or a cylinder of blocks further on. */
  lemma LayoutIs(g: Geometry, c: Coord)
    requires Fits(g) && InRange(g, c)
    ensures FileOffset(g, Coord(0, 0, 0)) == 4 * g.start
    ensures c.sect + 1 < g.sects ==> FileOffset(g, c.(sect := c.sect + 1)) == FileOffset(g, c) + 4 * BLOCKSIZE
    ensures c.head + 1 < g.heads ==> FileOffset(g, c.(head := c.head + 1)) == FileOffset(g, c) + 4 * BLOCKSIZE * g.sects
    ensures c.cyl + 1 < g.cyls ==>
              FileOffset(g, c.(cyl := c.cyl + 1)) == FileOffset(g, c) + 4 * BLOCKSIZE * (g.heads * g.sects)
  {
    hide FileOffset, SectorIndex, Fits;
    assert 0 < g.cyls && 0 < g.heads && 0 < g.sects by { Positive(g); }
    OffsetIs(g, c);
    OffsetIs(g, Coord(0, 0, 0));
    NextIndex(g, c);
    if c.sect + 1 < g.sects { OffsetIs(g, c.(sect := c.sect + 1)); }
    if c.head + 1 < g.heads { OffsetIs(g, c.(head := c.head + 1)); }
    if c.cyl + 1 < g.cyls { OffsetIs(g, c.(cyl := c.cyl + 1)); }
  }

  lemma Positive(g: Geometry)
    requires Fits(g)
    ensures 0 < g.cyls && 0 < g.heads && 0 < g.sects
  {
  }

  lemma NextIndex(g: Geometry, c: Coord)
    ensures SectorIndex(g, Coord(0, 0, 0)) == 0
    ensures c.sect + 1 < WORD_SIZE ==> SectorIndex(g, c.(sect := c.sect + 1)) == SectorIndex(g, c) + 1
    ensures c.head + 1 < WORD_SIZE ==> SectorIndex(g, c.(head := c.head + 1)) == SectorIndex(g, c) + g.sects
    ensures c.cyl + 1 < WORD_SIZE ==> SectorIndex(g, c.(cyl := c.cyl + 1)) == SectorIndex(g, c) + g.heads * g.sects
  {
    var h: nat, n: nat, cyl: nat := g.heads, g.sects, c.cyl;
    Distributes(c.head, 1, n);
    Distributes(cyl, 1, h);
    Distributes(cyl * h, h, n);
  }
}
