/** The buffered drive behaves like a drive without a buffer whose sectors are
    independent cells. */
module DiskRefinement {
  import opened Words
  import opened Bits
  import opened Devices
  import opened Dma
  import opened Disks

  /** A drive without a buffer.  `pending` is the block of the write under way. */
  datatype Plain = Plain(status: Word, command: Word, data0: Word, currCyl: Word, working: bool,
                         sectors: imap<Coord, Block>, pending: Block)

  datatype PlainReaction = PlainReaction(plain: Plain, memory: Memory, signals: seq<Signal>)

  function Blank(): Block {
    seq(BLOCKSIZE, _ => 0)
  }

  ghost function PlainTarget(p: Plain, w: Word): Coord {
    Coord(p.currCyl, w / 0x1_0000 % 256, w / 256 % 256)
  }

  ghost function PlainWrite(g: Geometry, p: Plain, m: Memory, regnum: nat, data: Word): PlainReaction {
    if p.status == BUSY then PlainReaction(p, m, [])
    else if regnum == DATA0 then PlainReaction(p.(data0 := data), m, [])
    else if regnum != COMMAND then PlainReaction(p, m, [])
    else
      var u := p.(command := data);
      var to := PlainTarget(p, data);
      match Opcode(data)
      case 0 => PlainReaction(u.(status := BUSY), m, [IntAck])
      case 1 => PlainReaction(u.(status := READY), m, [IntAck])
      case 2 =>
        if SeekTarget(data) < g.cyls then PlainReaction(u.(status := BUSY), m, [IntAck, IntAck])
        else PlainReaction(u.(status := SEEKERR), m, [IntAck, IntReq])
      case 3 =>
        if to in p.sectors then PlainReaction(u.(status := BUSY), m, [IntAck])
        else PlainReaction(u.(status := READERR), m, [IntAck, IntReq])
      case 4 =>
        if to in p.sectors then PlainReaction(u.(status := BUSY, pending := Fetch(m, p.data0, Blank()).0), m, [IntAck])
        else PlainReaction(u.(status := WRITERR), m, [IntAck, IntReq])
      case _ => PlainReaction(u.(status := ILOPERR), m, [IntReq])
  }

  /** Reads hand out the sector itself, writes replace it. */
  ghost function PlainComplete(p: Plain, m: Memory): PlainReaction {
    var to := PlainTarget(p, p.command);
    var u := p.(pending := Blank());
    match Opcode(p.command)
    case 2 =>
      if p.working then PlainReaction(u.(currCyl := SeekTarget(p.command), status := READY), m, [IntReq])
      else PlainReaction(u.(currCyl := W(SeekTarget(p.command) + p.currCyl) / 2, status := SEEKERR), m, [IntReq])
    case 3 =>
      if p.working && to in p.sectors then
        var (m', error) := Store(m, p.data0, p.sectors[to]);
        PlainReaction(u.(status := if error then DMAERR else READY), m', [IntReq])
      else PlainReaction(u.(status := READERR), m, [IntReq])
    case 4 =>
      if p.working then PlainReaction(u.(status := READY, sectors := p.sectors[to := p.pending]), m, [IntReq])
      else PlainReaction(u.(status := WRITERR), m, [IntReq])
    case _ => PlainReaction(u.(status := READY), m, [IntReq])
  }

  ghost function SectorOf(g: Geometry, image: seq<Word>, c: Coord): Block
    requires Fits(g) && ImageOk(g, image) && InRange(g, c)
  {
    OffsetIs(g, c);
    BlockAt(image, FileOffset(g, c))
  }

  ghost function Sectors(g: Geometry, image: seq<Word>): imap<Coord, Block>
    requires Fits(g) && ImageOk(g, image)
  {
    imap c: Coord | InRange(g, c) :: SectorOf(g, image, c)
  }

  /** The drive as it looks from outside. */
  ghost function Outside(g: Geometry, d: Disk): Plain
    requires Fits(g) && ImageOk(g, d.image)
  {
    Plain(d.status, d.command, d.data0, d.currCyl, d.working, Sectors(g, d.image),
          if d.status == BUSY && Opcode(d.command) == WRITEBLK then d.buf else Blank())
  }

  /** The buffer holds the sector its tag names. */
  ghost predicate Fresh(g: Geometry, d: Disk)
    requires Fits(g) && ImageOk(g, d.image)
  {
    d.tag.cyl != MAXWORD ==> InRange(g, d.tag) && d.buf == Sectors(g, d.image)[d.tag]
  }

  /** The command names a sector there is, and a tagged buffer has its tag. */
  ghost predicate Aimed(g: Geometry, d: Disk) {
    InRange(g, Target(d, d.command)) && (d.tag.cyl != MAXWORD ==> d.tag == Target(d, d.command))
  }

  /** Whenever the drive is not busy a tagged buffer equals its sector; a busy
      drive is on its way to restoring that. */
  ghost predicate DiskOk(g: Geometry, d: Disk) {
    && Fits(g) && SectTicks(g) > 0
    && ImageOk(g, d.image)
    && d.currCyl < g.cyls
    && (d.status != BUSY ==> Fresh(g, d))
    && (d.status == BUSY ==>
          match Opcode(d.command)
          case 0 => Fresh(g, d)
          case 2 => Fresh(g, d) && SeekTarget(d.command) < g.cyls
          case 3 => Fresh(g, d) && Aimed(g, d)
          case 4 => Aimed(g, d)
          case _ => false)
  }

  /** A write command that takes its block from memory that does not answer. */
  ghost predicate FailedFetch(g: Geometry, d: Disk, m: Memory, regnum: nat, data: Word) {
    && d.status != BUSY && regnum == COMMAND && Opcode(data) == WRITEBLK && InRange(g, Target(d, data))
    && !Readable(m, d.data0)
  }

  lemma TargetsAgree(g: Geometry, d: Disk, w: Word)
    requires DiskOk(g, d)
    ensures PlainTarget(Outside(g, d), w) == Target(d, w)
    ensures Target(d, w) in Outside(g, d).sectors <==> Target(d, w).head < g.heads && Target(d, w).sect < g.sects
  {
  }

  lemma WriteKeepsOk(g: Geometry, d: Disk, m: Memory, regnum: nat, data: Word, todLo: Word)
    requires DiskOk(g, d)
    ensures DiskOk(g, WriteReg(g, d, m, regnum, data, todLo).disk)
    ensures !WriteReg(g, d, m, regnum, data, todLo).panicked
  {
    hide Sectors, ReadDelay, WriteDelay, ResetDelay, SeekDelay, FetchFrom;
  }

  /** What it means for a reaction of the drive to be one of the plain drive. */
  ghost predicate Matches(g: Geometry, r: Reaction, p: PlainReaction) {
    && DiskOk(g, r.disk)
    && p == PlainReaction(Outside(g, r.disk), r.memory, r.signals)
  }

  lemma CommandRefines(g: Geometry, d: Disk, m: Memory, data: Word, todLo: Word)
    requires DiskOk(g, d) && d.status != BUSY && Opcode(data) != WRITEBLK
    ensures Matches(g, WriteReg(g, d, m, COMMAND, data, todLo), PlainWrite(g, Outside(g, d), m, COMMAND, data))
  {
    hide ReadDelay, WriteDelay, ResetDelay, SeekDelay, Fetch, Fresh, SectTicks, ImageOk;
    WriteKeepsOk(g, d, m, COMMAND, data, todLo);
    TargetsAgree(g, d, data);
    hide Sectors;
  }

  lemma WriteBlkRefines(g: Geometry, d: Disk, m: Memory, data: Word, todLo: Word)
    requires DiskOk(g, d) && d.status != BUSY && Opcode(data) == WRITEBLK && !FailedFetch(g, d, m, COMMAND, data)
    ensures Matches(g, WriteReg(g, d, m, COMMAND, data, todLo), PlainWrite(g, Outside(g, d), m, COMMAND, data))
  {
    hide WriteDelay, Fetch, Fresh;
    WriteKeepsOk(g, d, m, COMMAND, data, todLo);
    TargetsAgree(g, d, data);
    FetchIs(m, d.data0, d.buf, Blank());
    hide Sectors;
  }

  lemma WriteRefines(g: Geometry, d: Disk, m: Memory, regnum: nat, data: Word, todLo: Word)
    requires DiskOk(g, d) && !FailedFetch(g, d, m, regnum, data)
    ensures Matches(g, WriteReg(g, d, m, regnum, data, todLo), PlainWrite(g, Outside(g, d), m, regnum, data))
  {
    if d.status != BUSY && regnum == COMMAND {
      hide WriteReg, PlainWrite, Matches;
      if Opcode(data) == WRITEBLK {
        WriteBlkRefines(g, d, m, data, todLo);
      } else {
        CommandRefines(g, d, m, data, todLo);
      }
    } else {
      hide Sectors, Fresh;
    }
  }

  /** Writing one sector's place in the image writes that sector and no other. */
  lemma PutSector(g: Geometry, image: seq<Word>, c: Coord, b: Block)
    requires Fits(g) && ImageOk(g, image) && InRange(g, c)
    ensures OnFile(image, FileOffset(g, c))
    ensures ImageOk(g, PutBlock(image, FileOffset(g, c), b))
    ensures Sectors(g, PutBlock(image, FileOffset(g, c), b)) == Sectors(g, image)[c := b]
  {
    hide FileOffset, SectorIndex;
    OffsetIs(g, c);
    var at := FileOffset(g, c) / 4;
    var r := PutBlock(image, FileOffset(g, c), b);
    assert r[at..at + BLOCKSIZE] == b;
    forall x: Coord | InRange(g, x) && x != c ensures SectorOf(g, r, x) == SectorOf(g, image, x) {
      OffsetIs(g, x);
      if SectorIndex(g, x) == SectorIndex(g, c) {
        IndexInjective(g, x, c);
      }
      PutElsewhere(image, at, b, FileOffset(g, x) / 4);
    }
    assert SectorOf(g, r, c) == b;
  }

  lemma PutElsewhere(image: seq<Word>, at: nat, b: Block, x: nat)
    requires at + BLOCKSIZE <= |image| && x + BLOCKSIZE <= |image|
    requires x + BLOCKSIZE <= at || at + BLOCKSIZE <= x
    ensures (image[..at] + b + image[at + BLOCKSIZE..])[x..x + BLOCKSIZE] == image[x..x + BLOCKSIZE]
  {
    var r := image[..at] + b + image[at + BLOCKSIZE..];
    forall i | x <= i < x + BLOCKSIZE ensures r[i] == image[i] {
      assert i < at ==> r[i] == image[..at][i];
      assert at + BLOCKSIZE <= i ==> r[i] == image[at + BLOCKSIZE..][i - at - BLOCKSIZE];
    }
  }

  lemma SectorIs(g: Geometry, d: Disk, c: Coord)
    requires DiskOk(g, d) && InRange(g, c)
    ensures OnFile(d.image, FileOffset(g, c)) && BlockAt(d.image, FileOffset(g, c)) == Sectors(g, d.image)[c]
  {
    OffsetIs(g, c);
  }

  lemma CompleteReadRefines(g: Geometry, d: Disk, m: Memory)
    requires DiskOk(g, d) && d.status == BUSY && Opcode(d.command) == READBLK
    ensures var r := Complete(g, d, m);
            !r.panicked && r.disk.status != BUSY && Matches(g, r, PlainComplete(Outside(g, d), m))
  {
    hide Store, FileOffset, Sectors, BlockAt, PutBlock;
    SectorIs(g, d, Target(d, d.command));
    SectorsDomain(g, d.image);
  }

  lemma CompleteWriteRefines(g: Geometry, d: Disk, m: Memory)
    requires DiskOk(g, d) && d.status == BUSY && Opcode(d.command) == WRITEBLK
    ensures var r := Complete(g, d, m);
            !r.panicked && r.disk.status != BUSY && Matches(g, r, PlainComplete(Outside(g, d), m))
  {
    hide FileOffset, Sectors, BlockAt, PutBlock;
    PutSector(g, d.image, Target(d, d.command), d.buf);
  }

  lemma CompleteMoveRefines(g: Geometry, d: Disk, m: Memory)
    requires DiskOk(g, d) && d.status == BUSY && Opcode(d.command) != READBLK && Opcode(d.command) != WRITEBLK
    ensures var r := Complete(g, d, m);
            !r.panicked && r.disk.status != BUSY && Matches(g, r, PlainComplete(Outside(g, d), m))
  {
    hide Sectors, Store, FileOffset, BlockAt, PutBlock, SectorOf, ImageOk, InRange, SectTicks, Target, PlainTarget;
  }

  /** The end of an operation keeps the buffer honest, and does what the drive
      without a buffer does. */
  lemma CompleteRefines(g: Geometry, d: Disk, m: Memory)
    requires DiskOk(g, d) && d.status == BUSY
    ensures var r := Complete(g, d, m);
            !r.panicked && r.disk.status != BUSY && Matches(g, r, PlainComplete(Outside(g, d), m))
  {
    if Opcode(d.command) == READBLK {
      hide Complete, PlainComplete, Matches;
      CompleteReadRefines(g, d, m);
    } else if Opcode(d.command) == WRITEBLK {
      hide Complete, PlainComplete, Matches;
      CompleteWriteRefines(g, d, m);
    } else {
      hide Complete, PlainComplete, Matches;
      CompleteMoveRefines(g, d, m);
    }
  }

  lemma SectorsDomain(g: Geometry, image: seq<Word>)
    requires Fits(g) && ImageOk(g, image)
    ensures forall c :: c in Sectors(g, image) <==> InRange(g, c)
  {
  }

  /** What happens to the drive and to the memory it transfers to and from, which
      the processors and the other devices change too. */
  datatype Action =
    | Register(regnum: nat, data: Word, todLo: Word)
    | Finish
    | SetWorking(working: bool)
    | Touch(change: Memory -> Memory)

  /** A completion comes only while an operation is under way. */
  predicate Legal(status: Word, a: Action) {
    a.Finish? ==> status == BUSY
  }

  /** No write that cannot fetch its block. */
  ghost predicate Fetched(g: Geometry, d: Disk, m: Memory, a: Action) {
    a.Register? ==> !FailedFetch(g, d, m, a.regnum, a.data)
  }

  ghost function DiskStep(g: Geometry, d: Disk, m: Memory, a: Action): Reaction
    requires DiskOk(g, d)
  {
    match a
    case Register(regnum, data, todLo) => WriteReg(g, d, m, regnum, data, todLo)
    case Finish => Complete(g, d, m)
    case SetWorking(b) => Reaction(d.(working := b), m, None, [], false)
    case Touch(change) => Reaction(d, change(m), None, [], false)
  }

  ghost function PlainStep(g: Geometry, p: Plain, m: Memory, a: Action): PlainReaction {
    match a
    case Register(regnum, data, _) => PlainWrite(g, p, m, regnum, data)
    case Finish => PlainComplete(p, m)
    case SetWorking(b) => PlainReaction(p.(working := b), m, [])
    case Touch(change) => PlainReaction(p, change(m), [])
  }

  lemma StepKeepsOk(g: Geometry, d: Disk, m: Memory, a: Action)
    requires DiskOk(g, d) && Legal(d.status, a)
    ensures var r := DiskStep(g, d, m, a); DiskOk(g, r.disk) && !r.panicked
  {
    hide WriteReg, Complete, PlainComplete, Sectors;
    match a
    case Register(regnum, data, todLo) => WriteKeepsOk(g, d, m, regnum, data, todLo);
    case Finish => CompleteRefines(g, d, m);
    case _ =>
  }

  ghost predicate LegalRun(g: Geometry, d: Disk, m: Memory, acts: seq<Action>)
    requires DiskOk(g, d)
    decreases |acts|
  {
    acts == [] ||
    (Legal(d.status, acts[0]) &&
     (StepKeepsOk(g, d, m, acts[0]);
      var r := DiskStep(g, d, m, acts[0]);
      LegalRun(g, r.disk, r.memory, acts[1..])))
  }

  /** Every write of the run could fetch its block. */
  ghost predicate AllFetched(g: Geometry, d: Disk, m: Memory, acts: seq<Action>)
    requires DiskOk(g, d) && LegalRun(g, d, m, acts)
    decreases |acts|
  {
    acts == [] ||
    (Fetched(g, d, m, acts[0]) &&
     (StepKeepsOk(g, d, m, acts[0]);
      var r := DiskStep(g, d, m, acts[0]);
      AllFetched(g, r.disk, r.memory, acts[1..])))
  }

  /** Registers, memory and interrupt signals at the end of a run. */
  ghost function RunDisk(g: Geometry, d: Disk, m: Memory, acts: seq<Action>): (Disk, Memory, seq<Signal>)
    requires DiskOk(g, d) && LegalRun(g, d, m, acts)
    decreases |acts|
  {
    if acts == [] then (d, m, [])
    else
      StepKeepsOk(g, d, m, acts[0]);
      var r := DiskStep(g, d, m, acts[0]);
      var (d', m', s) := RunDisk(g, r.disk, r.memory, acts[1..]);
      (d', m', r.signals + s)
  }

  ghost function RunPlain(g: Geometry, p: Plain, m: Memory, acts: seq<Action>): (Plain, Memory, seq<Signal>)
    decreases |acts|
  {
    if acts == [] then (p, m, [])
    else
      var r := PlainStep(g, p, m, acts[0]);
      var (p', m', s) := RunPlain(g, r.plain, r.memory, acts[1..]);
      (p', m', r.signals + s)
  }

  lemma StepRefines(g: Geometry, d: Disk, m: Memory, a: Action)
    requires DiskOk(g, d) && Legal(d.status, a)
    requires Fetched(g, d, m, a)
    ensures Matches(g, DiskStep(g, d, m, a), PlainStep(g, Outside(g, d), m, a))
  {
    hide WriteReg, Complete, PlainComplete, PlainWrite, Sectors;
    StepKeepsOk(g, d, m, a);
    match a
    case Register(regnum, data, todLo) => WriteRefines(g, d, m, regnum, data, todLo);
    case Finish => CompleteRefines(g, d, m);
    case _ =>
  }

  /** In every run whose writes could fetch their block, the buffer cannot be told
      from no buffer: same registers, same sectors, same memory, same signals. */
  lemma {:induction false} BufferIsInvisible(g: Geometry, d: Disk, m: Memory, acts: seq<Action>)
    requires DiskOk(g, d) && LegalRun(g, d, m, acts) && AllFetched(g, d, m, acts)
    ensures var (d', m', s) := RunDisk(g, d, m, acts);
            && DiskOk(g, d')
            && RunPlain(g, Outside(g, d), m, acts) == (Outside(g, d'), m', s)
    decreases |acts|
  {
    hide DiskStep, PlainStep, Sectors, Fresh, Fetched, Legal;
    if acts != [] {
      StepRefines(g, d, m, acts[0]);
      var r := DiskStep(g, d, m, acts[0]);
      BufferIsInvisible(g, r.disk, r.memory, acts[1..]);
    }
  }

  /** A block of memory that answers throughout, word for word. */
  ghost predicate IsBlockOf(b: Block, m: Memory, start: Word) {
    Readable(m, start) && forall i :: 0 <= i < BLOCKSIZE ==> b[i] == m.cells[Address(start, i)]
  }

  /** A write in range always ends READY, and stores the block of memory exactly
      when all of it answers.  Otherwise it stores what the transfer left in the
      buffer, up to the first address that does not answer (`FetchStops`). */
  lemma WriteStoresIff(g: Geometry, d: Disk, m: Memory, m': Memory, data: Word, todLo: Word)
    requires DiskOk(g, d) && d.working && d.status != BUSY && Opcode(data) == WRITEBLK && InRange(g, Target(d, data))
    ensures var u := WriteReg(g, d, m, COMMAND, data, todLo).disk;
            var r := Complete(g, u, m');
            var stored := Fetch(m, d.data0, d.buf).0;
            && u.status == BUSY && r.disk.status == READY && r.memory == m' && ImageOk(g, r.disk.image)
            && Sectors(g, r.disk.image) == Sectors(g, d.image)[Target(d, data) := stored]
            && (IsBlockOf(stored, m, d.data0) <==> Readable(m, d.data0))
  {
    hide Fetch, WriteDelay, Sectors, FileOffset;
    FetchIs(m, d.data0, d.buf, d.buf);
    WriteKeepsOk(g, d, m, COMMAND, data, todLo);
    var u := WriteReg(g, d, m, COMMAND, data, todLo).disk;
    PutSector(g, d.image, Target(d, data), u.buf);
  }

  /** The sector a read or write command names: bits 16 to 23 are the head, 8 to 15 the
      sector, on the cylinder under the heads. */
  ghost function Named(d: Disk, data: Word): Coord {
    Coord(d.currCyl, data / 0x1_0000 % 0x100, data / 0x100 % 0x100)
  }

  /** A read in range ends with the words of the sector in memory, one by one, and
      READY, exactly when memory accepts them all; otherwise with as many as memory
      took before it refused one, and DMAERR. */
  lemma ReadDelivers(g: Geometry, d: Disk, m: Memory, m': Memory, data: Word, todLo: Word)
    requires DiskOk(g, d) && d.working && d.status != BUSY && data % 0x100 == 3 && InRange(g, Named(d, data))
    ensures var u := WriteReg(g, d, m, COMMAND, data, todLo).disk;
            var r := Complete(g, u, m');
            var block := Sectors(g, d.image)[Named(d, data)];
            && u.status == BUSY && r.signals == [IntReq] && !r.panicked && r.disk.image == d.image
            && r.disk.status == (if Writable(m', d.data0) then READY else DMAERR)
            && (Writable(m', d.data0) ==> Stored(m', r.memory, d.data0, block, 0, BLOCKSIZE))
            && (d.data0 % 4 != 0 ==> r.memory == m')
            && forall k :: d.data0 % 4 == 0 && RefusesAt(m', d.data0, 0, k) ==>
                 Stored(m', r.memory, d.data0, block, 0, k)
  {
    hide ReadDelay, Sectors, FileOffset, Store, BlockAt, SectTicks, Stored, Writable, RefusesAt;
    WriteKeepsOk(g, d, m, COMMAND, data, todLo);
    SectorIs(g, d, Target(d, data));
    SectorsDomain(g, d.image);
    StoreIs(m', d.data0, Sectors(g, d.image)[Target(d, data)]);
  }

  /** What the buffer is for: a read of the sector that it holds asks for the time of a
      transfer, of any other for the time of a read from the disk. */
  lemma ReadAsks(g: Geometry, d: Disk, m: Memory, data: Word, todLo: Word)
    requires DiskOk(g, d) && d.status != BUSY && data % 0x100 == 3 && InRange(g, Named(d, data))
    ensures WriteReg(g, d, m, COMMAND, data, todLo).delay ==
            Some(if d.tag == Named(d, data) then 1024 else ReadDelay(g, Named(d, data).sect, todLo))
  {
    hide ReadDelay, SectTicks;
  }

  /** A write that fetches its block leaves it in the buffer and takes the time of a write
      to the disk; one that does not leaves nothing there and takes that of a transfer. */
  lemma WriteAsks(g: Geometry, d: Disk, m: Memory, data: Word, todLo: Word)
    requires DiskOk(g, d) && d.status != BUSY && data % 0x100 == 4 && InRange(g, Named(d, data))
    ensures var r := WriteReg(g, d, m, COMMAND, data, todLo);
            if Readable(m, d.data0)
            then r.delay == Some(WriteDelay(g, Named(d, data).sect, todLo)) && r.disk.tag == Named(d, data)
            else r.delay == Some(1024) && r.disk.tag == NOWHERE
  {
    hide WriteDelay, SectTicks, Fetch;
    FetchIs(m, d.data0, d.buf, d.buf);
  }

  /** After a read the buffer holds the sector read, after a write what the write left
      there, after a seek what it held; after a reset or a failure nothing. */
  lemma BufferAfter(g: Geometry, d: Disk, m: Memory)
    requires DiskOk(g, d) && d.status == BUSY
    ensures var tag, code := Complete(g, d, m).disk.tag, d.command % 0x100;
            tag == if code == 0 || (code in {3, 4} && !d.working) then NOWHERE
                   else if code == 3 then Named(d, d.command) else d.tag
  {
    hide Store, FileOffset, Sectors, SectTicks, Fresh;
    if Opcode(d.command) == READBLK || Opcode(d.command) == WRITEBLK { SectorIs(g, d, Target(d, d.command)); }
  }

  /** A seek in range moves the heads to the cylinder that bits 8 to 23 name. */
  lemma SeekMoves(g: Geometry, d: Disk, m: Memory, m': Memory, data: Word, todLo: Word)
    requires DiskOk(g, d) && d.working && d.status != BUSY && data % 0x100 == 2
    ensures var u := WriteReg(g, d, m, COMMAND, data, todLo).disk;
            var r := Complete(g, u, m');
            if data / 0x100 % 0x1_0000 < g.cyls
            then u.status == BUSY && r.disk.status == READY && r.disk.currCyl == data / 0x100 % 0x1_0000
            else u.status == SEEKERR && u.currCyl == d.currCyl
  {
    hide SeekDelay, FileOffset, SectTicks;
  }

  lemma SameSector(d: Disk, e: Disk, w: Word, c: Word)
    requires w / 0x100 == c / 0x100 && d.currCyl == e.currCyl
    ensures Named(d, w) == Named(e, c) && Target(d, w) == Named(d, w)
  {
    assert w / 0x1_0000 == w / 0x100 / 0x100 && c / 0x1_0000 == c / 0x100 / 0x100;
  }

  /** What is written comes back: a block written to a sector, and read from that
      sector to another place, is there what it was at the first. */
  lemma WriteThenRead(g: Geometry, d: Disk, m: Memory, m1: Memory, m2: Memory, w: Word, c: Word, place: Word,
      t1: Word, t2: Word)
    requires DiskOk(g, d) && d.working && d.status != BUSY
    requires w % 0x100 == 4 && c % 0x100 == 3 && w / 0x100 == c / 0x100 && InRange(g, Named(d, w))
    requires Readable(m, d.data0) && Writable(m2, place)
    ensures var written := Complete(g, WriteReg(g, d, m, COMMAND, w, t1).disk, m1).disk;
            var aimed := WriteReg(g, written, m1, DATA0, place, t2).disk;
            var r := Complete(g, WriteReg(g, aimed, m1, COMMAND, c, t2).disk, m2);
            && r.disk.status == READY
            && forall i :: 0 <= i < BLOCKSIZE ==>
                 Address(place, i) in r.memory.cells &&
                 r.memory.cells[Address(place, i)] == m.cells[Address(d.data0, i)]
  {
    hide WriteReg, Complete, Fetch, Sectors, Address, SectTicks, Named, Target, DiskOk, InRange, Writable, Readable,
         ImageOk;
    Turns(g, d);
    assert Opcode(w) == WRITEBLK;
    SameSector(d, d, w, c);
    WriteStoresIff(g, d, m, m1, w, t1);
    AfterWrite(g, d, m, m1, w, place, t1);
    var written := Complete(g, WriteReg(g, d, m, COMMAND, w, t1).disk, m1).disk;
    Aims(g, written, m1, place, t2);
    var aimed := written.(data0 := place);
    SameSector(d, aimed, w, c);
    ReadDelivers(g, aimed, m1, m2, c, t2);
  }

  lemma Turns(g: Geometry, d: Disk)
    requires DiskOk(g, d)
    ensures g.sects > 0 && SectTicks(g) > 0
  {
  }

  lemma Aims(g: Geometry, d: Disk, m: Memory, place: Word, todLo: Word)
    requires DiskOk(g, d) && d.status != BUSY
    ensures WriteReg(g, d, m, DATA0, place, todLo).disk == d.(data0 := place)
  {
  }

  lemma AfterWrite(g: Geometry, d: Disk, m: Memory, m': Memory, data: Word, place: Word, todLo: Word)
    requires DiskOk(g, d) && d.working && d.status != BUSY && Opcode(data) == WRITEBLK && InRange(g, Target(d, data))
    ensures var r := Complete(g, WriteReg(g, d, m, COMMAND, data, todLo).disk, m').disk;
            DiskOk(g, r) && DiskOk(g, r.(data0 := place)) && r.working && r.currCyl == d.currCyl
  {
    hide Fetch, WriteDelay, Sectors, FileOffset;
    WriteKeepsOk(g, d, m, COMMAND, data, todLo);
    CompleteRefines(g, WriteReg(g, d, m, COMMAND, data, todLo).disk, m');
  }

  // ---------------------------------------------------------------- power-on

  /** A drive as it is built around an image. */
  function PowerOn(image: seq<Word>): Disk {
    Disk(READY, 0, 0, NOWHERE, Blank(), 0, true, image)
  }

  lemma PowerOnOk(g: Geometry, image: seq<Word>)
    requires Fits(g) && SectTicks(g) > 0 && ImageOk(g, image)
    ensures DiskOk(g, PowerOn(image)) && Outside(g, PowerOn(image)).sectors == Sectors(g, image)
  {
  }

  // ---------------------------------------------------------------- delays

  /** Performance figures with which no delay leaves its 32 bits. */
  predicate Unhurried(g: Geometry) {
    && g.rate >= 1 && g.rotTime * g.rate < 0xF000_0000
    && (RESETTIME + g.seekTime * 0xFFFF) * g.rate < WORD_SIZE - 1
  }

  lemma SectorTurns(t: nat, between: nat, rest: nat, sects: nat)
    requires between < sects && rest < t
    ensures 0 <= t * between + rest < t * sects
  {
    assert t * between + t == t * (between + 1);
    Grows(t, between + 1, sects);
  }

  lemma Grows(t: nat, a: nat, b: nat)
    requires a <= b
    ensures t * a <= t * b && a * t <= b * t
  {
  }

  lemma RoundTheDisk(q: nat, s: nat, n: nat)
    requires s < 2 * n
    ensures (q * n + s) % n == if s < n then s else s - n
  {
    if s < n {
      DivisionIs(q * n + s, n, q, s);
    } else {
      Distributes(q, 1, n);
      DivisionIs(q * n + s, n, q + 1, s - n);
    }
  }

  /** The sectors to let pass are those between the one under the heads and the one
      wanted, round the disk. */
  lemma SectorsBetweenIs(g: Geometry, sect: Word, now: nat, b: nat)
    requires sect < g.sects && b < g.sects
    ensures SectorsBetween(g, sect, now % g.sects) == b <==> (now + 1 + b) % g.sects == sect
  {
    var n: nat, q: nat, curr: nat := g.sects, now / g.sects, now % g.sects;
    assert now + 1 + b == q * n + (curr + 1 + b);
    BetweenIs(g, sect, curr);
    hide SectorsBetween;
    RoundTheDisk(q, curr + 1 + b, n);
  }

  lemma BetweenIs(g: Geometry, sect: Word, curr: Word)
    requires sect < g.sects && curr < g.sects
    ensures SectorsBetween(g, sect, curr) == if sect > curr then sect - curr - 1 else g.sects - 1 - curr + sect
  {
  }

  /** The heads stand at the start of `sect`. */
  ghost predicate AtStart(g: Geometry, sect: Word, t: nat)
    requires g.sects > 0 && SectTicks(g) > 0
  {
    t % SectTicks(g) == 0 && t / SectTicks(g) % g.sects == sect
  }

  /** The wait for a sector adds the time spent in the current sector where it should
      add the time left: it ends at the start of the sector wanted exactly if half the
      current sector had passed, or if there is but one and none of it had. */
  lemma WaitMeetsSectorIff(g: Geometry, sect: Word, now: Word)
    requires g.sects > 0 && SectTicks(g) > 0 && sect < g.sects
    ensures var t := SectTicks(g);
            var wait := now % t + t * SectorsBetween(g, sect, now / t % g.sects);
            AtStart(g, sect, now + wait) <==> 2 * (now % t) == t || (now % t == 0 && g.sects == 1)
  {
    var t: nat, n: nat := SectTicks(g), g.sects;
    hide SectTicks;
    var q, r := now / t, now % t;
    var b: nat := SectorsBetween(g, sect, q % n);
    SectorsBetweenIs(g, sect, q, b);
    assert now == q * t + r;
    var at: nat := now + r + t * b;
    if 2 * r < t {
      assert at == (q + b) * t + 2 * r;
      DivisionIs(at, t, q + b, 2 * r);
      if n > 1 { NotTheSame(q + b, n); }
    } else {
      assert at == (q + b + 1) * t + (2 * r - t);
      DivisionIs(at, t, q + b + 1, 2 * r - t);
    }
  }

  lemma NotTheSame(x: nat, n: nat)
    requires n > 1
    ensures x % n != (x + 1) % n
  {
    var q, r := x / n, x % n;
    assert x == q * n + r;
    if r + 1 < n {
      DivisionIs(x + 1, n, q, r + 1);
    } else {
      assert x + 1 == (q + 1) * n;
      DivisionIs(x + 1, n, q + 1, 0);
    }
  }

  lemma WaitIs(g: Geometry, sect: Word, now: Word, b: nat)
    requires g.sects > 0 && SectTicks(g) > 0 && sect < g.sects && b < g.sects && Unhurried(g)
    requires (now / SectTicks(g) + 1 + b) % g.sects == sect
    ensures var t := SectTicks(g); var data := t * g.dataSect % 0x1_0000_0000 / 100;
            && SectorsBetween(g, sect, now / t % g.sects) == b
            && 0 <= now % t + t * b + data + 1024 < WORD_SIZE
  {
    SectorsBetweenIs(g, sect, now / SectTicks(g), b);
    hide Unhurried, SectTicks, SectorsBetween;
    RotationFits(g, sect, now);
  }

  /** A read takes the wait, the share of a sector that holds data, and the transfer. */
  lemma ReadTime(g: Geometry, sect: Word, now: Word, b: nat)
    requires g.sects > 0 && SectTicks(g) > 0 && sect < g.sects && b < g.sects && Unhurried(g)
    requires (now / SectTicks(g) + 1 + b) % g.sects == sect
    ensures var t := SectTicks(g);
            ReadDelay(g, sect, now) == now % t + t * b + t * g.dataSect % 0x1_0000_0000 / 100 + 1024
  {
    WaitIs(g, sect, now, b);
    hide Unhurried, SectTicks, SectorsBetween, W;
    var t := SectTicks(g);
    WIs(now % t + t * b + W(t * g.dataSect) / 100 + DMATICKS) by { WCuts(t * g.dataSect); }
    WCuts(t * g.dataSect);
  }

  lemma WCuts(x: int)
    ensures W(x) == x % 0x1_0000_0000
  {
  }

  /** A write fetches its block first, while the disk turns. */
  lemma WriteTime(g: Geometry, sect: Word, todLo: Word, b: nat)
    requires g.sects > 0 && SectTicks(g) > 0 && sect < g.sects && b < g.sects && Unhurried(g)
    requires ((todLo + 1024) % 0x1_0000_0000 / SectTicks(g) + 1 + b) % g.sects == sect
    ensures WriteDelay(g, sect, todLo) == ReadDelay(g, sect, (todLo + 1024) % 0x1_0000_0000)
  {
    hide SectTicks, SectorsBetween;
  }

  /** Waiting for a sector takes less than a turn of the disk. */
  lemma RotationFits(g: Geometry, sect: Word, now: Word)
    requires 0 < g.sects && SectTicks(g) > 0 && sect < g.sects && Unhurried(g)
    ensures var t := SectTicks(g); var between := SectorsBetween(g, sect, now / t % g.sects);
            0 < now % t + t * between + W(t * g.dataSect) / 100 + DMATICKS < WORD_SIZE
  {
    var t := SectTicks(g);
    var curr := now / t % g.sects;
    hide SectTicks;
    var between := SectorsBetween(g, sect, curr);
    assert between < g.sects;
    SectorTurns(t, between, now % t, g.sects);
    assert t * g.sects < 0xF000_0000 by { TurnIs(g); }
    var extra := W(t * g.dataSect) / 100;
    assert extra <= WORD_SIZE / 100;
  }

  lemma RotationIsPositive(g: Geometry, sect: Word, now: Word)
    requires 0 < g.sects && SectTicks(g) > 0 && sect < g.sects && Unhurried(g)
    ensures var t := SectTicks(g); var between := SectorsBetween(g, sect, now / t % g.sects);
            0 < W(now % t + t * between + W(t * g.dataSect) / 100 + DMATICKS)
  {
    hide SectTicks, SectorsBetween, Unhurried;
    RotationFits(g, sect, now);
  }

  lemma TurnIs(g: Geometry)
    requires 0 < g.sects && g.rotTime * g.rate < 0xF000_0000
    ensures SectTicks(g) * g.sects <= g.rotTime * g.rate
  {
    assert 0 <= g.rotTime * g.rate by { Grows(g.rotTime, 0, g.rate); }
    var p := g.rotTime * g.rate;
    assert W(p) == p;
    assert p / g.sects * g.sects <= p;
  }

  lemma SeekFits(g: Geometry, distance: nat)
    requires Unhurried(g) && distance <= 0xFFFF
    ensures 0 < (RESETTIME + g.seekTime * distance) * g.rate < WORD_SIZE
    ensures 0 <= g.seekTime * distance * g.rate < WORD_SIZE - 1
    ensures (RESETTIME + g.seekTime * distance) * g.rate == RESETTIME * g.rate + g.seekTime * distance * g.rate
  {
    Grows(g.seekTime, distance, 0xFFFF);
    Grows(g.seekTime, 0, distance);
    var a, b := g.seekTime * distance, g.seekTime * 0xFFFF;
    Grows(g.rate, RESETTIME + a, RESETTIME + b);
    Grows(g.rate, 0, a);
    Distributes(RESETTIME, a, g.rate);
  }

  lemma SeekIsPositive(g: Geometry, distance: nat)
    requires Unhurried(g) && distance <= 0xFFFF
    ensures 0 < W((RESETTIME + g.seekTime * distance) * g.rate) && 0 < W(g.seekTime * distance * g.rate + 1)
  {
    hide Unhurried, W;
    SeekFits(g, distance);
    WIs((RESETTIME + g.seekTime * distance) * g.rate);
    WIs(g.seekTime * distance * g.rate + 1);
  }

  lemma WIs(x: nat)
    requires x < WORD_SIZE
    ensures W(x) == x
  {
  }

  lemma SeekDelayIs(g: Geometry, from: Word, to: Word, way: nat)
    requires Unhurried(g) && from <= 0xFFFF && to <= 0xFFFF && (way == from - to || way == to - from)
    ensures SeekDelay(g, from, to) == g.seekTime * way * g.rate + 1
  {
    hide Unhurried, W;
    SeekTicks(g, way);
  }

  /** Seeking takes a tick, and time in proportion to the way. */
  lemma SeekTime(g: Geometry, a: Word, b: Word, c: Word)
    requires Unhurried(g) && a <= b <= c <= 0xFFFF
    ensures SeekDelay(g, a, b) == SeekDelay(g, b, a)
    ensures SeekDelay(g, a, c) - 1 == SeekDelay(g, a, b) - 1 + SeekDelay(g, b, c) - 1
  {
    hide Unhurried, SeekDelay;
    var near: nat, far: nat := b - a, c - b;
    SeekDelayIs(g, a, b, near);
    SeekDelayIs(g, b, a, near);
    SeekDelayIs(g, b, c, far);
    SeekDelayIs(g, a, c, near + far);
    ProductAdds(g.seekTime, near, far, g.rate);
  }

  lemma ProductAdds(x: nat, a: nat, b: nat, y: nat)
    ensures x * (a + b) * y == x * a * y + x * b * y
  {
    assert x * (a + b) == x * a + x * b;
    Distributes(x * a, x * b, y);
  }

  /** One cylinder takes the drive's seek time; resetting takes 400 time units and the
      way back to cylinder 0. */
  lemma ResetTime(g: Geometry, a: Word)
    requires Unhurried(g) && a < 0xFFFF
    ensures SeekDelay(g, a, a + 1) == g.seekTime * g.rate + 1
    ensures ResetDelay(g, a) == 400 * g.rate + SeekDelay(g, a, 0) - 1
  {
    hide Unhurried, W, SeekDelay;
    SeekDelayIs(g, a, a + 1, 1);
    SeekDelayIs(g, a, 0, a);
    SeekTicks(g, a);
  }

  lemma SeekTicks(g: Geometry, distance: nat)
    requires Unhurried(g) && distance <= 0xFFFF
    ensures W(g.seekTime * distance * g.rate + 1) == g.seekTime * distance * g.rate + 1
    ensures W((RESETTIME + g.seekTime * distance) * g.rate) == RESETTIME * g.rate + g.seekTime * distance * g.rate
  {
    hide Unhurried, W;
    SeekFits(g, distance);
    WIs(g.seekTime * distance * g.rate + 1);
    WIs((RESETTIME + g.seekTime * distance) * g.rate);
  }

  lemma DelaysArePositive(g: Geometry, d: Disk, cyl: Word, sect: Word, todLo: Word)
    requires Fits(g) && SectTicks(g) > 0 && Unhurried(g) && d.currCyl < g.cyls
    ensures ResetDelay(g, d.currCyl) > 0 && (cyl < g.cyls ==> SeekDelay(g, d.currCyl, cyl) > 0)
    ensures sect < g.sects ==> ReadDelay(g, sect, todLo) > 0 && WriteDelay(g, sect, todLo) > 0
  {
    hide Unhurried, W, SectorsBetween;
    SeekIsPositive(g, d.currCyl);
    if cyl < g.cyls { SeekIsPositive(g, if cyl < d.currCyl then d.currCyl - cyl else cyl - d.currCyl); }
    if sect < g.sects {
      RotationIsPositive(g, sect, todLo);
      RotationIsPositive(g, sect, W(todLo + DMATICKS));
    }
  }

  /** Such a drive never asks for a completion in no time: the demand the event
      queue makes of every device. */
  lemma DiskIsPrompt(g: Geometry, d: Disk, m: Memory, regnum: nat, data: Word, todLo: Word)
    requires DiskOk(g, d) && Unhurried(g)
    ensures var delay := WriteReg(g, d, m, regnum, data, todLo).delay; delay.Some? ==> delay.value > 0
  {
    hide ResetDelay, SeekDelay, ReadDelay, WriteDelay, Unhurried;
    DelaysArePositive(g, d, SeekTarget(data), Target(d, data).sect, todLo);
  }
}
