/** The disk drive as the object the bus writes registers of and completes. */
module DiskDevices {
  import opened Words
  import opened Devices
  import opened Dma
  import opened Disks

  class DiskDevice {
    const geometry: Geometry
    const bus: Bus
    const reg: array<Word>
    const diskBuf: array<Word>
    const diskFile: array<Word>
    var cylBuf: Word
    var headBuf: Word
    var sectBuf: Word
    var currCyl: Word
    var isWorking: bool

    ghost predicate Valid()
      reads this
    {
      && reg.Length == 4 && diskBuf.Length == BLOCKSIZE
      && reg != diskBuf && reg != diskFile && diskBuf != diskFile
      && geometry.sects > 0 && SectTicks(geometry) > 0
    }

    ghost function State(): Disk
      requires Valid()
      reads this, reg, diskBuf, diskFile
    {
      Disk(reg[0], reg[1], reg[2], Coord(cylBuf, headBuf, sectBuf), diskBuf[..], currCyl, isWorking, diskFile[..])
    }

    constructor (g: Geometry, bus: Bus, file: array<Word>)
      requires g.sects > 0 && SectTicks(g) > 0
      ensures Valid() && fresh(reg) && fresh(diskBuf)
      ensures geometry == g && this.bus == bus && diskFile == file
      ensures State().tag == NOWHERE && State().status == READY && currCyl == 0 && isWorking
    {
      geometry, this.bus, diskFile := g, bus, file;
      reg := new Word[4][READY, 0, 0, 0];
      diskBuf := new Word[BLOCKSIZE];
      cylBuf, headBuf, sectBuf, currCyl, isWorking := MAXWORD, MAXWORD, MAXWORD, 0, true;
    }

    method Invalidate()
      requires Valid()
      modifies this
      ensures Valid()
      ensures State() == old(State()).(tag := NOWHERE)
    {
      cylBuf, headBuf, sectBuf := MAXWORD, MAXWORD, MAXWORD;
    }

    /** The read command: a hit keeps the buffer, a miss empties it. */
    method StartRead(data: Word, todLo: Word) returns (delay: Option<Word>, signals: seq<Signal>)
      requires Valid() && reg[0] != BUSY && Opcode(data) == READBLK
      modifies this, reg
      ensures Valid()
      ensures var r := WriteReg(geometry, old(State()), bus.memory, COMMAND, data, todLo);
              State() == r.disk && delay == r.delay && signals == r.signals
    {
      hide ReadDelay;
      reg[1] := data;
      signals := [IntAck];
      var head, sect := data / 0x1_0000 % 256, data / 256 % 256;
      if head < geometry.heads && sect < geometry.sects {
        if currCyl == cylBuf && head == headBuf && sect == sectBuf {
          delay := Some(DMATICKS);
        } else {
          cylBuf, headBuf, sectBuf := MAXWORD, MAXWORD, MAXWORD;
          delay := Some(ReadDelay(geometry, sect, todLo));
        }
        reg[0] := BUSY;
      } else {
        delay := None;
        reg[0] := READERR;
        signals := [IntAck, IntReq];
      }
    }

    /** The write command: the block is fetched at once. */
    method StartWrite(data: Word, todLo: Word) returns (delay: Option<Word>, signals: seq<Signal>)
      requires Valid() && reg[0] != BUSY && Opcode(data) == WRITEBLK
      modifies this, reg, diskBuf
      ensures Valid()
      ensures var r := WriteReg(geometry, old(State()), bus.memory, COMMAND, data, todLo);
              State() == r.disk && delay == r.delay && signals == r.signals
    {
      hide WriteDelay, FetchFrom;
      reg[1] := data;
      signals := [IntAck];
      var head, sect := data / 0x1_0000 % 256, data / 256 % 256;
      if head < geometry.heads && sect < geometry.sects {
        var error := bus.DmaFetch(diskBuf, reg[2]);
        if error {
          cylBuf, headBuf, sectBuf := MAXWORD, MAXWORD, MAXWORD;
          delay := Some(DMATICKS);
        } else {
          cylBuf, headBuf, sectBuf := currCyl, head, sect;
          delay := Some(WriteDelay(geometry, sect, todLo));
        }
        reg[0] := BUSY;
      } else {
        delay := None;
        reg[0] := WRITERR;
        signals := [IntAck, IntReq];
      }
    }

    method WriteDevReg(regnum: nat, data: Word, todLo: Word) returns (delay: Option<Word>, signals: seq<Signal>)
      requires Valid()
      modifies this, reg, diskBuf
      ensures Valid()
      ensures var r := WriteReg(geometry, old(State()), bus.memory, regnum, data, todLo);
              State() == r.disk && delay == r.delay && signals == r.signals
    {
      hide ReadDelay, WriteDelay, ResetDelay, SeekDelay, Fetch;
      delay, signals := None, [];
      if reg[0] == BUSY {
        return;
      }
      if regnum == DATA0 {
        reg[2] := data;
      } else if regnum == COMMAND {
        if Opcode(data) == READBLK {
          delay, signals := StartRead(data, todLo);
        } else if Opcode(data) == WRITEBLK {
          delay, signals := StartWrite(data, todLo);
        } else {
          reg[1] := data;
          if Opcode(data) == RESET {
            signals := [IntAck];
            delay := Some(ResetDelay(geometry, currCyl));
            reg[0] := BUSY;
          } else if Opcode(data) == ACK {
            signals := [IntAck];
            reg[0] := READY;
          } else if Opcode(data) == SEEKCYL {
            var cyl := SeekTarget(data);
            if cyl < geometry.cyls {
              signals := [IntAck, IntAck];
              delay := Some(SeekDelay(geometry, currCyl, cyl));
              reg[0] := BUSY;
            } else {
              reg[0] := SEEKERR;
              signals := [IntAck, IntReq];
            }
          } else {
            reg[0] := ILOPERR;
            signals := [IntReq];
          }
        }
      }
    }

    method ReadBlock(at: Word)
      requires Valid() && at / 4 + BLOCKSIZE <= diskFile.Length
      modifies diskBuf
      ensures diskBuf[..] == BlockAt(diskFile[..], at)
    {
      forall i | 0 <= i < BLOCKSIZE {
        diskBuf[i] := diskFile[at / 4 + i];
      }
    }

    method WriteBlock(at: Word)
      requires Valid() && at / 4 + BLOCKSIZE <= diskFile.Length
      modifies diskFile
      ensures diskFile[..] == PutBlock(old(diskFile[..]), at, diskBuf[..])
    {
      forall i | 0 <= i < BLOCKSIZE {
        diskFile[at / 4 + i] := diskBuf[i];
      }
    }

    /** The end of a read: from the file unless the buffer is tagged, then to
        memory. */
    method FinishRead() returns (signals: seq<Signal>, panicked: bool)
      requires Valid() && Opcode(reg[1]) == READBLK && isWorking
      modifies this, reg, diskBuf, bus
      ensures Valid()
      ensures var r := Complete(geometry, old(State()), old(bus.memory));
              State() == r.disk && bus.memory == r.memory && signals == r.signals && panicked == r.panicked
    {
      hide FileOffset, Store, BlockAt;
      var head, sect := reg[1] / 0x1_0000 % 256, reg[1] / 256 % 256;
      var at := FileOffset(geometry, Coord(currCyl, head, sect));
      if cylBuf == MAXWORD {
        if at / 4 + BLOCKSIZE > diskFile.Length {
          return [], true;
        }
        ReadBlock(at);
      }
      cylBuf, headBuf, sectBuf := currCyl, head, sect;
      var error := bus.DmaStore(diskBuf, reg[2]);
      reg[0] := if error then DMAERR else READY;
      signals, panicked := [IntReq], false;
    }

    method FinishWrite() returns (signals: seq<Signal>, panicked: bool)
      requires Valid() && Opcode(reg[1]) == WRITEBLK && isWorking
      modifies reg, diskFile
      ensures Valid()
      ensures var r := Complete(geometry, old(State()), bus.memory);
              State() == r.disk && signals == r.signals && panicked == r.panicked
    {
      hide FileOffset, PutBlock;
      var head, sect := reg[1] / 0x1_0000 % 256, reg[1] / 256 % 256;
      var at := FileOffset(geometry, Coord(currCyl, head, sect));
      if at / 4 + BLOCKSIZE > diskFile.Length {
        return [], true;
      }
      WriteBlock(at);
      reg[0] := READY;
      signals, panicked := [IntReq], false;
    }

    method CompleteDevOp() returns (signals: seq<Signal>, panicked: bool)
      requires Valid()
      modifies this, reg, diskBuf, diskFile, bus
      ensures Valid()
      ensures var r := Complete(geometry, old(State()), old(bus.memory));
              State() == r.disk && bus.memory == r.memory && signals == r.signals && panicked == r.panicked
    {
      hide FileOffset, Store, BlockAt, PutBlock;
      signals, panicked := [IntReq], false;
      var opcode := Opcode(reg[1]);
      if opcode == RESET {
        reg[0] := READY;
        Invalidate();
      } else if opcode == SEEKCYL {
        var cyl := SeekTarget(reg[1]);
        if isWorking {
          currCyl := cyl;
          reg[0] := READY;
        } else {
          currCyl := W(cyl + currCyl) / 2;
          reg[0] := SEEKERR;
        }
      } else if opcode == READBLK {
        if isWorking {
          signals, panicked := FinishRead();
        } else {
          Invalidate();
          reg[0] := READERR;
        }
      } else if opcode == WRITEBLK {
        if isWorking {
          signals, panicked := FinishWrite();
        } else {
          Invalidate();
          reg[0] := WRITERR;
        }
      } else {
        signals, panicked := [], true;
      }
    }
  }
}
