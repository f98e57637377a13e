/** A terminal: a receiver and a transmitter behind one completion callback and
    one interrupt line. */
module Terminals {
  import opened Words
  import opened Devices

  const CHR: Word := 2

  const CHRERR: Word := 4
  const CHRDONE: Word := 5

  const RECVCOMMAND := 1
  const TRANCOMMAND := 3

  const CHRTIME := 80

  const NEWLINE: Word := 10

  /** `input` is what the receiver has not read yet, `output` what was printed. */
  datatype Term = Term(
    recvStatus: Word, recvCommand: Word, tranStatus: Word, tranCommand: Word,
    recvCTime: nat, tranCTime: nat, recvIntPend: bool, tranIntPend: bool,
    input: seq<Word>, output: seq<Word>, working: bool)

  /** A device step: the device after it, the delays of the completions it
      scheduled, its signals, and whether it reached code that must not run. */
  datatype Reaction = Reaction(term: Term, delays: seq<nat>, signals: seq<Signal>, panicked: bool)

  function Command(w: Word): Word { w % 256 }

  function Char(w: Word): Word { w / 256 % 256 }

  /** A received byte as the status shows it: sign-extended, above the code. */
  function Received(c: Word): Word {
    (if c % 256 < 128 then c % 256 else WORD_SIZE - 256 + c % 256) * 256 % WORD_SIZE + CHRDONE
  }

  /** The line is acknowledged only if the other half has nothing pending. */
  function AckUnless(pending: bool): seq<Signal> {
    if pending then [] else [IntAck]
  }

  function WriteRecv(t: Term, data: Word, tod: nat, rate: nat): Reaction {
    if t.recvStatus == BUSY then Reaction(t, [], [], false)
    else
      var u := t.(recvCommand := data);
      if data == RESET then
        Reaction(u.(recvIntPend := false, recvCTime := tod + RESETTIME * rate, recvStatus := BUSY),
                 [RESETTIME * rate], AckUnless(t.tranIntPend), false)
      else if data == ACK then
        Reaction(u.(recvIntPend := false, recvStatus := READY), [], AckUnless(t.tranIntPend), false)
      else if data == CHR then
        Reaction(u.(recvIntPend := false, recvCTime := tod + CHRTIME * rate, recvStatus := BUSY),
                 [CHRTIME * rate], AckUnless(t.tranIntPend), false)
      else
        Reaction(u.(recvStatus := ILOPERR, recvIntPend := true), [], [IntReq], false)
  }

  function WriteTran(t: Term, data: Word, tod: nat, rate: nat): Reaction {
    if t.tranStatus == BUSY then Reaction(t, [], [], false)
    else
      var u := t.(tranCommand := data);
      if Command(data) == RESET then
        Reaction(u.(tranIntPend := false, tranCTime := tod + RESETTIME * rate, tranStatus := BUSY),
                 [RESETTIME * rate], AckUnless(t.recvIntPend), false)
      else if Command(data) == ACK then
        Reaction(u.(tranIntPend := false, tranStatus := READY), [], AckUnless(t.recvIntPend), false)
      else if Command(data) == CHR then
        Reaction(u.(tranIntPend := false, tranCTime := tod + CHRTIME * rate, tranStatus := BUSY),
                 [CHRTIME * rate], AckUnless(t.recvIntPend), false)
      else
        Reaction(u.(tranStatus := ILOPERR, tranIntPend := true), [], [IntReq], false)
  }

  function WriteReg(t: Term, regnum: nat, data: Word, tod: nat, rate: nat): Reaction {
    if regnum == RECVCOMMAND then WriteRecv(t, data, tod, rate)
    else if regnum == TRANCOMMAND then WriteTran(t, data, tod, rate)
    else Reaction(t, [], [], false)
  }

  /** Which half a completion is for: with both at work, the earlier deadline. */
  predicate DoRecv(t: Term) {
    if t.recvStatus == BUSY && t.tranStatus == BUSY then t.recvCTime <= t.tranCTime
    else t.recvStatus == BUSY
  }

  function CompleteRecv(t: Term, tod: nat, rate: nat): Reaction {
    if t.recvCommand == RESET then
      Reaction(t.(recvStatus := READY, recvIntPend := true), [], [IntReq], false)
    else if t.recvCommand == CHR then
      if t.input == [] then
        Reaction(t.(recvCTime := tod + CHRTIME * rate), [CHRTIME * rate], [], false)
      else if t.working then
        Reaction(t.(recvStatus := Received(t.input[0]), input := t.input[1..], recvIntPend := true),
                 [], [IntReq], false)
      else
        Reaction(t.(recvStatus := CHRERR, recvIntPend := true), [], [IntReq], false)
    else Reaction(t, [], [], true)
  }

  function CompleteTran(t: Term): Reaction {
    var c := Char(t.tranCommand);
    if Command(t.tranCommand) == RESET then
      Reaction(t.(tranStatus := READY, tranIntPend := true), [], [IntReq], false)
    else if Command(t.tranCommand) == CHR then
      if t.working then
        Reaction(t.(tranStatus := c * 256 + CHRDONE, output := t.output + [c], tranIntPend := true),
                 [], [IntReq], false)
      else
        Reaction(t.(tranStatus := c * 256 + CHRERR, tranIntPend := true), [], [IntReq], false)
    else Reaction(t.(tranIntPend := true), [], [IntReq], true)
  }

  function Complete(t: Term, tod: nat, rate: nat): Reaction {
    if DoRecv(t) then CompleteRecv(t, tod, rate) else CompleteTran(t)
  }

  /** With both halves at work, the two completions request the line twice and
      nothing acknowledges it in between. */
  lemma BothHalvesRequest(t: Term, first: nat, second: nat, rate: nat)
    requires t.recvStatus == BUSY && t.tranStatus == BUSY
    requires t.recvCommand == RESET || (t.recvCommand == CHR && t.input != [])
    requires Command(t.tranCommand) == RESET || Command(t.tranCommand) == CHR
    ensures var r := Complete(t, first, rate);
            var u := Complete(r.term, second, rate);
            && r.signals == [IntReq] && u.signals == [IntReq] && !r.panicked && !u.panicked
            && u.term.recvIntPend && u.term.tranIntPend
            && (DoRecv(t) <==> r.term.tranStatus == BUSY)
  {
  }

  /** What the guest sees of a completion, which is for the half whose deadline comes
      first, on a tie the receiver: READY after a reset; after a character, its code
      with the byte above it, a received one sign-extended; and still BUSY if there
      was nothing to receive.  The other half is left alone. */
  lemma CompletionShows(t: Term, tod: nat, rate: nat)
    requires t.recvStatus == 3 || t.tranStatus == 3
    requires if DoRecv(t) then t.recvCommand in {0, 2} else t.tranCommand % 0x100 in {0, 2}
    ensures DoRecv(t) <==> t.recvStatus == 3 && (t.tranStatus == 3 ==> t.recvCTime <= t.tranCTime)
    ensures var u := Complete(t, tod, rate).term;
            if DoRecv(t) then
              && u == t.(recvStatus := u.recvStatus, recvCTime := u.recvCTime, recvIntPend := u.recvIntPend,
                         input := u.input)
              && (t.recvCommand == 0 ==> u.recvStatus == 1 && u.recvIntPend && u.input == t.input)
              && (t.recvCommand == 2 && t.input == [] ==> u == t.(recvCTime := tod + 80 * rate))
              && (t.recvCommand == 2 && t.input != [] && t.working ==>
                    u.recvStatus % 0x100 == 5 && u.recvStatus / 0x100 % 0x100 == t.input[0] % 0x100 &&
                    u.recvStatus / 0x1_0000 == (if t.input[0] % 0x100 < 0x80 then 0 else 0xFFFF) &&
                    u.input == t.input[1..] && u.recvIntPend)
              && (t.recvCommand == 2 && t.input != [] && !t.working ==>
                    u.recvStatus == 4 && u.input == t.input && u.recvIntPend)
            else
              && u == t.(tranStatus := u.tranStatus, output := u.output, tranIntPend := true)
              && (t.tranCommand % 0x100 == 0 ==> u.tranStatus == 1 && u.output == t.output)
              && (t.tranCommand % 0x100 == 2 ==>
                    u.tranStatus == (t.tranCommand / 0x100 % 0x100) * 0x100 + (if t.working then 5 else 4) &&
                    u.output == t.output + if t.working then [t.tranCommand / 0x100 % 0x100] else [])
  {
  }

  /** What the guest sees of a store to a command register: a busy half takes nothing; a
      free one takes the command and is READY after an acknowledgement, BUSY until the
      completion after a reset or a character, and ILOPERR after anything else. */
  lemma StoreShows(t: Term, regnum: nat, data: Word, tod: nat, rate: nat)
    ensures var r := WriteReg(t, regnum, data, tod, rate); var u := r.term;
            && (regnum == 1 ==>
                  if t.recvStatus == 3 then u == t
                  else
                    && u == t.(recvStatus := u.recvStatus, recvCTime := u.recvCTime, recvIntPend := u.recvIntPend,
                               recvCommand := data)
                    && u.recvStatus == (if data == 1 then 1 else if data in {0, 2} then 3 else 2)
                    && (u.recvIntPend <==> data !in {0, 1, 2})
                    && r.delays == (if data == 0 then [400 * rate] else if data == 2 then [80 * rate] else [])
                    && (r.delays != [] ==> u.recvCTime == tod + r.delays[0]))
            && (regnum == 3 ==>
                  if t.tranStatus == 3 then u == t
                  else
                    var code := data % 0x100;
                    && u == t.(tranStatus := u.tranStatus, tranCTime := u.tranCTime, tranIntPend := u.tranIntPend,
                               tranCommand := data)
                    && u.tranStatus == (if code == 1 then 1 else if code in {0, 2} then 3 else 2)
                    && (u.tranIntPend <==> code !in {0, 1, 2})
                    && r.delays == (if code == 0 then [400 * rate] else if code == 2 then [80 * rate] else [])
                    && (r.delays != [] ==> u.tranCTime == tod + r.delays[0]))
            && (regnum != 1 && regnum != 3 ==> r == Reaction(t, [], [], false))
  {
  }

  /** Text typed at the terminal joins what is still unread, with a newline. */
  function Typed(t: Term, text: seq<Word>): Term {
    t.(input := t.input + text + [NEWLINE])
  }

  function PowerOn(): Term {
    Term(READY, 0, READY, 0, 0, 0, false, false, [], [], true)
  }

  class TerminalDevice {
    const rate: nat
    var reg: array<Word>
    var recvCTime: nat
    var tranCTime: nat
    var recvIntPend: bool
    var tranIntPend: bool
    var recvBuf: seq<Word>
    var recvBp: nat
    var printed: seq<Word>
    var isWorking: bool

    ghost predicate Valid()
      reads this
    {
      reg.Length == 4 && recvBp <= |recvBuf|
    }

    ghost function State(): Term
      requires Valid()
      reads this, reg
    {
      Term(reg[0], reg[1], reg[2], reg[3], recvCTime, tranCTime, recvIntPend, tranIntPend,
           recvBuf[recvBp..], printed, isWorking)
    }

    constructor (rate: nat)
      ensures Valid() && fresh(reg) && this.rate == rate
      ensures State() == PowerOn()
    {
      this.rate := rate;
      reg := new Word[4][READY, 0, READY, 0];
      recvCTime, tranCTime, recvIntPend, tranIntPend := 0, 0, false, false;
      recvBuf, recvBp, printed, isWorking := [], 0, [], true;
    }

    /** A store to a device register.  The completions it schedules and the
        signals it sends are handed to the bus by the caller. */
    method WriteDevReg(regnum: nat, data: Word, tod: nat) returns (delays: seq<nat>, signals: seq<Signal>)
      requires Valid()
      modifies this, reg
      ensures Valid() && reg == old(reg)
      ensures var r := WriteReg(old(State()), regnum, data, tod, rate);
              State() == r.term && delays == r.delays && signals == r.signals
    {
      hide Command;
      delays, signals := [], [];
      if regnum == RECVCOMMAND {
        if reg[0] != BUSY {
          reg[1] := data;
          if data == RESET || data == ACK || data == CHR {
            if !tranIntPend {
              signals := [IntAck];
            }
            recvIntPend := false;
            if data == ACK {
              reg[0] := READY;
            } else {
              var delay := (if data == RESET then RESETTIME else CHRTIME) * rate;
              delays := [delay];
              recvCTime := tod + delay;
              reg[0] := BUSY;
            }
          } else {
            reg[0] := ILOPERR;
            signals := [IntReq];
            recvIntPend := true;
          }
        }
      } else if regnum == TRANCOMMAND {
        if reg[2] != BUSY {
          reg[3] := data;
          var command := Command(data);
          if command == RESET || command == ACK || command == CHR {
            if !recvIntPend {
              signals := [IntAck];
            }
            tranIntPend := false;
            if command == ACK {
              reg[2] := READY;
            } else {
              var delay := (if command == RESET then RESETTIME else CHRTIME) * rate;
              delays := [delay];
              tranCTime := tod + delay;
              reg[2] := BUSY;
            }
          } else {
            reg[2] := ILOPERR;
            signals := [IntReq];
            tranIntPend := true;
          }
        }
      }
    }

    method CompleteDevOp(tod: nat) returns (delays: seq<nat>, signals: seq<Signal>, panicked: bool)
      requires Valid()
      modifies this, reg
      ensures Valid() && reg == old(reg)
      ensures var r := Complete(old(State()), tod, rate);
              State() == r.term && delays == r.delays && signals == r.signals && panicked == r.panicked
    {
      hide Received;
      delays, signals, panicked := [], [], false;
      var doRecv: bool;
      if reg[0] == BUSY && reg[2] == BUSY {
        doRecv := recvCTime <= tranCTime;
      } else {
        doRecv := reg[0] == BUSY;
      }
      if doRecv {
        if reg[1] == RESET {
          reg[0] := READY;
          recvIntPend := true;
          signals := [IntReq];
        } else if reg[1] == CHR {
          if recvBp == |recvBuf| {
            delays := [CHRTIME * rate];
            recvCTime := tod + CHRTIME * rate;
          } else {
            if isWorking {
              reg[0] := Received(recvBuf[recvBp]);
              recvBp := recvBp + 1;
            } else {
              reg[0] := CHRERR;
            }
            recvIntPend := true;
            signals := [IntReq];
          }
        } else {
          panicked := true;
        }
      } else {
        var c := Char(reg[3]);
        if Command(reg[3]) == RESET {
          reg[2] := READY;
        } else if Command(reg[3]) == CHR {
          if isWorking {
            printed := printed + [c];
            reg[2] := c * 256 + CHRDONE;
          } else {
            reg[2] := c * 256 + CHRERR;
          }
        } else {
          panicked := true;
        }
        signals := [IntReq];
        tranIntPend := true;
      }
    }

    /** A line typed at the terminal: an exhausted buffer is dropped first. */
    method Input(text: seq<Word>)
      requires Valid()
      modifies this`recvBuf, this`recvBp
      ensures Valid()
      ensures State() == Typed(old(State()), text)
    {
      if recvBp == |recvBuf| {
        recvBuf := text + [NEWLINE];
      } else {
        recvBuf := recvBuf[recvBp..] + text + [NEWLINE];
      }
      recvBp := 0;
    }
  }
}
