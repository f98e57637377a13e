/** The parts of a processor that the clock and the interrupt wires reach: its
    run status, pending-interrupt register and private countdown timer. */
module Processors {
  import opened Words

  /** Line of the private timer in the pending register. */
  const IL_CPUTIMER := 7

  datatype Status = Halted | Running | Idle

  /** A processor as a value.  `mip` holds the pending lines, `mtie` is the
      timer-enable bit, `core` the rest of the architectural state. */
  datatype Cpu = Cpu(status: Status, mip: set<nat>, mtie: bool, time: Word, core: seq<Word>)

  /** Asserting a line wakes a sleeping processor. */
  function Assert(c: Cpu, il: nat): Cpu {
    c.(mip := c.mip + {il}, status := if c.status.Idle? then Running else c.status)
  }

  function Deassert(c: Cpu, il: nat): Cpu {
    c.(mip := c.mip - {il})
  }

  /** Going to sleep is refused while anything is pending. */
  function Suspend(c: Cpu): Cpu {
    if c.mip == {} then c.(status := Idle) else c
  }

  function Reset(c: Cpu, core: seq<Word>): Cpu {
    Cpu(Running, {}, false, 0, core)
  }

  function Halt(c: Cpu): Cpu {
    c.(status := Halted)
  }

  /** The timer half of a cycle: expiry is seen at zero, then the count wraps. */
  function TickTimer(c: Cpu): Cpu {
    if c.mtie then
      var d := if c.time == 0 then Assert(c, IL_CPUTIMER) else c;
      d.(time := (c.time + WORD_SIZE - 1) % WORD_SIZE)
    else Deassert(c, IL_CPUTIMER)
  }

  function IdleCycles(c: Cpu): Word {
    match c.status
    case Halted => WORD_SIZE - 1
    case Idle => if c.mtie then c.time else WORD_SIZE - 1
    case Running => 0
  }

  function Skip(c: Cpu, cycles: Word): Cpu {
    if c.mtie then c.(time := (c.time + WORD_SIZE - cycles) % WORD_SIZE) else c
  }

  /** A sleeping processor has nothing pending. */
  predicate SleepOk(c: Cpu) {
    c.status.Idle? ==> c.mip == {}
  }

  class Processor {
    var status: Status
    var mip: set<nat>
    var mtie: bool
    var time: Word
    var core: seq<Word>

    ghost function State(): Cpu
      reads this
    {
      Cpu(status, mip, mtie, time, core)
    }

    constructor ()
      ensures State() == Cpu(Halted, {}, false, 0, [])
    {
      status, mip, mtie, time, core := Halted, {}, false, 0, [];
    }

    method AssertIRQ(il: nat)
      modifies this
      ensures State() == Assert(old(State()), il)
      ensures il in mip && !status.Idle?
    {
      mip := mip + {il};
      if status == Idle {
        status := Running;
      }
    }

    method DeassertIRQ(il: nat)
      modifies this
      ensures State() == Deassert(old(State()), il)
      ensures il !in mip
    {
      mip := mip - {il};
    }

    method SuspendCpu()
      modifies this
      ensures State() == Suspend(old(State()))
      ensures status.Idle? ==> mip == {} || old(status).Idle?
    {
      if mip == {} {
        status := Idle;
      }
    }

    method ResetCpu(core: seq<Word>)
      modifies this
      ensures State() == Reset(old(State()), core)
    {
      this.core, mtie, time, mip := core, false, 0, {};
      status := Running;
    }

    method CountIdleCycles() returns (c: Word)
      ensures c == IdleCycles(State())
    {
      if status == Halted {
        c := WORD_SIZE - 1;
      } else if status == Idle {
        c := if mtie then time else WORD_SIZE - 1;
      } else {
        c := 0;
      }
    }

    method SkipCycles(cycles: Word)
      requires status.Idle? && cycles <= IdleCycles(State())
      modifies this
      ensures State() == Skip(old(State()), cycles)
    {
      if mtie {
        time := time - cycles;
      }
    }

    /** The part of a cycle that runs in every awake or sleeping processor. */
    method TickCpuTimer()
      modifies this
      ensures State() == TickTimer(old(State()))
      ensures mip == if !old(mtie) then old(mip) - {7} else if old(time) == 0 then old(mip) + {7} else old(mip)
      ensures status == if old(mtie) && old(time) == 0 && old(status).Idle? then Running else old(status)
      ensures time == if !old(mtie) then old(time) else if old(time) == 0 then 0xFFFF_FFFF else old(time) - 1
    {
      if mtie {
        if time == 0 {
          AssertIRQ(IL_CPUTIMER);
        }
        time := (time + WORD_SIZE - 1) % WORD_SIZE;
      } else {
        DeassertIRQ(IL_CPUTIMER);
      }
    }
  }
}
