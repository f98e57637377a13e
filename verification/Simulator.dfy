/** The machine as the object a session steps and fast-forwards. */
module Simulators {
  import opened Words
  import opened Arch
  import opened EventQueues
  import opened SystemBuses
  import opened Interrupts
  import opened Machines
  import opened FastForward
  import P = Processors

  /** A processor going to sleep asks the stepping loop to pause. */
  predicate AsksPause(log: seq<Happening>) {
    exists i :: 0 <= i < |log| && log[i].FellAsleep?
  }

  /** What `step` makes of at most `steps` rounds: the machine it reaches and how
      many rounds it took; it ends early at power-off or after a pausing round. */
  ghost function Stepped(p: Program, m: MachineState, steps: nat): (MachineState, nat)
    requires ProgramOk(p) && MachineOk(m)
    decreases steps
  {
    if m.world.halted || steps == 0 then (m, 0)
    else
      RoundOk(p, m);
      var x := Round(p, m);
      if AsksPause(x.log) then (x.machine, 1)
      else
        var (r, n) := Stepped(p, x.machine, steps - 1);
        (r, n + 1)
  }

  /** Stepping an idle machine is fast-forwarding it, step for step. */
  lemma {:induction false} SteppingIdleIsSkipping(p: Program, m: MachineState, steps: nat)
    requires ProgramOk(p) && MachineOk(m) && !m.world.halted && steps <= MachineIdle(m)
    ensures Stepped(p, m, steps) == (SkipAll(m, steps), steps)
    decreases steps
  {
    hide Round, Asleep, AllBefore, MachineIdle;
    if steps == 0 {
      SkipNothing(m);
    } else {
      QuietIsIdle(m);
      QuietRound(p, m);
      RoundOk(p, m);
      SkipUsesIdle(m, 1);
      SteppingIdleIsSkipping(p, SkipAll(m, 1), steps - 1);
      SkipsAdd(m, 1, steps - 1);
    }
  }

  /** After power-off no round is run. */
  lemma PowerOffStops(p: Program, m: MachineState, tod: nat, steps: nat)
    requires ProgramOk(p) && MachineOk(m)
    ensures var off := m.(world := OnEvent(p, m.world, PowerOff, tod));
            off.world == m.world.(halted := true) && MachineOk(off) && Stepped(p, off, steps) == (off, 0)
  {
    hide Round, Asleep;
  }

  class Machine {
    const program: Program
    const bus: SystemBus<Board, Callback>
    var pauseRequested: bool

    ghost predicate Valid()
      reads this, bus, bus.eventQ, bus.eventQ.repr
    {
      && bus.Valid() && ProgramOk(program) && bus.laws == LawsOf(program)
      && MachineOk(State())
    }

    ghost function State(): MachineState
      reads this, bus, bus.eventQ
    {
      bus.State()
    }

    constructor (program: Program, cpus: nat, core: seq<Word>, devices: seq<Word>)
      requires ProgramOk(program) && 0 < cpus <= MAX_CPUS
      ensures Valid() && State() == PowerOn(cpus, core, devices)
    {
      LawsArePrompt(program);
      this.program := program;
      bus := new SystemBus(LawsOf(program), PowerOn(cpus, core, devices).world);
      pauseRequested := false;
      new;
      PowerOnOk(cpus, core, devices);
    }

    method CountIdleCycles() returns (c: Word)
      requires Valid()
      ensures c == MachineIdle(State())
    {
      hide P.IdleCycles, IdleCycles;
      c := bus.CountIdleCycles();
      if c == 0 {
        return;
      }
      var cpus := bus.world.irq.cpus;
      assert cpus[0..] == cpus;
      for i := 0 to |cpus|
        invariant Min(c, CpusIdle(cpus[i..])) == MachineIdle(State())
      {
        assert cpus[i..][1..] == cpus[i + 1..];
        c := Min(c, P.IdleCycles(cpus[i]));
        if c == 0 {
          return;
        }
      }
    }

    method FastForward(cycles: Word)
      requires Valid() && cycles <= MachineIdle(State())
      modifies bus
      ensures Valid()
      ensures State() == SkipAll(old(State()), cycles)
    {
      hide Asleep, AllBefore, MachineIdle, P.Skip;
      SkipUsesIdle(State(), cycles);
      ghost var m := State();
      bus.SkipCycles(cycles);
      var cpus := bus.world.irq.cpus;
      ghost var was := cpus;
      for i := 0 to |cpus|
        invariant |cpus| == |was|
        invariant forall j :: 0 <= j < i ==> cpus[j] == SkipCpu(was[j], cycles)
        invariant forall j :: i <= j < |cpus| ==> cpus[j] == was[j]
      {
        if !cpus[i].status.Halted? {
          cpus := cpus[i := P.Skip(cpus[i], cycles)];
        }
      }
      assert cpus == SkipCpus(was, cycles);
      bus.world := bus.world.(irq := bus.world.irq.(cpus := cpus));
    }

    /** Executes one instruction on processor `i`. */
    method ExecuteInstruction(i: nat)
      requires bus.Valid() && i < |bus.world.irq.cpus|
      modifies this`pauseRequested, bus, bus.eventQ, bus.eventQ.repr
      ensures bus.Valid() && fresh(bus.eventQ.repr - old(bus.eventQ.repr))
      ensures var x := Execute(program, old(State()), i);
              State() == x.machine && pauseRequested == (old(pauseRequested) || AsksPause(x.log))
    {
      hide InsertAll, ApplyOps, EndIRQ, EventQueue.Linked;
      var b := bus.world;
      var v := View(b, bus.tod, bus.timer);
      var core := program.nextCore(v, i);
      var c := b.irq.cpus[i];
      match program.execute(v, i)
      case Compute =>
        bus.world := SetCpu(b, i, c.(core := core));
      case WaitForInterrupt =>
        c := P.Suspend(c.(core := core));
        bus.world := SetCpu(b, i, c);
        if c.status.Idle? {
          pauseRequested := true;
          assert [Executed(i), FellAsleep(i)][1].FellAsleep?;
        }
      case WriteCsrs(mip, mtie, time) =>
        bus.world := SetCpu(b, i, c.(mip := mip, mtie := mtie, time := time, core := core));
      case Store(timer, e) =>
        b := SetCpu(b, i, c.(core := core));
        var irq := b.irq;
        if timer.Some? {
          bus.timer := timer.value;
          irq := EndIRQ(irq, Line(IL_TIMER, 0));
        }
        bus.world := b.(devices := e.devices, irq := ApplyOps(irq, e.ops));
        bus.ScheduleAll(e.requests);
    }

    method CycleCpu(i: nat)
      requires bus.Valid() && i < |bus.world.irq.cpus|
      modifies this`pauseRequested, bus, bus.eventQ, bus.eventQ.repr
      ensures bus.Valid() && fresh(bus.eventQ.repr - old(bus.eventQ.repr))
      ensures var x := Cycle(program, old(State()), i);
              State() == x.machine && pauseRequested == (old(pauseRequested) || AsksPause(x.log))
    {
      hide Execute, EventQueue.Linked;
      var c := bus.world.irq.cpus[i];
      if c.status.Halted? {
        return;
      }
      var c' := P.TickTimer(c);
      bus.world := SetCpu(bus.world, i, c');
      if !c'.status.Idle? {
        ghost var m := State();
        ExecuteInstruction(i);
        ghost var log := Execute(program, m, i).log;
        assert AsksPause([CpuTimerRanOut(i)] + log) == AsksPause(log) by { PauseSplit([CpuTimerRanOut(i)], log); }
        assert [] + log == log;
      }
    }

    method CycleAll()
      requires bus.Valid()
      modifies this`pauseRequested, bus, bus.eventQ, bus.eventQ.repr
      ensures bus.Valid() && fresh(bus.eventQ.repr - old(bus.eventQ.repr))
      ensures var x := Cycles(program, old(State()), 0);
              State() == x.machine && pauseRequested == (old(pauseRequested) || AsksPause(x.log))
    {
      hide Cycle, EventQueue.Linked, AsksPause;
      ghost var y := Cycles(program, State(), 0);
      var i := 0;
      ghost var log: seq<Happening> := [];
      NoPause();
      while i < |bus.world.irq.cpus|
        invariant 0 <= i <= |bus.world.irq.cpus| && bus.Valid()
        invariant fresh(bus.eventQ.repr - old(bus.eventQ.repr))
        invariant var x := Cycles(program, State(), i); y.machine == x.machine && y.log == log + x.log
        invariant pauseRequested == (old(pauseRequested) || AsksPause(log))
        decreases |bus.world.irq.cpus| - i
      {
        ghost var m := State();
        CycleKeepsSize(program, m, i);
        CycleCpu(i);
        ghost var x, z := Cycle(program, m, i), Cycles(program, State(), i + 1);
        assert log + (x.log + z.log) == (log + x.log) + z.log;
        PauseSplit(log, x.log);
        log := log + x.log;
        i := i + 1;
      }
      assert log + [] == log;
    }

    /** Up to `steps` rounds. */
    method Step(steps: nat) returns (stepped: nat)
      requires Valid()
      modifies this, bus, bus.eventQ, bus.eventQ.repr
      ensures Valid() && fresh(bus.eventQ.repr - old(bus.eventQ.repr))
      ensures (State(), stepped) == Stepped(program, old(State()), steps)
    {
      hide Round, Asleep, AllBefore, AllAfter, Sorted, EventQueue.Linked, AsksPause;
      pauseRequested := false;
      stepped := 0;
      ghost var goal := Stepped(program, State(), steps);
      while !bus.world.halted && stepped < steps && !pauseRequested
        invariant Valid() && fresh(bus.eventQ.repr - old(bus.eventQ.repr))
        invariant stepped <= steps
        invariant !pauseRequested ==>
                    var (r, n) := Stepped(program, State(), steps - stepped); goal == (r, n + stepped)
        invariant pauseRequested ==> goal == (State(), stepped)
        decreases steps - stepped
      {
        StepRound();
        stepped := stepped + 1;
      }
    }

    /** One round: the tick, then every processor in turn. */
    method StepRound()
      requires Valid() && !pauseRequested
      modifies this`pauseRequested, bus, bus.eventQ, bus.eventQ.repr
      ensures Valid() && fresh(bus.eventQ.repr - old(bus.eventQ.repr))
      ensures var x := Round(program, old(State()));
              State() == x.machine && pauseRequested == AsksPause(x.log)
    {
      hide Cycles, MachineOk, EventQueue.Linked, AsksPause;
      ghost var m := State();
      RoundOk(program, m);
      bus.ClockTick();
      CycleAll();
      RoundLog(program, m);
    }
  }

  lemma PauseSplit(a: seq<Happening>, b: seq<Happening>)
    ensures AsksPause(a + b) <==> AsksPause(a) || AsksPause(b)
  {
    var r := a + b;
    if AsksPause(b) {
      var i :| 0 <= i < |b| && b[i].FellAsleep?;
      assert r[|a| + i].FellAsleep?;
    }
    if AsksPause(a) {
      var i :| 0 <= i < |a| && a[i].FellAsleep?;
      assert r[i].FellAsleep?;
    }
  }

  lemma NoPause()
    ensures !AsksPause([])
  {
  }

  /** The tick's part of a round's log never asks for a pause. */
  lemma RoundLog(p: Program, m: MachineState)
    requires ProgramOk(p) && MachineOk(m)
    ensures AsksPause(Round(p, m).log) == (LawsArePrompt(p); AsksPause(Cycles(p, Tick(LawsOf(p), m), 0).log))
  {
    hide Cycles, Tick, TickDrain;
    LawsArePrompt(p);
    var x := Cycles(p, Tick(LawsOf(p), m), 0);
    var d := TickDrain(LawsOf(p), m);
    var ran := if m.timer == 0 then [TimerRanOut] else [];
    var fired := seq(|d.fired|, i requires 0 <= i < |d.fired| => Fired(d.fired[i]));
    PauseSplit(ran + fired, x.log);
    PauseSplit(ran, fired);
  }
}
