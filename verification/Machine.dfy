/** The whole machine: rounds of one clock tick and one cycle per processor, and
    the fast-forward that jumps over rounds in which nothing can happen. */
module Machines {
  import opened Words
  import opened EventQueues
  import opened SystemBuses
  import Processors
  import opened Interrupts

  datatype Callback =
    | Completion(device: nat)
    | MailDelivery(origin: nat, outbox: Word)
    | CpuReset(cpu: nat, core: seq<Word>)
    | CpuHalt(cpu: nat)
    | PowerOff

  /** Controller, processors, device state, and the power switch. */
  datatype RawBoard = RawBoard(irq: Irq, devices: seq<Word>, halted: bool)

  type Board = b: RawBoard | Shape(b.irq)
    witness RawBoard(Initial([Processors.Cpu(Processors.Halted, {}, false, 0, [])]), [], false)

  /** What a device access amounts to outside the device: interrupt operations
      and future callbacks. */
  datatype Effect = Effect(devices: seq<Word>, ops: seq<Op>, requests: seq<Request<Callback>>)

  /** What one instruction does to more than its own registers. */
  datatype Instruction =
    | Compute
    | WaitForInterrupt
    | WriteCsrs(mip: set<nat>, mtie: bool, time: Word)
    | Store(timer: Option<Word>, effect: Effect)

  /** All that software can see: the board and the bus's clock and timer. */
  datatype View = View(board: Board, tod: nat, timer: Word)

  /** The parts of the machine this model leaves open: how devices complete, and
      what the next instruction of a processor is and makes of its registers. */
  datatype Program = Program(
    complete: (Board, nat, nat) -> Effect,
    execute: (View, nat) -> Instruction,
    nextCore: (View, nat) -> seq<Word>)

  type MachineState = BusState<Board, Callback>

  ghost predicate ProgramOk(p: Program) {
    && (forall b, i, t :: AllPrompt(p.complete(b, i, t).requests))
    && (forall v, i :: p.execute(v, i).Store? ==> AllPrompt(p.execute(v, i).effect.requests))
  }

  function SetCpu(b: Board, i: nat, c: Processors.Cpu): (r: Board)
    requires i < |b.irq.cpus|
    ensures |r.irq.cpus| == |b.irq.cpus|
  {
    b.(irq := b.irq.(cpus := b.irq.cpus[i := c]))
  }

  /** What running a callback does to the board ... */
  function OnEvent(p: Program, b: Board, c: Callback, tod: nat): Board {
    match c
    case Completion(d) =>
      var e := p.complete(b, d, tod);
      b.(devices := e.devices, irq := ApplyOps(b.irq, e.ops))
    case MailDelivery(origin, outbox) => b.(irq := DeliverAll(b.irq, origin, outbox))
    case CpuReset(i, core) =>
      if i < |b.irq.cpus| then SetCpu(b, i, Processors.Reset(b.irq.cpus[i], core)) else b
    case CpuHalt(i) =>
      if i < |b.irq.cpus| then SetCpu(b, i, Processors.Halt(b.irq.cpus[i])) else b
    case PowerOff => b.(halted := true)
  }

  /** ... and which callbacks it asks for. */
  function Asks(p: Program, b: Board, c: Callback, tod: nat): seq<Request<Callback>> {
    if c.Completion? then p.complete(b, c.device, tod).requests else []
  }

  function OnUnderflow(b: Board): Board {
    b.(irq := StartIRQ(b.irq, Line(IL_TIMER, 0)))
  }

  function LawsOf(p: Program): Laws<Board, Callback> {
    Laws((b, c, t) => Outcome<Board, Callback>.Outcome(OnEvent(p, b, c, t), Asks(p, b, c, t)), b => OnUnderflow(b))
  }

  /** What a round leaves a trace of. */
  datatype Happening =
    | TimerRanOut
    | Fired(entry: Entry<Callback>)
    | CpuTimerRanOut(cpu: nat)
    | Executed(cpu: nat)
    | FellAsleep(cpu: nat)

  datatype Traced = Traced(machine: MachineState, log: seq<Happening>)

  /** An instruction, once decided, takes effect. */
  ghost function Execute(p: Program, m: MachineState, i: nat): Traced
    requires i < |m.world.irq.cpus|
  {
    var b, v := m.world, View(m.world, m.tod, m.timer);
    var core := p.nextCore(v, i);
    match p.execute(v, i)
    case Compute => Traced(m.(world := SetCpu(b, i, b.irq.cpus[i].(core := core))), [Executed(i)])
    case WaitForInterrupt =>
      var c := Processors.Suspend(b.irq.cpus[i].(core := core));
      Traced(m.(world := SetCpu(b, i, c)), if c.status.Idle? then [Executed(i), FellAsleep(i)] else [Executed(i)])
    case WriteCsrs(mip, mtie, time) =>
      var cpu := b.irq.cpus[i].(mip := mip, mtie := mtie, time := time, core := core);
      Traced(m.(world := SetCpu(b, i, cpu)), [Executed(i)])
    case Store(timer, e) =>
      var b' := SetCpu(b, i, b.irq.cpus[i].(core := core));
      var irq := if timer.Some? then EndIRQ(b'.irq, Line(IL_TIMER, 0)) else b'.irq;
      Traced(BusState(m.tod, if timer.Some? then timer.value else m.timer,
                      InsertAll(m.queue, DueAll(m.tod, e.requests)),
                      b'.(devices := e.devices, irq := ApplyOps(irq, e.ops))),
             [Executed(i)])
  }

  /** One cycle of processor `i`: its timer, then, unless it sleeps, one
      instruction. */
  ghost function Cycle(p: Program, m: MachineState, i: nat): Traced
    requires i < |m.world.irq.cpus|
  {
    var c := m.world.irq.cpus[i];
    if c.status.Halted? then Traced(m, [])
    else
      var c' := Processors.TickTimer(c);
      var m' := m.(world := SetCpu(m.world, i, c'));
      var log := if Processors.IL_CPUTIMER in c'.mip - c.mip then [CpuTimerRanOut(i)] else [];
      if c'.status.Idle? then Traced(m', log)
      else
        var x := Execute(p, m', i);
        x.(log := log + x.log)
  }

  ghost function Cycles(p: Program, m: MachineState, i: nat): Traced
    requires i <= |m.world.irq.cpus|
    decreases |m.world.irq.cpus| - i
  {
    if i == |m.world.irq.cpus| then Traced(m, [])
    else
      CycleKeepsSize(p, m, i);
      var x := Cycle(p, m, i);
      var y := Cycles(p, x.machine, i + 1);
      y.(log := x.log + y.log)
  }

  lemma CycleKeepsSize(p: Program, m: MachineState, i: nat)
    requires i < |m.world.irq.cpus|
    ensures |Cycle(p, m, i).machine.world.irq.cpus| == |m.world.irq.cpus|
  {
    hide Interrupts.Step;
  }

  lemma LawsArePrompt(p: Program)
    requires ProgramOk(p)
    ensures Prompt(LawsOf(p).onEvent)
  {
  }

  /** One round: the tick with everything it fires, then every processor. */
  ghost function Round(p: Program, m: MachineState): Traced
    requires ProgramOk(p) && Sorted(m.queue)
  {
    LawsArePrompt(p);
    var d := TickDrain(LawsOf(p), m);
    var x := Cycles(p, Tick(LawsOf(p), m), 0);
    var ran := if m.timer == 0 then [TimerRanOut] else [];
    x.(log := ran + seq(|d.fired|, i requires 0 <= i < |d.fired| => Fired(d.fired[i])) + x.log)
  }
}
