/** What wakes a processor, and what stops one: its own timer, the interval timer of
    the bus, and the reset, halt and power-off events. */
module Wakeups {
  import opened Words
  import opened Arch
  import opened EventQueues
  import opened SystemBuses
  import opened Interrupts
  import opened Machines
  import opened FastForward
  import P = Processors

  /** The private timer: a processor that sleeps with its timer at 0 is woken with the
      timer's line pending, before it executes, and the count goes round. */
  lemma ExpiryWakes(p: Program, m: MachineState, i: nat)
    requires i < |m.world.irq.cpus|
    requires var c := m.world.irq.cpus[i]; c.status.Idle? && c.mtie && c.time == 0 && 7 !in c.mip
    ensures var c := m.world.irq.cpus[i];
            var awake := c.(status := P.Running, mip := c.mip + {7}, time := 0xFFFF_FFFF);
            var x := Execute(p, m.(world := SetCpu(m.world, i, awake)), i);
            Cycle(p, m, i) == x.(log := [CpuTimerRanOut(i)] + x.log)
  {
    hide Execute;
  }

  /** Any other cycle of a sleeping processor counts down and nothing more. */
  lemma SleepCountsDown(p: Program, m: MachineState, i: nat)
    requires i < |m.world.irq.cpus|
    requires var c := m.world.irq.cpus[i]; c.status.Idle? && c.mip == {} && (c.mtie ==> c.time > 0)
    ensures var c := m.world.irq.cpus[i];
            Cycle(p, m, i) ==
            Traced(m.(world := SetCpu(m.world, i, if c.mtie then c.(time := c.time - 1) else c)), [])
  {
    hide Execute;
    var c := m.world.irq.cpus[i];
    assert c.mip - {7} == c.mip;
  }

  /** Processor `i` after its cycle. */
  ghost function CpuAfter(p: Program, m: MachineState, i: nat): P.Cpu
    requires i < |m.world.irq.cpus|
  {
    CycleKeepsSize(p, m, i);
    Cycle(p, m, i).machine.world.irq.cpus[i]
  }

  /** Nothing but its own cycles touches processor `i` between these states. */
  ghost predicate LeftAlone(p: Program, ms: seq<MachineState>, i: nat) {
    && (forall k :: 0 <= k < |ms| ==> i < |ms[k].world.irq.cpus|)
    && forall k :: 0 <= k < |ms| - 1 ==> ms[k + 1].world.irq.cpus[i] == CpuAfter(p, ms[k], i)
  }

  /** A processor that falls asleep with `n` on its timer and is left alone sleeps
      through exactly `n` cycles, and the next one wakes it. */
  lemma {:induction false} WakesAfter(p: Program, ms: seq<MachineState>, i: nat, k: nat)
    requires LeftAlone(p, ms, i) && k < |ms|
    requires var c := ms[0].world.irq.cpus[i]; c.status.Idle? && c.mip == {} && c.mtie && k <= c.time
    ensures var c, d := ms[0].world.irq.cpus[i], ms[k].world.irq.cpus[i];
            && d == c.(time := c.time - k)
            && (Cycle(p, ms[k], i).log == [] <==> k < c.time)
            && (k == c.time ==>
                  var awake := c.(status := P.Running, mip := {7}, time := 0xFFFF_FFFF);
                  var x := Execute(p, ms[k].(world := SetCpu(ms[k].world, i, awake)), i);
                  Cycle(p, ms[k], i) == x.(log := [CpuTimerRanOut(i)] + x.log))
  {
    hide Cycle, Execute;
    if k > 0 {
      WakesAfter(p, ms, i, k - 1);
      SleepCountsDown(p, ms[k - 1], i);
    }
    var c, d := ms[0].world.irq.cpus[i], ms[k].world.irq.cpus[i];
    if k == c.time {
      ExpiryWakes(p, ms[k], i);
      assert d.mip + {7} == {7};
    } else {
      SleepCountsDown(p, ms[k], i);
    }
  }

  /** The interval timer: a tick that finds it at 0 raises its line at the processor
      its route names and wakes it, before any event runs; a tick that does not leaves
      all processors to the events. */
  lemma UnderflowRaises(p: Program, m: MachineState, c: nat)
    requires ProgramOk(p) && Sorted(m.queue) && Prompt(LawsOf(p).onEvent)
    requires Select(m.world.irq, m.world.irq.sources[Slot(Line(3, 0))].route) == Some(c)
    ensures var irq, t := m.world.irq, Tick(LawsOf(p), m);
            && t.tod == m.tod + 1 && t.timer == (if m.timer == 0 then 0xFFFF_FFFF else m.timer - 1)
            && (m.timer > 0 ==> Drain(LawsOf(p).onEvent, m.world, m.queue, m.tod + 1).world == t.world)
            && (m.timer == 0 ==>
                  exists irq': Irq :: Shape(irq') && RaisedAt(irq, irq', c) &&
                    Drain(LawsOf(p).onEvent, m.world.(irq := irq'), m.queue, m.tod + 1).world == t.world)
  {
    hide Select, Drain, OnEvent, Bit;
    if m.timer == 0 {
      var irq' := StartIRQ(m.world.irq, Line(3, 0));
      assert RaisedAt(m.world.irq, irq', c);
    }
  }

  /** The interval timer's line is up at processor `c`, which is awake, and the other
      processors are as they were. */
  ghost predicate RaisedAt(was: Irq, now: Irq, c: nat) {
    && c < |was.cpus| == |now.cpus|
    && now.cpus[c].mip == was.cpus[c].mip + {3}
    && now.cpus[c].status == (if was.cpus[c].status.Idle? then P.Running else was.cpus[c].status)
    && forall k :: 0 <= k < |was.cpus| && k != c ==> now.cpus[k] == was.cpus[k]
  }

  /** Under a fixed route that is the processor the route names. */
  lemma TimerRoute(s: Irq, c: Word)
    requires Shape(s) && s.sources[Slot(Line(3, 0))].route == Fixed(c) && c < |s.ctl|
    ensures Select(s, s.sources[Slot(Line(3, 0))].route) == Some(c)
  {
  }

  /** A halted processor does nothing and leaves no trace, whatever its timer says. */
  lemma HaltStops(p: Program, m: MachineState, i: nat, tod: nat)
    requires i < |m.world.irq.cpus|
    ensures var h := m.(world := OnEvent(p, m.world, CpuHalt(i), tod));
            && h.world == SetCpu(m.world, i, m.world.irq.cpus[i].(status := P.Halted))
            && Cycle(p, h, i) == Traced(h, [])
  {
  }

  /** A reset starts a processor with its registers as given, nothing pending and its
      timer off: its next cycle executes. */
  lemma ResetStarts(p: Program, m: MachineState, i: nat, core: seq<Word>, tod: nat)
    requires i < |m.world.irq.cpus|
    ensures var r := m.(world := OnEvent(p, m.world, CpuReset(i, core), tod));
            && r.world == SetCpu(m.world, i, P.Cpu(P.Running, {}, false, 0, core))
            && Cycle(p, r, i) == Execute(p, r, i)
  {
    hide Execute;
    var c := P.Cpu(P.Running, {}, false, 0, core);
    var r := m.(world := OnEvent(p, m.world, CpuReset(i, core), tod));
    assert c.mip - {7} == {};
    assert SetCpu(r.world, i, P.TickTimer(r.world.irq.cpus[i])) == r.world;
  }

  /** The controller raises and lowers lines and wakes processors; it does not touch
      their registers or timers. */
  lemma StepKeepsCores(s: Irq, op: Op)
    requires Shape(s) && ValidOp(|s.ctl|, op)
    ensures SameCores(s.cpus, Interrupts.Step(s, op).cpus)
  {
    hide Bit, Scan, DeliverFrom;
    if op.Deliver? { DeliverIs(s, op.origin, op.outbox, 0); }
  }

  ghost predicate SameCores(was: seq<P.Cpu>, now: seq<P.Cpu>) {
    |was| == |now| &&
    forall k :: 0 <= k < |was| ==>
      now[k].core == was[k].core && now[k].mtie == was[k].mtie && now[k].time == was[k].time
  }

  lemma {:induction false} OpsKeepCores(s: Irq, ops: seq<Op>)
    requires Shape(s)
    ensures SameCores(s.cpus, ApplyOps(s, ops).cpus)
    decreases |ops|
  {
    hide Interrupts.Step;
    if ops != [] {
      if ValidOp(|s.ctl|, ops[0]) { StepKeepsCores(s, ops[0]); }
      OpsKeepCores(if ValidOp(|s.ctl|, ops[0]) then Interrupts.Step(s, ops[0]) else s, ops[1..]);
    }
  }

  /** Every instruction moves its processor's registers on and no other's.  A write to
      the control registers takes; a store's interrupt operations and device changes
      do, and the timer and the queue change only by what it asks. */
  lemma InstructionTakes(p: Program, m: MachineState, i: nat)
    requires i < |m.world.irq.cpus|
    ensures var v := View(m.world, m.tod, m.timer);
            var cpus, r := m.world.irq.cpus, Execute(p, m, i).machine;
            && |r.world.irq.cpus| == |cpus| && r.tod == m.tod
            && (forall k :: 0 <= k < |cpus| ==>
                  r.world.irq.cpus[k].core == if k == i then p.nextCore(v, i) else cpus[k].core)
            && match p.execute(v, i)
               case WriteCsrs(mip, mtie, time) =>
                 r == m.(world := SetCpu(m.world, i, P.Cpu(cpus[i].status, mip, mtie, time, p.nextCore(v, i))))
               case Compute => r == m.(world := SetCpu(m.world, i, cpus[i].(core := p.nextCore(v, i))))
               case WaitForInterrupt => r == m.(world := r.world)
               case Store(timer, e) =>
                 && r.world.devices == e.devices && r.world.halted == m.world.halted
                 && r.timer == (if timer.Some? then timer.value else m.timer)
                 && var b := SetCpu(m.world, i, cpus[i].(core := p.nextCore(v, i)));
                    var irq := if timer.Some? then EndIRQ(b.irq, Line(3, 0)) else b.irq;
                    (ValidOps(|irq.ctl|, e.ops) ==> r.world.irq == Interrupts.Run(irq, e.ops))
  {
    hide ApplyOps, InsertAll, EndIRQ;
    var v := View(m.world, m.tod, m.timer);
    if p.execute(v, i).Store? {
      var b := SetCpu(m.world, i, m.world.irq.cpus[i].(core := p.nextCore(v, i)));
      var irq := if p.execute(v, i).timer.Some? then EndIRQ(b.irq, Line(3, 0)) else b.irq;
      assert Interrupts.Step(b.irq, End(Line(3, 0))) == EndIRQ(b.irq, Line(3, 0));
      StepKeepsCores(b.irq, End(Line(3, 0)));
      var ops := p.execute(v, i).effect.ops;
      OpsKeepCores(irq, ops);
      if ValidOps(|irq.ctl|, ops) { ApplyIsRun(irq, ops); }
    }
  }

  /** A device's completion changes the devices and the controller as the device says,
      and is followed by the callbacks it asks for. */
  lemma CompletionTakes(p: Program, b: Board, d: nat, tod: nat)
    ensures var e, o := p.complete(b, d, tod), LawsOf(p).onEvent(b, Completion(d), tod);
            && o.requests == e.requests && o.world.devices == e.devices && o.world.halted == b.halted
            && (ValidOps(|b.irq.ctl|, e.ops) ==> o.world.irq == Interrupts.Run(b.irq, e.ops))
  {
    hide ApplyOps;
    var ops := p.complete(b, d, tod).ops;
    if ValidOps(|b.irq.ctl|, ops) { ApplyIsRun(b.irq, ops); }
  }

  /** Waiting for an interrupt: the program counter moves on, and the processor sleeps
      exactly if nothing is pending. */
  lemma WaitSleeps(p: Program, m: MachineState, i: nat)
    requires i < |m.world.irq.cpus|
    requires p.execute(View(m.world, m.tod, m.timer), i).WaitForInterrupt?
    ensures var c, x := m.world.irq.cpus[i], Execute(p, m, i);
            var d := c.(core := p.nextCore(View(m.world, m.tod, m.timer), i));
            && x.machine == m.(world := SetCpu(m.world, i, if c.mip == {} then d.(status := P.Idle) else d))
            && (c.status.Running? ==> (FellAsleep(i) in x.log <==> c.mip == {}))
  {
  }

  /** A store to the interval timer sets it and lowers its line at the processor that
      was told, and leaves everybody else's pending lines. */
  lemma TimerStoreLowers(p: Program, m: MachineState, i: nat, v: Word, devices: seq<Word>)
    requires i < |m.world.irq.cpus|
    requires p.execute(View(m.world, m.tod, m.timer), i) == Store(Some(v), Effect(devices, [], []))
    ensures var r, irq := Execute(p, m, i).machine, m.world.irq;
            && r.timer == v && r.tod == m.tod && r.queue == m.queue && |r.world.irq.cpus| == |irq.cpus|
            && forall k :: 0 <= k < |irq.cpus| ==>
                 r.world.irq.cpus[k].mip ==
                 irq.cpus[k].mip - (if irq.sources[Slot(Line(3, 0))].lastTarget == Some(k) then {3} else {})
  {
  }

  /** What a store asks for is queued, every delay cut to 32 bits and counted from now;
      everything else in the queue stays. */
  lemma {:induction false} StoreSchedules(q: seq<Entry<Callback>>, rs: seq<Request<Callback>>, tod: nat,
      e: Entry<Callback>)
    requires Sorted(q)
    ensures multiset(InsertAll(q, DueAll(tod, rs)))[e] == multiset(q)[e] + Asked(rs, tod, e)
    decreases |rs|
  {
    hide Insert, Sorted;
    var es := DueAll(tod, rs);
    if rs != [] {
      var first := es[0];
      InsertKeeps(q, first);
      DueRest(tod, rs);
      StoreSchedules(Insert(q, first), rs[1..], tod, e);
      assert (multiset(q) + multiset{first})[e] == multiset(q)[e] + if first == e then 1 else 0;
      assert first == e <==> rs[0].callback == e.callback && tod + rs[0].delay % 0x1_0000_0000 == e.deadline;
    }
  }

  lemma DueRest(tod: nat, rs: seq<Request<Callback>>)
    requires rs != []
    ensures DueAll(tod, rs)[1..] == DueAll(tod, rs[1..])
  {
  }

  /** How often `e` is asked for. */
  ghost function Asked(rs: seq<Request<Callback>>, tod: nat, e: Entry<Callback>): nat {
    if rs == [] then 0
    else
      (if rs[0].callback == e.callback && tod + rs[0].delay % 0x1_0000_0000 == e.deadline then 1 else 0) +
      Asked(rs[1..], tod, e)
  }

  /** When the clock gets to a mail event, every processor it names and that has read
      the sender's last message gets the low byte. */
  lemma MailArrives(p: Program, b: Board, origin: nat, outbox: Word, tod: nat)
    ensures var irq := OnEvent(p, b, MailDelivery(origin, outbox), tod).irq;
            && |irq.ctl| == |b.irq.ctl|
            && forall c :: 0 <= c < |b.irq.ctl| ==> irq.ctl[c] == Delivered(b.irq.ctl[c], c, origin, outbox)
  {
    hide DeliverFrom, Delivered, Reaches, Bit;
    DeliverIs(b.irq, origin, outbox, 0);
    DeliverAllIs(b.irq, origin, outbox);
  }
}
