/** The fast-forward equals the rounds it replaces, and is as long as possible. */
module FastForward {
  import opened Words
  import opened Arch
  import opened EventQueues
  import opened SystemBuses
  import opened Interrupts
  import opened Machines
  import P = Processors

  predicate Asleep(cpus: seq<P.Cpu>) {
    forall i :: 0 <= i < |cpus| ==> P.SleepOk(cpus[i])
  }

  /** What holds of every reachable machine: events lie ahead, within reach of a
      32-bit delay, and no sleeping processor has an interrupt pending. */
  ghost predicate MachineOk(m: MachineState) {
    BusOk(m) && AllBefore(m.queue, m.tod + WORD_SIZE) && Asleep(m.world.irq.cpus)
  }

  lemma OpKeepsAsleep(s: Irq, op: Op)
    requires Shape(s) && ValidOp(|s.ctl|, op) && Asleep(s.cpus)
    ensures Asleep(Interrupts.Step(s, op).cpus)
  {
    hide Scan, Bit, DeliverFrom;
    if op.Deliver? {
      DeliverIs(s, op.origin, op.outbox, 0);
    }
  }

  lemma {:induction false} OpsKeepAsleep(s: Irq, ops: seq<Op>)
    requires Shape(s) && Asleep(s.cpus)
    ensures Asleep(ApplyOps(s, ops).cpus)
    decreases |ops|
  {
    hide Interrupts.Step, Asleep;
    if ops != [] {
      var s' := if ValidOp(|s.ctl|, ops[0]) then Interrupts.Step(s, ops[0]) else s;
      if ValidOp(|s.ctl|, ops[0]) {
        OpKeepsAsleep(s, ops[0]);
      }
      OpsKeepAsleep(s', ops[1..]);
    }
  }

  lemma EventKeepsAsleep(p: Program, b: Board, c: Callback, tod: nat)
    requires Asleep(b.irq.cpus)
    ensures Asleep(OnEvent(p, b, c, tod).irq.cpus)
  {
    hide ApplyOps, DeliverFrom, DeliverAll;
    match c
    case Completion(d) => OpsKeepAsleep(b.irq, p.complete(b, d, tod).ops);
    case MailDelivery(origin, outbox) =>
      DeliverIs(b.irq, origin, outbox, 0);
      assert DeliverAll(b.irq, origin, outbox) == DeliverFrom(b.irq, origin, outbox, 0) by {
        DeliverAllIs(b.irq, origin, outbox);
      }
    case _ =>
  }

  lemma DeliverAllIs(s: Irq, origin: nat, outbox: Word)
    requires Shape(s)
    ensures DeliverAll(s, origin, outbox) == DeliverFrom(s, origin, outbox, 0)
  {
  }

  lemma TickOk(p: Program, m: MachineState)
    requires ProgramOk(p) && MachineOk(m)
    ensures Prompt(LawsOf(p).onEvent) && MachineOk(Tick(LawsOf(p), m))
    ensures |Tick(LawsOf(p), m).world.irq.cpus| == |m.world.irq.cpus|
  {
    hide Drain, OnEvent, StartIRQ;
    LawsArePrompt(p);
    var l := LawsOf(p);
    var w := if m.timer == 0 then OnUnderflow(m.world) else m.world;
    var n := |m.world.irq.cpus|;
    var inv := (b: Board) => Asleep(b.irq.cpus) && |b.irq.cpus| == n;
    OpKeepsAsleep(m.world.irq, Start(Line(IL_TIMER, 0)));
    forall b: Board, c, t | inv(b) ensures inv(l.onEvent(b, c, t).world) {
      EventKeepsAsleep(p, b, c, t);
      EventKeepsSize(p, b, c, t);
    }
    DrainKeeps(l.onEvent, inv, w, m.queue, m.tod + 1);
    DrainBound(l.onEvent, w, m.queue, m.tod + 1);
    DrainFires(l.onEvent, w, m.queue, m.tod + 1);
  }

  lemma EventKeepsSize(p: Program, b: Board, c: Callback, tod: nat)
    ensures |OnEvent(p, b, c, tod).irq.cpus| == |b.irq.cpus|
  {
    hide ApplyOps, DeliverFrom;
  }

  lemma {:induction false} InsertAllOk(q: seq<Entry<Callback>>, es: seq<Entry<Callback>>, tod: nat)
    requires Sorted(q) && AllAfter(q, tod) && AllBefore(q, tod + WORD_SIZE)
    requires AllAfter(es, tod) && AllBefore(es, tod + WORD_SIZE)
    ensures var r := InsertAll(q, es); Sorted(r) && AllAfter(r, tod) && AllBefore(r, tod + WORD_SIZE)
    decreases |es|
  {
    hide Place;
    if es != [] {
      InsertKeeps(q, es[0]);
      InsertAllOk(Insert(q, es[0]), es[1..], tod);
    }
  }

  lemma SetCpuKeepsAsleep(b: Board, i: nat, c: P.Cpu)
    requires i < |b.irq.cpus| && Asleep(b.irq.cpus) && P.SleepOk(c)
    ensures Asleep(SetCpu(b, i, c).irq.cpus)
  {
  }

  lemma StoreOk(p: Program, m: MachineState, i: nat)
    requires ProgramOk(p) && i < |m.world.irq.cpus| && MachineOk(m) && m.world.irq.cpus[i].status.Running?
    requires p.execute(View(m.world, m.tod, m.timer), i).Store?
    ensures var x := Execute(p, m, i).machine; MachineOk(x) && x.tod == m.tod
  {
    hide ApplyOps, InsertAll, EndIRQ, Asleep, Sorted, AllAfter, AllBefore, SetCpu;
    var b, v := m.world, View(m.world, m.tod, m.timer);
    var e, timer := p.execute(v, i).effect, p.execute(v, i).timer;
    StoreIsLater(m.tod, e.requests);
    InsertAllOk(m.queue, DueAll(m.tod, e.requests), m.tod);
    var b' := SetCpu(b, i, b.irq.cpus[i].(core := p.nextCore(v, i)));
    SetCpuKeepsAsleep(b, i, b.irq.cpus[i].(core := p.nextCore(v, i)));
    OpKeepsAsleep(b'.irq, End(Line(IL_TIMER, 0)));
    OpsKeepAsleep(if timer.Some? then EndIRQ(b'.irq, Line(IL_TIMER, 0)) else b'.irq, e.ops);
  }

  lemma StoreIsLater(tod: nat, rs: seq<Request<Callback>>)
    requires AllPrompt(rs)
    ensures AllAfter(DueAll(tod, rs), tod) && AllBefore(DueAll(tod, rs), tod + WORD_SIZE)
  {
  }

  lemma ExecuteOk(p: Program, m: MachineState, i: nat)
    requires ProgramOk(p) && i < |m.world.irq.cpus| && MachineOk(m) && m.world.irq.cpus[i].status.Running?
    ensures var x := Execute(p, m, i).machine; MachineOk(x) && x.tod == m.tod
  {
    hide Execute, ProgramOk;
    if p.execute(View(m.world, m.tod, m.timer), i).Store? {
      StoreOk(p, m, i);
    } else {
      OtherOk(p, m, i);
    }
  }

  lemma OtherOk(p: Program, m: MachineState, i: nat)
    requires i < |m.world.irq.cpus| && MachineOk(m) && m.world.irq.cpus[i].status.Running?
    requires !p.execute(View(m.world, m.tod, m.timer), i).Store?
    ensures var x := Execute(p, m, i).machine; MachineOk(x) && x.tod == m.tod
  {
    hide ApplyOps, InsertAll, EndIRQ, Sorted, AllAfter, AllBefore;
  }

  lemma CycleOk(p: Program, m: MachineState, i: nat)
    requires ProgramOk(p) && i < |m.world.irq.cpus| && MachineOk(m)
    ensures var x := Cycle(p, m, i).machine; MachineOk(x) && x.tod == m.tod
  {
    hide Execute;
    var c := m.world.irq.cpus[i];
    if !c.status.Halted? {
      var c' := P.TickTimer(c);
      var m' := m.(world := SetCpu(m.world, i, c'));
      assert MachineOk(m');
      if !c'.status.Idle? {
        ExecuteOk(p, m', i);
      }
    }
  }

  lemma {:induction false} CyclesOk(p: Program, m: MachineState, i: nat)
    requires ProgramOk(p) && i <= |m.world.irq.cpus| && MachineOk(m)
    ensures var x := Cycles(p, m, i).machine; MachineOk(x) && x.tod == m.tod
    decreases |m.world.irq.cpus| - i
  {
    hide Cycle, MachineOk;
    if i < |m.world.irq.cpus| {
      CycleKeepsSize(p, m, i);
      CycleOk(p, m, i);
      CyclesOk(p, Cycle(p, m, i).machine, i + 1);
    }
  }

  lemma RoundOk(p: Program, m: MachineState)
    requires ProgramOk(p) && MachineOk(m)
    ensures MachineOk(Round(p, m).machine) && Round(p, m).machine.tod == m.tod + 1
  {
    hide Cycles, Drain, Asleep;
    TickOk(p, m);
    CyclesOk(p, Tick(LawsOf(p), m), 0);
  }

  /** `k` rounds, with everything they leave a trace of. */
  ghost function Rounds(p: Program, m: MachineState, k: nat): Traced
    requires ProgramOk(p) && MachineOk(m)
    decreases k
  {
    if k == 0 then Traced(m, [])
    else
      RoundOk(p, m);
      var x := Round(p, m);
      var y := Rounds(p, x.machine, k - 1);
      y.(log := x.log + y.log)
  }

  /** The least of the processors' own idle counts. */
  function CpusIdle(cpus: seq<P.Cpu>): Word {
    if cpus == [] then WORD_SIZE - 1 else Min(P.IdleCycles(cpus[0]), CpusIdle(cpus[1..]))
  }

  lemma {:induction false} CpusIdleIs(cpus: seq<P.Cpu>, k: Word)
    ensures k <= CpusIdle(cpus) <==> forall i :: 0 <= i < |cpus| ==> k <= P.IdleCycles(cpus[i])
  {
    if cpus != [] {
      CpusIdleIs(cpus[1..], k);
      assert cpus == [cpus[0]] + cpus[1..];
    }
  }

  /** How far the machine says it may be fast-forwarded. */
  function MachineIdle(m: MachineState): Word {
    Min(IdleCycles(m), CpusIdle(m.world.irq.cpus))
  }

  function SkipCpu(c: P.Cpu, k: Word): P.Cpu {
    if c.status.Halted? then c else P.Skip(c, k)
  }

  function SkipCpus(cpus: seq<P.Cpu>, k: Word): (r: seq<P.Cpu>)
    ensures |r| == |cpus| && forall i :: 0 <= i < |cpus| ==> r[i] == SkipCpu(cpus[i], k)
  {
    seq(|cpus|, i requires 0 <= i < |cpus| => SkipCpu(cpus[i], k))
  }

  /** The fast-forward: clock and timer jump, private timers jump. */
  function SkipAll(m: MachineState, k: Word): MachineState {
    Skip<Board, Callback>(m.(world := m.world.(irq := m.world.irq.(cpus := SkipCpus(m.world.irq.cpus, k)))), k)
  }

  /** Nothing is due and nobody is awake. */
  predicate Quiet(m: MachineState) {
    && m.timer > 0
    && (m.queue == [] || m.tod + 1 < m.queue[0].deadline)
    && forall i :: 0 <= i < |m.world.irq.cpus| ==> P.IdleCycles(m.world.irq.cpus[i]) > 0
  }

  lemma QuietIsIdle(m: MachineState)
    requires MachineOk(m)
    ensures Quiet(m) <==> MachineIdle(m) > 0
  {
    CpusIdleIs(m.world.irq.cpus, 1);
  }

  lemma QuietCycle(p: Program, m: MachineState, i: nat)
    requires i < |m.world.irq.cpus| && P.SleepOk(m.world.irq.cpus[i])
    requires P.IdleCycles(m.world.irq.cpus[i]) > 0
    ensures Cycle(p, m, i) == Traced(m.(world := SetCpu(m.world, i, SkipCpu(m.world.irq.cpus[i], 1))), [])
  {
    hide Execute, Asleep;
    var c := m.world.irq.cpus[i];
    if c.status.Halted? {
      assert m.world.irq.cpus[i := c] == m.world.irq.cpus;
    } else if !c.mtie {
      assert c.mip - {P.IL_CPUTIMER} == c.mip;
    }
  }

  lemma SkipCpuSleeps(c: P.Cpu, k: Word)
    requires P.SleepOk(c)
    ensures P.SleepOk(SkipCpu(c, k))
  {
  }

  /** The processors after those before `i` have been skipped over. */
  function SkipFrom(cpus: seq<P.Cpu>, i: nat): (r: seq<P.Cpu>)
    requires i <= |cpus|
  {
    cpus[..i] + SkipCpus(cpus[i..], 1)
  }

  lemma SkipFromStep(cpus: seq<P.Cpu>, i: nat)
    requires i < |cpus|
    ensures SkipFrom(cpus[i := SkipCpu(cpus[i], 1)], i + 1) == SkipFrom(cpus, i)
  {
    hide SkipCpu;
  }

  lemma SkipFromEnds(cpus: seq<P.Cpu>)
    ensures SkipFrom(cpus, |cpus|) == cpus && SkipFrom(cpus, 0) == SkipCpus(cpus, 1)
  {
  }

  /** Cycling the processors from `i` on is skipping one cycle in each. */
  lemma {:induction false} QuietCycles(p: Program, m: MachineState, i: nat)
    requires i <= |m.world.irq.cpus| && Asleep(m.world.irq.cpus)
    requires forall j :: i <= j < |m.world.irq.cpus| ==> P.IdleCycles(m.world.irq.cpus[j]) > 0
    ensures Cycles(p, m, i) ==
            Traced(m.(world := m.world.(irq := m.world.irq.(cpus := SkipFrom(m.world.irq.cpus, i)))), [])
    decreases |m.world.irq.cpus| - i
  {
    hide Cycle, SkipCpu, P.IdleCycles, SkipFrom;
    var cpus := m.world.irq.cpus;
    if i < |cpus| {
      SkipCpuSleeps(cpus[i], 1);
      QuietCycle(p, m, i);
      QuietCycles(p, m.(world := SetCpu(m.world, i, SkipCpu(cpus[i], 1))), i + 1);
      SkipFromStep(cpus, i);
    } else {
      SkipFromEnds(cpus);
    }
  }

  lemma QuietTick(p: Program, m: MachineState)
    requires ProgramOk(p) && MachineOk(m) && Quiet(m)
    ensures Prompt(LawsOf(p).onEvent) && TickDrain(LawsOf(p), m).fired == []
    ensures Tick(LawsOf(p), m) == Skip(m, 1)
  {
    LawsArePrompt(p);
    assert Drain(LawsOf(p).onEvent, m.world, m.queue, m.tod + 1) == Drained(m.world, m.queue, [], []);
  }

  /** A quiet machine: one round is a skip of one, and leaves no trace. */
  lemma QuietRound(p: Program, m: MachineState)
    requires ProgramOk(p) && MachineOk(m) && Quiet(m)
    ensures Round(p, m) == Traced(SkipAll(m, 1), [])
  {
    hide Drain, Cycles;
    QuietTick(p, m);
    var t := Skip(m, 1);
    QuietCycles(p, t, 0);
    SkipFromEnds(m.world.irq.cpus);
  }

  lemma LoudCycle(p: Program, m: MachineState, i: nat)
    requires i < |m.world.irq.cpus| && P.SleepOk(m.world.irq.cpus[i]) && P.IdleCycles(m.world.irq.cpus[i]) == 0
    ensures Cycle(p, m, i).log != []
  {
    hide Processors.Suspend, ApplyOps, EndIRQ;
  }

  lemma {:induction false} LoudCycles(p: Program, m: MachineState, i: nat, j: nat)
    requires i <= j < |m.world.irq.cpus| && Asleep(m.world.irq.cpus)
    requires P.IdleCycles(m.world.irq.cpus[j]) == 0
    ensures Cycles(p, m, i).log != []
    decreases |m.world.irq.cpus| - i
  {
    hide Cycle;
    CycleKeepsSize(p, m, i);
    if P.IdleCycles(m.world.irq.cpus[i]) == 0 {
      LoudCycle(p, m, i);
    } else {
      QuietCycle(p, m, i);
      LoudCycles(p, Cycle(p, m, i).machine, i + 1, j);
    }
  }

  /** Any other machine: the round leaves a trace. */
  lemma LoudRound(p: Program, m: MachineState)
    requires ProgramOk(p) && MachineOk(m) && !Quiet(m)
    ensures Round(p, m).log != []
  {
    hide Cycles;
    LawsArePrompt(p);
    var l := LawsOf(p);
    var d := TickDrain(l, m);
    if m.timer > 0 {
      if m.queue != [] && m.queue[0].deadline <= m.tod + 1 {
        assert d.fired != [];
      } else {
        assert Tick(l, m) == Skip(m, 1);
        var j :| 0 <= j < |m.world.irq.cpus| && P.IdleCycles(m.world.irq.cpus[j]) == 0;
        LoudCycles(p, Tick(l, m), 0, j);
      }
    }
  }

  lemma SkippedTime(x: Word, k: Word)
    requires k <= x
    ensures (x + WORD_SIZE - k) % WORD_SIZE == x - k
  {
  }

  lemma SkipCpuIdle(c: P.Cpu, k: Word, j: nat)
    requires k <= P.IdleCycles(c) && j + k < WORD_SIZE
    ensures j <= P.IdleCycles(SkipCpu(c, k)) <==> j + k <= P.IdleCycles(c)
  {
    if c.mtie && c.status.Idle? {
      SkippedTime(c.time, k);
    }
  }

  lemma SkipCpuAdds(c: P.Cpu, a: Word, b: Word)
    requires a + b <= P.IdleCycles(c)
    ensures SkipCpu(SkipCpu(c, a), b) == SkipCpu(c, a + b)
  {
    if c.mtie && c.status.Idle? {
      SkippedTime(c.time, a);
      SkippedTime(c.time - a, b);
      SkippedTime(c.time, a + b);
    }
  }

  lemma SkipBusIdle(m: MachineState, k: Word)
    requires MachineOk(m) && k <= IdleCycles(m)
    ensures Skip(m, k) == m.(tod := m.tod + k, timer := m.timer - k)
    ensures IdleCycles(Skip(m, k)) == IdleCycles(m) - k && BusOk(Skip(m, k))
  {
    SkippedTime(m.timer, k);
  }

  /** Skipping within bounds uses up exactly that much of the idle time. */
  lemma SkipUsesIdle(m: MachineState, k: Word)
    requires MachineOk(m) && k <= MachineIdle(m)
    ensures MachineOk(SkipAll(m, k)) && MachineIdle(SkipAll(m, k)) == MachineIdle(m) - k
  {
    hide P.IdleCycles, IdleCycles, CpusIdle, SkipCpu;
    var cpus, r := m.world.irq.cpus, SkipAll(m, k);
    SkipBusIdle(m, k);
    assert IdleCycles(r) == IdleCycles(Skip(m, k)) by { IdleIgnoresWorld(m, k); }
    SkipCpusIdle(cpus, k, Min(IdleCycles(r), CpusIdle(SkipCpus(cpus, k))));
    SkipCpusIdle(cpus, k, MachineIdle(m) - k);
    SkipKeepsAsleep(cpus, k);
  }

  lemma IdleIgnoresWorld(m: MachineState, k: Word)
    ensures IdleCycles(SkipAll(m, k)) == IdleCycles(Skip(m, k))
  {
  }

  lemma SkipKeepsAsleep(cpus: seq<P.Cpu>, k: Word)
    requires Asleep(cpus)
    ensures Asleep(SkipCpus(cpus, k))
  {
  }

  lemma SkipCpusIdle(cpus: seq<P.Cpu>, k: Word, j: nat)
    requires k <= CpusIdle(cpus) && j + k < WORD_SIZE
    ensures j <= CpusIdle(SkipCpus(cpus, k)) <==> j + k <= CpusIdle(cpus)
  {
    hide P.IdleCycles, CpusIdle, SkipCpu;
    CpusIdleIs(cpus, k);
    CpusIdleIs(cpus, j + k);
    CpusIdleIs(SkipCpus(cpus, k), j);
    forall i | 0 <= i < |cpus| ensures j <= P.IdleCycles(SkipCpus(cpus, k)[i]) <==> j + k <= P.IdleCycles(cpus[i]) {
      SkipCpuIdle(cpus[i], k, j);
    }
  }

  /** Two skips are one: the chunks of a long fast-forward add up. */
  lemma SkipsAdd(m: MachineState, a: Word, b: Word)
    requires MachineOk(m) && a + b <= MachineIdle(m)
    ensures SkipAll(SkipAll(m, a), b) == SkipAll(m, a + b)
  {
    hide P.IdleCycles, CpusIdle, SkipCpu;
    var cpus := m.world.irq.cpus;
    CpusIdleIs(cpus, a + b);
    forall i | 0 <= i < |cpus| ensures SkipCpu(SkipCpu(cpus[i], a), b) == SkipCpu(cpus[i], a + b) {
      SkipCpuAdds(cpus[i], a, b);
    }
    assert SkipCpus(SkipCpus(cpus, a), b) == SkipCpus(cpus, a + b);
    SkippedTime(m.timer, a);
    SkippedTime(m.timer - a, b);
    SkippedTime(m.timer, a + b);
  }

  /** The idle count is exact: `k` rounds leave no trace (no event fired, no
      timer ran out, no instruction executed) if and only if `k` is within it,
      and then the fast-forward reaches the very state the rounds reach. */
  lemma {:induction false} FastForwardIsExact(p: Program, m: MachineState, k: nat)
    requires ProgramOk(p) && MachineOk(m)
    ensures Rounds(p, m, k).log == [] <==> k <= MachineIdle(m)
    ensures k <= MachineIdle(m) ==> Rounds(p, m, k).machine == SkipAll(m, k)
    decreases k
  {
    hide Round, MachineOk, MachineIdle, SkipAll;
    if k == 0 {
      SkipNothing(m);
    } else {
      QuietIsIdle(m);
      RoundOk(p, m);
      if Quiet(m) {
        QuietRound(p, m);
        SkipUsesIdle(m, 1);
        FastForwardIsExact(p, SkipAll(m, 1), k - 1);
        if k <= MachineIdle(m) {
          SkipsAdd(m, 1, k - 1);
        }
      } else {
        LoudRound(p, m);
      }
    }
  }

  lemma SkipNothing(m: MachineState)
    ensures SkipAll(m, 0) == m
  {
    assert SkipCpus(m.world.irq.cpus, 0) == m.world.irq.cpus;
  }

  lemma {:induction false} RoundsKeepOk(p: Program, m: MachineState, k: nat)
    requires ProgramOk(p) && MachineOk(m)
    ensures MachineOk(Rounds(p, m, k).machine)
    decreases k
  {
    hide Round, Asleep, AllBefore;
    if k > 0 {
      RoundOk(p, m);
      RoundsKeepOk(p, Round(p, m).machine, k - 1);
    }
  }

  lemma {:induction false} RoundsAdd(p: Program, m: MachineState, a: nat, b: nat)
    requires ProgramOk(p) && MachineOk(m)
    ensures MachineOk(Rounds(p, m, a).machine)
    ensures Rounds(p, m, a + b).machine == Rounds(p, Rounds(p, m, a).machine, b).machine
    decreases a
  {
    hide Round, Asleep, AllBefore;
    RoundsKeepOk(p, m, a);
    if a > 0 {
      RoundOk(p, m);
      RoundsAdd(p, Round(p, m).machine, a - 1, b);
    }
  }

  /** How a session drives the machine: rounds one at a time, or a fast-forward
      within the idle count. */
  datatype Stride = OneRound | Skipping(cycles: Word)

  ghost predicate LegalStrides(p: Program, m: MachineState, strides: seq<Stride>)
    requires ProgramOk(p) && MachineOk(m)
    decreases |strides|
  {
    strides == [] ||
    match strides[0]
    case OneRound => RoundOk(p, m); LegalStrides(p, Round(p, m).machine, strides[1..])
    case Skipping(k) => k <= MachineIdle(m) && (SkipUsesIdle(m, k); LegalStrides(p, SkipAll(m, k), strides[1..]))
  }

  ghost function Drive(p: Program, m: MachineState, strides: seq<Stride>): MachineState
    requires ProgramOk(p) && MachineOk(m) && LegalStrides(p, m, strides)
    decreases |strides|
  {
    if strides == [] then m
    else
      match strides[0]
      case OneRound => RoundOk(p, m); Drive(p, Round(p, m).machine, strides[1..])
      case Skipping(k) => SkipUsesIdle(m, k); Drive(p, SkipAll(m, k), strides[1..])
  }

  function Ticks(strides: seq<Stride>): nat {
    if strides == [] then 0
    else (match strides[0] case OneRound => 1 case Skipping(k) => k) + Ticks(strides[1..])
  }

  /** However rounds and fast-forwards are mixed, the machine reached is the one
      that the same number of single rounds reaches. */
  lemma {:induction false} DrivingIsRunning(p: Program, m: MachineState, strides: seq<Stride>)
    requires ProgramOk(p) && MachineOk(m) && LegalStrides(p, m, strides)
    ensures Drive(p, m, strides) == Rounds(p, m, Ticks(strides)).machine
    decreases |strides|
  {
    hide Round, Asleep, AllBefore, MachineIdle, SkipAll;
    if strides != [] {
      var rest := strides[1..];
      match strides[0]
      case OneRound =>
        RoundOk(p, m);
        DrivingIsRunning(p, Round(p, m).machine, rest);
      case Skipping(k) =>
        SkipUsesIdle(m, k);
        DrivingIsRunning(p, SkipAll(m, k), rest);
        FastForwardIsExact(p, m, k);
        RoundsAdd(p, m, k, Ticks(rest));
    }
  }

  /** Power-on: processor 0 reset, the others halted, nothing scheduled. */
  function PowerOn(cpus: nat, core: seq<Word>, devices: seq<Word>): MachineState
    requires 0 < cpus <= MAX_CPUS
  {
    var off := P.Cpu(P.Halted, {}, false, 0, []);
    var irq := Initial(seq(cpus, i => if i == 0 then P.Reset(off, core) else off));
    BusState(0, WORD_SIZE - 1, [], RawBoard(irq, devices, false))
  }

  lemma PowerOnOk(cpus: nat, core: seq<Word>, devices: seq<Word>)
    requires 0 < cpus <= MAX_CPUS
    ensures MachineOk(PowerOn(cpus, core, devices))
  {
  }

  /** The chunks in which a session works off an idle count. */
  const MAX_SKIPPED: Word := 50000

  ghost function SkipChunks(m: MachineState, idleSteps: Word): MachineState
    decreases idleSteps
  {
    if idleSteps == 0 then m
    else
      var skipped := Min(idleSteps, MAX_SKIPPED);
      SkipChunks(SkipAll(m, skipped), idleSteps - skipped)
  }

  lemma {:induction false} ChunksAreOneSkip(m: MachineState, idleSteps: Word)
    requires MachineOk(m) && idleSteps <= MachineIdle(m)
    ensures SkipChunks(m, idleSteps) == SkipAll(m, idleSteps)
    decreases idleSteps
  {
    hide MachineOk, MachineIdle, SkipAll;
    if idleSteps == 0 {
      SkipNothing(m);
    } else {
      var skipped := Min(idleSteps, MAX_SKIPPED);
      SkipUsesIdle(m, skipped);
      ChunksAreOneSkip(SkipAll(m, skipped), idleSteps - skipped);
      SkipsAdd(m, skipped, idleSteps - skipped);
    }
  }
}
