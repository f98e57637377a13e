/** The terminal on the bus: its completions travel through the event queue, mixed
    with the events of everybody else, and its signals go to the interrupt controller. */
module TerminalRuns {
  import opened Words
  import opened Arch
  import opened Devices
  import opened EventQueues
  import opened SystemBuses
  import opened DeviceEvents
  import opened DeviceLines
  import opened Terminals
  import opened TerminalTexts
  import Interrupts
  import opened InterruptSources
  import Processors

  /** A completion that ran: the deadline its half was waiting for, and when. */
  datatype Finish = Finish(promised: nat, at: nat)

  /** The terminal, the interrupt controller, the log of the terminal's text, and the
      rest of the machine. */
  datatype Desk = Desk(term: Term, irq: Controller, panicked: bool, finished: seq<Finish>, log: Log, others: seq<Word>)

  /** What somebody else's event does: the rest of the machine after it, what it
      schedules, and what it tells the controller. */
  datatype Reply = Reply(others: seq<Word>, requests: seq<Request<nat>>, ops: seq<Interrupts.Op>)

  /** The clock rate, the terminal's line, and everybody else's events. */
  datatype Setting = Setting(rate: nat, line: DevLine, other: (seq<Word>, nat, nat) -> Reply)

  predicate RateOk(rate: nat) { 1 <= rate <= 99 }

  ghost predicate AllApart(ops: seq<Interrupts.Op>, x: DevLine) {
    forall i :: 0 <= i < |ops| ==> Apart(ops[i], x)
  }

  ghost predicate SettingOk(g: Setting) {
    && RateOk(g.rate)
    && forall s, i, t :: AllPrompt(g.other(s, i, t).requests) && AllApart(g.other(s, i, t).ops, g.line)
  }

  /** The deadline the half now completing was waiting for. */
  function Promised(t: Term): nat {
    if DoRecv(t) then t.recvCTime else t.tranCTime
  }

  function OnEvent(g: Setting, w: Desk, c: Callback, tod: nat): Outcome<Desk, Callback> {
    match c
    case Done =>
      var r := Complete(w.term, tod, g.rate);
      Outcome(w.(term := r.term, irq := Signalled(w.irq, g.line, r.signals), panicked := w.panicked || r.panicked,
                 finished := w.finished + [Finish(Promised(w.term), tod)],
                 log := AfterFinish(w.log, w.term, r.term, tod)),
              Requests(r.delays))
    case Other(id) =>
      var o := g.other(w.others, id, tod);
      Outcome(w.(others := o.others, irq := Interrupts.ApplyOps(w.irq, o.ops)), Elsewhere(o.requests))
  }

  const TIMER_LINE := Interrupts.Line(Interrupts.IL_TIMER, 0)

  function OnUnderflow(w: Desk): Desk {
    w.(irq := Interrupts.StartIRQ(w.irq, TIMER_LINE))
  }

  function LawsOf(g: Setting): Laws<Desk, Callback> {
    Laws((w, c, t) => OnEvent(g, w, c, t), w => OnUnderflow(w))
  }

  /** How many completions the busy halves are waiting for at `d`. */
  ghost function Awaited(t: Term, d: nat): nat {
    One(t.recvStatus == BUSY && t.recvCTime == d) + One(t.tranStatus == BUSY && t.tranCTime == d)
  }

  predicate Pending(t: Term) { t.recvIntPend || t.tranIntPend }

  /** A busy half is carrying out a command that has a completion. */
  predicate Commanded(t: Term) {
    && (t.recvStatus == BUSY ==> t.recvCommand == RESET || t.recvCommand == CHR)
    && (t.tranStatus == BUSY ==> Command(t.tranCommand) == RESET || Command(t.tranCommand) == CHR)
  }

  /** The controller has the line up exactly while a half has an interrupt
      pending, the text is in order, and every completion so far came on its
      deadline. */
  ghost predicate DeskOk(g: Setting, w: Desk) {
    && Commanded(w.term)
    && LineOk(w.irq, g.line, Pending(w.term))
    && TextOk(w.term, w.log, g.rate)
    && !w.panicked
    && forall i :: 0 <= i < |w.finished| ==> w.finished[i].promised == w.finished[i].at
  }

  /** The queued completions are exactly the awaited ones, deadline by deadline. */
  ghost predicate Matched(t: Term, q: seq<Entry<Callback>>) {
    forall d: nat :: Queued(q, d) == Awaited(t, d)
  }

  lemma LawsArePrompt(g: Setting)
    requires SettingOk(g)
    ensures Prompt(LawsOf(g).onEvent)
  {
    hide Signalled, Interrupts.ApplyOps, LineOk;
    forall w, c: Callback, t ensures AllPrompt(LawsOf(g).onEvent(w, c, t).requests) {
      if c.Done? {
        assert RESETTIME * g.rate < WORD_SIZE && CHRTIME * g.rate < WORD_SIZE;
      } else {
        var rs := g.other(w.others, c.id, t).requests;
        assert AllPrompt(rs);
        assert forall i :: 0 <= i < |rs| ==> Elsewhere(rs)[i].delay == rs[i].delay;
      }
    }
  }

  /** The completion at the head of the queue belongs to the half the device
      picks, also when both halves are at work and also on a tie. */
  lemma RightHalf(t: Term, q: seq<Entry<Callback>>)
    requires Sorted(q) && q != [] && q[0].callback.Done? && Matched(t, q)
    ensures Promised(t) == q[0].deadline
    ensures if DoRecv(t) then t.recvStatus == BUSY else t.tranStatus == BUSY
  {
    var d := q[0].deadline;
    QueuedIsIn(q, d);
    assert Awaited(t, d) > 0;
    if t.recvStatus == BUSY && t.tranStatus == BUSY {
      InQueue(t, q, t.recvCTime);
      InQueue(t, q, t.tranCTime);
    }
  }

  lemma InQueue(t: Term, q: seq<Entry<Callback>>, d: nat)
    requires Sorted(q) && q != [] && Matched(t, q) && Awaited(t, d) > 0
    ensures q[0].deadline <= d
  {
    QueuedIsIn(q, d);
  }

  lemma Delays(rate: nat)
    requires RateOk(rate)
    ensures 0 < CHRTIME * rate < WORD_SIZE && 0 < RESETTIME * rate < WORD_SIZE
  {
  }

  /** A completion is awaited once less at its own deadline, and once more at the
      deadline of the completion it schedules. */
  lemma CompleteAwaits(t: Term, tod: nat, rate: nat, d: nat)
    requires RateOk(rate) && Promised(t) == tod && Commanded(t)
    requires if DoRecv(t) then t.recvStatus == BUSY else t.tranStatus == BUSY
    ensures var r := Complete(t, tod, rate);
            && SaneDelays(r.delays)
            && Awaited(r.term, d) + One(d == tod) == Awaited(t, d) + Added(r.delays, tod, d)
  {
    hide Command, Char, Received, RateOk;
    Delays(rate);
    if DoRecv(t) {
      hide CompleteTran;
      if t.input != [] { NotBusy(t); }
    } else {
      hide CompleteRecv;
    }
  }

  /** The status of a received character is no BUSY. */
  lemma NotBusy(t: Term)
    requires t.input != []
    ensures Received(t.input[0]) != BUSY
  {
  }

  lemma WriteAwaits(t: Term, regnum: nat, data: Word, tod: nat, rate: nat, d: nat)
    requires RateOk(rate)
    ensures var r := WriteReg(t, regnum, data, tod, rate);
            && SaneDelays(r.delays)
            && Awaited(r.term, d) == Awaited(t, d) + Added(r.delays, tod, d)
  {
    hide Command, RateOk;
    Delays(rate);
  }

  /** A completion's signals leave the line where the pending flags then are. */
  lemma CompleteStands(t: Term, tod: nat, rate: nat)
    requires Commanded(t) && (if DoRecv(t) then t.recvStatus == BUSY else t.tranStatus == BUSY)
    ensures var r := Complete(t, tod, rate);
            !r.panicked && Commanded(r.term) && Standing(Pending(t), r.signals) == Pending(r.term)
  {
    hide Command, Char, Received;
    if DoRecv(t) {
      hide CompleteTran;
      if t.input != [] { NotBusy(t); }
    } else {
      hide CompleteRecv;
    }
  }

  /** So do a store's. */
  lemma WriteStands(t: Term, regnum: nat, data: Word, tod: nat, rate: nat)
    requires Commanded(t)
    ensures var r := WriteReg(t, regnum, data, tod, rate);
            Commanded(r.term) && Standing(Pending(t), r.signals) == Pending(r.term)
  {
    hide Command;
    if regnum == RECVCOMMAND {
      hide WriteTran;
    } else {
      hide WriteRecv;
    }
  }

  lemma CompleteDesk(g: Setting, w: Desk, tod: nat)
    requires DeskOk(g, w) && Promised(w.term) == tod
    requires if DoRecv(w.term) then w.term.recvStatus == BUSY else w.term.tranStatus == BUSY
    ensures DeskOk(g, OnEvent(g, w, Done, tod).world)
  {
    hide Complete, LineOk, Commanded, Pending, Signalled, TextOk, AfterFinish;
    FinishKeepsText(w.term, w.log, tod, g.rate);
    CompleteStands(w.term, tod, g.rate);
    SignalsKeepLine(w.irq, g.line, Complete(w.term, tod, g.rate).signals, Pending(w.term));
  }

  /** One completion: the right half finishes on time and the books stay balanced. */
  lemma CompletionKeeps(g: Setting, w: Desk, q: seq<Entry<Callback>>, tod: nat)
    requires SettingOk(g) && DeskOk(g, w) && Matched(w.term, q)
    requires Sorted(q) && q != [] && q[0] == Entry(tod, Done)
    ensures var o := OnEvent(g, w, Done, tod);
            && AllPrompt(o.requests) && DeskOk(g, o.world)
            && Matched(o.world.term, AfterCallback(q, DueAll(tod, o.requests)))
  {
    hide AfterCallback, Matched, Sorted, Complete, Awaited, Signalled, LineOk, Commanded, Queued, TextOk, AfterFinish;
    LawsArePrompt(g);
    RightHalf(w.term, q);
    CompleteDesk(g, w, tod);
    var o := OnEvent(g, w, Done, tod);
    assert AllPrompt(LawsOf(g).onEvent(w, Done, tod).requests);
    var r := Complete(w.term, tod, g.rate);
    var es := DueAll(tod, o.requests);
    forall d: nat ensures Queued(AfterCallback(q, es), d) == Awaited(o.world.term, d) {
      CompleteAwaits(w.term, tod, g.rate, d);
      DueCounts(r.delays, tod, d);
      TurnCounts(q, es, tod, d);
      MatchedAt(w.term, q, d);
    }
    MatchedIf(o.world.term, AfterCallback(q, es));
  }

  lemma MatchedAt(t: Term, q: seq<Entry<Callback>>, d: nat)
    requires Matched(t, q)
    ensures Queued(q, d) == Awaited(t, d)
  {
  }

  lemma MatchedIf(t: Term, q: seq<Entry<Callback>>)
    requires forall d: nat :: Queued(q, d) == Awaited(t, d)
    ensures Matched(t, q)
  {
  }

  /** Somebody else's event leaves the terminal's completions and line alone. */
  lemma OtherKeeps(g: Setting, w: Desk, q: seq<Entry<Callback>>, tod: nat)
    requires SettingOk(g) && DeskOk(g, w) && Matched(w.term, q)
    requires Sorted(q) && q != [] && q[0].callback.Other? && q[0].deadline == tod
    ensures var o := OnEvent(g, w, q[0].callback, tod);
            && AllPrompt(o.requests) && DeskOk(g, o.world)
            && Matched(o.world.term, AfterCallback(q, DueAll(tod, o.requests)))
  {
    hide AfterCallback, Matched, Sorted, Interrupts.ApplyOps, LineOk, Commanded, Queued, Awaited, Apart, TextOk;
    LawsArePrompt(g);
    var o := OnEvent(g, w, q[0].callback, tod);
    assert AllPrompt(LawsOf(g).onEvent(w, q[0].callback, tod).requests);
    var reply := g.other(w.others, q[0].callback.id, tod);
    OthersKeepLine(w.irq, g.line, reply.ops, Pending(w.term));
    var es := DueAll(tod, o.requests);
    forall d: nat ensures Queued(AfterCallback(q, es), d) == Awaited(o.world.term, d) {
      TurnCounts(q, es, tod, d);
      NoneFromElsewhere(tod, reply.requests, d);
      MatchedAt(w.term, q, d);
    }
    MatchedIf(o.world.term, AfterCallback(q, es));
  }

  lemma {:induction false} DrainKeepsDesk(g: Setting, w: Desk, q: seq<Entry<Callback>>, tod: nat)
    requires SettingOk(g) && Prompt(LawsOf(g).onEvent) && DeskOk(g, w) && Matched(w.term, q)
    requires Sorted(q) && NoneBefore(q, tod)
    ensures var d := Drain(LawsOf(g).onEvent, w, q, tod); DeskOk(g, d.world) && Matched(d.world.term, d.queue)
    decreases Upto(q, tod)
  {
    hide DeskOk, Matched, AfterCallback, OnEvent;
    if q != [] && q[0].deadline <= tod {
      var o := OnEvent(g, w, q[0].callback, tod);
      var es := DueAll(tod, o.requests);
      if q[0].callback.Done? {
        CompletionKeeps(g, w, q, tod);
      } else {
        OtherKeeps(g, w, q, tod);
      }
      AfterCallbackKeeps(q, es, tod);
      TurnKeepsNoneBefore(q, es, tod);
      DrainKeepsDesk(g, o.world, AfterCallback(q, es), tod);
    }
  }

  type State = BusState<Desk, Callback>

  /** Everything that happens to the terminal and around it: `Control` is what the
      guest tells the interrupt controller about other lines. */
  datatype Action =
    | ClockTick
    | WriteTo(regnum: nat, data: Word)
    | Type(text: seq<Word>)
    | SetWorking(working: bool)
    | Control(op: Interrupts.Op)
    | ScheduleOther(delay: nat, id: nat)
    | FastForward(cycles: Word)

  ghost predicate Legal(g: Setting, s: State, a: Action) {
    match a
    case Control(op) => Interrupts.ValidOp(|s.world.irq.ctl|, op) && Apart(op, g.line)
    case ScheduleOther(delay, id) => Truncate(delay) > 0
    case FastForward(c) => c <= IdleCycles(s)
    case _ => true
  }

  ghost function Act(g: Setting, s: State, a: Action): State
    requires SettingOk(g) && Sorted(s.queue) && Legal(g, s, a)
  {
    match a
    case ClockTick => LawsArePrompt(g); Tick(LawsOf(g), s)
    case WriteTo(regnum, data) =>
      var r := WriteReg(s.world.term, regnum, data, s.tod, g.rate);
      s.(world := s.world.(term := r.term, irq := Signalled(s.world.irq, g.line, r.signals),
                              log := AfterStore(s.world.log, s.world.term, regnum, data, s.tod)),
         queue := InsertAll(s.queue, DueAll(s.tod, Requests(r.delays))))
    case Type(text) =>
      s.(world := s.world.(term := Typed(s.world.term, text), log := AfterTyping(s.world.log, text)))
    case SetWorking(b) => s.(world := s.world.(term := s.world.term.(working := b)))
    case Control(op) => s.(world := s.world.(irq := Interrupts.Step(s.world.irq, op)))
    case ScheduleOther(delay, id) => s.(queue := Insert(s.queue, Due(s.tod, Request(delay, Other(id)))))
    case FastForward(c) => Skip(s, c)
  }

  ghost predicate StateOk(g: Setting, s: State) {
    BusOk(s) && DeskOk(g, s.world) && Matched(s.world.term, s.queue)
  }

  lemma UnderflowKeeps(g: Setting, w: Desk)
    requires DeskOk(g, w)
    ensures DeskOk(g, OnUnderflow(w))
  {
    hide LineOk, Commanded, Pending, Interrupts.StartIRQ, TextOk;
    OtherKeepsLine(w.irq, g.line, Interrupts.Start(TIMER_LINE), Pending(w.term));
  }

  lemma TickKeeps(g: Setting, s: State)
    requires SettingOk(g) && StateOk(g, s)
    ensures StateOk(g, Act(g, s, ClockTick))
  {
    hide Drain, DeskOk, Matched, OnEvent, OnUnderflow;
    LawsArePrompt(g);
    UnderflowKeeps(g, s.world);
    UnderflowSameTerm(s.world);
    var w := if s.timer == 0 then OnUnderflow(s.world) else s.world;
    DrainKeepsDesk(g, w, s.queue, s.tod + 1);
    DrainFires(LawsOf(g).onEvent, w, s.queue, s.tod + 1);
  }

  lemma UnderflowSameTerm(w: Desk)
    ensures OnUnderflow(w).term == w.term
  {
  }

  lemma WriteDesk(g: Setting, w: Desk, regnum: nat, data: Word, tod: nat)
    requires DeskOk(g, w)
    ensures var r := WriteReg(w.term, regnum, data, tod, g.rate);
            DeskOk(g, w.(term := r.term, irq := Signalled(w.irq, g.line, r.signals),
                         log := AfterStore(w.log, w.term, regnum, data, tod)))
  {
    hide WriteReg, LineOk, Commanded, Pending, Signalled, TextOk, AfterStore;
    StoreKeepsText(w.term, w.log, regnum, data, tod, g.rate);
    WriteStands(w.term, regnum, data, tod, g.rate);
    SignalsKeepLine(w.irq, g.line, WriteReg(w.term, regnum, data, tod, g.rate).signals, Pending(w.term));
  }

  lemma WriteKeeps(g: Setting, s: State, regnum: nat, data: Word)
    requires SettingOk(g) && StateOk(g, s)
    ensures StateOk(g, Act(g, s, WriteTo(regnum, data)))
  {
    hide Matched, InsertAll, WriteReg, DeskOk, Awaited, DueAll, Signalled, Queued, AfterStore;
    var r := WriteReg(s.world.term, regnum, data, s.tod, g.rate);
    var s' := Act(g, s, WriteTo(regnum, data));
    WriteDesk(g, s.world, regnum, data, s.tod);
    WriteAwaits(s.world.term, regnum, data, s.tod, g.rate, 0);
    DueCounts(r.delays, s.tod, 0);
    InsertAllCounts(s.queue, DueAll(s.tod, Requests(r.delays)), s.tod);
    forall d: nat ensures Queued(s'.queue, d) == Awaited(s'.world.term, d) {
      WriteAwaits(s.world.term, regnum, data, s.tod, g.rate, d);
      DueCounts(r.delays, s.tod, d);
      MatchedAt(s.world.term, s.queue, d);
    }
    MatchedIf(s'.world.term, s'.queue);
  }

  lemma ControlKeeps(g: Setting, s: State, op: Interrupts.Op)
    requires SettingOk(g) && StateOk(g, s) && Legal(g, s, Control(op))
    ensures StateOk(g, Act(g, s, Control(op)))
  {
    hide LineOk, Commanded, Matched, Interrupts.Step, Apart, Interrupts.ValidOp, TextOk;
    OtherKeepsLine(s.world.irq, g.line, op, Pending(s.world.term));
  }

  lemma ActKeeps(g: Setting, s: State, a: Action)
    requires SettingOk(g) && StateOk(g, s) && Legal(g, s, a)
    ensures StateOk(g, Act(g, s, a))
  {
    hide Drain, Insert, Tick, Matched, LineOk, Queued, Awaited, TextOk;
    match a
    case ClockTick => TickKeeps(g, s);
    case WriteTo(regnum, data) => WriteKeeps(g, s, regnum, data);
    case Type(text) =>
      TypingKeepsText(s.world.term, s.world.log, text, g.rate);
      SameMatches(s.world.term, Typed(s.world.term, text), s.queue);
    case SetWorking(b) =>
      WorkingKeepsText(s.world.term, s.world.log, b, g.rate);
      SameMatches(s.world.term, s.world.term.(working := b), s.queue);
    case Control(op) => ControlKeeps(g, s, op);
    case ScheduleOther(delay, id) =>
      InsertOther(s.queue, s.tod, delay, id);
      forall d: nat ensures Queued(Act(g, s, a).queue, d) == Awaited(s.world.term, d) {
        MatchedAt(s.world.term, s.queue, d);
      }
      MatchedIf(s.world.term, Act(g, s, a).queue);
    case FastForward(c) =>
  }

  lemma SameMatches(t: Term, u: Term, q: seq<Entry<Callback>>)
    requires Matched(t, q)
    requires t.recvStatus == u.recvStatus && t.tranStatus == u.tranStatus
    requires t.recvCTime == u.recvCTime && t.tranCTime == u.tranCTime
    ensures Matched(u, q)
  {
  }

  ghost predicate LegalRun(g: Setting, s: State, acts: seq<Action>)
    requires SettingOk(g) && StateOk(g, s)
    decreases |acts|
  {
    acts == [] || (Legal(g, s, acts[0]) && (ActKeeps(g, s, acts[0]); LegalRun(g, Act(g, s, acts[0]), acts[1..])))
  }

  ghost function Run(g: Setting, s: State, acts: seq<Action>): State
    requires SettingOk(g) && StateOk(g, s) && LegalRun(g, s, acts)
    decreases |acts|
  {
    if acts == [] then s else (ActKeeps(g, s, acts[0]); Run(g, Act(g, s, acts[0]), acts[1..]))
  }

  /** Over every run: pending completions are exactly those the busy halves await,
      each completion serves the half whose deadline it is, the unreachable
      branches stay unreached, and the controller remembers a target for the shared
      line exactly while a half has an interrupt pending. */
  lemma {:induction false} RunsStayOk(g: Setting, s: State, acts: seq<Action>)
    requires SettingOk(g) && StateOk(g, s) && LegalRun(g, s, acts)
    ensures StateOk(g, Run(g, s, acts))
    decreases |acts|
  {
    hide Sorted, AllAfter, DeskOk, Matched, Act, Legal;
    if acts != [] {
      ActKeeps(g, s, acts[0]);
      RunsStayOk(g, Act(g, s, acts[0]), acts[1..]);
    }
  }

  /** The machine at power-on, around a terminal. */
  function Start(cpus: seq<Processors.Cpu>, others: seq<Word>): State
    requires 0 < |cpus| <= MAX_CPUS
  {
    BusState(0, WORD_SIZE - 1, [], Desk(PowerOn(), Interrupts.Initial(cpus), false, [], EMPTY, others))
  }

  lemma WorkingKeepsText(t: Term, log: Log, working: bool, rate: nat)
    requires TextOk(t, log, rate)
    ensures TextOk(t.(working := working), log, rate)
  {
    hide Printed, Bytes;
  }

  /** From power-on, over every run: what was printed is, in order, byte 1 of the
      characters sent whose completion came while the device worked; what the guest
      was shown and what it has yet to read is, in order, what was typed. */
  lemma TextComesThrough(g: Setting, cpus: seq<Processors.Cpu>, others: seq<Word>, acts: seq<Action>)
    requires 0 < |cpus| <= MAX_CPUS && SettingOk(g) && forall c :: 0 <= c < |cpus| ==> cpus[c].mip == {}
    ensures var s := Start(cpus, others);
            && StateOk(g, s)
            && (LegalRun(g, s, acts) ==>
                  var w := Run(g, s, acts).world;
                  && w.term.output == Printed(w.log.jobs)
                  && w.log.received + Bytes(w.term.input) == Bytes(w.log.typed))
  {
    hide LineOk, Run, LegalRun, Matched;
    PowerOnOk(g, cpus, others);
    var s := Start(cpus, others);
    if LegalRun(g, s, acts) {
      RunsStayOk(g, s, acts);
    }
  }

  /** In every such state, under a fixed route: the processor routed to, and no
      other, shows the terminal exactly while a half has an interrupt pending. */
  lemma PendingIsShown(g: Setting, s: State)
    requires StateOk(g, s) && s.world.irq.sources[Interrupts.Slot(g.line)].route.Fixed?
    ensures var c := s.world.irq.sources[Interrupts.Slot(g.line)].route.cpu;
            && c < |s.world.irq.ctl|
            && (Pending(s.world.term) ==> g.line.il in s.world.irq.cpus[c].mip)
            && forall k :: 0 <= k < |s.world.irq.ctl| ==>
                 (Shown(s.world.irq, g.line, k) <==> k == c && Pending(s.world.term))
  {
    hide Matched, Commanded, TextOk;
    FixedLineIs(s.world.irq, g.line, Pending(s.world.term));
  }

  /** At power-on all this holds, the lines being down and routed to processor 0. */
  lemma PowerOnOk(g: Setting, cpus: seq<Processors.Cpu>, others: seq<Word>)
    requires 0 < |cpus| <= MAX_CPUS && forall c :: 0 <= c < |cpus| ==> cpus[c].mip == {}
    ensures StateOk(g, Start(cpus, others))
  {
    hide LineOk;
    InitialLine(cpus, g.line);
  }
}
