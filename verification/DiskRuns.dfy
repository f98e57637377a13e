/** The drive on the bus: its completions travel through the event queue, mixed
    with the events of everybody else.  Every run there is one of those in which a
    completion comes only while the drive is busy. */
module DiskRuns {
  import opened Words
  import opened Devices
  import opened EventQueues
  import opened SystemBuses
  import opened DeviceEvents
  import opened Dma
  import opened Disks
  import Refinement = DiskRefinement

  /** The drive, memory, the drive's signals, the deadline of its last operation,
      what has happened to it so far, and the rest of the machine. */
  datatype Bay = Bay(disk: Disk, memory: Memory, signals: seq<Signal>, due: nat, panicked: bool,
                     trace: seq<Refinement.Action>, others: seq<Word>)

  /** What somebody else's event does: to the rest of the machine, to memory, and
      what it schedules. */
  datatype Reply = Reply(others: seq<Word>, memory: Memory, requests: seq<Request<nat>>)

  /** The drive and the memory a run starts with, and everybody else's events. */
  datatype Setting = Setting(geometry: Geometry, disk: Disk, memory: Memory,
                             other: (seq<Word>, Memory, nat, nat) -> Reply)

  ghost predicate SettingOk(g: Setting) {
    && Refinement.DiskOk(g.geometry, g.disk)
    && forall s, m, i, t :: AllPrompt(g.other(s, m, i, t).requests)
  }

  function Delays(delay: Option<Word>): seq<nat> {
    if delay.Some? then [delay.value] else []
  }

  /** The drive's own step, written down. */
  function After(w: Bay, r: Reaction, tod: nat, a: Refinement.Action): Bay {
    w.(disk := r.disk, memory := r.memory, signals := w.signals + r.signals,
       due := if r.delay.Some? then tod + r.delay.value else w.due,
       panicked := w.panicked || r.panicked, trace := w.trace + [a])
  }

  function OnEvent(g: Setting, w: Bay, c: Callback, tod: nat): Outcome<Bay, Callback> {
    match c
    case Done =>
      var r := Complete(g.geometry, w.disk, w.memory);
      Outcome(After(w, r, tod, Refinement.Finish), Requests(Delays(r.delay)))
    case Other(id) =>
      var o := g.other(w.others, w.memory, id, tod);
      var touch := Refinement.Touch(m => g.other(w.others, m, id, tod).memory);
      Outcome(After(w, Reaction(w.disk, o.memory, None, [], false), tod, touch).(others := o.others),
              Elsewhere(o.requests))
  }

  function LawsOf(g: Setting): Laws<Bay, Callback> {
    Laws((w, c, t) => OnEvent(g, w, c, t), w => w)
  }

  /** The bay has got where its trace leads. */
  ghost predicate Traced(g: Setting, w: Bay)
    requires SettingOk(g)
  {
    && Refinement.LegalRun(g.geometry, g.disk, g.memory, w.trace)
    && Refinement.RunDisk(g.geometry, g.disk, g.memory, w.trace) == (w.disk, w.memory, w.signals)
  }

  ghost predicate BayOk(g: Setting, w: Bay)
    requires SettingOk(g)
  {
    Refinement.DiskOk(g.geometry, w.disk) && !w.panicked && Traced(g, w)
  }

  /** One completion is queued while the drive is busy, at its deadline, and none
      while it is not. */
  ghost predicate Matched(w: Bay, q: seq<Entry<Callback>>) {
    forall d: nat :: Queued(q, d) == One(w.disk.status == BUSY && w.due == d)
  }

  lemma MatchedAt(w: Bay, q: seq<Entry<Callback>>, d: nat)
    requires Matched(w, q)
    ensures Queued(q, d) == One(w.disk.status == BUSY && w.due == d)
  {
  }

  lemma MatchedIf(w: Bay, q: seq<Entry<Callback>>)
    requires forall d: nat :: Queued(q, d) == One(w.disk.status == BUSY && w.due == d)
    ensures Matched(w, q)
  {
  }

  /** A run goes on with one more step. */
  lemma {:induction false} RunAppends(g: Geometry, d: Disk, m: Memory, acts: seq<Refinement.Action>,
      a: Refinement.Action)
    requires Refinement.DiskOk(g, d) && Refinement.LegalRun(g, d, m, acts)
    requires Refinement.Legal(Refinement.RunDisk(g, d, m, acts).0.status, a)
    ensures var (d', m', s) := Refinement.RunDisk(g, d, m, acts);
            && Refinement.DiskOk(g, d')
            && Refinement.LegalRun(g, d, m, acts + [a])
            && var r := Refinement.DiskStep(g, d', m', a);
               Refinement.RunDisk(g, d, m, acts + [a]) == (r.disk, r.memory, s + r.signals)
    decreases |acts|
  {
    hide Refinement.DiskOk, Refinement.DiskStep, Refinement.Legal;
    if acts == [] {
      Refinement.StepKeepsOk(g, d, m, a);
      assert acts + [a] == [a] && [a][1..] == [];
      var r := Refinement.DiskStep(g, d, m, a);
      assert Refinement.RunDisk(g, r.disk, r.memory, []) == (r.disk, r.memory, []);
      assert r.signals + [] == [] + r.signals;
    } else {
      Refinement.StepKeepsOk(g, d, m, acts[0]);
      var r := Refinement.DiskStep(g, d, m, acts[0]);
      RunAppends(g, r.disk, r.memory, acts[1..], a);
      var (d', m', s) := Refinement.RunDisk(g, r.disk, r.memory, acts[1..]);
      var last := Refinement.DiskStep(g, d', m', a).signals;
      assert r.signals + (s + last) == (r.signals + s) + last;
      assert (acts + [a])[1..] == acts[1..] + [a] && (acts + [a])[0] == acts[0];
    }
  }

  /** So a legal step, written down, leaves the bay where its trace leads. */
  lemma StepTraced(g: Setting, w: Bay, tod: nat, a: Refinement.Action)
    requires SettingOk(g) && BayOk(g, w) && Refinement.Legal(w.disk.status, a)
    ensures BayOk(g, After(w, Refinement.DiskStep(g.geometry, w.disk, w.memory, a), tod, a))
  {
    hide Refinement.DiskOk, Refinement.DiskStep, Refinement.Legal, Refinement.LegalRun, Refinement.RunDisk;
    RunAppends(g.geometry, g.disk, g.memory, w.trace, a);
    Refinement.StepKeepsOk(g.geometry, w.disk, w.memory, a);
  }

  lemma CompleteIsLast(g: Geometry, d: Disk, m: Memory)
    ensures Complete(g, d, m).delay == None
  {
    hide FileOffset, Store, BlockAt, PutBlock;
  }

  lemma LawsArePrompt(g: Setting)
    requires SettingOk(g)
    ensures Prompt(LawsOf(g).onEvent)
  {
    hide Complete, Refinement.DiskOk;
    forall w, c: Callback, t ensures AllPrompt(LawsOf(g).onEvent(w, c, t).requests) {
      if c.Done? {
        CompleteIsLast(g.geometry, w.disk, w.memory);
      } else {
        var rs := g.other(w.others, w.memory, c.id, t).requests;
        assert AllPrompt(rs);
        assert forall i :: 0 <= i < |rs| ==> Elsewhere(rs)[i].delay == rs[i].delay;
      }
    }
  }

  /** A completion that comes from the queue finds the drive busy and waiting for
      this very deadline, and leaves it idle with none queued. */
  lemma CompletionKeeps(g: Setting, w: Bay, q: seq<Entry<Callback>>, tod: nat)
    requires SettingOk(g) && BayOk(g, w) && Matched(w, q)
    requires Sorted(q) && q != [] && q[0] == Entry(tod, Done)
    ensures w.disk.status == BUSY && w.due == tod
    ensures var o := OnEvent(g, w, Done, tod);
            && AllPrompt(o.requests) && BayOk(g, o.world)
            && Matched(o.world, AfterCallback(q, DueAll(tod, o.requests)))
  {
    hide AfterCallback, Matched, Sorted, Complete, BayOk, Queued;
    QueuedIsIn(q, tod);
    MatchedAt(w, q, tod);
    assert w.disk.status == BUSY && w.due == tod;
    StepTraced(g, w, tod, Refinement.Finish);
    var o := OnEvent(g, w, Done, tod);
    assert Complete(g.geometry, w.disk, w.memory).disk.status != BUSY by { FinishIdles(g, w); }
    CompleteIsLast(g.geometry, w.disk, w.memory);
    var es := DueAll(tod, o.requests);
    assert es == [];
    forall d: nat ensures Queued(AfterCallback(q, es), d) == One(o.world.disk.status == BUSY && o.world.due == d) {
      TurnCounts(q, es, tod, d);
      DueCounts([], tod, d);
      MatchedAt(w, q, d);
    }
    MatchedIf(o.world, AfterCallback(q, es));
  }

  lemma FinishIdles(g: Setting, w: Bay)
    requires SettingOk(g) && BayOk(g, w) && w.disk.status == BUSY
    ensures Complete(g.geometry, w.disk, w.memory).disk.status != BUSY
  {
    hide Complete, Traced;
    Refinement.CompleteRefines(g.geometry, w.disk, w.memory);
  }

  /** Somebody else's event, whatever it does to memory. */
  lemma OtherKeeps(g: Setting, w: Bay, q: seq<Entry<Callback>>, tod: nat)
    requires SettingOk(g) && BayOk(g, w) && Matched(w, q)
    requires Sorted(q) && q != [] && q[0].callback.Other? && q[0].deadline == tod
    ensures var o := OnEvent(g, w, q[0].callback, tod);
            && AllPrompt(o.requests) && BayOk(g, o.world)
            && Matched(o.world, AfterCallback(q, DueAll(tod, o.requests)))
  {
    hide AfterCallback, Matched, Sorted, BayOk, Queued;
    LawsArePrompt(g);
    var o := OnEvent(g, w, q[0].callback, tod);
    assert AllPrompt(LawsOf(g).onEvent(w, q[0].callback, tod).requests);
    TouchKeeps(g, w, q[0].callback.id, tod);
    var reply := g.other(w.others, w.memory, q[0].callback.id, tod);
    var es := DueAll(tod, o.requests);
    forall d: nat ensures Queued(AfterCallback(q, es), d) == One(o.world.disk.status == BUSY && o.world.due == d) {
      TurnCounts(q, es, tod, d);
      NoneFromElsewhere(tod, reply.requests, d);
      MatchedAt(w, q, d);
    }
    MatchedIf(o.world, AfterCallback(q, es));
  }

  lemma TouchKeeps(g: Setting, w: Bay, id: nat, tod: nat)
    requires SettingOk(g) && BayOk(g, w)
    ensures BayOk(g, OnEvent(g, w, Other(id), tod).world)
  {
    hide Refinement.DiskOk, Refinement.LegalRun, Refinement.RunDisk;
    var w' := OnEvent(g, w, Other(id), tod).world;
    var touch := w'.trace[|w.trace|];
    StepTraced(g, w, tod, touch);
    assert After(w, Refinement.DiskStep(g.geometry, w.disk, w.memory, touch), tod, touch) == w'.(others := w.others);
  }

  lemma {:induction false} DrainKeepsBay(g: Setting, w: Bay, q: seq<Entry<Callback>>, tod: nat)
    requires SettingOk(g) && Prompt(LawsOf(g).onEvent) && BayOk(g, w) && Matched(w, q)
    requires Sorted(q) && NoneBefore(q, tod)
    ensures var d := Drain(LawsOf(g).onEvent, w, q, tod); BayOk(g, d.world) && Matched(d.world, d.queue)
    decreases Upto(q, tod)
  {
    hide BayOk, Matched, AfterCallback, OnEvent, SettingOk;
    if q != [] && q[0].deadline <= tod {
      var o := OnEvent(g, w, q[0].callback, tod);
      var es := DueAll(tod, o.requests);
      if q[0].callback.Done? {
        CompletionKeeps(g, w, q, tod);
      } else {
        OtherKeeps(g, w, q, tod);
      }
      AfterCallbackKeeps(q, es, tod);
      TurnKeepsNoneBefore(q, es, tod);
      DrainKeepsBay(g, o.world, AfterCallback(q, es), tod);
    }
  }

  type State = BusState<Bay, Callback>

  /** Everything that happens to the drive and around it; `CpuStore` is any change
      the processors make to memory. */
  datatype Action =
    | ClockTick
    | WriteTo(regnum: nat, data: Word)
    | SetWorking(working: bool)
    | CpuStore(change: Memory -> Memory)
    | ScheduleOther(delay: nat, id: nat)
    | FastForward(cycles: Word)

  function Answer(g: Setting, s: State, regnum: nat, data: Word): Reaction
    requires g.geometry.sects > 0 && SectTicks(g.geometry) > 0
  {
    WriteReg(g.geometry, s.world.disk, s.world.memory, regnum, data, s.tod % WORD_SIZE)
  }

  /** A store must not ask for a completion in no time. */
  ghost predicate Legal(g: Setting, s: State, a: Action)
    requires SettingOk(g)
  {
    match a
    case WriteTo(regnum, data) => Answer(g, s, regnum, data).delay != Some(0)
    case ScheduleOther(delay, id) => Truncate(delay) > 0
    case FastForward(c) => c <= IdleCycles(s)
    case _ => true
  }

  ghost function Act(g: Setting, s: State, a: Action): State
    requires SettingOk(g) && Sorted(s.queue) && Refinement.DiskOk(g.geometry, s.world.disk)
  {
    match a
    case ClockTick => LawsArePrompt(g); Tick(LawsOf(g), s)
    case WriteTo(regnum, data) =>
      var r := Answer(g, s, regnum, data);
      s.(world := After(s.world, r, s.tod, Refinement.Register(regnum, data, s.tod % WORD_SIZE)),
         queue := InsertAll(s.queue, DueAll(s.tod, Requests(Delays(r.delay)))))
    case SetWorking(b) =>
      var step := Refinement.SetWorking(b);
      s.(world := After(s.world, Refinement.DiskStep(g.geometry, s.world.disk, s.world.memory, step), s.tod, step))
    case CpuStore(change) =>
      var step := Refinement.Touch(change);
      s.(world := After(s.world, Refinement.DiskStep(g.geometry, s.world.disk, s.world.memory, step), s.tod, step))
    case ScheduleOther(delay, id) => s.(queue := Insert(s.queue, Due(s.tod, Request(delay, Other(id)))))
    case FastForward(c) => Skip(s, c)
  }

  ghost predicate StateOk(g: Setting, s: State)
    requires SettingOk(g)
  {
    BusOk(s) && BayOk(g, s.world) && Matched(s.world, s.queue)
  }

  lemma TickKeeps(g: Setting, s: State)
    requires SettingOk(g) && StateOk(g, s)
    ensures StateOk(g, Act(g, s, ClockTick))
  {
    hide Drain, Traced, Matched, OnEvent;
    LawsArePrompt(g);
    DrainKeepsBay(g, s.world, s.queue, s.tod + 1);
    DrainFires(LawsOf(g).onEvent, s.world, s.queue, s.tod + 1);
  }

  /** A busy drive ignores a store; otherwise one that makes it busy, and no other,
      asks for a completion. */
  lemma WriteSchedules(g: Geometry, d: Disk, m: Memory, regnum: nat, data: Word, todLo: Word)
    requires g.sects > 0 && SectTicks(g) > 0
    ensures var r := WriteReg(g, d, m, regnum, data, todLo);
            if d.status == BUSY then r.delay == None && r.disk == d
            else r.delay.Some? <==> r.disk.status == BUSY
  {
    hide ReadDelay, WriteDelay, ResetDelay, SeekDelay, Fetch, SectTicks;
  }

  lemma WriteKeeps(g: Setting, s: State, regnum: nat, data: Word)
    requires SettingOk(g) && StateOk(g, s) && Legal(g, s, WriteTo(regnum, data))
    ensures StateOk(g, Act(g, s, WriteTo(regnum, data)))
  {
    hide Matched, InsertAll, WriteReg, Traced, DueAll, Queued, SectTicks;
    var r := Answer(g, s, regnum, data);
    var s' := Act(g, s, WriteTo(regnum, data));
    StepTraced(g, s.world, s.tod, Refinement.Register(regnum, data, s.tod % WORD_SIZE));
    WriteSchedules(g.geometry, s.world.disk, s.world.memory, regnum, data, s.tod % WORD_SIZE);
    DueCounts(Delays(r.delay), s.tod, 0);
    InsertAllCounts(s.queue, DueAll(s.tod, Requests(Delays(r.delay))), s.tod);
    forall d: nat ensures Queued(s'.queue, d) == One(s'.world.disk.status == BUSY && s'.world.due == d) {
      DueCounts(Delays(r.delay), s.tod, d);
      MatchedAt(s.world, s.queue, d);
    }
    MatchedIf(s'.world, s'.queue);
  }

  lemma AsideKeeps(g: Setting, s: State, a: Refinement.Action)
    requires SettingOk(g) && StateOk(g, s) && (a.SetWorking? || a.Touch?)
    ensures var r := Refinement.DiskStep(g.geometry, s.world.disk, s.world.memory, a);
            StateOk(g, s.(world := After(s.world, r, s.tod, a)))
  {
    hide Traced, Queued, Refinement.DiskOk;
    StepTraced(g, s.world, s.tod, a);
  }

  lemma ActKeeps(g: Setting, s: State, a: Action)
    requires SettingOk(g) && StateOk(g, s) && Legal(g, s, a)
    ensures StateOk(g, Act(g, s, a))
  {
    hide Drain, Insert, Tick, Matched, Traced, Queued, Answer;
    match a
    case ClockTick => TickKeeps(g, s);
    case WriteTo(regnum, data) => WriteKeeps(g, s, regnum, data);
    case SetWorking(b) => AsideKeeps(g, s, Refinement.SetWorking(b));
    case CpuStore(change) => AsideKeeps(g, s, Refinement.Touch(change));
    case ScheduleOther(delay, id) =>
      InsertOther(s.queue, s.tod, delay, id);
      forall d: nat ensures Queued(Act(g, s, a).queue, d) == One(s.world.disk.status == BUSY && s.world.due == d) {
        MatchedAt(s.world, s.queue, d);
      }
      MatchedIf(s.world, Act(g, s, a).queue);
    case FastForward(c) =>
  }

  ghost predicate LegalRun(g: Setting, s: State, acts: seq<Action>)
    requires SettingOk(g) && StateOk(g, s)
    decreases |acts|
  {
    acts == [] || (Legal(g, s, acts[0]) && (ActKeeps(g, s, acts[0]); LegalRun(g, Act(g, s, acts[0]), acts[1..])))
  }

  ghost function Run(g: Setting, s: State, acts: seq<Action>): State
    requires SettingOk(g) && StateOk(g, s) && LegalRun(g, s, acts)
    decreases |acts|
  {
    if acts == [] then s else (ActKeeps(g, s, acts[0]); Run(g, Act(g, s, acts[0]), acts[1..]))
  }

  /** Over every run: one completion is queued exactly while the drive is busy, no
      branch that must not run is reached, and what happened to the drive is a run
      whose completions come only while it is busy. */
  lemma {:induction false} RunsStayOk(g: Setting, s: State, acts: seq<Action>)
    requires SettingOk(g) && StateOk(g, s) && LegalRun(g, s, acts)
    ensures StateOk(g, Run(g, s, acts))
    decreases |acts|
  {
    hide Sorted, AllAfter, Refinement.DiskOk, Traced, Matched, Act, Legal;
    if acts != [] {
      ActKeeps(g, s, acts[0]);
      RunsStayOk(g, Act(g, s, acts[0]), acts[1..]);
    }
  }

  /** No write along the trace lacked its block; that there is such a trace holds
      of every run anyway. */
  ghost predicate EveryWriteFetched(g: Setting, w: Bay)
    requires SettingOk(g)
  {
    Traced(g, w) && Refinement.AllFetched(g.geometry, g.disk, g.memory, w.trace)
  }

  /** So on the bus, in every run whose writes could fetch their block, the buffer
      cannot be told from no buffer but by how long an operation takes. */
  lemma BufferIsInvisibleOnTheBus(g: Setting, s: State, acts: seq<Action>)
    requires SettingOk(g) && StateOk(g, s) && LegalRun(g, s, acts)
    requires EveryWriteFetched(g, Run(g, s, acts).world)
    ensures var w := Run(g, s, acts).world;
            && Refinement.DiskOk(g.geometry, w.disk)
            && Refinement.RunPlain(g.geometry, Refinement.Outside(g.geometry, g.disk), g.memory, w.trace) ==
               (Refinement.Outside(g.geometry, w.disk), w.memory, w.signals)
  {
    hide Run, Matched, Refinement.RunPlain, Refinement.Outside, Refinement.AllFetched;
    RunsStayOk(g, s, acts);
    Refinement.BufferIsInvisible(g.geometry, g.disk, g.memory, Run(g, s, acts).world.trace);
  }

  /** A drive with unhurried figures never asks for a completion in no time, so all
      its stores are legal. */
  lemma StoresAreLegal(g: Setting, s: State, regnum: nat, data: Word)
    requires SettingOk(g) && StateOk(g, s) && Refinement.Unhurried(g.geometry)
    ensures Legal(g, s, WriteTo(regnum, data))
  {
    hide Traced, Matched, Refinement.Unhurried, WriteReg;
    Refinement.DiskIsPrompt(g.geometry, s.world.disk, s.world.memory, regnum, data, s.tod % WORD_SIZE);
  }

  /** A drive just switched on, with nothing queued. */
  lemma PowerOnOk(g: Setting, image: seq<Word>, others: seq<Word>)
    requires Fits(g.geometry) && SectTicks(g.geometry) > 0 && ImageOk(g.geometry, image)
    requires g.disk == Refinement.PowerOn(image) && SettingOk(g)
    ensures StateOk(g, BusState(0, WORD_SIZE - 1, [], Bay(g.disk, g.memory, [], 0, false, [], others)))
  {
    Refinement.PowerOnOk(g.geometry, image);
  }
}
