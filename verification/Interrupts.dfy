/** The interrupt controller together with the processors it is wired to:
    routing with a remembered target, device bitmaps, and mailboxes. */
module Interrupts {
  import opened Words
  import opened Arch
  import opened Bits
  import opened Processors

  const IL_TIMER := 3
  const IL_IPI := 16
  const DEV_IL_START := 17
  const BASE_IL := 16
  const N_SOURCES := 48

  /** Bit `i` of `w`. */
  predicate Bit(w: nat, i: nat) {
    if i == 0 then w % 2 == 1 else Bit(w / 2, i - 1)
  }

  lemma {:induction false} BitIs(w: nat, i: nat)
    ensures Bit(w, i) <==> w / Pow2(i) % 2 == 1
  {
    if i > 0 {
      BitIs(w / 2, i - 1);
      HalfFirst(w, Pow2(i - 1));
    } else {
      assert w / 1 == w;
    }
  }

  /** An interrupt request: the line, and the device on it. */
  datatype Line = Line(il: nat, dev: nat)

  /** The lines the bus uses: the interval timer and the five device lines. */
  predicate ValidLine(x: Line) {
    (x.il == IL_TIMER && x.dev == 0) || (DEV_IL_START <= x.il < DEV_IL_START + N_EXT_IL && x.dev < N_DEV_PER_IL)
  }

  /** Row of a line in the source table; everything below the devices is row 0. */
  function Row(x: Line): (r: nat)
    requires ValidLine(x)
    ensures r <= N_EXT_IL
  {
    if x.il <= BASE_IL then 0 else x.il - BASE_IL
  }

  function Slot(x: Line): (i: nat)
    requires ValidLine(x)
    ensures i < N_SOURCES
  {
    Row(x) * N_DEV_PER_IL + x.dev
  }

  datatype Route = Fixed(cpu: Word) | Dynamic(mask: Word)

  datatype Source = Source(lastTarget: Option<nat>, route: Route)

  datatype Ipi = Ipi(origin: nat, msg: nat)

  /** Per-processor side: line mask, device bitmap per line, mailbox, priority. */
  datatype CpuData = CpuData(ipMask: set<nat>, idb: seq<set<nat>>, inbox: seq<Ipi>, taskPriority: nat)

  /** The controller and the processors on its wires. */
  datatype Irq = Irq(arbiter: nat, sources: seq<Source>, ctl: seq<CpuData>, cpus: seq<Cpu>)

  predicate Shape(s: Irq) {
    && 0 < |s.ctl| == |s.cpus| <= MAX_CPUS
    && s.arbiter < |s.ctl|
    && |s.sources| == N_SOURCES
    && (forall i :: 0 <= i < N_SOURCES && s.sources[i].lastTarget.Some? ==> s.sources[i].lastTarget.value < |s.ctl|)
    && forall c :: 0 <= c < |s.ctl| ==> |s.ctl[c].idb| == N_EXT_IL
  }

  /** The selection loop of dynamic routing, from its `i`-th step on. */
  function Scan(ctl: seq<CpuData>, mask: Word, arbiter: nat, i: nat, target: Option<nat>): (t: Option<nat>)
    requires arbiter < |ctl| && i <= |ctl|
    requires target.Some? ==> target.value < |ctl|
    ensures t.Some? ==> t.value < |ctl|
    decreases |ctl| - i
  {
    if i == |ctl| then target
    else
      var id := (arbiter + i) % |ctl|;
      var better := Bit(mask, id) && (target.None? || ctl[id].taskPriority > ctl[target.value].taskPriority);
      Scan(ctl, mask, arbiter, i + 1, if better then Some(id) else target)
  }

  function Select(s: Irq, route: Route): (t: Option<nat>)
    requires Shape(s)
    ensures t.Some? ==> t.value < |s.ctl|
  {
    match route
    case Fixed(cpu) => if cpu < |s.ctl| then Some(cpu) else None
    case Dynamic(mask) => Scan(s.ctl, mask, s.arbiter, 0, None)
  }

  /** Remember the target, raise its mask bit and device bit, assert its wire. */
  function Raise(s: Irq, x: Line, t: nat): (r: Irq)
    requires Shape(s) && ValidLine(x) && t < |s.ctl|
    ensures Shape(r)
  {
    var d := s.ctl[t].(ipMask := s.ctl[t].ipMask + {BASE_IL + Row(x)});
    var d' := if Row(x) >= 1 then d.(idb := d.idb[Row(x) - 1 := d.idb[Row(x) - 1] + {x.dev}]) else d;
    s.(sources := s.sources[Slot(x) := s.sources[Slot(x)].(lastTarget := Some(t))],
       ctl := s.ctl[t := d'],
       cpus := s.cpus[t := Assert(s.cpus[t], x.il)])
  }

  function StartIRQ(s: Irq, x: Line): (r: Irq)
    requires Shape(s) && ValidLine(x)
    ensures Shape(r)
  {
    var route := s.sources[Slot(x)].route;
    var t := Select(s, route);
    if t.None? then s
    else Raise(if route.Dynamic? then s.(arbiter := (t.value + 1) % |s.ctl|) else s, x, t.value)
  }

  /** Lower the line at its remembered target: a shared line only drops with its
      last device.  A source nobody was told about is left alone. */
  function EndIRQ(s: Irq, x: Line): (r: Irq)
    requires Shape(s) && ValidLine(x)
    ensures Shape(r)
  {
    var t := s.sources[Slot(x)].lastTarget;
    if t.None? then s
    else
      var c := t.value;
      var d := if Row(x) >= 1
               then s.ctl[c].(idb := s.ctl[c].idb[Row(x) - 1 := s.ctl[c].idb[Row(x) - 1] - {x.dev}])
               else s.ctl[c];
      var drop := Row(x) == 0 || d.idb[Row(x) - 1] == {};
      s.(sources := s.sources[Slot(x) := s.sources[Slot(x)].(lastTarget := None)],
         ctl := s.ctl[c := if drop then d.(ipMask := d.ipMask - {x.il}) else d],
         cpus := if drop then s.cpus[c := Deassert(s.cpus[c], x.il)] else s.cpus)
  }

  function OutMessage(outbox: Word): nat { outbox % 256 }

  function OutRecipients(outbox: Word): nat { outbox / 256 % 0x1_0000 }

  /** No unread message from `origin`. */
  predicate HasSlot(inbox: seq<Ipi>, origin: nat) {
    forall i :: 0 <= i < |inbox| ==> inbox[i].origin != origin
  }

  predicate Accepts(d: CpuData, c: nat, origin: nat, outbox: Word) {
    Bit(OutRecipients(outbox), c) && HasSlot(d.inbox, origin)
  }

  /** The delivery loop, from processor `i` on. */
  function DeliverFrom(s: Irq, origin: nat, outbox: Word, i: nat): (r: Irq)
    requires Shape(s) && i <= |s.ctl|
    ensures Shape(r)
    decreases |s.ctl| - i
  {
    if i == |s.ctl| then s
    else if Accepts(s.ctl[i], i, origin, outbox) then
      var d := s.ctl[i];
      var mail := d.inbox + [Ipi(origin, OutMessage(outbox))];
      var s' := s.(ctl := s.ctl[i := d.(inbox := mail, ipMask := d.ipMask + {IL_IPI})],
                   cpus := s.cpus[i := Assert(s.cpus[i], IL_IPI)]);
      DeliverFrom(s', origin, outbox, i + 1)
    else DeliverFrom(s, origin, outbox, i + 1)
  }

  function AckInbox(s: Irq, c: nat): (r: Irq)
    requires Shape(s) && c < |s.ctl|
    ensures Shape(r)
  {
    var d := s.ctl[c];
    if d.inbox == [] then s
    else
      var last := |d.inbox| == 1;
      s.(ctl := s.ctl[c := d.(inbox := d.inbox[1..], ipMask := if last then d.ipMask - {IL_IPI} else d.ipMask)],
         cpus := if last then s.cpus[c := Deassert(s.cpus[c], IL_IPI)] else s.cpus)
  }

  /** What the guest reads from its mailbox register. */
  function ReadInbox(d: CpuData): nat {
    if d.inbox == [] then 0 else d.inbox[0].msg + d.inbox[0].origin * 256
  }

  datatype Op =
    | Start(line: Line)
    | End(line: Line)
    | Deliver(origin: nat, outbox: Word)
    | Ack(cpu: nat)
    | SetRoute(line: Line, route: Route)
    | SetPriority(cpu: nat, priority: nat)

  predicate ValidOp(n: nat, op: Op) {
    match op
    case Start(x) => ValidLine(x)
    case End(x) => ValidLine(x)
    case Deliver(origin, _) => origin < n
    case Ack(c) => c < n
    case SetRoute(x, _) => ValidLine(x)
    case SetPriority(c, p) => c < n && p < 16
  }

  function Step(s: Irq, op: Op): (r: Irq)
    requires Shape(s) && ValidOp(|s.ctl|, op)
    ensures Shape(r) && |r.ctl| == |s.ctl|
  {
    match op
    case Start(x) => StartIRQ(s, x)
    case End(x) => EndIRQ(s, x)
    case Deliver(origin, outbox) => DeliverAll(s, origin, outbox)
    case Ack(c) => AckInbox(s, c)
    case SetRoute(x, route) => s.(sources := s.sources[Slot(x) := s.sources[Slot(x)].(route := route)])
    case SetPriority(c, p) => s.(ctl := s.ctl[c := s.ctl[c].(taskPriority := p)])
  }

  /** Operations one after the other; those that make no sense are left out. */
  function ApplyOps(s: Irq, ops: seq<Op>): (r: Irq)
    requires Shape(s)
    ensures Shape(r) && |r.ctl| == |s.ctl|
    decreases |ops|
  {
    if ops == [] then s
    else ApplyOps(if ValidOp(|s.ctl|, ops[0]) then Step(s, ops[0]) else s, ops[1..])
  }

  function DeliverAll(s: Irq, origin: nat, outbox: Word): (r: Irq)
    requires Shape(s)
    ensures Shape(r) && |r.ctl| == |s.ctl|
  {
    DeliverIs(s, origin, outbox, 0);
    DeliverFrom(s, origin, outbox, 0)
  }

  lemma {:induction false} BitsBelow(w: nat, n: nat, c: nat)
    requires c < n
    ensures Bit(w % Pow2(n), c) <==> Bit(w, c)
  {
    var p := Pow2(n - 1);
    HalfFirst(w, p);
    assert w % Pow2(n) / 2 == w / 2 % p && w % Pow2(n) % 2 == w % 2;
    if c > 0 {
      BitsBelow(w / 2, n - 1, c - 1);
    }
  }

  /** The outbox register names processor `c`: it has a bit for each, from bit 8 up. */
  ghost predicate Addressed(outbox: Word, c: nat) {
    outbox / 0x100 / Pow2(c) % 2 == 1
  }

  /** A message gets to a processor that is named, unless the sender has one there
      that was not read. */
  ghost predicate Reaches(d: CpuData, c: nat, origin: nat, outbox: Word) {
    Addressed(outbox, c) && forall i :: 0 <= i < |d.inbox| ==> d.inbox[i].origin != origin
  }

  lemma ReachesIs(d: CpuData, c: nat, origin: nat, outbox: Word)
    requires c < MAX_CPUS
    ensures Reaches(d, c, origin, outbox) <==> Accepts(d, c, origin, outbox)
  {
    BitIs(outbox / 0x100, c);
    Sixteen();
    BitsBelow(outbox / 0x100, 16, c);
    hide Bit, Pow2;
  }

  lemma Sixteen()
    ensures Pow2(16) == 0x1_0000
  {
    assert Pow2(4) == 16 && Pow2(8) == 256 && Pow2(12) == 4096;
  }

  /** What a delivery does to processor `c`: the low byte of the outbox register goes
      to the end of its mailbox. */
  ghost function Delivered(d: CpuData, c: nat, origin: nat, outbox: Word): CpuData {
    if Reaches(d, c, origin, outbox)
    then d.(inbox := d.inbox + [Ipi(origin, outbox % 0x100)], ipMask := d.ipMask + {IL_IPI})
    else d
  }

  /** The loop treats every processor independently of the others. */
  lemma {:induction false} DeliverIs(s: Irq, origin: nat, outbox: Word, i: nat)
    requires Shape(s) && i <= |s.ctl|
    ensures var r := DeliverFrom(s, origin, outbox, i);
            && |r.ctl| == |s.ctl| && r.sources == s.sources && r.arbiter == s.arbiter
            && (forall c :: 0 <= c < |s.ctl| ==>
                  r.ctl[c] == if c < i then s.ctl[c] else Delivered(s.ctl[c], c, origin, outbox))
            && (forall c :: 0 <= c < |s.ctl| ==>
                  r.cpus[c] == if c < i || !Reaches(s.ctl[c], c, origin, outbox) then s.cpus[c]
                               else Assert(s.cpus[c], IL_IPI))
    decreases |s.ctl| - i
  {
    hide Bit, Reaches, Accepts;
    if i < |s.ctl| {
      ReachesIs(s.ctl[i], i, origin, outbox);
      if Accepts(s.ctl[i], i, origin, outbox) {
        var d := s.ctl[i];
        var mail := d.inbox + [Ipi(origin, OutMessage(outbox))];
        var s' := s.(ctl := s.ctl[i := d.(inbox := mail, ipMask := d.ipMask + {IL_IPI})],
                     cpus := s.cpus[i := Assert(s.cpus[i], IL_IPI)]);
        DeliverIs(s', origin, outbox, i + 1);
      } else {
        DeliverIs(s, origin, outbox, i + 1);
      }
    }
  }

  /** On every processor a device line is up in the pending register exactly when
      some device bit is set behind it, exactly when its mask bit is set; the
      mailbox line is up exactly when the mailbox is non-empty; and a remembered
      target still shows its source. */
  predicate WiresAt(s: Irq, c: nat)
    requires Shape(s) && c < |s.ctl|
  {
    && (forall l :: 0 <= l < N_EXT_IL ==>
          (DEV_IL_START + l in s.cpus[c].mip <==> s.ctl[c].idb[l] != {}) &&
          (DEV_IL_START + l in s.ctl[c].ipMask <==> s.ctl[c].idb[l] != {}))
    && (IL_IPI in s.cpus[c].mip <==> s.ctl[c].inbox != [])
  }

  ghost predicate Remembered(s: Irq)
    requires Shape(s)
  {
    forall x: Line :: ValidLine(x) && s.sources[Slot(x)].lastTarget.Some? ==>
      var c := s.sources[Slot(x)].lastTarget.value;
      && x.il in s.cpus[c].mip
      && (Row(x) >= 1 ==> x.dev in s.ctl[c].idb[Row(x) - 1])
  }

  ghost predicate Wires(s: Irq) {
    Shape(s) && (forall c :: 0 <= c < |s.ctl| ==> WiresAt(s, c)) && Remembered(s)
  }

  lemma SlotInjective(x: Line, y: Line)
    requires ValidLine(x) && ValidLine(y) && Slot(x) == Slot(y)
    ensures x == y
  {
  }

  lemma RaiseKeepsWires(s: Irq, x: Line, t: nat)
    requires Wires(s) && ValidLine(x) && t < |s.ctl|
    ensures Wires(Raise(s, x, t))
  {
    var r := Raise(s, x, t);
    forall c | 0 <= c < |r.ctl| ensures WiresAt(r, c) {
      assert WiresAt(s, c);
      forall l | 0 <= l < N_EXT_IL
        ensures DEV_IL_START + l in r.cpus[c].mip <==> r.ctl[c].idb[l] != {}
        ensures DEV_IL_START + l in r.ctl[c].ipMask <==> r.ctl[c].idb[l] != {}
      {
        assert c == t && l == Row(x) - 1 ==> x.dev in r.ctl[c].idb[l];
      }
    }
    forall y: Line | ValidLine(y) && r.sources[Slot(y)].lastTarget.Some?
      ensures var c := r.sources[Slot(y)].lastTarget.value;
              y.il in r.cpus[c].mip && (Row(y) >= 1 ==> y.dev in r.ctl[c].idb[Row(y) - 1])
    {
      if Slot(x) == Slot(y) {
        SlotInjective(x, y);
      }
    }
  }

  lemma StartKeepsWires(s: Irq, x: Line)
    requires Wires(s) && ValidLine(x)
    ensures Wires(StartIRQ(s, x))
  {
    hide Scan, Raise;
    var t := Select(s, s.sources[Slot(x)].route);
    if t.Some? {
      var s' := if s.sources[Slot(x)].route.Dynamic? then s.(arbiter := (t.value + 1) % |s.ctl|) else s;
      assert forall c :: 0 <= c < |s'.ctl| ==> WiresAt(s, c) ==> WiresAt(s', c);
      assert Remembered(s');
      RaiseKeepsWires(s', x, t.value);
    }
  }

  lemma EndKeepsWires(s: Irq, x: Line)
    requires Wires(s) && ValidLine(x)
    ensures Wires(EndIRQ(s, x))
  {
    var r, t := EndIRQ(s, x), s.sources[Slot(x)].lastTarget;
    if t.Some? {
      forall c | 0 <= c < |r.ctl| ensures WiresAt(r, c) {
        assert WiresAt(s, c);
        forall l | 0 <= l < N_EXT_IL
          ensures DEV_IL_START + l in r.cpus[c].mip <==> r.ctl[c].idb[l] != {}
          ensures DEV_IL_START + l in r.ctl[c].ipMask <==> r.ctl[c].idb[l] != {}
        {
          assert c == t.value && l == Row(x) - 1 ==> r.ctl[c].idb[l] == s.ctl[c].idb[l] - {x.dev};
        }
      }
      forall y: Line | ValidLine(y) && r.sources[Slot(y)].lastTarget.Some?
        ensures var c := r.sources[Slot(y)].lastTarget.value;
                y.il in r.cpus[c].mip && (Row(y) >= 1 ==> y.dev in r.ctl[c].idb[Row(y) - 1])
      {
        var c := r.sources[Slot(y)].lastTarget.value;
        assert y.il == x.il ==> y.dev != x.dev && Row(y) == Row(x) >= 1;
        assert Row(y) >= 1 ==> y.dev in s.ctl[c].idb[Row(y) - 1];
        assert Row(y) >= 1 ==> y.dev in r.ctl[c].idb[Row(y) - 1];
      }
    }
  }

  lemma DeliverKeepsWires(s: Irq, origin: nat, outbox: Word)
    requires Wires(s)
    ensures Wires(DeliverAll(s, origin, outbox))
  {
    hide Bit, DeliverFrom;
    DeliverIs(s, origin, outbox, 0);
    var r := DeliverAll(s, origin, outbox);
    forall c | 0 <= c < |r.ctl| ensures WiresAt(r, c) {
      assert WiresAt(s, c);
    }
  }

  /** Every operation keeps the wires in step with the bitmaps and mailboxes. */
  lemma StepKeepsWires(s: Irq, op: Op)
    requires Wires(s) && ValidOp(|s.ctl|, op)
    ensures Wires(Step(s, op))
  {
    hide StartIRQ, EndIRQ, DeliverAll;
    match op
    case Start(x) => StartKeepsWires(s, x);
    case End(x) => EndKeepsWires(s, x);
    case Deliver(origin, outbox) => DeliverKeepsWires(s, origin, outbox);
    case Ack(c) =>
      var r := Step(s, op);
      forall i | 0 <= i < |r.ctl| ensures WiresAt(r, i) {
        assert WiresAt(s, i);
      }
      assert Remembered(r);
    case SetRoute(x, route) =>
      var r := Step(s, op);
      assert forall i :: 0 <= i < |r.ctl| ==> WiresAt(s, i) ==> WiresAt(r, i);
    case SetPriority(c, p) =>
      var r := Step(s, op);
      assert forall i :: 0 <= i < |r.ctl| ==> WiresAt(s, i) ==> WiresAt(r, i);
  }

  ghost predicate ValidOps(n: nat, ops: seq<Op>) {
    forall i :: 0 <= i < |ops| ==> ValidOp(n, ops[i])
  }

  ghost function Run(s: Irq, ops: seq<Op>): (r: Irq)
    requires Shape(s) && ValidOps(|s.ctl|, ops)
    ensures Shape(r) && |r.ctl| == |s.ctl|
    decreases |ops|
  {
    if ops == [] then s else Run(Step(s, ops[0]), ops[1..])
  }

  lemma {:induction false} RunKeepsWires(s: Irq, ops: seq<Op>)
    requires Wires(s) && ValidOps(|s.ctl|, ops)
    ensures Wires(Run(s, ops))
    decreases |ops|
  {
    hide Step, WiresAt, Remembered;
    if ops != [] {
      StepKeepsWires(s, ops[0]);
      RunKeepsWires(Step(s, ops[0]), ops[1..]);
    }
  }

  /** A reset clears the pending register behind the controller's back: the wires
      survive it exactly when nothing was up for that processor to lose. */
  lemma ResetKeepsWiresIff(s: Irq, c: nat, core: seq<Word>)
    requires Wires(s) && c < |s.ctl|
    ensures Wires(s.(cpus := s.cpus[c := Reset(s.cpus[c], core)]))
       <==> s.ctl[c].inbox == [] && (forall l :: 0 <= l < N_EXT_IL ==> s.ctl[c].idb[l] == {}) &&
            s.sources[Slot(Line(IL_TIMER, 0))].lastTarget != Some(c)
  {
    var r := s.(cpus := s.cpus[c := Reset(s.cpus[c], core)]);
    var timer := Line(IL_TIMER, 0);
    if s.ctl[c].inbox == [] && (forall l :: 0 <= l < N_EXT_IL ==> s.ctl[c].idb[l] == {}) &&
       s.sources[Slot(timer)].lastTarget != Some(c)
    {
      forall i | 0 <= i < |r.ctl| ensures WiresAt(r, i) {
        assert WiresAt(s, i);
      }
      forall x: Line | ValidLine(x) && r.sources[Slot(x)].lastTarget.Some?
        ensures x.il in r.cpus[r.sources[Slot(x)].lastTarget.value].mip
      {
        assert x.il == IL_TIMER ==> x == timer;
      }
      assert Remembered(r);
    } else if s.ctl[c].inbox == [] && (forall l :: 0 <= l < N_EXT_IL ==> s.ctl[c].idb[l] == {}) {
      assert ValidLine(timer) && !Remembered(r);
    } else {
      assert !WiresAt(r, c);
    }
  }

  /** Power-on: nothing requested, every route fixed to processor 0, every
      processor at the lowest priority class. */
  function Initial(cpus: seq<Cpu>): Irq {
    Irq(0, seq(N_SOURCES, _ => Source(None, Fixed(0))),
        seq(|cpus|, _ => CpuData({}, seq(N_EXT_IL, _ => {}), [], 15)), cpus)
  }

  /** Reading mail takes the oldest message; the last one lowers the line. */
  lemma AckTakes(s: Irq, c: nat)
    requires Shape(s) && c < |s.ctl|
    ensures var r, d := Step(s, Ack(c)), s.ctl[c];
            if d.inbox == [] then r == s
            else
              var lowered := if |d.inbox| == 1 then {16} else {};
              && r.ctl == s.ctl[c := d.(inbox := d.inbox[1..], ipMask := d.ipMask - lowered)]
              && r.cpus == s.cpus[c := s.cpus[c].(mip := s.cpus[c].mip - lowered)]
              && r.sources == s.sources && r.arbiter == s.arbiter
  {
    assert s.ctl[c].ipMask - {} == s.ctl[c].ipMask && s.cpus[c].mip - {} == s.cpus[c].mip;
    assert s.cpus[c := s.cpus[c]] == s.cpus;
  }

  /** Routes and priorities are what was last stored, and nothing else changes. */
  lemma SettingsTake(s: Irq, x: Line, route: Route, c: nat, p: nat)
    requires Shape(s) && ValidLine(x) && c < |s.ctl| && p < 16
    ensures var r := Step(s, SetRoute(x, route));
            && r == s.(sources := r.sources) && r.sources[Slot(x)].route == route
            && forall y :: ValidLine(y) ==> r.sources[Slot(y)].lastTarget == s.sources[Slot(y)].lastTarget
                                            && (y != x ==> r.sources[Slot(y)].route == s.sources[Slot(y)].route)
    ensures var r := Step(s, SetPriority(c, p));
            && r == s.(ctl := r.ctl) && r.ctl[c].taskPriority == p
            && forall k :: 0 <= k < |s.ctl| ==>
                 r.ctl[k] == s.ctl[k].(taskPriority := if k == c then p else s.ctl[k].taskPriority)
  {
    forall y | ValidLine(y) && y != x ensures Slot(y) != Slot(x) {
      if Slot(y) == Slot(x) { SlotInjective(x, y); }
    }
  }

  /** Operations that all make sense are applied as they come. */
  lemma {:induction false} ApplyIsRun(s: Irq, ops: seq<Op>)
    requires Shape(s) && ValidOps(|s.ctl|, ops)
    ensures ApplyOps(s, ops) == Run(s, ops)
    decreases |ops|
  {
    hide Step;
    if ops != [] {
      ApplyIsRun(Step(s, ops[0]), ops[1..]);
    }
  }

  /** A request of the interval timer marks the mailbox line in the mask of its target,
      and its acknowledgement leaves the mark: only reading mail takes it away. */
  lemma TimerMarksMail(s: Irq, c: nat)
    requires Shape(s) && Select(s, s.sources[Slot(Line(3, 0))].route) == Some(c)
    ensures var r := EndIRQ(StartIRQ(s, Line(3, 0)), Line(3, 0));
            16 in r.ctl[c].ipMask && r.ctl[c].inbox == s.ctl[c].inbox && 3 !in r.cpus[c].mip
  {
    hide Select;
  }

  /** At power-on every line is down and routed to processor 0, mailboxes are empty and
      every priority is the highest number. */
  lemma InitialWires(cpus: seq<Cpu>)
    requires 0 < |cpus| <= MAX_CPUS && forall c :: 0 <= c < |cpus| ==> cpus[c].mip == {}
    ensures Wires(Initial(cpus))
    ensures forall x :: ValidLine(x) ==> Initial(cpus).sources[Slot(x)] == Source(None, Fixed(0))
    ensures forall c :: 0 <= c < |cpus| ==> Initial(cpus).ctl[c].inbox == [] && Initial(cpus).ctl[c].taskPriority == 15
  {
  }
}
