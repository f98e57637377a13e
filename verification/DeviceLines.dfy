/** A device's interrupt line as the controller keeps it: what a device signals, and
    what the controller shows for it. */
module DeviceLines {
  import opened Words
  import opened Arch
  import opened Devices
  import opened Interrupts
  import opened InterruptSources
  import Arbitration = InterruptArbitration
  import Processors

  type DevLine = x: Line | DeviceLine(x) witness Line(17, 0)

  type Controller = s: Irq | Shape(s) witness Initial([Processors.Cpu(Processors.Halted, {}, false, 0, [])])

  /** The signals of a device step, in order. */
  function Signalled(s: Controller, x: DevLine, signals: seq<Signal>): (r: Controller)
    decreases |signals|
  {
    if signals == [] then s
    else Signalled(if signals[0].IntReq? then StartIRQ(s, x) else EndIRQ(s, x), x, signals[1..])
  }

  /** Where the line stands after the signals, having stood at `up`. */
  function Standing(up: bool, signals: seq<Signal>): bool {
    if signals == [] then up else signals[|signals| - 1].IntReq?
  }

  /** Every request of the line finds a processor. */
  ghost predicate Routed(s: Controller, x: DevLine) {
    match s.sources[Slot(x)].route
    case Fixed(c) => c < |s.ctl|
    case Dynamic(mask) => exists c: nat :: Arbitration.Candidate(s.ctl, mask, c)
  }

  /** The controller remembers a target exactly while the line is up; under a fixed
      route that is the processor routed to, and no other shows the line. */
  ghost predicate LineOk(s: Controller, x: DevLine, up: bool) {
    && Wires(s) && Routed(s, x)
    && (Owner(s, x).Some? <==> up)
    && match s.sources[Slot(x)].route
       case Fixed(c) => OnlyAt(s, x, if up then Some(c) else None)
       case Dynamic(_) => true
  }

  ghost predicate OnlyAt(s: Controller, x: DevLine, t: Option<nat>) {
    && Owner(s, x) == t
    && forall k :: 0 <= k < |s.ctl| ==> (Shown(s, x, k) <==> t == Some(k))
  }

  /** So under a fixed route the processor routed to, and no other, shows the
      line exactly while it is up, and then its wire is up. */
  lemma FixedLineIs(s: Controller, x: DevLine, up: bool)
    requires LineOk(s, x, up) && s.sources[Slot(x)].route.Fixed?
    ensures var c := s.sources[Slot(x)].route.cpu;
            && c < |s.ctl|
            && (forall k :: 0 <= k < |s.ctl| ==> (Shown(s, x, k) <==> k == c && up))
            && (up ==> x.il in s.cpus[c].mip)
  {
    hide WiresAt;
  }

  lemma RoutedSelects(s: Controller, x: DevLine)
    requires Routed(s, x)
    ensures Select(s, s.sources[Slot(x)].route).Some?
    ensures var route := s.sources[Slot(x)].route; route.Fixed? ==> Select(s, route) == Some(route.cpu)
  {
    hide Scan, Bit, Slot;
    match s.sources[Slot(x)].route
    case Fixed(c) =>
    case Dynamic(mask) => Arbitration.SelectIsWinner(s, mask, 0);
  }

  lemma StartRaises(s: Controller, x: DevLine, up: bool)
    requires LineOk(s, x, up)
    ensures LineOk(StartIRQ(s, x), x, true) && |StartIRQ(s, x).ctl| == |s.ctl|
  {
    hide StartIRQ, Select, Wires, Shown, Owner, Slot, Shape, Arbitration.Candidate;
    RoutedSelects(s, x);
    StartKeepsWires(s, x);
    StartKeepsRoutes(s, x);
    SizeIsPositive(s);
    StartEffect(s, x, x, 0);
    forall k | 0 <= k < |s.ctl|
      ensures Shown(StartIRQ(s, x), x, k) <==> Shown(s, x, k) || Select(s, s.sources[Slot(x)].route) == Some(k)
    {
      StartEffect(s, x, x, k);
    }
  }

  lemma EndLowers(s: Controller, x: DevLine, up: bool)
    requires LineOk(s, x, up)
    ensures LineOk(EndIRQ(s, x), x, false) && |EndIRQ(s, x).ctl| == |s.ctl|
  {
    hide EndIRQ, Wires, Shown, Owner, Slot, Shape, Arbitration.Candidate;
    EndKeepsWires(s, x);
    EndKeepsRoutes(s, x);
    SizeIsPositive(s);
    EndEffect(s, x, x, 0);
    forall k | 0 <= k < |s.ctl|
      ensures Shown(EndIRQ(s, x), x, k) <==> Shown(s, x, k) && Owner(s, x) != Some(k)
    {
      EndEffect(s, x, x, k);
    }
  }

  lemma SizeIsPositive(s: Controller)
    ensures |s.ctl| > 0 && |s.sources| == N_SOURCES
  {
  }

  lemma StartKeepsRoutes(s: Controller, x: DevLine)
    ensures var r := StartIRQ(s, x);
            |r.ctl| == |s.ctl| && (forall y :: ValidLine(y) ==> r.sources[Slot(y)].route == s.sources[Slot(y)].route)
    ensures var r := StartIRQ(s, x);
            forall mask, c :: Arbitration.Candidate(r.ctl, mask, c) <==> Arbitration.Candidate(s.ctl, mask, c)
  {
    hide Select, Bit;
  }

  lemma EndKeepsRoutes(s: Controller, x: DevLine)
    ensures var r := EndIRQ(s, x);
            |r.ctl| == |s.ctl| && (forall y :: ValidLine(y) ==> r.sources[Slot(y)].route == s.sources[Slot(y)].route)
    ensures var r := EndIRQ(s, x);
            forall mask, c :: Arbitration.Candidate(r.ctl, mask, c) <==> Arbitration.Candidate(s.ctl, mask, c)
  {
    hide Bit;
  }

  /** What a device signals is where its line stands. */
  lemma {:induction false} SignalsKeepLine(s: Controller, x: DevLine, signals: seq<Signal>, up: bool)
    requires LineOk(s, x, up)
    ensures LineOk(Signalled(s, x, signals), x, Standing(up, signals)) && |Signalled(s, x, signals).ctl| == |s.ctl|
    decreases |signals|
  {
    hide LineOk, StartIRQ, EndIRQ;
    if signals == [] {
    } else {
      var rest := signals[1..];
      assert rest != [] ==> rest[|rest| - 1] == signals[|signals| - 1];
      if signals[0].IntReq? {
        StartRaises(s, x, up);
        SignalsKeepLine(StartIRQ(s, x), x, rest, true);
      } else {
        EndLowers(s, x, up);
        SignalsKeepLine(EndIRQ(s, x), x, rest, false);
      }
    }
  }

  /** Not the line's own requests, acknowledgements or routing. */
  predicate Apart(op: Op, x: DevLine) {
    match op
    case Start(y) => y != x
    case End(y) => y != x
    case SetRoute(y, _) => y != x
    case _ => true
  }

  /** Whatever is done for other lines, mail and priorities leaves the line alone. */
  lemma OtherKeepsLine(s: Controller, x: DevLine, op: Op, up: bool)
    requires LineOk(s, x, up) && ValidOp(|s.ctl|, op) && Apart(op, x)
    ensures LineOk(Step(s, op), x, up)
  {
    hide StartIRQ, EndIRQ, DeliverAll, Wires, Bit, Shown, Owner;
    StepKeepsWires(s, op);
    SameLine(s, x, op);
    SameRoute(s, x, op);
  }

  lemma SameLine(s: Controller, x: DevLine, op: Op)
    requires ValidOp(|s.ctl|, op) && Apart(op, x)
    ensures var r := Step(s, op);
            && Owner(r, x) == Owner(s, x) && |r.ctl| == |s.ctl|
            && forall k :: 0 <= k < |s.ctl| ==> (Shown(r, x, k) <==> Shown(s, x, k))
  {
    hide StartIRQ, EndIRQ, Bit, DeliverFrom;
    match op
    case Start(y) =>
      StartOwners(s, y);
      forall k | 0 <= k < |s.ctl| ensures Shown(StartIRQ(s, y), x, k) <==> Shown(s, x, k) {
        StartEffect(s, y, x, k);
      }
    case End(y) =>
      EndOwners(s, y);
      SizeIsPositive(s);
      EndEffect(s, y, x, 0);
      forall k | 0 <= k < |s.ctl| ensures Shown(EndIRQ(s, y), x, k) <==> Shown(s, x, k) {
        EndEffect(s, y, x, k);
      }
    case Deliver(origin, outbox) => DeliverIs(s, origin, outbox, 0);
    case SetRoute(y, _) => if Slot(x) == Slot(y) { SlotInjective(x, y); }
    case _ =>
  }

  lemma SameRoute(s: Controller, x: DevLine, op: Op)
    requires ValidOp(|s.ctl|, op) && Apart(op, x)
    ensures var r := Step(s, op);
            && r.sources[Slot(x)].route == s.sources[Slot(x)].route && |r.ctl| == |s.ctl|
            && forall mask, c :: Arbitration.Candidate(r.ctl, mask, c) <==> Arbitration.Candidate(s.ctl, mask, c)
  {
    hide Select, Bit, DeliverFrom;
    match op
    case Deliver(origin, outbox) => DeliverIs(s, origin, outbox, 0);
    case SetRoute(y, _) => if Slot(x) == Slot(y) { SlotInjective(x, y); }
    case _ =>
  }

  /** A series of such operations. */
  lemma {:induction false} OthersKeepLine(s: Controller, x: DevLine, ops: seq<Op>, up: bool)
    requires LineOk(s, x, up) && forall i :: 0 <= i < |ops| ==> Apart(ops[i], x)
    ensures LineOk(ApplyOps(s, ops), x, up)
    decreases |ops|
  {
    hide LineOk, Step, Apart;
    if ops == [] {
    } else {
      if ValidOp(|s.ctl|, ops[0]) { OtherKeepsLine(s, x, ops[0], up); }
      OthersKeepLine(if ValidOp(|s.ctl|, ops[0]) then Step(s, ops[0]) else s, x, ops[1..], up);
    }
  }

  /** At power-on every line is down and routed to processor 0. */
  lemma InitialLine(cpus: seq<Processors.Cpu>, x: DevLine)
    requires 0 < |cpus| <= MAX_CPUS && forall c :: 0 <= c < |cpus| ==> cpus[c].mip == {}
    ensures LineOk(Initial(cpus), x, false)
  {
    InitialWires(cpus);
    InitialExclusive(cpus);
    hide Wires;
  }
}
