/** When is a source shown by one processor only?  Exactly while requests and
    acknowledgements alternate; a second request may strand a bit for good. */
module InterruptSources {
  import opened Words
  import opened Arch
  import Processors
  import opened Interrupts
  import Arbitration = InterruptArbitration

  predicate DeviceLine(x: Line) {
    ValidLine(x) && Row(x) >= 1
  }

  /** Processor `c` shows device line `x` in its bitmap. */
  predicate Shown(s: Irq, x: Line, c: nat)
    requires Shape(s) && DeviceLine(x) && c < |s.ctl|
  {
    x.dev in s.ctl[c].idb[Row(x) - 1]
  }

  function Owner(s: Irq, x: Line): (t: Option<nat>)
    requires Shape(s) && ValidLine(x)
    ensures t.Some? ==> t.value < |s.ctl|
  {
    s.sources[Slot(x)].lastTarget
  }

  /** A device line is shown by its remembered target and by nobody else. */
  ghost predicate Exclusive(s: Irq) {
    && Shape(s)
    && forall x, c :: DeviceLine(x) && 0 <= c < |s.ctl| ==> (Shown(s, x, c) <==> Owner(s, x) == Some(c))
  }

  lemma StartEffect(s: Irq, x: Line, y: Line, c: nat)
    requires Shape(s) && ValidLine(x) && DeviceLine(y) && c < |s.ctl|
    ensures var r, t := StartIRQ(s, x), Select(s, s.sources[Slot(x)].route);
            && |r.ctl| == |s.ctl|
            && Owner(r, y) == (if y == x && t.Some? then t else Owner(s, y))
            && (Shown(r, y, c) <==> Shown(s, y, c) || (y == x && t == Some(c)))
  {
    hide Scan, Bit;
    if Slot(x) == Slot(y) {
      SlotInjective(x, y);
    }
  }

  lemma EndEffect(s: Irq, x: Line, y: Line, c: nat)
    requires Shape(s) && ValidLine(x) && DeviceLine(y) && c < |s.ctl|
    ensures var r, t := EndIRQ(s, x), Owner(s, x);
            && |r.ctl| == |s.ctl|
            && Owner(r, y) == (if y == x then None else Owner(s, y))
            && (Shown(r, y, c) <==> Shown(s, y, c) && !(y == x && t == Some(c)))
  {
    if Slot(x) == Slot(y) {
      SlotInjective(x, y);
    }
  }

  /** A request keeps every line on one processor exactly when it is lost, or the
      line was free, or routing picks the processor that already shows it. */
  lemma StartKeepsExclusiveIff(s: Irq, x: Line)
    requires Exclusive(s) && DeviceLine(x)
    ensures var t := Select(s, s.sources[Slot(x)].route);
            Exclusive(StartIRQ(s, x)) <==> t.None? || Owner(s, x).None? || Owner(s, x) == t
  {
    hide StartIRQ, Shown, Owner;
    var r, t := StartIRQ(s, x), Select(s, s.sources[Slot(x)].route);
    StartEffect(s, x, x, 0);
    if t.None? || Owner(s, x).None? || Owner(s, x) == t {
      forall y, c | DeviceLine(y) && 0 <= c < |r.ctl| ensures Shown(r, y, c) <==> Owner(r, y) == Some(c) {
        StartEffect(s, x, y, c);
      }
    } else {
      StartEffect(s, x, x, Owner(s, x).value);
    }
  }

  lemma EndKeepsExclusive(s: Irq, x: Line)
    requires Exclusive(s) && ValidLine(x)
    ensures Exclusive(EndIRQ(s, x))
  {
    hide EndIRQ, Shown, Owner;
    var r := EndIRQ(s, x);
    EndEffect(s, x, Line(DEV_IL_START, 0), 0);
    forall y, c | DeviceLine(y) && 0 <= c < |r.ctl| ensures Shown(r, y, c) <==> Owner(r, y) == Some(c) {
      EndEffect(s, x, y, c);
    }
  }

  /** Requests and acknowledgements of each line alternate; `open` are the lines
      requested and not yet acknowledged. */
  ghost predicate Alternates(ops: seq<Op>, open: set<Line>) {
    ops == [] ||
    match ops[0]
    case Start(x) => x !in open && Alternates(ops[1..], open + {x})
    case End(x) => Alternates(ops[1..], open - {x})
    case _ => Alternates(ops[1..], open)
  }

  ghost predicate OwnedAreOpen(s: Irq, open: set<Line>)
    requires Shape(s)
  {
    forall x :: ValidLine(x) && Owner(s, x).Some? ==> x in open
  }

  lemma StepKeepsExclusive(s: Irq, op: Op, open: set<Line>)
    requires Exclusive(s) && OwnedAreOpen(s, open) && ValidOp(|s.ctl|, op)
    requires op.Start? ==> op.line !in open
    ensures var r := Step(s, op);
            && Exclusive(r)
            && OwnedAreOpen(r, match op case Start(x) => open + {x} case End(x) => open - {x} case _ => open)
  {
    hide StartIRQ, EndIRQ, DeliverFrom;
    var r := Step(s, op);
    match op
    case Start(x) =>
      StartOwners(s, x);
      if DeviceLine(x) {
        StartKeepsExclusiveIff(s, x);
      } else {
        forall y, c | DeviceLine(y) && 0 <= c < |r.ctl| ensures Shown(r, y, c) <==> Owner(r, y) == Some(c) {
          StartEffect(s, x, y, c);
        }
      }
    case End(x) =>
      EndKeepsExclusive(s, x);
      EndOwners(s, x);
    case Deliver(origin, outbox) =>
      DeliverIs(s, origin, outbox, 0);
    case Ack(c) =>
    case SetRoute(x, route) =>
    case SetPriority(c, p) =>
  }

  lemma StartOwners(s: Irq, x: Line)
    requires Shape(s) && ValidLine(x)
    ensures |StartIRQ(s, x).ctl| == |s.ctl|
    ensures forall y :: ValidLine(y) && y != x ==> Owner(StartIRQ(s, x), y) == Owner(s, y)
  {
    hide Scan, Bit;
    forall y | ValidLine(y) && y != x ensures Slot(y) != Slot(x) {
      if Slot(x) == Slot(y) { SlotInjective(x, y); }
    }
  }

  lemma EndOwners(s: Irq, x: Line)
    requires Shape(s) && ValidLine(x)
    ensures Owner(EndIRQ(s, x), x).None?
    ensures forall y :: ValidLine(y) && y != x ==> Owner(EndIRQ(s, x), y) == Owner(s, y)
  {
    forall y | ValidLine(y) && y != x ensures Slot(y) != Slot(x) {
      if Slot(x) == Slot(y) { SlotInjective(x, y); }
    }
  }

  /** Under alternation a line is never shown by two processors, in any run. */
  lemma {:induction false} AlternatingRunsAreExclusive(s: Irq, ops: seq<Op>, open: set<Line>)
    requires Exclusive(s) && OwnedAreOpen(s, open) && ValidOps(|s.ctl|, ops) && Alternates(ops, open)
    ensures Exclusive(Run(s, ops))
    decreases |ops|
  {
    hide Step, Exclusive, OwnedAreOpen;
    if ops != [] {
      StepKeepsExclusive(s, ops[0], open);
      var open' := match ops[0] case Start(x) => open + {x} case End(x) => open - {x} case _ => open;
      assert Shape(s) by { ExclusiveShape(s); }
      AlternatingRunsAreExclusive(Step(s, ops[0]), ops[1..], open');
    }
  }

  lemma ExclusiveShape(s: Irq)
    requires Exclusive(s)
    ensures Shape(s)
  {
  }

  /** Two requests routed to different processors and one acknowledgement leave
      the first processor showing the line, its wire up, and further
      acknowledgements without effect. */
  lemma SecondRequestStrandsTheFirst(s: Irq, x: Line)
    requires Wires(s) && DeviceLine(x)
    requires Owner(s, x).Some? && Select(s, s.sources[Slot(x)].route).Some?
    requires Owner(s, x) != Select(s, s.sources[Slot(x)].route)
    ensures var r := EndIRQ(StartIRQ(s, x), x); var c := Owner(s, x).value;
            Shown(r, x, c) && x.il in r.cpus[c].mip && EndIRQ(r, x) == r
  {
    hide StartIRQ, EndIRQ;
    var c := Owner(s, x).value;
    var s1 := StartIRQ(s, x);
    assert Shown(s, x, c);
    StartEffect(s, x, x, c);
    EndEffect(s1, x, x, c);
    StartKeepsWires(s, x);
    EndKeepsWires(s1, x);
    var r := EndIRQ(s1, x);
    assert WiresAt(r, c) && r.ctl[c].idb[Row(x) - 1] != {};
    EndWithoutOwner(r, x);
  }

  lemma EndWithoutOwner(s: Irq, x: Line)
    requires Shape(s) && ValidLine(x) && Owner(s, x).None?
    ensures EndIRQ(s, x) == s
  {
  }

  /** At power-on nothing is requested, so the alternating runs start there. */
  lemma InitialExclusive(cpus: seq<Processors.Cpu>)
    requires 0 < |cpus| <= MAX_CPUS
    ensures Exclusive(Initial(cpus)) && OwnedAreOpen(Initial(cpus), {})
  {
  }

  /** From power-on with two processors or more, routing a device line to the first
      two and requesting it twice is such a case: the first request goes to
      processor 0, the second to processor 1, and the acknowledgement strands
      processor 0. */
  lemma StrandingIsReachable(cpus: seq<Processors.Cpu>, x: Line)
    requires 2 <= |cpus| <= MAX_CPUS && DeviceLine(x) && forall c :: 0 <= c < |cpus| ==> cpus[c].mip == {}
    ensures var s := Run(Initial(cpus), [SetRoute(x, Dynamic(3)), Start(x)]);
            && Wires(s) && Owner(s, x) == Some(0) && Select(s, s.sources[Slot(x)].route) == Some(1)
            && var r := EndIRQ(StartIRQ(s, x), x); Shown(r, x, 0) && x.il in r.cpus[0].mip && EndIRQ(r, x) == r
  {
    hide StartIRQ, EndIRQ, Select, Wires, Shown, Owner, Arbitration.Counts;
    var s0 := Initial(cpus);
    var ops := [SetRoute(x, Dynamic(3)), Start(x)];
    var s1 := Step(s0, ops[0]);
    var s := StartIRQ(s1, x);
    assert Run(s0, ops) == s by {
      assert ops[1..] == [Start(x)] && [Start(x)][1..] == [];
      assert Run(s, []) == s && Run(s1, [Start(x)]) == s;
    }
    InitialWires(cpus);
    RunKeepsWires(s0, ops);
    TwoCandidates(s1);
    FirstIsTaken(s1, x);
    TwoCandidates(s);
    SecondRequestStrandsTheFirst(s, x);
  }

  lemma FirstIsTaken(s: Irq, x: Line)
    requires Shape(s) && |s.ctl| >= 2 && s.arbiter == 0 && s.ctl[0].taskPriority == s.ctl[1].taskPriority
    requires DeviceLine(x) && s.sources[Slot(x)].route == Dynamic(3) && Select(s, Dynamic(3)) == Some(0)
    ensures var r := StartIRQ(s, x);
            && Owner(r, x) == Some(0) && r.arbiter == 1 && r.ctl[0].taskPriority == r.ctl[1].taskPriority
            && |r.ctl| == |s.ctl| && r.sources[Slot(x)].route == Dynamic(3)
  {
    assert Arbitration.Steady(s, Start(x), 3) && Arbitration.Counts(s, Start(x), 3);
    assert Step(s, Start(x)) == StartIRQ(s, x);
    hide StartIRQ, Step, Select, Bit, Shape, Owner, Shown;
    Arbitration.StepKeepsPolicy(s, Start(x), 3);
    Arbitration.ModIsWrap(1, |s.ctl|);
    StartEffect(s, x, x, 0);
  }

  lemma {:induction false} ZeroHasNoBits(i: nat)
    ensures !Bit(0, i)
  {
    if i > 0 { ZeroHasNoBits(i - 1); }
  }

  /** Of two equals the one under the index wins. */
  lemma TwoCandidates(s: Irq)
    requires Shape(s) && |s.ctl| >= 2 && s.arbiter < 2 && s.ctl[0].taskPriority == s.ctl[1].taskPriority
    ensures Select(s, Dynamic(3)) == Some(s.arbiter)
  {
    assert Bit(3, 0) && Bit(3, 1);
    forall i: nat | i >= 2 ensures !Bit(3, i) {
      assert Bit(3, i) == Bit(1, i - 1) == Bit(0, i - 2);
      ZeroHasNoBits(i - 2);
    }
    hide Bit, Select;
    Arbitration.SelectIsWinner(s, 3, s.arbiter);
    assert forall c: nat :: Arbitration.Candidate(s.ctl, 3, c) ==> c < 2;
    assert Arbitration.Candidate(s.ctl, 3, s.arbiter);
  }
}
