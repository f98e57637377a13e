/** The interrupt controller as the object devices and processors talk to. */
module InterruptControllers {
  import opened Words
  import opened Arch
  import opened Processors
  import opened Interrupts

  class InterruptController {
    const cpus: seq<Processor>
    var arbiter: nat
    var sources: seq<Source>
    var cpuData: seq<CpuData>

    ghost function Wired(): (r: seq<Cpu>)
      reads this, cpus
      ensures |r| == |cpus|
      ensures forall i :: 0 <= i < |cpus| ==> r[i] == cpus[i].State()
    {
      seq(|cpus|, i requires 0 <= i < |cpus| reads this, cpus => cpus[i].State())
    }

    ghost function State(): Irq
      reads this, cpus
    {
      Irq(arbiter, sources, cpuData, Wired())
    }

    ghost predicate Valid()
      reads this, cpus
    {
      Shape(State()) && forall i, j :: 0 <= i < j < |cpus| ==> cpus[i] != cpus[j]
    }

    constructor (cpus: seq<Processor>)
      requires 0 < |cpus| <= MAX_CPUS
      requires forall i, j :: 0 <= i < j < |cpus| ==> cpus[i] != cpus[j]
      ensures Valid() && this.cpus == cpus
      ensures State() == Initial(Wired())
    {
      this.cpus := cpus;
      arbiter := 0;
      sources := seq(N_SOURCES, _ => Source(None, Fixed(0)));
      cpuData := seq(|cpus|, _ => CpuData({}, seq(N_EXT_IL, _ => {}), [], 15));
    }

    /** Raises the wire of line `il` at processor `t`, and no other. */
    method AssertAt(il: nat, t: nat)
      requires Valid() && t < |cpus|
      modifies cpus[t]
      ensures Valid()
      ensures State() == old(State()).(cpus := old(Wired())[t := Assert(old(cpus[t].State()), il)])
    {
      ghost var was := Wired();
      cpus[t].AssertIRQ(il);
      assert Wired() == was[t := Assert(was[t], il)];
    }

    method DeassertAt(il: nat, t: nat)
      requires Valid() && t < |cpus|
      modifies cpus[t]
      ensures Valid()
      ensures State() == old(State()).(cpus := old(Wired())[t := Deassert(old(cpus[t].State()), il)])
    {
      ghost var was := Wired();
      cpus[t].DeassertIRQ(il);
      assert Wired() == was[t := Deassert(was[t], il)];
    }

    /** The routing decision: a fixed destination, or the selection loop. */
    method ChooseTarget(route: Route) returns (target: Option<nat>)
      requires Valid()
      modifies this`arbiter
      ensures Valid()
      ensures target == Select(old(State()), route)
      ensures arbiter == if route.Dynamic? && target.Some? then (target.value + 1) % |cpuData| else old(arbiter)
    {
      target := None;
      match route
      case Fixed(cpu) =>
        if cpu < |cpuData| {
          target := Some(cpu);
        }
      case Dynamic(mask) =>
        var i := 0;
        while i < |cpuData|
          invariant 0 <= i <= |cpuData|
          invariant target.Some? ==> target.value < |cpuData|
          invariant Scan(cpuData, mask, arbiter, i, target) == Scan(cpuData, mask, arbiter, 0, None)
        {
          var id := (arbiter + i) % |cpuData|;
          if Bit(mask, id) {
            if target == None || cpuData[id].taskPriority > cpuData[target.value].taskPriority {
              target := Some(id);
            }
          }
          i := i + 1;
        }
        if target.Some? {
          arbiter := (target.value + 1) % |cpuData|;
        }
    }

    method StartLine(x: Line)
      requires Valid() && ValidLine(x)
      modifies this, cpus
      ensures Valid()
      ensures State() == StartIRQ(old(State()), x)
    {
      hide Bit, Scan, Raise;
      ghost var was := State();
      var target := ChooseTarget(sources[Slot(x)].route);
      assert Wired() == was.cpus;
      if target != None {
        RaiseAt(x, target.value);
      }
    }

    /** Remember the target, and raise the line there. */
    method RaiseAt(x: Line, t: nat)
      requires Valid() && ValidLine(x) && t < |cpuData|
      modifies this, cpus
      ensures Valid()
      ensures State() == Raise(old(State()), x, t)
    {
      ghost var was := State();
      sources := sources[Slot(x) := sources[Slot(x)].(lastTarget := Some(t))];
      var d := cpuData[t].(ipMask := cpuData[t].ipMask + {BASE_IL + Row(x)});
      if Row(x) >= 1 {
        d := d.(idb := d.idb[Row(x) - 1 := d.idb[Row(x) - 1] + {x.dev}]);
      }
      cpuData := cpuData[t := d];
      assert Wired() == was.cpus;
      AssertAt(x.il, t);
    }

    method EndLine(x: Line)
      requires Valid() && ValidLine(x)
      modifies this, cpus
      ensures Valid()
      ensures State() == EndIRQ(old(State()), x)
    {
      ghost var was := State();
      var slot := Slot(x);
      var target := sources[slot].lastTarget;
      if target == None {
        return;
      }
      var t := target.value;
      var d := cpuData[t];
      var drop := true;
      if Row(x) >= 1 {
        d := d.(idb := d.idb[Row(x) - 1 := d.idb[Row(x) - 1] - {x.dev}]);
        drop := d.idb[Row(x) - 1] == {};
      }
      sources := sources[slot := sources[slot].(lastTarget := None)];
      cpuData := cpuData[t := if drop then d.(ipMask := d.ipMask - {x.il}) else d];
      assert Wired() == was.cpus;
      if drop {
        DeassertAt(x.il, t);
      }
    }

    method DeliverIpi(origin: nat, outbox: Word)
      requires Valid()
      modifies this, cpus
      ensures Valid()
      ensures State() == DeliverAll(old(State()), origin, outbox)
    {
      hide Bit;
      var recipients := OutRecipients(outbox);
      var i := 0;
      while i < |cpus|
        invariant 0 <= i <= |cpus| && Valid()
        invariant DeliverFrom(State(), origin, outbox, i) == DeliverFrom(old(State()), origin, outbox, 0)
      {
        if Bit(recipients, i) {
          var hasSlot := FindSlot(cpuData[i].inbox, origin);
          if hasSlot {
            ghost var was := State();
            var d := cpuData[i];
            cpuData := cpuData[i := d.(inbox := d.inbox + [Ipi(origin, OutMessage(outbox))],
                                       ipMask := d.ipMask + {IL_IPI})];
            assert Wired() == was.cpus;
            AssertAt(IL_IPI, i);
          }
        }
        i := i + 1;
      }
    }

    method FindSlot(inbox: seq<Ipi>, origin: nat) returns (hasSlot: bool)
      ensures hasSlot == HasSlot(inbox, origin)
    {
      hasSlot := true;
      for j := 0 to |inbox|
        invariant hasSlot && forall k :: 0 <= k < j ==> inbox[k].origin != origin
      {
        if inbox[j].origin == origin {
          hasSlot := false;
          break;
        }
      }
    }

    method WriteInbox(c: nat)
      requires Valid() && c < |cpus|
      modifies this, cpus
      ensures Valid()
      ensures State() == AckInbox(old(State()), c)
    {
      var d := cpuData[c];
      if d.inbox != [] {
        ghost var was := State();
        d := d.(inbox := d.inbox[1..]);
        var last := d.inbox == [];
        cpuData := cpuData[c := if last then d.(ipMask := d.ipMask - {IL_IPI}) else d];
        assert Wired() == was.cpus;
        if last {
          DeassertAt(IL_IPI, c);
        }
      }
    }
  }
}
